/**
  The consumer loop (ingest/writer/src/main.rs:81-160) as steps over the work queue, the tables and
  the acknowledgements, and over every run of them.
 */
module Writer {
  import opened Text
  import opened DedupToken
  import J = RemapJson

  const BATCH_MAX := 100

  datatype Table = Logs | Metrics | Traces

  /** The last dot-separated part of the subject names the table. */
  function SignalTable(subject: string): Option<Table> {
    var parts := SplitOn(subject, '.');
    TableNamed(parts[|parts| - 1])
  }

  function TableNamed(s: string): Option<Table> {
    if s == "logs" then Some(Logs)
    else if s == "metrics" then Some(Metrics)
    else if s == "traces" then Some(Traces)
    else None
  }

  function TableName(t: Table): string {
    match t
    case Logs => "logs"
    case Metrics => "metrics"
    case Traces => "traces"
  }

  ghost predicate EndsIn(s: string, tail: string, c: char) { exists pre: string :: s == pre + [c] + tail }

  lemma {:induction false} LastPart(s: string, c: char)
    ensures var parts := SplitOn(s, c);
            var last := parts[|parts| - 1];
            c !in last && (if |parts| == 1 then s == last else EndsIn(s, last, c))
  {
    if s != "" {
      LastPart(s[1..], c);
      var rest := SplitOn(s[1..], c);
      var last := rest[|rest| - 1];
      if |rest| > 1 {
        var pre: string :| s[1..] == pre + [c] + last;
        assert s == [s[0]] + pre + [c] + last;
      } else if s[0] == c {
        assert s == "" + [c] + last;
      }
    }
  }

  lemma NamesApart(t: Table)
    ensures '.' !in TableName(t)
    ensures forall u :: TableName(u) == TableName(t) ==> u == t
  {
    assert |TableName(Logs)| == 4 && |TableName(Metrics)| == 7 && |TableName(Traces)| == 6;
    assert forall u :: TableName(u) == TableName(t) ==> |TableName(u)| == |TableName(t)|;
  }

  lemma ByName(last: string, t: Table)
    ensures TableNamed(last) == Some(t) <==> last == TableName(t)
  {
    NamesApart(t);
  }

  lemma CutShows(s: string, tail: string, c: char)
    requires EndsIn(s, tail, c)
    ensures c in s
  {
    var pre: string :| s == pre + [c] + tail;
    assert s[|pre|] == c;
  }

  lemma OneEnd(s: string, x: string, y: string, c: char)
    requires EndsIn(s, x, c) && EndsIn(s, y, c) && c !in x && c !in y
    ensures x == y
  {
    var a: string :| s == a + [c] + x;
    var b: string :| s == b + [c] + y;
    LastCut(a, x, b, y, c);
  }

  /** A subject names a table iff it is that table's name, bare or behind its last dot. */
  lemma SubjectTable(subject: string, t: Table)
    ensures SignalTable(subject) == Some(t) <==> subject == TableName(t) || EndsIn(subject, TableName(t), '.')
  {
    var parts := SplitOn(subject, '.');
    var last := parts[|parts| - 1];
    LastPart(subject, '.');
    ByName(last, t);
    NamesApart(t);
    if |parts| > 1 {
      CutShows(subject, last, '.');
      if EndsIn(subject, TableName(t), '.') {
        OneEnd(subject, last, TableName(t), '.');
      }
    } else if EndsIn(subject, TableName(t), '.') {
      CutShows(subject, TableName(t), '.');
    }
  }

  /** A message of the stream; `record` is what its payload parses to, if it is JSON. */
  datatype Msg = Msg(at: nat, subject: string, payload: string, record: Option<J.Json>)

  /** Where the writer routes the message; nowhere if the subject or the payload is unreadable. */
  function TableOf(m: Msg): Option<Table> { if m.record.None? then None else SignalTable(m.subject) }

  function IdOf(m: Msg): Option<string> {
    if m.record.Some? && m.record.value.Obj? && "id" in m.record.value.fields && m.record.value.fields["id"].Str?
    then Some(m.record.value.fields["id"].s)
    else None
  }

  /** A message has an id iff its record is an object whose field "id" is a string. */
  lemma IdIs(m: Msg, id: string)
    ensures IdOf(m) == Some(id) <==> m.record.Some? && J.Get(m.record.value, ["id"]) == Some(J.Str(id))
  {
    if m.record.Some? && m.record.value.Obj? && "id" in m.record.value.fields {
      assert ["id"][1..] == [];
    }
  }

  function GroupOf(batch: seq<Msg>, t: Table): seq<Msg> {
    if batch == [] then []
    else
      var k := |batch| - 1;
      GroupOf(batch[..k], t) + if TableOf(batch[k]) == Some(t) then [batch[k]] else []
  }

  function Ids(rows: seq<Msg>): seq<string> {
    if rows == [] then []
    else
      var k := |rows| - 1;
      Ids(rows[..k]) + if IdOf(rows[k]).Some? then [IdOf(rows[k]).value] else []
  }

  /** A message joins its table's group, behind those before it. */
  lemma GroupGrows(batch: seq<Msg>, m: Msg, t: Table)
    ensures GroupOf(batch + [m], t) == GroupOf(batch, t) + if TableOf(m) == Some(t) then [m] else []
  {
    assert (batch + [m])[..|batch|] == batch;
  }

  /** A batch's messages of a table stay in order. */
  lemma {:induction false} GroupInOrder(a: seq<Msg>, b: seq<Msg>, t: Table)
    ensures GroupOf(a + b, t) == GroupOf(a, t) + GroupOf(b, t)
    decreases |b|
  {
    if b == [] {
      assert a + b == a;
    } else {
      var init, m := b[..|b| - 1], b[|b| - 1];
      GroupInOrder(a, init, t);
      GroupGrows(init, m, t);
      GroupGrows(a + init, m, t);
      assert b == init + [m] && a + b == (a + init) + [m];
    }
  }

  // ---------------------------------------------------------------- the store

  /** The blocks a table took in, each under its token. */
  type Blocks = seq<seq<Msg>>

  datatype Store = Store(logs: Blocks, metrics: Blocks, traces: Blocks) {
    function Of(t: Table): Blocks {
      match t
      case Logs => logs
      case Metrics => metrics
      case Traces => traces
    }

    function With(t: Table, bs: Blocks): (r: Store)
      ensures forall u :: r.Of(u) == if u == t then bs else Of(u)
    {
      match t
      case Logs => this.(logs := bs)
      case Metrics => this.(metrics := bs)
      case Traces => this.(traces := bs)
    }
  }

  /** What became of an insert: answered well, not applied, or applied though reported failed. */
  datatype Fate = Done | Lost | Unreported

  datatype Fates = Fates(logs: Fate, metrics: Fate, traces: Fate) {
    function Of(t: Table): Fate {
      match t
      case Logs => logs
      case Metrics => metrics
      case Traces => traces
    }
  }

  ghost predicate HasToken(bs: Blocks, token: string) {
    exists i :: 0 <= i < |bs| && Token(Ids(bs[i])) == token
  }

  /** A block whose token the table has seen is passed over. */
  ghost function Inserted(bs: Blocks, group: seq<Msg>, fate: Fate): Blocks {
    if group == [] || fate.Lost? || HasToken(bs, Token(Ids(group))) then bs else bs + [group]
  }

  // ---------------------------------------------------------------- runs

  datatype State = State(published: set<Msg>, queue: set<Msg>, acked: set<Msg>, store: Store)

  /** A delivery carries the fate of each insert and the acknowledgements that got lost. */
  datatype Event =
    | Publish(m: Msg)
    | Expire(m: Msg)
    | Deliver(batch: seq<Msg>, fates: Fates, unheard: set<Msg>)

  predicate AllDone(batch: seq<Msg>, fates: Fates) {
    forall t: Table :: GroupOf(batch, t) != [] ==> fates.Of(t) == Done
  }

  ghost function Delivered(s: State, batch: seq<Msg>, fates: Fates, unheard: set<Msg>): State {
    var gone := if AllDone(batch, fates) then (set m | m in batch && m !in unheard) else {};
    State(s.published, s.queue - gone, s.acked + gone,
          Store(Inserted(s.store.logs, GroupOf(batch, Logs), fates.logs),
                Inserted(s.store.metrics, GroupOf(batch, Metrics), fates.metrics),
                Inserted(s.store.traces, GroupOf(batch, Traces), fates.traces)))
  }

  lemma DeliveredOf(s: State, batch: seq<Msg>, fates: Fates, unheard: set<Msg>, t: Table)
    ensures Delivered(s, batch, fates, unheard).store.Of(t) == Inserted(s.store.Of(t), GroupOf(batch, t), fates.Of(t))
  {}

  ghost function Next(s: State, e: Event): State {
    match e
    case Publish(m) => s.(published := s.published + {m}, queue := s.queue + {m})
    case Expire(m) => s.(queue := s.queue - {m})
    case Deliver(batch, fates, unheard) => Delivered(s, batch, fates, unheard)
  }

  predicate Distinct<T(==)>(s: seq<T>) { forall i, j :: 0 <= i < j < |s| ==> s[i] != s[j] }

  ghost predicate Enabled(s: State, e: Event) {
    match e
    case Publish(m) => forall n :: n in s.published ==> n.at != m.at
    case Expire(_) => true
    case Deliver(batch, _, _) => |batch| <= BATCH_MAX && Distinct(batch) && forall m :: m in batch ==> m in s.queue
  }

  ghost function At(evs: seq<Event>, i: nat): State
    requires i <= |evs|
  {
    if i == 0 then State({}, {}, {}, Store([], [], [])) else Next(At(evs, i - 1), evs[i - 1])
  }

  ghost predicate EnabledAt(evs: seq<Event>, i: nat)
    requires i < |evs|
  {
    Enabled(At(evs, i), evs[i])
  }

  ghost predicate Valid(evs: seq<Event>) {
    forall i: nat :: i < |evs| ==> EnabledAt(evs, i)
  }

  predicate Stored(bs: Blocks, m: Msg) { exists i :: 0 <= i < |bs| && m in bs[i] }

  /** The rows of a table. */
  function Rows(bs: Blocks): seq<Msg> { if bs == [] then [] else Rows(bs[..|bs| - 1]) + bs[|bs| - 1] }

  lemma {:induction false} StoredInRows(bs: Blocks, m: Msg)
    ensures m in Rows(bs) <==> Stored(bs, m)
  {
    if bs != [] {
      var k := |bs| - 1;
      StoredInRows(bs[..k], m);
      if Stored(bs[..k], m) {
        var i :| 0 <= i < k && m in bs[..k][i];
        assert m in bs[i];
      }
      if Stored(bs, m) && m !in bs[k] {
        var i :| 0 <= i < |bs| && m in bs[i];
        assert m in bs[..k][i];
      }
    }
  }

  // ---------------------------------------------------------------- groups and ids

  lemma {:induction false} GroupHolds(batch: seq<Msg>, t: Table, m: Msg)
    ensures m in GroupOf(batch, t) <==> m in batch && TableOf(m) == Some(t)
  {
    if batch != [] {
      var k := |batch| - 1;
      GroupHolds(batch[..k], t, m);
      assert batch == batch[..k] + [batch[k]];
    }
  }

  lemma {:induction false} IdsHold(rows: seq<Msg>, id: string)
    ensures id in Ids(rows) <==> exists m :: m in rows && IdOf(m) == Some(id)
  {
    if rows != [] {
      var k := |rows| - 1;
      IdsHold(rows[..k], id);
      assert rows == rows[..k] + [rows[k]];
    }
  }

  // ---------------------------------------------------------------- where rows come from

  ghost predicate Sourced(s: State, t: Table) {
    forall m :: Stored(s.store.Of(t), m) ==> m in s.published && TableOf(m) == Some(t)
  }

  ghost predicate Known(s: State) {
    s.queue <= s.published && s.acked <= s.published && forall t: Table :: Sourced(s, t)
  }

  lemma InsertedStores(bs: Blocks, group: seq<Msg>, fate: Fate, m: Msg)
    ensures Stored(Inserted(bs, group, fate), m) ==> Stored(bs, m) || m in group
    ensures Stored(bs, m) ==> Stored(Inserted(bs, group, fate), m)
  {
    var bs' := Inserted(bs, group, fate);
    if Stored(bs, m) {
      var i :| 0 <= i < |bs| && m in bs[i];
      assert m in bs'[i];
    }
    if Stored(bs', m) {
      var i :| 0 <= i < |bs'| && m in bs'[i];
      assert i < |bs| ==> m in bs[i];
    }
  }

  lemma DeliveredKnown(s: State, batch: seq<Msg>, fates: Fates, unheard: set<Msg>, t: Table)
    requires Known(s) && forall m :: m in batch ==> m in s.queue
    ensures Sourced(Delivered(s, batch, fates, unheard), t)
  {
    DeliveredOf(s, batch, fates, unheard, t);
    var s' := Delivered(s, batch, fates, unheard);
    assert Sourced(s, t);
    forall m | Stored(s'.store.Of(t), m) ensures m in s'.published && TableOf(m) == Some(t) {
      InsertedStores(s.store.Of(t), GroupOf(batch, t), fates.Of(t), m);
      GroupHolds(batch, t, m);
    }
  }

  lemma StepKnown(s: State, e: Event)
    requires Known(s) && Enabled(s, e)
    ensures Known(Next(s, e))
  {
    forall t: Table ensures Sourced(Next(s, e), t) {
      assert Sourced(s, t);
      if e.Deliver? {
        DeliveredKnown(s, e.batch, e.fates, e.unheard, t);
      }
    }
  }

  /** No row is ever stored that was not published to that table's subject. */
  lemma {:induction false} OnlyPublishedRows(evs: seq<Event>, i: nat)
    requires Valid(evs) && i <= |evs|
    ensures Known(At(evs, i))
  {
    if i > 0 {
      OnlyPublishedRows(evs, i - 1);
      assert EnabledAt(evs, i - 1);
      StepKnown(At(evs, i - 1), evs[i - 1]);
    }
  }

  // ---------------------------------------------------------------- acknowledged means stored

  /** Some row of the table carries the id. */
  ghost predicate IdStored(bs: Blocks, id: string) { exists m :: Stored(bs, m) && IdOf(m) == Some(id) }

  predicate CleanId(m: Msg) { IdOf(m).Some? ==> ',' !in IdOf(m).value }

  ghost predicate AckedStored(s: State) {
    forall m :: m in s.acked && TableOf(m).Some? && IdOf(m).Some?
      ==> IdStored(s.store.Of(TableOf(m).value), IdOf(m).value)
  }

  lemma {:induction false} IdsClean(rows: seq<Msg>)
    requires forall m :: m in rows ==> CleanId(m)
    ensures CommaFree(Ids(rows))
  {
    forall i | 0 <= i < |Ids(rows)| ensures ',' !in Ids(rows)[i] {
      IdsHold(rows, Ids(rows)[i]);
    }
  }

  /** A group passed over because of its token has all its ids in the table already. */
  lemma SeenMeansStored(bs: Blocks, group: seq<Msg>, m: Msg, id: string)
    requires HasToken(bs, Token(Ids(group))) && m in group && IdOf(m) == Some(id)
    requires forall n :: n in group || Stored(bs, n) ==> CleanId(n)
    ensures IdStored(bs, id)
  {
    var i :| 0 <= i < |bs| && Token(Ids(bs[i])) == Token(Ids(group));
    forall n | n in bs[i] ensures CleanId(n) {
      assert Stored(bs, n);
    }
    IdsClean(bs[i]);
    IdsClean(group);
    TokenInjective(Ids(bs[i]), Ids(group));
    IdsHold(group, id);
    InSame(Ids(group), Ids(bs[i]), id);
    IdsHold(bs[i], id);
    var n :| n in bs[i] && IdOf(n) == Some(id);
    assert Stored(bs, n);
  }

  lemma InsertedHolds(bs: Blocks, group: seq<Msg>, m: Msg, id: string)
    requires m in group && IdOf(m) == Some(id)
    requires forall n :: n in group || Stored(bs, n) ==> CleanId(n)
    ensures IdStored(Inserted(bs, group, Done), id)
  {
    if HasToken(bs, Token(Ids(group))) {
      SeenMeansStored(bs, group, m, id);
    } else {
      assert m in (bs + [group])[|bs|];
      assert Stored(bs + [group], m);
    }
  }

  lemma IdStaysStored(bs: Blocks, group: seq<Msg>, fate: Fate, id: string)
    requires IdStored(bs, id)
    ensures IdStored(Inserted(bs, group, fate), id)
  {
    var m :| Stored(bs, m) && IdOf(m) == Some(id);
    InsertedStores(bs, group, fate, m);
  }

  lemma DeliveryKeepsAcked(s: State, batch: seq<Msg>, fates: Fates, unheard: set<Msg>, m: Msg)
    requires Known(s) && AckedStored(s)
    requires forall n :: n in s.published ==> CleanId(n)
    requires forall n :: n in batch ==> n in s.queue
    requires m in Delivered(s, batch, fates, unheard).acked && TableOf(m).Some? && IdOf(m).Some?
    ensures IdStored(Delivered(s, batch, fates, unheard).store.Of(TableOf(m).value), IdOf(m).value)
  {
    var t, id := TableOf(m).value, IdOf(m).value;
    var bs, group := s.store.Of(t), GroupOf(batch, t);
    DeliveredOf(s, batch, fates, unheard, t);
    if m in s.acked {
      IdStaysStored(bs, group, fates.Of(t), id);
    } else {
      GroupHolds(batch, t, m);
      assert fates.Of(t) == Done;
      assert Sourced(s, t);
      forall n | n in group || Stored(bs, n) ensures CleanId(n) {
        GroupHolds(batch, t, n);
      }
      InsertedHolds(bs, group, m, id);
    }
  }

  lemma {:induction false} PublishedGrows(evs: seq<Event>, i: nat, j: nat)
    requires i <= j <= |evs|
    ensures At(evs, i).published <= At(evs, j).published
    decreases j
  {
    if i < j {
      PublishedGrows(evs, i, j - 1);
    }
  }

  lemma StepAcked(s: State, e: Event)
    requires Known(s) && AckedStored(s) && Enabled(s, e)
    requires forall n :: n in s.published ==> CleanId(n)
    ensures AckedStored(Next(s, e))
  {
    if e.Deliver? {
      var s' := Next(s, e);
      forall m | m in s'.acked && TableOf(m).Some? && IdOf(m).Some?
        ensures IdStored(s'.store.Of(TableOf(m).value), IdOf(m).value)
      {
        DeliveryKeepsAcked(s, e.batch, e.fates, e.unheard, m);
      }
    }
  }

  /** In every run with ids free of commas, whatever inserts fail, are applied unheard or are
      redelivered in whatever batches: an acknowledged message that has a table, a parseable
      payload and an id has its id in that table. */
  lemma {:induction false} AckedIsStored(evs: seq<Event>, i: nat)
    requires Valid(evs) && i <= |evs|
    requires forall n :: n in At(evs, i).published ==> CleanId(n)
    ensures AckedStored(At(evs, i))
  {
    if i > 0 {
      PublishedGrows(evs, i - 1, i);
      AckedIsStored(evs, i - 1);
      OnlyPublishedRows(evs, i - 1);
      assert EnabledAt(evs, i - 1);
      StepAcked(At(evs, i - 1), evs[i - 1]);
    }
  }

  /** Different messages of one table carry different ids. */
  ghost predicate UniqueIds(ms: set<Msg>) {
    forall m, n :: m in ms && n in ms && TableOf(m).Some? && TableOf(m) == TableOf(n)
      && IdOf(m).Some? && IdOf(m) == IdOf(n)
      ==> m == n
  }

  /** With unique ids the stored row is the message itself. */
  lemma AckedRowIsStored(evs: seq<Event>, i: nat, m: Msg, t: Table)
    requires Valid(evs) && i <= |evs|
    requires UniqueIds(At(evs, i).published) && forall n :: n in At(evs, i).published ==> CleanId(n)
    requires m in At(evs, i).acked && TableOf(m) == Some(t) && IdOf(m).Some?
    ensures m in Rows(At(evs, i).store.Of(t))
  {
    var s := At(evs, i);
    AckedIsStored(evs, i);
    OnlyPublishedRows(evs, i);
    assert Sourced(s, t);
    var n :| Stored(s.store.Of(t), n) && IdOf(n) == IdOf(m);
    StoredInRows(s.store.Of(t), m);
  }

  // ---------------------------------------------------------------- stored once

  /** Failed batches come back with the same records: any two deliveries share all or nothing. */
  ghost predicate SameBatches(evs: seq<Event>) {
    forall i, j :: 0 <= i < j < |evs| && evs[i].Deliver? && evs[j].Deliver? ==> AllOrNothing(evs[i].batch, evs[j].batch)
  }

  ghost predicate AllOrNothing(a: seq<Msg>, b: seq<Msg>) {
    multiset(a) == multiset(b) || forall m :: m in a ==> m !in b
  }

  /** The block came from a delivery before point i. */
  ghost predicate FromDelivery(evs: seq<Event>, i: nat, t: Table, block: seq<Msg>)
    requires i <= |evs|
  {
    exists j: nat :: j < i && evs[j].Deliver? && GroupOf(evs[j].batch, t) == block
  }

  ghost predicate OnceEach(evs: seq<Event>, i: nat, t: Table)
    requires i <= |evs|
  {
    var bs := At(evs, i).store.Of(t);
    Distinct(Rows(bs)) && forall k :: 0 <= k < |bs| ==> FromDelivery(evs, i, t, bs[k])
  }

  lemma {:induction false} GroupMultiset(batch: seq<Msg>, t: Table, m: Msg)
    ensures multiset(GroupOf(batch, t))[m] == if TableOf(m) == Some(t) then multiset(batch)[m] else 0
  {
    if batch != [] {
      var k := |batch| - 1;
      GroupMultiset(batch[..k], t, m);
      assert batch == batch[..k] + [batch[k]];
    }
  }

  lemma {:induction false} IdsMultiset(a: seq<Msg>, b: seq<Msg>)
    requires multiset(a) == multiset(b)
    ensures multiset(Ids(a)) == multiset(Ids(b))
    decreases |a|
  {
    assert |a| == |multiset(a)| == |multiset(b)| == |b|;
    if a != [] {
      var k := |a| - 1;
      var x := a[k];
      assert a == a[..k] + [x];
      assert x in multiset(b);
      var j :| 0 <= j < |b| && b[j] == x;
      var b' := b[..j] + b[j + 1..];
      assert b == b[..j] + [x] + b[j + 1..];
      assert multiset(a[..k]) == multiset(a) - multiset{x} == multiset(b');
      IdsMultiset(a[..k], b');
      IdsOut(b[..j], x, b[j + 1..]);
    }
  }

  lemma {:induction false} IdsCat(a: seq<Msg>, b: seq<Msg>)
    ensures Ids(a + b) == Ids(a) + Ids(b)
  {
    if b == [] {
      assert a + b == a;
    } else {
      var k := |b| - 1;
      assert (a + b)[..|a + b| - 1] == a + b[..k];
      IdsCat(a, b[..k]);
    }
  }

  /** The ids with one row taken out. */
  lemma IdsOut(a: seq<Msg>, x: Msg, b: seq<Msg>)
    ensures multiset(Ids(a + [x] + b)) == multiset(Ids(a + b)) + multiset(Ids([x]))
  {
    IdsCat(a + [x], b);
    IdsCat(a, [x]);
    IdsCat(a, b);
  }

  /** The same records in another order make a group with the same token. */
  lemma SameBatchSameToken(a: seq<Msg>, b: seq<Msg>, t: Table)
    requires multiset(a) == multiset(b)
    ensures Token(Ids(GroupOf(a, t))) == Token(Ids(GroupOf(b, t)))
  {
    forall m ensures multiset(GroupOf(a, t))[m] == multiset(GroupOf(b, t))[m] {
      GroupMultiset(a, t, m);
      GroupMultiset(b, t, m);
    }
    assert multiset(GroupOf(a, t)) == multiset(GroupOf(b, t));
    IdsMultiset(GroupOf(a, t), GroupOf(b, t));
    TokenIgnoresOrder(Ids(GroupOf(a, t)), Ids(GroupOf(b, t)));
  }

  lemma {:induction false} GroupDistinct(batch: seq<Msg>, t: Table)
    requires Distinct(batch)
    ensures Distinct(GroupOf(batch, t))
  {
    if batch != [] {
      var k := |batch| - 1;
      GroupDistinct(batch[..k], t);
      GroupHolds(batch[..k], t, batch[k]);
    }
  }

  lemma RowsSnoc(bs: Blocks, g: seq<Msg>)
    requires Distinct(Rows(bs)) && Distinct(g) && forall m :: m in g ==> m !in Rows(bs)
    ensures Distinct(Rows(bs + [g]))
  {
    assert (bs + [g])[..|bs|] == bs;
    DistinctCat(Rows(bs), g);
  }

  lemma DistinctCat(a: seq<Msg>, b: seq<Msg>)
    requires Distinct(a) && Distinct(b) && forall m :: m in b ==> m !in a
    ensures Distinct(a + b)
  {
    forall i, j | 0 <= i < j < |a + b| ensures (a + b)[i] != (a + b)[j] {
      assert i < |a| <= j ==> (a + b)[j] == b[j - |a|] && (a + b)[i] in a;
    }
  }

  /** A block newly added shares no row with the table. */
  lemma NewBlockIsNew(evs: seq<Event>, i: nat, t: Table, m: Msg)
    requires SameBatches(evs) && i < |evs| && evs[i].Deliver? && OnceEach(evs, i, t)
    requires !HasToken(At(evs, i).store.Of(t), Token(Ids(GroupOf(evs[i].batch, t))))
    requires m in GroupOf(evs[i].batch, t)
    ensures m !in Rows(At(evs, i).store.Of(t))
  {
    var bs := At(evs, i).store.Of(t);
    StoredInRows(bs, m);
    if Stored(bs, m) {
      var k :| 0 <= k < |bs| && m in bs[k];
      var j: nat :| j < i && evs[j].Deliver? && GroupOf(evs[j].batch, t) == bs[k];
      GroupHolds(evs[j].batch, t, m);
      GroupHolds(evs[i].batch, t, m);
      assert AllOrNothing(evs[j].batch, evs[i].batch);
      SameBatchSameToken(evs[j].batch, evs[i].batch, t);
    }
  }

  lemma OriginsLater(evs: seq<Event>, i: nat, t: Table, block: seq<Msg>)
    requires i < |evs| && FromDelivery(evs, i, t, block)
    ensures FromDelivery(evs, i + 1, t, block)
  {}

  lemma DeliveryOnce(evs: seq<Event>, i: nat, t: Table)
    requires Valid(evs) && SameBatches(evs) && i < |evs| && evs[i].Deliver? && OnceEach(evs, i, t)
    ensures OnceEach(evs, i + 1, t)
  {
    var s, e := At(evs, i), evs[i];
    var bs, group := s.store.Of(t), GroupOf(e.batch, t);
    DeliveredOf(s, e.batch, e.fates, e.unheard, t);
    var bs' := At(evs, i + 1).store.Of(t);
    assert EnabledAt(evs, i);
    forall k | 0 <= k < |bs'| ensures FromDelivery(evs, i + 1, t, bs'[k]) {
      if k < |bs| {
        OriginsLater(evs, i, t, bs[k]);
      }
    }
    if bs' != bs {
      GroupDistinct(e.batch, t);
      forall m | m in group ensures m !in Rows(bs) {
        NewBlockIsNew(evs, i, t, m);
      }
      RowsSnoc(bs, group);
    }
  }

  lemma OnceAtStart(evs: seq<Event>, t: Table)
    ensures OnceEach(evs, 0, t)
  {
    assert At(evs, 0).store.Of(t) == [] && Rows([]) == [];
  }

  lemma OthersKeep(evs: seq<Event>, i: nat, t: Table)
    requires i < |evs| && !evs[i].Deliver? && OnceEach(evs, i, t)
    ensures OnceEach(evs, i + 1, t)
  {
    var bs := At(evs, i).store.Of(t);
    assert At(evs, i + 1).store == At(evs, i).store;
    forall k | 0 <= k < |bs| ensures FromDelivery(evs, i + 1, t, bs[k]) {
      OriginsLater(evs, i, t, bs[k]);
    }
  }

  /** Under any pattern of failures and any delivery order, no record is stored twice. */
  lemma {:induction false} StoredAtMostOnce(evs: seq<Event>, i: nat, t: Table)
    requires Valid(evs) && SameBatches(evs) && i <= |evs|
    ensures OnceEach(evs, i, t)
  {
    if i == 0 {
      OnceAtStart(evs, t);
    } else {
      StoredAtMostOnce(evs, i - 1, t);
      if evs[i - 1].Deliver? {
        DeliveryOnce(evs, i - 1, t);
      } else {
        OthersKeep(evs, i - 1, t);
      }
    }
  }

  lemma {:induction false} DistinctCount(s: seq<Msg>, m: Msg)
    requires Distinct(s) && m in s
    ensures multiset(s)[m] == 1
  {
    var k := |s| - 1;
    assert s == s[..k] + [s[k]];
    if s[k] == m {
      assert m !in s[..k];
      assert multiset(s[..k])[m] == 0;
    } else {
      DistinctCount(s[..k], m);
    }
  }

  /** Every acknowledged record with a table and an id is in that table exactly once. */
  lemma StoredExactlyOnce(evs: seq<Event>, i: nat, m: Msg, t: Table)
    requires Valid(evs) && SameBatches(evs) && i <= |evs|
    requires UniqueIds(At(evs, i).published) && forall n :: n in At(evs, i).published ==> CleanId(n)
    requires m in At(evs, i).acked && TableOf(m) == Some(t) && IdOf(m).Some?
    ensures multiset(Rows(At(evs, i).store.Of(t)))[m] == 1
  {
    AckedRowIsStored(evs, i, m, t);
    StoredAtMostOnce(evs, i, t);
    DistinctCount(Rows(At(evs, i).store.Of(t)), m);
  }

  // ---------------------------------------------------------------- the loop

  /** Accumulation for one table within a batch. */
  datatype Group = Group(rows: seq<Msg>, ids: seq<string>)

  ghost predicate Grouped(groups: map<Table, Group>, batch: seq<Msg>, t: Table) {
    if GroupOf(batch, t) == [] then t !in groups
    else t in groups && groups[t] == Group(GroupOf(batch, t), Ids(GroupOf(batch, t)))
  }

  /** The table's group with the message put behind it. */
  function Joined(groups: map<Table, Group>, t: Table, m: Msg): Group {
    var g := if t in groups then groups[t] else Group([], []);
    Group(g.rows + [m], if IdOf(m).Some? then g.ids + [IdOf(m).value] else g.ids)
  }

  lemma GroupedSnoc(groups: map<Table, Group>, groups': map<Table, Group>, done: seq<Msg>, m: Msg, t: Table)
    requires Grouped(groups, done, t)
    requires TableOf(m) != Some(t) ==> (t in groups' <==> t in groups) && (t in groups ==> groups'[t] == groups[t])
    requires TableOf(m) == Some(t) ==> t in groups' && groups'[t] == Joined(groups, t, m)
    ensures Grouped(groups', done + [m], t)
  {
    var g := GroupOf(done, t);
    assert (done + [m])[..|done|] == done && g + [] == g;
    IdsSnoc(g, m);
  }

  lemma IdsSnoc(g: seq<Msg>, m: Msg)
    ensures Ids(g + [m]) == if IdOf(m).Some? then Ids(g) + [IdOf(m).value] else Ids(g)
  {
    assert (g + [m])[..|g|] == g;
  }

  class Consumer {
    var queue: set<Msg>
    var acked: set<Msg>
    var store: Store
    ghost var published: set<Msg>

    ghost function View(): State
      reads this
    {
      State(published, queue, acked, store)
    }

    constructor ()
      ensures View() == State({}, {}, {}, Store([], [], []))
    {
      queue, acked, store, published := {}, {}, Store([], [], []), {};
    }

    /** Routes each message to its table. */
    method Accumulate(batch: seq<Msg>) returns (groups: map<Table, Group>)
      ensures forall t: Table :: Grouped(groups, batch, t)
    {
      groups := map[];
      for i := 0 to |batch|
        invariant forall t: Table :: Grouped(groups, batch[..i], t)
      {
        var m := batch[i];
        ghost var before := groups;
        if TableOf(m).Some? {
          var t := TableOf(m).value;
          var g := if t in groups then groups[t] else Group([], []);
          var ids := if IdOf(m).Some? then g.ids + [IdOf(m).value] else g.ids;
          groups := groups[t := Group(g.rows + [m], ids)];
        }
        ghost var done := batch[..i];
        assert batch[..i + 1] == done + [m];
        forall t: Table ensures Grouped(groups, done + [m], t) {
          GroupedSnoc(before, groups, done, m, t);
        }
      }
      assert batch[..|batch|] == batch;
    }

    /** One insert as the store performs it. */
    method InsertBlock(t: Table, rows: seq<Msg>, token: string, fate: Fate) returns (ok: bool)
      requires rows != [] && token == Token(Ids(rows))
      modifies this`store
      ensures store == old(store).With(t, Inserted(old(store).Of(t), rows, fate))
      ensures ok <==> fate == Done
    {
      ok := fate == Done;
      var bs := store.Of(t);
      var seen := false;
      for i := 0 to |bs|
        invariant seen <==> exists k :: 0 <= k < i && Token(Ids(bs[k])) == token
        invariant store == old(store)
      {
        var _, tok := ComputeToken(Ids(bs[i]));
        seen := seen || tok == token;
      }
      if fate != Lost && !seen {
        bs := bs + [rows];
      }
      store := store.With(t, bs);
    }

    method InsertGroup(groups: map<Table, Group>, t: Table, fates: Fates, ghost want: Store) returns (ok: bool)
      requires t in groups && Awaited(groups, store, fates, want, t)
      modifies this`store
      ensures store.Of(t) == want.Of(t) && forall u :: u != t ==> store.Of(u) == old(store).Of(u)
      ensures ok <==> fates.Of(t) == Done
    {
      var _, token := ComputeToken(groups[t].ids);
      ok := InsertBlock(t, groups[t].rows, token, fates.Of(t));
    }

    /** Inserts every group; true if all inserts answered well. */
    method InsertAll(groups: map<Table, Group>, fates: Fates, ghost want: Store) returns (allOk: bool)
      requires forall t: Table :: Awaited(groups, store, fates, want, t)
      modifies this`store
      ensures forall t: Table :: store.Of(t) == want.Of(t)
      ensures allOk <==> DoneIn(groups.Keys, fates)
    {
      allOk := true;
      var rest := groups.Keys;
      ghost var start := store;
      Untouched(groups, start, fates, want);
      while rest != {}
        invariant rest <= groups.Keys
        invariant forall t: Table :: t in rest ==> store.Of(t) == start.Of(t)
        invariant forall t: Table :: t !in rest ==> store.Of(t) == want.Of(t)
        invariant allOk <==> DoneIn(groups.Keys - rest, fates)
        decreases rest
      {
        var t :| t in rest;
        AwaitedStill(groups, start, store, fates, want, t);
        var ok := InsertGroup(groups, t, fates, want);
        if !ok {
          allOk := false;
        }
        DoneInMore(groups.Keys, rest, t, fates);
        rest := rest - {t};
      }
      assert groups.Keys - rest == groups.Keys;
    }

    /** One turn of the main loop over a delivered batch. */
    method Process(batch: seq<Msg>, fates: Fates, unheard: set<Msg>)
      modifies this
      ensures View() == Delivered(old(View()), batch, fates, unheard)
    {
      var groups := Accumulate(batch);
      ghost var want := Delivered(View(), batch, fates, unheard).store;
      AllAwaited(groups, View(), batch, fates, unheard);
      var allOk := InsertAll(groups, fates, want);
      SameStore(store, want);
      DoneInGroups(groups, batch, fates);
      if allOk {
        var gone := set m | m in batch && m !in unheard;
        queue, acked := queue - gone, acked + gone;
      }
    }
  }

  /** What the store is to hold for the table once its group, if any, is in. */
  ghost predicate Awaited(groups: map<Table, Group>, store: Store, fates: Fates, want: Store, t: Table) {
    if t !in groups then want.Of(t) == store.Of(t)
    else
      && groups[t].rows != [] && groups[t].ids == Ids(groups[t].rows)
      && want.Of(t) == Inserted(store.Of(t), groups[t].rows, fates.Of(t))
  }

  lemma Untouched(groups: map<Table, Group>, store: Store, fates: Fates, want: Store)
    requires forall t: Table :: Awaited(groups, store, fates, want, t)
    ensures forall t: Table :: t !in groups ==> want.Of(t) == store.Of(t)
  {
    forall t: Table | t !in groups ensures want.Of(t) == store.Of(t) {
      assert Awaited(groups, store, fates, want, t);
    }
  }

  lemma AwaitedStill(groups: map<Table, Group>, start: Store, store: Store, fates: Fates, want: Store, t: Table)
    requires Awaited(groups, start, fates, want, t) && store.Of(t) == start.Of(t)
    ensures Awaited(groups, store, fates, want, t)
  {}

  lemma DoneInMore(all: set<Table>, rest: set<Table>, t: Table, fates: Fates)
    requires t in rest && rest <= all
    ensures DoneIn(all - (rest - {t}), fates) <==> DoneIn(all - rest, fates) && fates.Of(t) == Done
  {
    assert all - (rest - {t}) == all - rest + {t};
  }

  lemma AllAwaited(groups: map<Table, Group>, s: State, batch: seq<Msg>, fates: Fates, unheard: set<Msg>)
    requires forall t: Table :: Grouped(groups, batch, t)
    ensures forall t: Table :: Awaited(groups, s.store, fates, Delivered(s, batch, fates, unheard).store, t)
  {
    forall t: Table ensures Awaited(groups, s.store, fates, Delivered(s, batch, fates, unheard).store, t) {
      assert Grouped(groups, batch, t);
      DeliveredOf(s, batch, fates, unheard, t);
    }
  }

  lemma SameStore(a: Store, b: Store)
    requires forall t: Table :: a.Of(t) == b.Of(t)
    ensures a == b
  {
    assert a.Of(Logs) == b.Of(Logs) && a.Of(Metrics) == b.Of(Metrics) && a.Of(Traces) == b.Of(Traces);
  }

  predicate DoneIn(ts: set<Table>, fates: Fates) { forall t :: t in ts ==> fates.Of(t) == Done }

  lemma DoneInGroups(groups: map<Table, Group>, batch: seq<Msg>, fates: Fates)
    requires forall t: Table :: Grouped(groups, batch, t)
    ensures DoneIn(groups.Keys, fates) <==> AllDone(batch, fates)
  {
    forall t: Table ensures t in groups.Keys <==> GroupOf(batch, t) != [] {
      assert Grouped(groups, batch, t);
    }
  }
}
