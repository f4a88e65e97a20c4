/**
  Runs of the writer that show what its conditions are for: messages without ids, ids with
  commas, redelivery in other batches. Each family is a valid run.
 */
module WriterRuns {
  import opened Text
  import opened DedupToken
  import opened Writer

  // ---------------------------------------------------------------- runs of two deliveries

  function All(fate: Fate): Fates { Fates(fate, fate, fate) }

  function Publishes(ms: seq<Msg>): seq<Event> { seq(|ms|, i requires 0 <= i < |ms| => Publish(ms[i])) }

  /** Everything is published, then two batches are delivered; the acknowledgements in `unheard`
      of the first get lost. */
  function Script(ms: seq<Msg>, b1: seq<Msg>, fate: Fate, unheard: set<Msg>, b2: seq<Msg>): seq<Event> {
    Publishes(ms) + [Deliver(b1, All(fate), unheard)] + [Deliver(b2, All(Done), {})]
  }

  predicate OfTable(b: seq<Msg>, t: Table) { forall i :: 0 <= i < |b| ==> TableOf(b[i]) == Some(t) }

  predicate DistinctAts(ms: seq<Msg>) { forall i, j :: 0 <= i < j < |ms| ==> ms[i].at != ms[j].at }

  function SetOf(b: seq<Msg>): set<Msg> { set m | m in b }

  lemma {:induction false} GroupSame(b: seq<Msg>, t: Table)
    requires OfTable(b, t)
    ensures GroupOf(b, t) == b
  {
    if b != [] {
      var k := |b| - 1;
      GroupSame(b[..k], t);
      assert TableOf(b[k]) == Some(t);
      assert b == b[..k] + [b[k]];
    }
  }

  lemma AllDoneWhen(b: seq<Msg>, t: Table, fate: Fate)
    requires OfTable(b, t) && b != []
    ensures AllDone(b, All(fate)) <==> fate == Done
  {
    GroupSame(b, t);
    assert All(fate).Of(t) == fate;
  }

  function Heard(b: seq<Msg>, fate: Fate, unheard: set<Msg>): set<Msg> {
    if fate == Done then SetOf(b) - unheard else {}
  }

  lemma DeliveredAll(s: State, b: seq<Msg>, t: Table, fate: Fate, unheard: set<Msg>)
    requires OfTable(b, t) && b != []
    ensures var s' := Delivered(s, b, All(fate), unheard);
            && s'.store.Of(t) == Inserted(s.store.Of(t), b, fate)
            && s'.acked == s.acked + Heard(b, fate, unheard) && s'.queue == s.queue - Heard(b, fate, unheard)
            && s'.published == s.published
  {
    DeliveredOf(s, b, All(fate), unheard, t);
    GroupSame(b, t);
    AllDoneWhen(b, t, fate);
    HeardIs(b, unheard);
  }

  lemma HeardIs(b: seq<Msg>, unheard: set<Msg>)
    ensures (set m | m in b && m !in unheard) == SetOf(b) - unheard
  {}

  lemma {:induction false} PublishStates(ms: seq<Msg>, evs: seq<Event>, i: nat)
    requires i <= |ms| <= |evs| && evs[..|ms|] == Publishes(ms)
    ensures At(evs, i) == State(SetOf(ms[..i]), SetOf(ms[..i]), {}, Store([], [], []))
  {
    if i == 0 {
      assert SetOf(ms[..0]) == {};
    } else {
      PublishStates(ms, evs, i - 1);
      assert evs[i - 1] == evs[..|ms|][i - 1] == Publish(ms[i - 1]);
      SetGrows(ms, i - 1);
    }
  }

  lemma SetGrows(ms: seq<Msg>, i: nat)
    requires i < |ms|
    ensures SetOf(ms[..i + 1]) == SetOf(ms[..i]) + {ms[i]}
  {
    assert ms[..i + 1] == ms[..i] + [ms[i]];
  }

  lemma PublishEnabled(ms: seq<Msg>, evs: seq<Event>, i: nat)
    requires i < |ms| <= |evs| && evs[..|ms|] == Publishes(ms) && DistinctAts(ms)
    ensures EnabledAt(evs, i)
  {
    PublishStates(ms, evs, i);
    assert evs[i] == evs[..|ms|][i] == Publish(ms[i]);
  }

  lemma ScriptShape(ms: seq<Msg>, b1: seq<Msg>, fate: Fate, unheard: set<Msg>, b2: seq<Msg>)
    ensures var evs, n := Script(ms, b1, fate, unheard, b2), |ms|;
            && |evs| == n + 2 && evs[..n] == Publishes(ms)
            && evs[n] == Deliver(b1, All(fate), unheard) && evs[n + 1] == Deliver(b2, All(Done), {})
  {}

  lemma DeliverAt(evs: seq<Event>, i: nat, b: seq<Msg>, fates: Fates, unheard: set<Msg>)
    requires i < |evs| && evs[i] == Deliver(b, fates, unheard)
    ensures At(evs, i + 1) == Delivered(At(evs, i), b, fates, unheard)
  {}

  /** Two deliveries in turn, from a state with nothing acknowledged. */
  lemma TwoDeliveries(s: State, t: Table, b1: seq<Msg>, fate: Fate, unheard: set<Msg>, b2: seq<Msg>, s1: State, s2: State)
    requires OfTable(b1, t) && OfTable(b2, t) && b1 != [] && b2 != []
    requires s.acked == {} && s.store.Of(t) == []
    requires s1 == Delivered(s, b1, All(fate), unheard) && s2 == Delivered(s1, b2, All(Done), {})
    ensures s1.queue == s.queue - Heard(b1, fate, unheard)
    ensures s2.published == s.published && s2.acked == Heard(b1, fate, unheard) + SetOf(b2)
    ensures s2.store.Of(t) == Inserted(Inserted([], b1, fate), b2, Done)
  {
    DeliveredAll(s, b1, t, fate, unheard);
    DeliveredAll(s1, b2, t, Done, {});
    assert Heard(b2, Done, {}) == SetOf(b2);
    assert {} + Heard(b1, fate, unheard) == Heard(b1, fate, unheard);
  }

  /** The states a script goes through. */
  lemma ScriptStates(ms: seq<Msg>, t: Table, b1: seq<Msg>, fate: Fate, unheard: set<Msg>, b2: seq<Msg>)
    requires OfTable(b1, t) && OfTable(b2, t) && b1 != [] && b2 != []
    ensures var evs, n := Script(ms, b1, fate, unheard, b2), |ms|;
            && At(evs, n).queue == SetOf(ms)
            && At(evs, n + 1).queue == SetOf(ms) - Heard(b1, fate, unheard)
            && At(evs, n + 2).published == SetOf(ms)
            && At(evs, n + 2).acked == Heard(b1, fate, unheard) + SetOf(b2)
            && At(evs, n + 2).store.Of(t) == Inserted(Inserted([], b1, fate), b2, Done)
  {
    var evs, n := Script(ms, b1, fate, unheard, b2), |ms|;
    ScriptShape(ms, b1, fate, unheard, b2);
    PublishStates(ms, evs, n);
    assert ms[..n] == ms;
    DeliverAt(evs, n, b1, All(fate), unheard);
    DeliverAt(evs, n + 1, b2, All(Done), {});
    TwoDeliveries(At(evs, n), t, b1, fate, unheard, b2, At(evs, n + 1), At(evs, n + 2));
  }

  /** Where it ends. */
  lemma ScriptEnds(ms: seq<Msg>, t: Table, b1: seq<Msg>, fate: Fate, unheard: set<Msg>, b2: seq<Msg>)
    requires OfTable(b1, t) && OfTable(b2, t) && b1 != [] && b2 != []
    ensures var evs := Script(ms, b1, fate, unheard, b2);
            var s := At(evs, |evs|);
            && s.published == SetOf(ms) && s.acked == Heard(b1, fate, unheard) + SetOf(b2)
            && s.store.Of(t) == Inserted(Inserted([], b1, fate), b2, Done)
  {
    ScriptShape(ms, b1, fate, unheard, b2);
    ScriptStates(ms, t, b1, fate, unheard, b2);
  }

  /** And when it is a run. */
  lemma ScriptValid(ms: seq<Msg>, t: Table, b1: seq<Msg>, fate: Fate, unheard: set<Msg>, b2: seq<Msg>)
    requires OfTable(b1, t) && OfTable(b2, t) && b1 != [] && b2 != [] && DistinctAts(ms)
    requires Distinct(b1) && Distinct(b2) && |b1| <= BATCH_MAX && |b2| <= BATCH_MAX
    requires SetOf(b1) <= SetOf(ms) && SetOf(b2) <= SetOf(ms) - Heard(b1, fate, unheard)
    ensures Valid(Script(ms, b1, fate, unheard, b2))
  {
    var evs, n := Script(ms, b1, fate, unheard, b2), |ms|;
    ScriptShape(ms, b1, fate, unheard, b2);
    ScriptStates(ms, t, b1, fate, unheard, b2);
    BatchEnabled(evs, n, b1, All(fate), unheard);
    BatchEnabled(evs, n + 1, b2, All(Done), {});
    PublishesThenTwo(ms, evs);
  }

  lemma PublishesThenTwo(ms: seq<Msg>, evs: seq<Event>)
    requires |evs| == |ms| + 2 && evs[..|ms|] == Publishes(ms) && DistinctAts(ms)
    requires EnabledAt(evs, |ms|) && EnabledAt(evs, |ms| + 1)
    ensures Valid(evs)
  {
    forall i: nat | i < |evs| ensures EnabledAt(evs, i) {
      if i < |ms| {
        PublishEnabled(ms, evs, i);
      }
    }
  }

  lemma BatchEnabled(evs: seq<Event>, i: nat, b: seq<Msg>, fates: Fates, unheard: set<Msg>)
    requires i < |evs| && evs[i] == Deliver(b, fates, unheard)
    requires Distinct(b) && |b| <= BATCH_MAX && SetOf(b) <= At(evs, i).queue
    ensures EnabledAt(evs, i)
  {
    forall m | m in b ensures m in At(evs, i).queue {
      assert m in SetOf(b);
    }
  }

  // ---------------------------------------------------------------- what a run loses or doubles

  /** A valid run that acknowledges the message and does not hold it. */
  ghost predicate Loses(evs: seq<Event>, n: Msg, t: Table) {
    Valid(evs) && n in At(evs, |evs|).acked && n !in Rows(At(evs, |evs|).store.Of(t))
  }

  lemma IdsOfOne(m: Msg)
    ensures Ids([m]) == if IdOf(m).Some? then [IdOf(m).value] else []
  {
    assert [m][..0] == [];
  }

  lemma IdsOfTwo(m: Msg, n: Msg)
    ensures Ids([m, n]) == Ids([m]) + Ids([n])
  {
    assert [m, n] == [m] + [n];
    IdsCat([m], [n]);
  }

  /** A group with the token of the one block there is passed over. */
  lemma PassedOver(b1: seq<Msg>, fate: Fate, b2: seq<Msg>)
    requires b1 != [] && fate != Lost && Token(Ids(b1)) == Token(Ids(b2))
    ensures Inserted(Inserted([], b1, fate), b2, Done) == [b1]
  {
    assert [] + [b1] == [b1];
    assert Token(Ids([b1][0])) == Token(Ids(b2));
  }

  lemma NotInBlock(b1: seq<Msg>, n: Msg)
    requires n !in b1
    ensures n !in Rows([b1])
  {
    StoredInRows([b1], n);
  }

  /** The lost message of a script whose second batch is passed over. */
  lemma ScriptLoses(ms: seq<Msg>, t: Table, b1: seq<Msg>, unheard: set<Msg>, b2: seq<Msg>, n: Msg)
    requires OfTable(b1, t) && OfTable(b2, t) && b1 != [] && b2 != [] && DistinctAts(ms)
    requires Distinct(b1) && Distinct(b2) && |b1| <= BATCH_MAX && |b2| <= BATCH_MAX
    requires SetOf(b1) <= SetOf(ms) && SetOf(b2) <= SetOf(ms) - Heard(b1, Done, unheard)
    requires Token(Ids(b1)) == Token(Ids(b2)) && n in b2 && n !in b1
    ensures var evs := Script(ms, b1, Done, unheard, b2);
            Loses(evs, n, t) && At(evs, |evs|).published == SetOf(ms)
  {
    ScriptEnds(ms, t, b1, Done, unheard, b2);
    ScriptValid(ms, t, b1, Done, unheard, b2);
    PassedOver(b1, Done, b2);
    NotInBlock(b1, n);
  }

  /** Without ids the token says nothing: of two such messages delivered one after the other, the
      second is acknowledged and lost. */
  lemma IdlessIsLost(m: Msg, n: Msg, t: Table)
    requires TableOf(m) == TableOf(n) == Some(t) && IdOf(m).None? && IdOf(n).None? && m.at != n.at
    ensures Loses(Script([m, n], [m], Done, {}, [n]), n, t)
  {
    IdsOfOne(m);
    IdsOfOne(n);
    ScriptLoses([m, n], t, [m], {}, [n], n);
  }

  /** Nor does a message without id add to the token of one that has it: behind any other message
      of its table whose acknowledgement got lost, it is acknowledged and lost. */
  lemma IdlessBehindIsLost(m: Msg, n: Msg, t: Table)
    requires TableOf(m) == TableOf(n) == Some(t) && IdOf(n).None? && m.at != n.at
    ensures Loses(Script([m, n], [m], Done, {m}, [m, n]), n, t)
  {
    IdsOfOne(n);
    IdsOfTwo(m, n);
    assert Ids([m]) + [] == Ids([m]);
    ScriptLoses([m, n], t, [m], {m}, [m, n], n);
  }

  /** Two ids and one id that joins them with a comma make the same token: the message with the
      joined id is acknowledged and lost. */
  lemma JoinedIdIsLost(a: Msg, b: Msg, c: Msg, t: Table, x: string, y: string)
    requires TableOf(a) == TableOf(b) == TableOf(c) == Some(t) && DistinctAts([a, b, c])
    requires IdOf(a) == Some(x) && IdOf(b) == Some(y) && IdOf(c) == Some(x + "," + y) && AtMost(x, y)
    ensures Loses(Script([a, b, c], [a, b], Done, {}, [c]), c, t)
  {
    assert [a, b, c][0].at != [a, b, c][1].at && [a, b, c][0].at != [a, b, c][2].at && [a, b, c][1].at != [a, b, c][2].at;
    IdsOfOne(a);
    IdsOfOne(b);
    IdsOfOne(c);
    IdsOfTwo(a, b);
    CommaCollides(x, y);
    ScriptLoses([a, b, c], t, [a, b], {}, [c], c);
  }

  lemma TwoBlocks(m: Msg, n: Msg)
    requires m != n
    ensures multiset(Rows([[m, n], [m]]))[m] == 2
  {
    assert [[m, n], [m]][..1] == [[m, n]] && [[m, n]][..0] == [];
    assert Rows([[m, n]]) == [m, n];
    assert Rows([[m, n], [m]]) == [m, n, m];
  }

  lemma BothTaken(b1: seq<Msg>, fate: Fate, b2: seq<Msg>)
    requires b1 != [] && b2 != [] && fate != Lost && Token(Ids(b1)) != Token(Ids(b2))
    ensures Inserted(Inserted([], b1, fate), b2, Done) == [b1, b2]
  {
    assert [] + [b1] == [b1] && [b1] + [b2] == [b1, b2];
  }

  /** A script whose second batch has another token ends with both blocks. */
  lemma ScriptDoubles(ms: seq<Msg>, t: Table, b1: seq<Msg>, b2: seq<Msg>, m: Msg)
    requires OfTable(b1, t) && OfTable(b2, t) && b1 != [] && b2 != [] && DistinctAts(ms)
    requires Distinct(b1) && Distinct(b2) && |b1| <= BATCH_MAX && |b2| <= BATCH_MAX
    requires SetOf(b1) <= SetOf(ms) && SetOf(b2) <= SetOf(ms)
    requires Token(Ids(b1)) != Token(Ids(b2)) && m in b2
    ensures var evs := Script(ms, b1, Unreported, {}, b2);
            && Valid(evs) && At(evs, |evs|).published == SetOf(ms) && m in At(evs, |evs|).acked
            && At(evs, |evs|).store.Of(t) == [b1, b2]
  {
    ScriptEnds(ms, t, b1, Unreported, {}, b2);
    ScriptValid(ms, t, b1, Unreported, {}, b2);
    BothTaken(b1, Unreported, b2);
  }

  /** Redelivery in another grouping does duplicate: after an insert that was applied though
      reported failed, a message delivered on its own is stored a second time, if the other one
      has an id. */
  lemma RegroupingDuplicates(m: Msg, n: Msg, t: Table)
    requires TableOf(m) == TableOf(n) == Some(t) && m.at != n.at && IdOf(n).Some?
    ensures var evs := Script([m, n], [m, n], Unreported, {}, [m]);
            && Valid(evs) && At(evs, |evs|).published == SetOf([m, n]) && m in At(evs, |evs|).acked
            && multiset(Rows(At(evs, |evs|).store.Of(t)))[m] == 2
  {
    IdsOfOne(n);
    IdsOfTwo(m, n);
    TokenGrows(Ids([m]), IdOf(n).value);
    ScriptDoubles([m, n], t, [m, n], [m], m);
    TwoBlocks(m, n);
  }
}
