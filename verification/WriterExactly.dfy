/**
  Exactly when the writer can lose an acknowledged message and exactly when it can store one
  twice, over every run that publishes messages of a given set.
 */
module WriterExactly {
  import opened Text
  import opened DedupToken
  import opened Writer
  import opened WriterRuns

  /** Different messages of the set have different places in the stream. */
  predicate AtsDiffer(ms: set<Msg>) { forall x, y :: x in ms && y in ms && x != y ==> x.at != y.at }

  /** What one delivery can insert into a table. */
  predicate BlockOf(b: seq<Msg>, t: Table, ms: set<Msg>) {
    b != [] && |b| <= 100 && Distinct(b) && OfTable(b, t) && SetOf(b) <= ms
  }

  /** The two can stand in one stream. */
  predicate Together(a: seq<Msg>, b: seq<Msg>) { AtsDiffer(SetOf(a) + SetOf(b)) }

  lemma StepAts(s: State, e: Event)
    requires AtsDiffer(s.published) && Enabled(s, e)
    ensures AtsDiffer(Next(s, e).published)
  {}

  lemma {:induction false} RunAts(evs: seq<Event>, i: nat)
    requires Valid(evs) && i <= |evs|
    ensures AtsDiffer(At(evs, i).published)
  {
    if i > 0 {
      RunAts(evs, i - 1);
      assert EnabledAt(evs, i - 1);
      StepAts(At(evs, i - 1), evs[i - 1]);
    }
  }

  // ---------------------------------------------------------------- blocks of a run

  ghost predicate Blocky(bs: Blocks, t: Table, ms: set<Msg>) {
    forall i :: 0 <= i < |bs| ==> BlockOf(bs[i], t, ms)
  }

  lemma {:induction false} GroupShort(batch: seq<Msg>, t: Table)
    ensures |GroupOf(batch, t)| <= |batch|
  {
    if batch != [] {
      GroupShort(batch[..|batch| - 1], t);
    }
  }

  lemma GroupIsBlock(batch: seq<Msg>, t: Table, ms: set<Msg>)
    requires |batch| <= BATCH_MAX && Distinct(batch) && (forall m :: m in batch ==> m in ms) && GroupOf(batch, t) != []
    ensures BlockOf(GroupOf(batch, t), t, ms)
  {
    var g := GroupOf(batch, t);
    GroupShort(batch, t);
    GroupDistinct(batch, t);
    forall m | m in g ensures TableOf(m) == Some(t) && m in ms {
      GroupHolds(batch, t, m);
    }
    assert OfTable(g, t);
  }

  lemma StepBlocky(s: State, e: Event, t: Table)
    requires Known(s) && Enabled(s, e) && Blocky(s.store.Of(t), t, s.published)
    ensures Blocky(Next(s, e).store.Of(t), t, Next(s, e).published)
  {
    if e.Deliver? {
      DeliveredOf(s, e.batch, e.fates, e.unheard, t);
      if GroupOf(e.batch, t) != [] {
        GroupIsBlock(e.batch, t, s.published);
      }
    }
  }

  /** Every stored block is one a delivery can insert. */
  lemma {:induction false} RunBlocky(evs: seq<Event>, i: nat, t: Table)
    requires Valid(evs) && i <= |evs|
    ensures Blocky(At(evs, i).store.Of(t), t, At(evs, i).published)
  {
    if i > 0 {
      RunBlocky(evs, i - 1, t);
      OnlyPublishedRows(evs, i - 1);
      assert EnabledAt(evs, i - 1);
      StepBlocky(At(evs, i - 1), evs[i - 1], t);
    } else {
      assert At(evs, 0).store.Of(t) == [];
    }
  }

  /** What holds of every state of a run. */
  ghost predicate Reached(s: State, t: Table) {
    Known(s) && AtsDiffer(s.published) && Blocky(s.store.Of(t), t, s.published)
  }

  lemma RunReached(evs: seq<Event>, i: nat, t: Table)
    requires Valid(evs) && i <= |evs|
    ensures Reached(At(evs, i), t)
  {
    OnlyPublishedRows(evs, i);
    RunAts(evs, i);
    RunBlocky(evs, i, t);
  }

  // ---------------------------------------------------------------- lost

  /** Some run that publishes only these messages acknowledges n and does not hold it. */
  ghost predicate CanBeLost(n: Msg, t: Table, ms: set<Msg>) {
    exists evs: seq<Event> :: At(evs, |evs|).published <= ms && Loses(evs, n, t)
  }

  /** Two blocks of one stream with one token, the message in the second only. */
  ghost predicate Collide(a: seq<Msg>, b: seq<Msg>, n: Msg, t: Table, ms: set<Msg>) {
    && BlockOf(a, t, ms) && BlockOf(b, t, ms) && Together(a, b)
    && n in b && n !in a && Token(Ids(a)) == Token(Ids(b))
  }

  ghost predicate Collision(n: Msg, t: Table, ms: set<Msg>) {
    exists a: seq<Msg>, b: seq<Msg> :: Collide(a, b, n, t, ms)
  }

  lemma LostBy(evs: seq<Event>, n: Msg, t: Table, ms: set<Msg>)
    requires At(evs, |evs|).published <= ms && Loses(evs, n, t)
    ensures CanBeLost(n, t, ms)
  {}

  /** The messages of a set in some order. */
  lemma {:induction false} Listed(ms: set<Msg>) returns (q: seq<Msg>)
    requires AtsDiffer(ms)
    ensures SetOf(q) == ms && DistinctAts(q)
  {
    if ms == {} {
      q := [];
    } else {
      var x :| x in ms;
      var rest := Listed(ms - {x});
      q := [x] + rest;
      forall y ensures y in SetOf(q) <==> y in ms {
        assert y in SetOf(rest) <==> y in ms - {x};
      }
      assert forall i :: 0 <= i < |rest| ==> rest[i] in SetOf(rest);
    }
  }

  /** The first block goes in, the second is passed over and acknowledged. */
  lemma CollisionLoses(a: seq<Msg>, b: seq<Msg>, n: Msg, t: Table, ms: set<Msg>)
    requires Collide(a, b, n, t, ms)
    ensures CanBeLost(n, t, ms)
  {
    var q := Listed(SetOf(a) + SetOf(b));
    ScriptLoses(q, t, a, SetOf(b), b, n);
    LostBy(Script(q, a, Done, SetOf(b), b), n, t, ms);
  }

  lemma TakenIn(bs: Blocks, g: seq<Msg>, n: Msg)
    requires n in g
    ensures HasToken(bs, Token(Ids(g))) || Stored(Inserted(bs, g, Done), n)
  {
    assert n in (bs + [g])[|bs|];
  }

  lemma DeliveryCollides(s: State, batch: seq<Msg>, n: Msg, t: Table, ms: set<Msg>)
    requires Reached(s, t) && s.published <= ms
    requires |batch| <= BATCH_MAX && Distinct(batch) && forall m :: m in batch ==> m in s.queue
    requires n in batch && TableOf(n) == Some(t) && !Stored(Inserted(s.store.Of(t), GroupOf(batch, t), Done), n)
    ensures Collision(n, t, ms)
  {
    var bs, g := s.store.Of(t), GroupOf(batch, t);
    GroupHolds(batch, t, n);
    GroupIsBlock(batch, t, s.published);
    TakenIn(bs, g, n);
    var i :| 0 <= i < |bs| && Token(Ids(bs[i])) == Token(Ids(g));
    assert n in bs[i] ==> Stored(bs, n);
    assert Collide(bs[i], g, n, t, ms);
  }

  ghost predicate Held(s: State, n: Msg, t: Table) { n in s.acked ==> Stored(s.store.Of(t), n) }

  lemma StepSafe(s: State, e: Event, n: Msg, t: Table, ms: set<Msg>)
    requires Reached(s, t) && Enabled(s, e) && s.published <= ms
    requires TableOf(n) == Some(t) && !Collision(n, t, ms) && Held(s, n, t)
    ensures Held(Next(s, e), n, t)
  {
    if e.Deliver? {
      DeliveredOf(s, e.batch, e.fates, e.unheard, t);
      if n in s.acked {
        InsertedStores(s.store.Of(t), GroupOf(e.batch, t), e.fates.Of(t), n);
      } else if n in Next(s, e).acked {
        GroupHolds(e.batch, t, n);
        assert e.fates.Of(t) == Done;
        if !Stored(Next(s, e).store.Of(t), n) {
          DeliveryCollides(s, e.batch, n, t, ms);
        }
      }
    }
  }

  /** Without two such blocks no run loses the message, whatever fails and however it is redelivered. */
  lemma {:induction false} NeverLost(evs: seq<Event>, i: nat, n: Msg, t: Table, ms: set<Msg>)
    requires Valid(evs) && i <= |evs| && At(evs, i).published <= ms && TableOf(n) == Some(t) && !Collision(n, t, ms)
    ensures Held(At(evs, i), n, t)
  {
    if i > 0 {
      PublishedGrows(evs, i - 1, i);
      NeverLost(evs, i - 1, n, t, ms);
      RunReached(evs, i - 1, t);
      assert EnabledAt(evs, i - 1);
      StepSafe(At(evs, i - 1), evs[i - 1], n, t, ms);
    }
  }

  lemma Kept(n: Msg, t: Table, ms: set<Msg>)
    requires TableOf(n) == Some(t) && !Collision(n, t, ms)
    ensures !CanBeLost(n, t, ms)
  {
    if CanBeLost(n, t, ms) {
      var evs: seq<Event> :| At(evs, |evs|).published <= ms && Loses(evs, n, t);
      NeverLost(evs, |evs|, n, t, ms);
      StoredInRows(At(evs, |evs|).store.Of(t), n);
    }
  }

  /** A readable message can be lost iff two blocks of its table, at most 100 distinct messages
      each, make the same token and it is in one of them only. */
  lemma LostExactly(n: Msg, t: Table, ms: set<Msg>)
    requires TableOf(n) == Some(t)
    ensures CanBeLost(n, t, ms) <==> Collision(n, t, ms)
  {
    if Collision(n, t, ms) {
      var a: seq<Msg>, b: seq<Msg> :| Collide(a, b, n, t, ms);
      CollisionLoses(a, b, n, t, ms);
    } else {
      Kept(n, t, ms);
    }
  }

  /** Another message of the table. */
  predicate Other(m: Msg, n: Msg, t: Table, ms: set<Msg>) { m in ms && m.at != n.at && TableOf(m) == Some(t) }

  lemma CompanyCollides(n: Msg, m: Msg, t: Table, ms: set<Msg>)
    requires n in ms && Other(m, n, t, ms) && TableOf(n) == Some(t) && IdOf(n).None?
    ensures Collision(n, t, ms)
  {
    IdsOfOne(n);
    IdsOfTwo(m, n);
    assert Ids([m]) + [] == Ids([m]);
    assert Collide([m], [m, n], n, t, ms);
  }

  lemma CollisionHasOther(a: seq<Msg>, b: seq<Msg>, n: Msg, t: Table, ms: set<Msg>)
    requires Collide(a, b, n, t, ms)
    ensures Other(a[0], n, t, ms)
  {
    assert a[0] in SetOf(a) && n in SetOf(b);
  }

  /** A readable message without id can be lost iff another message of its table can be published. */
  lemma IdlessLostExactly(n: Msg, t: Table, ms: set<Msg>)
    requires n in ms && TableOf(n) == Some(t) && IdOf(n).None?
    ensures CanBeLost(n, t, ms) <==> exists m :: Other(m, n, t, ms)
  {
    LostExactly(n, t, ms);
    if m :| Other(m, n, t, ms) {
      CompanyCollides(n, m, t, ms);
    } else if Collision(n, t, ms) {
      var a: seq<Msg>, b: seq<Msg> :| Collide(a, b, n, t, ms);
      CollisionHasOther(a, b, n, t, ms);
    }
  }

  // ---------------------------------------------------------------- doubled

  /** Some run that publishes only these messages stores m more than once. */
  ghost predicate CanDouble(m: Msg, t: Table, ms: set<Msg>) {
    exists evs: seq<Event> :: Doubles(evs, m, t, ms)
  }

  ghost predicate Doubles(evs: seq<Event>, m: Msg, t: Table, ms: set<Msg>) {
    Valid(evs) && At(evs, |evs|).published <= ms && multiset(Rows(At(evs, |evs|).store.Of(t)))[m] >= 2
  }

  predicate OtherId(n: Msg, m: Msg, t: Table, ms: set<Msg>) { Other(n, m, t, ms) && IdOf(n).Some? }

  /** Where only m has an id, a group around m has the ids of m alone. */
  lemma {:induction false} OnlyIds(g: seq<Msg>, m: Msg)
    requires Distinct(g) && forall n :: n in g && n != m ==> IdOf(n).None?
    ensures Ids(g) == if m in g then Ids([m]) else []
  {
    if g != [] {
      var k := |g| - 1;
      var init := g[..k];
      assert g == init + [g[k]];
      assert forall n :: n in init ==> n in g;
      OnlyIds(init, m);
      IdsSnoc(init, g[k]);
      IdsOfOne(m);
      if g[k] == m {
        assert m !in init;
      }
    }
  }

  ghost predicate AtMostOne(s: State, m: Msg, t: Table) { multiset(Rows(s.store.Of(t)))[m] <= 1 }

  lemma BlockIds(b: seq<Msg>, m: Msg, t: Table, ms: set<Msg>)
    requires BlockOf(b, t, ms) && AtsDiffer(ms) && m in b && forall n :: !OtherId(n, m, t, ms)
    ensures Ids(b) == Ids([m])
  {
    forall n | n in b && n != m ensures IdOf(n).None? {
      assert n in SetOf(b) && m in SetOf(b);
      assert !OtherId(n, m, t, ms);
    }
    OnlyIds(b, m);
  }

  lemma DistinctOnce(b: seq<Msg>, m: Msg)
    requires Distinct(b)
    ensures multiset(b)[m] == if m in b then 1 else 0
  {
    if m in b {
      DistinctCount(b, m);
    }
  }

  /** A block newly added holds m only if no earlier one does. */
  lemma NewBlockOnce(bs: Blocks, g: seq<Msg>, m: Msg, t: Table, ms: set<Msg>)
    requires AtsDiffer(ms) && Blocky(bs, t, ms) && BlockOf(g, t, ms) && !HasToken(bs, Token(Ids(g)))
    requires (forall n :: !OtherId(n, m, t, ms)) && multiset(Rows(bs))[m] <= 1
    ensures multiset(Rows(bs + [g]))[m] <= 1
  {
    assert (bs + [g])[..|bs|] == bs;
    assert Rows(bs + [g]) == Rows(bs) + g;
    DistinctOnce(g, m);
    if m in g {
      StoredInRows(bs, m);
      BlockIds(g, m, t, ms);
      if Stored(bs, m) {
        var i :| 0 <= i < |bs| && m in bs[i];
        BlockIds(bs[i], m, t, ms);
      }
    }
  }

  lemma StepOnce(s: State, e: Event, m: Msg, t: Table, ms: set<Msg>)
    requires Reached(s, t) && Enabled(s, e) && s.published <= ms
    requires (forall n :: !OtherId(n, m, t, ms)) && AtMostOne(s, m, t)
    ensures AtMostOne(Next(s, e), m, t)
  {
    if e.Deliver? {
      var g := GroupOf(e.batch, t);
      DeliveredOf(s, e.batch, e.fates, e.unheard, t);
      if g != [] && !HasToken(s.store.Of(t), Token(Ids(g))) {
        GroupIsBlock(e.batch, t, s.published);
        assert forall n :: OtherId(n, m, t, s.published) ==> OtherId(n, m, t, ms);
        NewBlockOnce(s.store.Of(t), g, m, t, s.published);
      }
    }
  }

  /** While no other message of the table has an id, no run stores m twice. */
  lemma {:induction false} NeverDoubled(evs: seq<Event>, i: nat, m: Msg, t: Table, ms: set<Msg>)
    requires Valid(evs) && i <= |evs| && At(evs, i).published <= ms && forall n :: !OtherId(n, m, t, ms)
    ensures AtMostOne(At(evs, i), m, t)
  {
    if i > 0 {
      PublishedGrows(evs, i - 1, i);
      NeverDoubled(evs, i - 1, m, t, ms);
      RunReached(evs, i - 1, t);
      assert EnabledAt(evs, i - 1);
      StepOnce(At(evs, i - 1), evs[i - 1], m, t, ms);
    } else {
      assert At(evs, 0).store.Of(t) == [] && Rows([]) == [];
    }
  }

  lemma PairSet(m: Msg, n: Msg)
    ensures SetOf([m, n]) == {m, n}
  {}

  lemma DoubledBy(evs: seq<Event>, m: Msg, t: Table, ms: set<Msg>)
    requires Doubles(evs, m, t, ms)
    ensures CanDouble(m, t, ms)
  {}

  lemma OtherIdDoubles(m: Msg, n: Msg, t: Table, ms: set<Msg>)
    requires m in ms && TableOf(m) == Some(t) && OtherId(n, m, t, ms)
    ensures CanDouble(m, t, ms)
  {
    RegroupingDuplicates(m, n, t);
    PairSet(m, n);
    DoubledBy(Script([m, n], [m, n], Unreported, {}, [m]), m, t, ms);
  }

  /** A readable message can be stored more than once iff another message of its table that has
      an id can be published. */
  lemma DoubledExactly(m: Msg, t: Table, ms: set<Msg>)
    requires m in ms && TableOf(m) == Some(t)
    ensures CanDouble(m, t, ms) <==> exists n :: OtherId(n, m, t, ms)
  {
    if n :| OtherId(n, m, t, ms) {
      OtherIdDoubles(m, n, t, ms);
    } else if CanDouble(m, t, ms) {
      var evs: seq<Event> :| Doubles(evs, m, t, ms);
      NeverDoubled(evs, |evs|, m, t, ms);
    }
  }
}
