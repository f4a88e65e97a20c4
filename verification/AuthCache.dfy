/**
  The ingest gateway's API-key check and its 30-second cache (ingest/gateway/src/main.rs:459-532).
  A request runs in three atomic parts with other requests, database edits and time in between:
  the cache read, the database query, and the insertion that completes it.
 */
module AuthCache {
  import opened Text
  import opened RemapSyntax
  import RemapPanics

  /** Thirty seconds in nanoseconds. */
  const TTL := 30_000_000_000

  const SCOPE := "logs:ingest"

  datatype KeyRow = KeyRow(tenant: string, scopes: seq<string>, revoked: bool, expires: Option<int>)

  datatype Config = Config(retention: Option<int>, masking: Option<string>)

  datatype Transform = Transform(enabled: bool, program: string)

  /** The four tables the lookup joins; keys by hash, the rest by tenant. */
  datatype Db = Db(
    keys: map<string, KeyRow>,
    tenants: map<string, int>,
    config: map<string, Config>,
    transforms: map<string, Transform>)

  datatype Auth = Auth(tenant: string, retention: int, masking: string, transform: Option<seq<Stmt>>)

  datatype Answer = NoKey | NoScope | Crash | Granted(auth: Auth)

  // ---------------------------------------------------------------- lookup

  function Clamp(n: int): int { if n < 1 then 1 else if n > 65535 then 65535 else n }

  function ProgramSource(db: Db, tenant: string): string {
    if tenant in db.transforms && db.transforms[tenant].enabled then db.transforms[tenant].program else ""
  }

  /** A bad or empty program counts as none; a panicking parse takes the request down. */
  function Compiled(src: string): Outcome<Option<seq<Stmt>>> {
    if Trim(src) == "" then Value(None)
    else match ParseProgram(src)
      case Value(p) => Value(if p == [] then None else Some(p))
      case Failed => Value(None)
      case Panicked => Panicked
  }

  function Retention(db: Db, tenant: string): int
    requires tenant in db.tenants
  {
    if tenant in db.config && db.config[tenant].retention.Some? then db.config[tenant].retention.value
    else db.tenants[tenant]
  }

  function Masking(db: Db, tenant: string): string {
    if tenant in db.config && db.config[tenant].masking.Some? then db.config[tenant].masking.value else "{}"
  }

  predicate Usable(row: KeyRow, now: int) {
    !row.revoked && (row.expires.None? || row.expires.value > now)
  }

  function Lookup(db: Db, key: string, now: int): Answer {
    if key !in db.keys || db.keys[key].tenant !in db.tenants || !Usable(db.keys[key], now) then NoKey
    else if SCOPE !in db.keys[key].scopes then NoScope
    else
      var tenant := db.keys[key].tenant;
      match Compiled(ProgramSource(db, tenant))
      case Value(t) => Granted(Auth(tenant, Clamp(Retention(db, tenant)), Masking(db, tenant), t))
      case _ => Crash
  }

  /** The key is in the database with its tenant, not revoked and not expired. */
  ghost predicate Lives(db: Db, key: string, now: int) {
    && key in db.keys && db.keys[key].tenant in db.tenants && !db.keys[key].revoked
    && (db.keys[key].expires.Some? ==> now < db.keys[key].expires.value)
  }

  /** The program a tenant's events are run through: an enabled one that parses to some statement. */
  ghost predicate Transforms(db: Db, tenant: string, program: seq<Stmt>) {
    && tenant in db.transforms && db.transforms[tenant].enabled && Trim(db.transforms[tenant].program) != ""
    && ParseProgram(db.transforms[tenant].program) == Value(program) && program != []
  }

  /** The tenant's own setting, or the general one. */
  ghost predicate Setting<T>(own: Option<T>, general: T, r: T) { r == if own.Some? then own.value else general }

  function ConfigOf(db: Db, tenant: string): Config {
    if tenant in db.config then db.config[tenant] else Config(None, None)
  }

  /** A grant carries the key's tenant, its retention held between 1 and 65535 days, its masking
      actions, and its program. */
  ghost predicate Carries(db: Db, tenant: string, a: Auth) {
    && a.tenant == tenant && tenant in db.tenants
    && (exists days :: Setting(ConfigOf(db, tenant).retention, db.tenants[tenant], days)
          && a.retention == if days < 1 then 1 else if days > 65535 then 65535 else days)
    && Setting(ConfigOf(db, tenant).masking, "{}", a.masking)
    && (a.transform.Some? ==> Transforms(db, tenant, a.transform.value))
    && (a.transform.None? ==> forall program :: !Transforms(db, tenant, program))
  }

  /** What each answer means: no key iff it does not live, no scope iff it lives without the ingest
      scope, and what a grant carries. */
  lemma GrantMeans(db: Db, key: string, now: int)
    ensures Lookup(db, key, now) == NoKey <==> !Lives(db, key, now)
    ensures Lookup(db, key, now) == NoScope <==> Lives(db, key, now) && "logs:ingest" !in db.keys[key].scopes
    ensures Lookup(db, key, now).Granted? ==> Carries(db, db.keys[key].tenant, Lookup(db, key, now).auth)
  {
    if Lookup(db, key, now).Granted? {
      var tenant := db.keys[key].tenant;
      assert Setting(ConfigOf(db, tenant).retention, db.tenants[tenant], Retention(db, tenant));
    }
  }

  /** A key that would be granted takes the request down instead iff its tenant's enabled program
      has a line the remap parser panics at. */
  lemma CrashExactly(db: Db, key: string, now: int)
    requires key in db.keys && db.keys[key].tenant in db.tenants && Usable(db.keys[key], now) && SCOPE in db.keys[key].scopes
    ensures var src := ProgramSource(db, db.keys[key].tenant);
            && (Lookup(db, key, now) == Crash <==>
                Trim(src) != "" && exists k: nat :: RemapPanics.CutLine(Lines(src), k))
            && (Lookup(db, key, now) == Crash || Lookup(db, key, now).Granted?)
  {
    RemapPanics.ProgramPanicsExactly(ProgramSource(db, db.keys[key].tenant));
  }

  // ---------------------------------------------------------------- runs

  datatype Entry = Entry(auth: Auth, at: int)

  /** A request between its parts: missed in the cache, or answered at a moment. */
  datatype Flight = Missed(key: string) | Answered(key: string, auth: Auth, readAt: int)

  datatype State = State(now: int, db: Db, cache: map<string, Entry>, flights: map<nat, Flight>)

  datatype Event =
    | Tick(d: nat)
    | Edit(db: Db)
    | Arrive(id: nat, key: string)
    | Query(id: nat, up: bool)
    | Finish(id: nat)
    | Abandon(id: nat)

  /** What the database answers; the laws of the runs hold for any. */
  type Look = (Db, string, int) -> Answer

  predicate Hit(s: State, key: string) { key != "" && key in s.cache && s.now - s.cache[key].at < TTL }

  function Next(look: Look, s: State, e: Event): State {
    match e
    case Tick(d) => s.(now := s.now + d)
    case Edit(db) => s.(db := db)
    case Arrive(id, key) =>
      if key == "" || Hit(s, key) then s else s.(flights := s.flights[id := Missed(key)])
    case Query(id, up) =>
      if id !in s.flights || !s.flights[id].Missed? then s
      else
        var key := s.flights[id].key;
        var answer := look(s.db, key, s.now);
        if up && answer.Granted? then s.(flights := s.flights[id := Answered(key, answer.auth, s.now)])
        else s.(flights := s.flights - {id})
    case Finish(id) =>
      if id !in s.flights || !s.flights[id].Answered? then s
      else
        var f := s.flights[id];
        s.(cache := s.cache[f.key := Entry(f.auth, s.now)], flights := s.flights - {id})
    case Abandon(id) => s.(flights := s.flights - {id})
  }

  /** The key and authorisation of a request accepted by the event. */
  function Accepted(s: State, e: Event): Option<(string, Auth)> {
    match e
    case Arrive(_, key) => if Hit(s, key) then Some((key, s.cache[key].auth)) else None
    case Finish(id) =>
      if id in s.flights && s.flights[id].Answered? then Some((s.flights[id].key, s.flights[id].auth)) else None
    case _ => None
  }

  function Start(now: int, db: Db): State { State(now, db, map[], map[]) }

  function At(look: Look, init: State, evs: seq<Event>, i: nat): State
    requires i <= |evs|
  {
    if i == 0 then init else Next(look, At(look, init, evs, i - 1), evs[i - 1])
  }

  /** The lookup gives this authorisation at point j of the run, at time t. */
  ghost predicate GrantedAt(look: Look, init: State, evs: seq<Event>, j: nat, key: string, auth: Auth, t: int)
    requires j <= |evs|
  {
    At(look, init, evs, j).now == t && look(At(look, init, evs, j).db, key, t) == Granted(auth)
  }

  /** Some point of the run up to i, at a time in [lo, hi], grants it. */
  ghost predicate Backed(look: Look, init: State, evs: seq<Event>, i: nat, key: string, auth: Auth, lo: int, hi: int)
    requires i <= |evs|
  {
    exists j: nat, t: int :: j <= i && lo <= t <= hi && GrantedAt(look, init, evs, j, key, auth, t)
  }

  /** Every completion follows its query within `delay`. */
  ghost predicate Prompt(look: Look, init: State, evs: seq<Event>, delay: nat) {
    forall i: nat, id: nat :: i < |evs| && evs[i] == Finish(id) ==> InTime(At(look, init, evs, i), id, delay)
  }

  ghost predicate InTime(s: State, id: nat, delay: nat) {
    id in s.flights && s.flights[id].Answered? ==> s.now - s.flights[id].readAt <= delay
  }

  ghost predicate EntryOk(look: Look, init: State, evs: seq<Event>, i: nat, delay: nat, key: string)
    requires i <= |evs| && key in At(look, init, evs, i).cache
  {
    var e := At(look, init, evs, i).cache[key];
    e.at <= At(look, init, evs, i).now && Backed(look, init, evs, i, key, e.auth, e.at - delay, e.at)
  }

  ghost predicate FlightOk(look: Look, init: State, evs: seq<Event>, i: nat, id: nat)
    requires i <= |evs| && id in At(look, init, evs, i).flights
  {
    var f := At(look, init, evs, i).flights[id];
    f.Answered? ==> f.readAt <= At(look, init, evs, i).now && Backed(look, init, evs, i, f.key, f.auth, f.readAt, f.readAt)
  }

  /** Everything in the cache or in flight was granted at a recorded earlier moment. */
  ghost predicate Grounded(look: Look, init: State, evs: seq<Event>, i: nat, delay: nat)
    requires i <= |evs|
  {
    && (forall key :: key in At(look, init, evs, i).cache ==> EntryOk(look, init, evs, i, delay, key))
    && (forall id :: id in At(look, init, evs, i).flights ==> FlightOk(look, init, evs, i, id))
  }

  lemma BackedLater(look: Look, init: State, evs: seq<Event>, i: nat, key: string, auth: Auth, lo: int, hi: int, lo': int, hi': int)
    requires i < |evs| && Backed(look, init, evs, i, key, auth, lo, hi) && lo' <= lo && hi <= hi'
    ensures Backed(look, init, evs, i + 1, key, auth, lo', hi')
  {
    var j: nat, t: int :| j <= i && lo <= t <= hi && GrantedAt(look, init, evs, j, key, auth, t);
  }

  lemma EntryStep(look: Look, init: State, evs: seq<Event>, i: nat, delay: nat, key: string)
    requires i < |evs| && Grounded(look, init, evs, i, delay) && Prompt(look, init, evs, delay)
    requires key in At(look, init, evs, i + 1).cache
    ensures EntryOk(look, init, evs, i + 1, delay, key)
  {
    var s := At(look, init, evs, i);
    if evs[i].Finish? && evs[i].id in s.flights && s.flights[evs[i].id].Answered? && s.flights[evs[i].id].key == key {
      var f := s.flights[evs[i].id];
      assert FlightOk(look, init, evs, i, evs[i].id);
      assert evs[i] == Finish(evs[i].id) && InTime(s, evs[i].id, delay);
      BackedLater(look, init, evs, i, key, f.auth, f.readAt, f.readAt, s.now - delay, s.now);
    } else {
      assert EntryOk(look, init, evs, i, delay, key);
      var e := s.cache[key];
      BackedLater(look, init, evs, i, key, e.auth, e.at - delay, e.at, e.at - delay, e.at);
    }
  }

  lemma FlightStep(look: Look, init: State, evs: seq<Event>, i: nat, delay: nat, id: nat)
    requires i < |evs| && Grounded(look, init, evs, i, delay) && id in At(look, init, evs, i + 1).flights
    ensures FlightOk(look, init, evs, i + 1, id)
  {
    var s, s' := At(look, init, evs, i), At(look, init, evs, i + 1);
    var f := s'.flights[id];
    if f.Answered? {
      if id in s.flights && s.flights[id] == f {
        assert FlightOk(look, init, evs, i, id);
        BackedLater(look, init, evs, i, f.key, f.auth, f.readAt, f.readAt, f.readAt, f.readAt);
      } else {
        assert GrantedAt(look, init, evs, i, f.key, f.auth, s.now);
        BackedLater(look, init, evs, i, f.key, f.auth, s.now, s.now, f.readAt, f.readAt);
      }
    }
  }

  lemma {:induction false} AlwaysGrounded(look: Look, now: int, db: Db, evs: seq<Event>, i: nat, delay: nat)
    requires i <= |evs| && Prompt(look, Start(now, db), evs, delay)
    ensures Grounded(look, Start(now, db), evs, i, delay)
  {
    var init := Start(now, db);
    if i > 0 {
      AlwaysGrounded(look, now, db, evs, i - 1, delay);
      forall key | key in At(look, init, evs, i).cache ensures EntryOk(look, init, evs, i, delay, key) {
        EntryStep(look, init, evs, i - 1, delay, key);
      }
      forall id | id in At(look, init, evs, i).flights ensures FlightOk(look, init, evs, i, id) {
        FlightStep(look, init, evs, i - 1, delay, id);
      }
    }
  }

  /** A request accepted at time t carries what the lookup gave, with the ingest scope, at a time
      in (t - 30 s - delay, t]; with completions that follow their query at once, in (t - 30 s, t]. */
  lemma AcceptedIsRecent(look: Look, now: int, db: Db, evs: seq<Event>, i: nat, delay: nat)
    requires i < |evs| && Prompt(look, Start(now, db), evs, delay)
    requires Accepted(At(look, Start(now, db), evs, i), evs[i]).Some?
    ensures var s := At(look, Start(now, db), evs, i);
            var (key, auth) := Accepted(s, evs[i]).value;
            Backed(look, Start(now, db), evs, i, key, auth, s.now - 30_000_000_000 - delay + 1, s.now)
  {
    var init := Start(now, db);
    var s := At(look, init, evs, i);
    AlwaysGrounded(look, now, db, evs, i, delay);
    if evs[i].Arrive? {
      var key := evs[i].key;
      assert EntryOk(look, init, evs, i, delay, key);
      var e := s.cache[key];
      var j: nat, t: int :| j <= i && e.at - delay <= t <= e.at && GrantedAt(look, init, evs, j, key, e.auth, t);
    } else {
      var id := evs[i].id;
      assert FlightOk(look, init, evs, i, id);
      assert evs[i] == Finish(id) && InTime(s, id, delay);
      var f := s.flights[id];
      var j: nat, t: int :| j <= i && f.readAt <= t <= f.readAt && GrantedAt(look, init, evs, j, f.key, f.auth, t);
    }
  }

  lemma {:induction false} TimeMoves(look: Look, init: State, evs: seq<Event>, i: nat, j: nat)
    requires i <= j <= |evs|
    ensures At(look, init, evs, i).now <= At(look, init, evs, j).now
    decreases j
  {
    if i < j {
      TimeMoves(look, init, evs, i, j - 1);
    }
  }

  /** A key that is gone, revoked or stripped of the scope from point j on is refused once the
      cache time and the completion delay have passed. */
  lemma RevocationTakesEffect(look: Look, now: int, db: Db, evs: seq<Event>, j: nat, i: nat, delay: nat, key: string)
    requires j <= i < |evs| && Prompt(look, Start(now, db), evs, delay)
    requires forall k: nat :: j <= k <= i ==>
      !look(At(look, Start(now, db), evs, k).db, key, At(look, Start(now, db), evs, k).now).Granted?
    requires At(look, Start(now, db), evs, i).now >= At(look, Start(now, db), evs, j).now + 30_000_000_000 + delay
    ensures match Accepted(At(look, Start(now, db), evs, i), evs[i]) case Some(a) => a.0 != key case None => true
  {
    var init := Start(now, db);
    var s := At(look, init, evs, i);
    var a := Accepted(s, evs[i]);
    if a.Some? && a.value.0 == key {
      AcceptedIsRecent(look, now, db, evs, i, delay);
      var k: nat, t: int :| k <= i && s.now - TTL - delay + 1 <= t <= s.now
                            && GrantedAt(look, init, evs, k, key, a.value.1, t);
      if k < j {
        TimeMoves(look, init, evs, k, j);
      }
    }
  }

  // ---------------------------------------------------------------- a late completion

  function Revoked(db: Db, key: string): Db
    requires key in db.keys
  {
    db.(keys := db.keys[key := db.keys[key].(revoked := true)])
  }

  /** Query, revoke, wait `late`, complete, wait out the rest of 30 seconds less one step, ask again. */
  function LateRun(key: string, db: Db, late: nat): seq<Event>
    requires key in db.keys
  {
    [Arrive(0, key), Query(0, true), Edit(Revoked(db, key)), Tick(late), Finish(0), Tick(TTL - 1), Arrive(1, key)]
  }

  lemma LateStates(look: Look, db: Db, key: string, late: nat)
    requires key != "" && key in db.keys && look(db, key, 0).Granted?
    ensures var evs := LateRun(key, db, late);
            var init, auth := Start(0, db), look(db, key, 0).auth;
            var gone := Revoked(db, key);
            && At(look, init, evs, 1) == State(0, db, map[], map[0 := Missed(key)])
            && At(look, init, evs, 2) == State(0, db, map[], map[0 := Answered(key, auth, 0)])
            && At(look, init, evs, 3) == State(0, gone, map[], map[0 := Answered(key, auth, 0)])
            && At(look, init, evs, 4) == State(late, gone, map[], map[0 := Answered(key, auth, 0)])
            && At(look, init, evs, 5) == State(late, gone, map[key := Entry(auth, late)], map[])
            && At(look, init, evs, 6) == State(late + TTL - 1, gone, map[key := Entry(auth, late)], map[])
  {
    var evs := LateRun(key, db, late);
    var init := Start(0, db);
    assert At(look, init, evs, 0) == init;
    assert At(look, init, evs, 1) == Next(look, At(look, init, evs, 0), evs[0]);
    assert At(look, init, evs, 2) == Next(look, At(look, init, evs, 1), evs[1]);
    assert At(look, init, evs, 3) == Next(look, At(look, init, evs, 2), evs[2]);
    assert At(look, init, evs, 4) == Next(look, At(look, init, evs, 3), evs[3]);
    assert At(look, init, evs, 5) == Next(look, At(look, init, evs, 4), evs[4]);
    assert At(look, init, evs, 6) == Next(look, At(look, init, evs, 5), evs[5]);
  }

  /** The bound is exact: a completion `late` after its query lets a revoked key in at a moment
      from which the last grant is 30 s + late - 1 away, so for any late completion the plain
      30-second window is not met. */
  lemma LateCompletionStretches(look: Look, db: Db, key: string, late: nat)
    requires key != "" && key in db.keys && look(db, key, 0).Granted?
    requires forall t: int :: !look(Revoked(db, key), key, t).Granted?
    ensures var evs := LateRun(key, db, late);
            var init, auth := Start(0, db), look(db, key, 0).auth;
            && Accepted(At(look, init, evs, 6), evs[6]) == Some((key, auth))
            && (forall lo: int, hi: int :: Backed(look, init, evs, 6, key, auth, lo, hi) ==> lo <= 0)
            && (late > 0 ==> !Backed(look, init, evs, 6, key, auth, At(look, init, evs, 6).now - TTL + 1, At(look, init, evs, 6).now))
  {
    var evs := LateRun(key, db, late);
    var init, auth := Start(0, db), look(db, key, 0).auth;
    LateStates(look, db, key, late);
    forall lo: int, hi: int | Backed(look, init, evs, 6, key, auth, lo, hi) ensures lo <= 0 {
      var j: nat, t: int :| j <= 6 && lo <= t <= hi && GrantedAt(look, init, evs, j, key, auth, t);
      assert At(look, init, evs, 0).now == 0;
    }
  }

  // ---------------------------------------------------------------- the database's lookup

  /** The key is live and carries the ingest scope at point j, at time t. */
  ghost predicate LiveAt(init: State, evs: seq<Event>, j: nat, key: string, tenant: string, t: int)
    requires j <= |evs|
  {
    var s := At(Lookup, init, evs, j);
    && s.now == t && key in s.db.keys
    && Usable(s.db.keys[key], t) && SCOPE in s.db.keys[key].scopes && s.db.keys[key].tenant == tenant
  }

  lemma GrantIsLive(init: State, evs: seq<Event>, j: nat, key: string, auth: Auth, t: int)
    requires j <= |evs| && GrantedAt(Lookup, init, evs, j, key, auth, t)
    ensures LiveAt(init, evs, j, key, auth.tenant, t)
  {
    GrantMeans(At(Lookup, init, evs, j).db, key, t);
  }

  /** Whoever is accepted for a tenant held, within the window, a live key of that tenant with the
      ingest scope. */
  lemma AcceptedKeyWasLive(now: int, db: Db, evs: seq<Event>, i: nat, delay: nat)
    requires i < |evs| && Prompt(Lookup, Start(now, db), evs, delay)
    requires Accepted(At(Lookup, Start(now, db), evs, i), evs[i]).Some?
    ensures var s := At(Lookup, Start(now, db), evs, i);
            var (key, auth) := Accepted(s, evs[i]).value;
            exists j: nat, t: int :: j <= i && s.now - 30_000_000_000 - delay < t <= s.now
                                     && LiveAt(Start(now, db), evs, j, key, auth.tenant, t)
  {
    var init := Start(now, db);
    var s := At(Lookup, init, evs, i);
    var (key, auth) := Accepted(s, evs[i]).value;
    AcceptedIsRecent(Lookup, now, db, evs, i, delay);
    var j: nat, t: int :| j <= i && s.now - TTL - delay + 1 <= t <= s.now && GrantedAt(Lookup, init, evs, j, key, auth, t);
    GrantIsLive(init, evs, j, key, auth, t);
  }

  lemma RevokedIsRefused(db: Db, key: string, t: int)
    requires key in db.keys
    ensures !Lookup(Revoked(db, key), key, t).Granted?
  {}

  /** For the gateway's own lookup: any key that is granted at time 0 is let in again after its
      revocation, and after a late completion at a moment the plain 30-second window excludes. */
  lemma RevokedKeyLetIn(db: Db, key: string, late: nat)
    requires key != "" && Lookup(db, key, 0).Granted?
    ensures key in db.keys
    ensures var evs := LateRun(key, db, late);
            var init, auth := Start(0, db), Lookup(db, key, 0).auth;
            && Accepted(At(Lookup, init, evs, 6), evs[6]) == Some((key, auth))
            && At(Lookup, init, evs, 6).db == Revoked(db, key)
            && (late > 0 ==> !Backed(Lookup, init, evs, 6, key, auth, At(Lookup, init, evs, 6).now - TTL + 1, At(Lookup, init, evs, 6).now))
  {
    forall t: int ensures !Lookup(Revoked(db, key), key, t).Granted? {
      RevokedIsRefused(db, key, t);
    }
    LateStates(Lookup, db, key, late);
    LateCompletionStretches(Lookup, db, key, late);
  }

  // ---------------------------------------------------------------- the gateway

  class Gateway {
    var now: int
    var db: Db
    var cache: map<string, Entry>
    var flights: map<nat, Flight>

    ghost function View(): State
      reads this
    {
      State(now, db, cache, flights)
    }

    constructor (now: int, db: Db)
      ensures View() == Start(now, db)
    {
      this.now, this.db, cache, flights := now, db, map[], map[];
    }

    /** Up to the cache read. */
    method Begin(id: nat, key: string) returns (r: Option<Auth>)
      modifies this`flights
      ensures View() == Next(Lookup, old(View()), Arrive(id, key))
      ensures r == match Accepted(old(View()), Arrive(id, key)) case Some(a) => Some(a.1) case None => None
    {
      if key == "" {
        return None;
      }
      if key in cache && now - cache[key].at < TTL {
        return Some(cache[key].auth);
      }
      flights := flights[id := Missed(key)];
      r := None;
    }

    /** The database query; None while the answer is a grant still to be completed. */
    method Ask(id: nat, up: bool) returns (refusal: Option<Answer>)
      requires id in flights && flights[id].Missed?
      modifies this`flights
      ensures View() == Next(Lookup, old(View()), Query(id, up))
      ensures up ==> refusal == (var a := Lookup(db, old(flights)[id].key, now); if a.Granted? then None else Some(a))
    {
      if !up {
        flights := flights - {id};
        return None;
      }
      var key := flights[id].key;
      var answer := Lookup(db, key, now);
      if answer.Granted? {
        flights := flights[id := Answered(key, answer.auth, now)];
        return None;
      }
      flights := flights - {id};
      return Some(answer);
    }

    /** The insertion that completes a request. */
    method Complete(id: nat) returns (auth: Auth)
      requires id in flights && flights[id].Answered?
      modifies this`cache, this`flights
      ensures View() == Next(Lookup, old(View()), Finish(id))
      ensures Accepted(old(View()), Finish(id)) == Some((old(flights)[id].key, auth))
    {
      auth := flights[id].auth;
      cache := cache[flights[id].key := Entry(auth, now)];
      flights := flights - {id};
    }
  }
}
