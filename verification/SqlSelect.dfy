/**
  A reader for whole SELECT statements over the reader of conditions: it finds the output list,
  the table, the condition, the grouping, the order and the limit by itself and takes the text
  only if nothing is left over.
 */
module SqlSelect {
  import opened Text
  import opened Sql
  import opened SqlScanning
  import opened SqlReading

  const AGGREGATES := {"count", "sum", "avg", "min", "max"}

  /** One output column: a term or, under an aggregate, a term or nothing. */
  datatype Output = Output(agg: string, term: Option<Term>, name: string)

  datatype Query = Query(
    outputs: seq<Output>,
    table: string,
    where: Cond,
    groupBy: seq<Term>,
    orderBy: Option<(Term, bool)>,
    limit: int)

  // ---------------------------------------------------------------- reading

  /** The name behind AS, or the column's own. */
  function ReadName(agg: string, term: Option<Term>, ts: seq<Tok>): Read<Output> {
    if |ts| > 1 && ts[0] == Word("AS") && ts[1].Word? then Got(Output(agg, term, ts[1].w), ts[2..])
    else if agg == "" && term.Some? && term.value.Column? then Got(Output(agg, term, term.value.name), ts)
    else No
  }

  predicate IsAggregate(ts: seq<Tok>) { |ts| > 2 && ts[0].Word? && ts[0].w in AGGREGATES && ts[1].LP? }

  function ReadOutput(ts: seq<Tok>): Read<Output> {
    if IsAggregate(ts) then
      if ts[2].RP? then ReadName(ts[0].w, None, ts[3..])
      else match ReadTerm(ts[2..])
        case No => No
        case Got(t, rest) => if Head(rest, RP) then ReadName(ts[0].w, Some(t), rest[1..]) else No
    else match ReadTerm(ts)
      case No => No
      case Got(t, rest) => ReadName("", Some(t), rest)
  }

  /** One or more, with commas between them. */
  function ReadList<T>(read: seq<Tok> -> Read<T>, ts: seq<Tok>, acc: seq<T>): Read<seq<T>>
    decreases |ts|
  {
    match read(ts)
    case No => No
    case Got(v, rest) =>
      if Head(rest, Comma) && |rest| <= |ts| then ReadList(read, rest[1..], acc + [v]) else Got(acc + [v], rest)
  }

  predicate HasBy(ts: seq<Tok>, kw: string) { |ts| > 1 && ts[0] == Word(kw) && ts[1] == Word("BY") }

  function ReadGroup(ts: seq<Tok>): Read<seq<Term>> {
    if HasBy(ts, "GROUP") then ReadList(ReadTerm, ts[2..], []) else Got([], ts)
  }

  function ReadOrder(ts: seq<Tok>): Read<Option<(Term, bool)>> {
    if HasBy(ts, "ORDER") then
      match ReadTerm(ts[2..])
      case No => No
      case Got(t, rest) =>
        if Head(rest, Word("DESC")) then Got(Some((t, true)), rest[1..])
        else if Head(rest, Word("ASC")) then Got(Some((t, false)), rest[1..])
        else No
    else Got(None, ts)
  }

  /** The limit closes the statement. */
  function ReadLimit(ts: seq<Tok>): Option<int> {
    if |ts| == 2 && ts[0] == Word("LIMIT") && ts[1].Number? && AllDigits(ts[1].digits) then
      Some(DigitsValue(ts[1].digits))
    else if |ts| == 3 && ts[0] == Word("LIMIT") && ts[1].Minus? && ts[2].Number? && AllDigits(ts[2].digits) then
      Some(Negated(DigitsValue(ts[2].digits)))
    else None
  }

  datatype End = End(groupBy: seq<Term>, orderBy: Option<(Term, bool)>, limit: int)

  function ReadEnd(ts: seq<Tok>): Option<End> {
    match ReadGroup(ts)
    case No => None
    case Got(g, r1) => match ReadOrder(r1)
      case No => None
      case Got(o, r2) => match ReadLimit(r2)
        case None => None
        case Some(n) => Some(End(g, o, n))
  }

  function ReadBody(outputs: seq<Output>, ts: seq<Tok>): Option<Query> {
    if |ts| > 2 && ts[0] == Word("FROM") && ts[1].Word? && ts[2] == Word("WHERE") then
      match ReadOr(ts[3..])
      case No => None
      case Got(c, rest) => match ReadEnd(rest)
        case None => None
        case Some(e) => Some(Query(outputs, ts[1].w, c, e.groupBy, e.orderBy, e.limit))
    else None
  }

  function ReadQuery(ts: seq<Tok>): Option<Query> {
    if !Head(ts, Word("SELECT")) then None
    else match ReadList(ReadOutput, ts[1..], [])
      case No => None
      case Got(outputs, rest) => ReadBody(outputs, rest)
  }

  /** What the text of a statement says. */
  function ReadSql(sql: string): Option<Query> {
    match SqlScan(sql)
    case None => None
    case Some(ts) => ReadQuery(ts)
  }

  /** The row is one the statement selects from. */
  predicate Chooses(sql: string, env: Env) { ReadSql(sql).Some? && EvalCond(ReadSql(sql).value.where, env) }

  // ---------------------------------------------------------------- lists

  /** Tokens that cannot extend a list element. */
  predicate StopsItem(rest: seq<Tok>) {
    rest != [] && (rest[0].Comma? || (rest[0].Word? && rest[0].w in {"FROM", "ORDER", "LIMIT"}))
  }

  ghost predicate Reads<T>(read: seq<Tok> -> Read<T>, ts: seq<Tok>, v: T) {
    forall rest {:trigger StopsItem(rest)} :: StopsItem(rest) ==> read(ts + rest) == Got(v, rest)
  }

  function After<T>(read: seq<Tok> -> Read<T>, vs: seq<T>, rest: seq<Tok>): Read<seq<T>> {
    if Head(rest, Comma) then ReadList(read, rest[1..], vs) else Got(vs, rest)
  }

  ghost predicate ListReads<T(!new)>(read: seq<Tok> -> Read<T>, ts: seq<Tok>, vs: seq<T>) {
    forall rest, acc {:trigger StopsItem(rest), After(read, acc + vs, rest)} ::
      StopsItem(rest) ==> ReadList(read, ts + rest, acc) == After(read, acc + vs, rest)
  }

  lemma ListOne<T(!new)>(read: seq<Tok> -> Read<T>, ts: seq<Tok>, v: T)
    requires Reads(read, ts, v)
    ensures ListReads(read, ts, [v])
  {
    forall rest, acc | StopsItem(rest) ensures ReadList(read, ts + rest, acc) == After(read, acc + [v], rest) {
      assert read(ts + rest) == Got(v, rest);
    }
  }

  lemma ListCat<T(!new)>(read: seq<Tok> -> Read<T>, ta: seq<Tok>, a: seq<T>, tb: seq<Tok>, b: seq<T>)
    requires ListReads(read, ta, a) && ListReads(read, tb, b)
    ensures ListReads(read, ta + [Comma] + tb, a + b)
  {
    forall rest, acc | StopsItem(rest)
      ensures ReadList(read, ta + [Comma] + tb + rest, acc) == After(read, acc + (a + b), rest)
    {
      var more := [Comma] + (tb + rest);
      assert ta + [Comma] + tb + rest == ta + more;
      assert StopsItem(more) && more[1..] == tb + rest;
      assert ReadList(read, ta + more, acc) == After(read, acc + a, more);
      assert ReadList(read, tb + rest, acc + a) == After(read, acc + a + b, rest);
      assert acc + a + b == acc + (a + b);
    }
  }

  /** A list that nothing follows with a comma. */
  lemma ListEnds<T(!new)>(read: seq<Tok> -> Read<T>, ts: seq<Tok>, vs: seq<T>, rest: seq<Tok>)
    requires ListReads(read, ts, vs) && StopsItem(rest) && !rest[0].Comma?
    ensures ReadList(read, ts + rest, []) == Got(vs, rest)
  {
    assert ReadList(read, ts + rest, []) == After(read, [] + vs, rest);
    assert [] + vs == vs;
  }

  ghost predicate ListText<T(!new)>(read: seq<Tok> -> Read<T>, a: string, ts: seq<Tok>, vs: seq<T>) {
    Open(SqlScan, a, ts) && ListReads(read, ts, vs)
  }

  /** `a, b` */
  lemma ListsText<T(!new)>(read: seq<Tok> -> Read<T>, a: string, ta: seq<Tok>, va: seq<T>, b: string, tb: seq<Tok>, vb: seq<T>)
    requires ListText(read, a, ta, va) && ListText(read, b, tb, vb)
    ensures ListText(read, a + ", " + b, ta + [Comma] + tb, va + vb)
  {
    CommaText(a, ta, b, tb);
    ListCat(read, ta, va, tb, vb);
  }

  lemma TermReads(ts: seq<Tok>, t: Term)
    requires TokensRead(ts, t)
    ensures Reads(ReadTerm, ts, t)
  {
    forall rest | StopsItem(rest) ensures ReadTerm(ts + rest) == Got(t, rest) {
      assert StopsTerm(rest);
    }
  }

  // ---------------------------------------------------------------- outputs

  /** A bare column. */
  lemma BareReads(c: string)
    ensures Reads(ReadOutput, [Word(c)], Output("", Some(Column(c)), c))
  {
    ColumnRead(c);
    forall rest | StopsItem(rest) ensures ReadOutput([Word(c)] + rest) == Got(Output("", Some(Column(c)), c), rest) {
      var ts := [Word(c)] + rest;
      assert ts[1] == rest[0];
      assert StopsTerm(rest);
      assert ReadTerm(ts) == Got(Column(c), rest);
    }
  }

  lemma NameRead(agg: string, term: Option<Term>, name: string, rest: seq<Tok>)
    ensures ReadName(agg, term, [Word("AS"), Word(name)] + rest) == Got(Output(agg, term, name), rest)
  {
    assert ([Word("AS"), Word(name)] + rest)[2..] == rest;
  }

  /** `t AS name` */
  lemma NamedReads(ts: seq<Tok>, t: Term, name: string)
    requires TokensRead(ts, t) && (|ts| == 1 || !(ts[0].Word? && ts[0].w in AGGREGATES))
    ensures Reads(ReadOutput, ts + [Word("AS"), Word(name)], Output("", Some(t), name))
  {
    forall rest | StopsItem(rest)
      ensures ReadOutput(ts + [Word("AS"), Word(name)] + rest) == Got(Output("", Some(t), name), rest)
    {
      var more := [Word("AS"), Word(name)] + rest;
      assert ts + [Word("AS"), Word(name)] + rest == ts + more;
      assert (ts + more)[0] == ts[0] && (|ts| == 1 ==> (ts + more)[1] == Word("AS"));
      assert StopsTerm(more);
      NameRead("", Some(t), name, rest);
    }
  }

  /** `agg(t) AS name` */
  lemma AggregateReads(agg: string, ts: seq<Tok>, t: Term, name: string)
    requires TokensRead(ts, t) && !ts[0].RP? && agg in AGGREGATES
    ensures Reads(ReadOutput, [Word(agg), LP] + ts + [RP] + [Word("AS"), Word(name)], Output(agg, Some(t), name))
  {
    forall rest | StopsItem(rest)
      ensures ReadOutput([Word(agg), LP] + ts + [RP] + [Word("AS"), Word(name)] + rest) == Got(Output(agg, Some(t), name), rest)
    {
      var more := [Word("AS"), Word(name)] + rest;
      var us := [RP] + more;
      var all := [Word(agg), LP] + (ts + us);
      assert [Word(agg), LP] + ts + [RP] + [Word("AS"), Word(name)] + rest == all;
      assert all[2] == ts[0] && all[2..] == ts + us && us[1..] == more;
      assert StopsTerm(us);
      NameRead(agg, Some(t), name, rest);
    }
  }

  /** `count() AS name` */
  lemma CountReads(name: string)
    ensures Reads(ReadOutput, [Word("count"), LP, RP] + [Word("AS"), Word(name)], Output("count", None, name))
  {
    forall rest | StopsItem(rest)
      ensures ReadOutput([Word("count"), LP, RP] + [Word("AS"), Word(name)] + rest) == Got(Output("count", None, name), rest)
    {
      var more := [Word("AS"), Word(name)] + rest;
      var all := [Word("count"), LP, RP] + more;
      assert [Word("count"), LP, RP] + [Word("AS"), Word(name)] + rest == all;
      assert all[3..] == more;
      NameRead("count", None, name, rest);
    }
  }

  // ---------------------------------------------------------------- the end of a statement

  lemma LimitRead(n: int)
    ensures ReadLimit([Word("LIMIT")] + SignedToks(n)) == Some(n)
  {
    DecimalRoundTrip(if n < 0 then -n else n);
  }

  lemma OrderRead(ts: seq<Tok>, t: Term, desc: bool, rest: seq<Tok>)
    requires TokensRead(ts, t)
    ensures ReadOrder([Word("ORDER")] + ([Word("BY")] + (ts + [Word(if desc then "DESC" else "ASC")])) + rest)
         == Got(Some((t, desc)), rest)
  {
    var dir := Word(if desc then "DESC" else "ASC");
    var more := [dir] + rest;
    var all := [Word("ORDER")] + ([Word("BY")] + (ts + [dir])) + rest;
    assert all == [Word("ORDER"), Word("BY")] + (ts + more);
    assert all[2..] == ts + more && more[1..] == rest;
    assert StopsTerm(more);
  }

  lemma GroupRead(ts: seq<Tok>, vs: seq<Term>, rest: seq<Tok>)
    requires ListReads(ReadTerm, ts, vs) && StopsItem(rest) && !rest[0].Comma?
    ensures ReadGroup([Word("GROUP")] + ([Word("BY")] + ts) + rest) == Got(vs, rest)
  {
    var all := [Word("GROUP")] + ([Word("BY")] + ts) + rest;
    assert all == [Word("GROUP"), Word("BY")] + (ts + rest);
    assert all[2..] == ts + rest;
    ListEnds(ReadTerm, ts, vs, rest);
  }

  // ---------------------------------------------------------------- the whole

  lemma BodyRead(outputs: seq<Output>, table: string, ts: seq<Tok>, c: Cond, rest: seq<Tok>, e: End)
    requires ReadOr(ts) == Got(c, rest) && ReadEnd(rest) == Some(e)
    ensures ReadBody(outputs, [Word("FROM"), Word(table), Word("WHERE")] + ts)
         == Some(Query(outputs, table, c, e.groupBy, e.orderBy, e.limit))
  {
    assert ([Word("FROM"), Word(table), Word("WHERE")] + ts)[3..] == ts;
  }

  lemma QueryRead(os: seq<Output>, to: seq<Tok>, table: string, ts: seq<Tok>, c: Cond, rest: seq<Tok>, e: End)
    requires ListReads(ReadOutput, to, os) && ReadOr(ts) == Got(c, rest) && ReadEnd(rest) == Some(e)
    ensures ReadQuery([Word("SELECT")] + to + [Word("FROM"), Word(table), Word("WHERE")] + ts)
         == Some(Query(os, table, c, e.groupBy, e.orderBy, e.limit))
  {
    var more := [Word("FROM"), Word(table), Word("WHERE")] + ts;
    var all := [Word("SELECT")] + to + [Word("FROM"), Word(table), Word("WHERE")] + ts;
    assert all == [Word("SELECT")] + (to + more);
    assert all[1..] == to + more;
    ListEnds(ReadOutput, to, os, more);
    BodyRead(os, table, ts, c, rest, e);
  }
}
