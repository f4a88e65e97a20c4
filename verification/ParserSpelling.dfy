/**
  How an accepted statement is spelled (domains/query/parser.go:46-247): keyword by keyword and
  clause by clause, every part of the statement stands in the tokens, and nothing else does.
 */
module ParserSpelling {
  import opened Text
  import opened Lexer
  import opened Ast
  import opened ParserSpec
  import opened ParserLaws

  // ---------------------------------------------------------------- the spelling of a clause

  /** The keyword stands at p, in any letter case. */
  ghost predicate Word(ts: seq<Token>, p: nat, kw: string) { p < |ts| && ts[p].Ident? && Lower(ts[p].text) == kw }

  /** The dotted field from p to q, as written. */
  ghost predicate FieldSpan(ts: seq<Token>, p: nat, f: Field, q: nat) {
    p <= q < |ts| && ts[p..q] == PrintField(f) && !ts[q].Dot?
  }

  /** AS and the alias; AS with no identifier behind it names nothing. */
  ghost predicate AliasSpan(ts: seq<Token>, p: nat, alias: string, q: nat) {
    && p <= q < |ts|
    && if !Word(ts, p, "as") then alias == "" && q == p
       else if p + 1 < |ts| && ts[p + 1].Ident? then ts[p + 1] == Ident(alias) && q == p + 2
       else alias == "" && q == p + 1
  }

  ghost predicate ArgSpan(ts: seq<Token>, p: nat, f: Option<Field>, q: nat) {
    match f
    case None => q == p + 1 < |ts| && ts[p].Star?
    case Some(g) => FieldSpan(ts, p, g, q)
  }

  ghost predicate CallSpan(ts: seq<Token>, p: nat, it: SelectItem, q: nat) {
    && p + 2 < |ts| && it.agg in {"count", "sum", "avg", "min", "max"} && Word(ts, p, it.agg) && ts[p + 1].LParen?
    && exists m: nat :: ArgSpan(ts, p + 2, it.field, m) && ts[m].RParen? && AliasSpan(ts, m + 1, it.alias, q)
  }

  ghost predicate ColumnSpan(ts: seq<Token>, p: nat, it: SelectItem, q: nat) {
    && it.agg == "" && it.field.Some?
    && exists m: nat :: FieldSpan(ts, p, it.field.value, m) && AliasSpan(ts, m, it.alias, q)
  }

  /** A bare star, an aggregate call or a column. */
  ghost predicate ItemSpan(ts: seq<Token>, p: nat, it: SelectItem, q: nat) {
    || (q == p + 1 < |ts| && ts[p].Star? && it == SelectItem("", None, ""))
    || CallSpan(ts, p, it, q)
    || ColumnSpan(ts, p, it, q)
  }

  ghost predicate ItemsSpan(ts: seq<Token>, p: nat, items: seq<SelectItem>, q: nat)
    decreases |items|
  {
    && items != []
    && exists m: nat :: ItemSpan(ts, p, items[0], m) && m < |ts|
         && if |items| == 1 then q == m && !ts[m].Comma? else ts[m].Comma? && ItemsSpan(ts, m + 1, items[1..], q)
  }

  ghost predicate FieldsSpan(ts: seq<Token>, p: nat, fs: seq<Field>, q: nat)
    decreases |fs|
  {
    && fs != []
    && exists m: nat :: FieldSpan(ts, p, fs[0], m)
         && if |fs| == 1 then q == m && !ts[m].Comma? else ts[m].Comma? && FieldsSpan(ts, m + 1, fs[1..], q)
  }

  /** Table names are read in any letter case. */
  ghost predicate FromSpan(ts: seq<Token>, p: nat, table: string, q: nat) {
    q == p + 2 < |ts| && Word(ts, p, "from") && Word(ts, p + 1, table)
  }

  /** The predicate prints back to what is written, up to a plus before a zero duration. */
  ghost predicate WhereSpan(ts: seq<Token>, p: nat, w: Option<Expr>, q: nat) {
    match w
    case None => q == p && !Word(ts, p, "where")
    case Some(e) => Word(ts, p, "where") && IsOr(e) && Back(ts, p + 1, q, Print(e))
  }

  ghost predicate GroupSpan(ts: seq<Token>, p: nat, fs: seq<Field>, q: nat) {
    if fs == [] then q == p && !Word(ts, p, "group")
    else Word(ts, p, "group") && Word(ts, p + 1, "by") && FieldsSpan(ts, p + 2, fs, q)
  }

  /** Descending only where DESC is written. */
  ghost predicate DirSpan(ts: seq<Token>, p: nat, desc: bool, q: nat) {
    && (desc <==> Word(ts, p, "desc")) && q == if desc || Word(ts, p, "asc") then p + 1 else p
  }

  ghost predicate OrderSpan(ts: seq<Token>, p: nat, ob: Option<OrderItem>, q: nat) {
    match ob
    case None => q == p && !Word(ts, p, "order")
    case Some(o) =>
      Word(ts, p, "order") && Word(ts, p + 1, "by")
      && exists m: nat :: FieldSpan(ts, p + 2, o.field, m) && DirSpan(ts, m, o.desc, q)
  }

  ghost predicate LimitSpan(ts: seq<Token>, p: nat, n: int, q: nat) {
    if !Word(ts, p, "limit") then n == 0 && q == p
    else q == p + 2 < |ts| && ts[p + 1].Num? && (AllDigits(ts[p + 1].text) ==> n == DigitsValue(ts[p + 1].text) < TWO63)
  }

  ghost predicate SearchSpan(ts: seq<Token>, s: Stmt, e: nat) {
    && s == Stmt(Search, s.search, s.table, [], s.where, [], None, s.limit)
    && |ts| > 4 && Word(ts, 0, "search") && ts[1] == Str(s.search) && FromSpan(ts, 2, s.table, 4)
    && exists m: nat :: WhereSpan(ts, 4, s.where, m) && LimitSpan(ts, m, s.limit, e)
  }

  ghost predicate TailSpan(ts: seq<Token>, s: Stmt, e: nat) {
    && s == Stmt(Tail, "", s.table, [], s.where, [], None, 0)
    && Word(ts, 0, "tail") && FromSpan(ts, 1, s.table, 3) && WhereSpan(ts, 3, s.where, e)
  }

  ghost predicate EndSpan(ts: seq<Token>, p: nat, s: Stmt, e: nat) {
    exists g: nat, o: nat :: GroupSpan(ts, p, s.groupBy, g) && OrderSpan(ts, g, s.orderBy, o) && LimitSpan(ts, o, s.limit, e)
  }

  ghost predicate SelectSpan(ts: seq<Token>, s: Stmt, e: nat) {
    && s.kind == Select && s.search == "" && Word(ts, 0, "select")
    && exists i: nat, w: nat :: ItemsSpan(ts, 1, s.select, i) && FromSpan(ts, i, s.table, i + 2)
         && WhereSpan(ts, i + 2, s.where, w) && EndSpan(ts, w, s, e)
  }

  /** The statement is what all the tokens up to the end spell. */
  ghost predicate Spells(ts: seq<Token>, s: Stmt) {
    exists e: nat :: e < |ts| && ts[e].EOF? && (SearchSpan(ts, s, e) || TailSpan(ts, s, e) || SelectSpan(ts, s, e))
  }

  // ---------------------------------------------------------------- what is parsed is spelled

  /** Keywords and their folded forms. */
  lemma Folded()
    ensures Lower("SEARCH") == "search" && Lower("SELECT") == "select" && Lower("TAIL") == "tail"
    ensures Lower("FROM") == "from" && Lower("WHERE") == "where" && Lower("LIMIT") == "limit" && Lower("AS") == "as"
    ensures Lower("GROUP") == "group" && Lower("ORDER") == "order" && Lower("BY") == "by"
    ensures Lower("ASC") == "asc" && Lower("DESC") == "desc"
  {}

  lemma {:induction false} RestSpells(ts: seq<Token>, p0: nat, parts: Field, p: nat)
    requires p0 <= p && At(ts, p) && ts[p0..p] == PrintField(parts) && FieldRest(ts, parts, p).Done?
    ensures var r := FieldRest(ts, parts, p); FieldSpan(ts, p0, r.value, r.pos)
    decreases |ts| - p
  {
    if ts[p].Dot? {
      var more := parts + [ts[p + 1].text];
      assert more[..|more| - 1] == parts;
      assert ts[p0..p + 2] == ts[p0..p] + [ts[p], ts[p + 1]];
      RestSpells(ts, p0, more, p + 2);
    }
  }

  lemma FieldSpells(ts: seq<Token>, p: nat)
    requires At(ts, p) && ParseField(ts, p).Done?
    ensures var r := ParseField(ts, p); FieldSpan(ts, p, r.value, r.pos)
  {
    assert ts[p..p + 1] == PrintField([ts[p].text]);
    RestSpells(ts, p, [ts[p].text], p + 1);
  }

  lemma AliasSpells(ts: seq<Token>, it: SelectItem, p: nat)
    requires At(ts, p) && it.alias == ""
    ensures var r := OptAlias(ts, it, p); r.value == it.(alias := r.value.alias) && AliasSpan(ts, p, r.value.alias, r.pos)
  {
    Folded();
  }

  lemma ArgSpells(ts: seq<Token>, p: nat)
    requires At(ts, p) && !ts[p].Star? && ParseField(ts, p).Done?
    ensures ArgSpan(ts, p, Some(ParseField(ts, p).value), ParseField(ts, p).pos)
  {
    FieldSpells(ts, p);
  }

  lemma CallSpells(ts: seq<Token>, p: nat)
    requires At(ts, p) && ts[p].Ident? && ts[p + 1].LParen? && ParseSelectItem(ts, p).Done?
    ensures var r := ParseSelectItem(ts, p); CallSpan(ts, p, r.value, r.pos)
  {
    var agg := Lower(ts[p].text);
    var it, m := SelectItem(agg, None, ""), p + 3;
    if !ts[p + 2].Star? {
      ArgSpells(ts, p + 2);
      it, m := SelectItem(agg, Some(ParseField(ts, p + 2).value), ""), ParseField(ts, p + 2).pos;
    }
    AliasSpells(ts, it, m + 1);
    assert ParseSelectItem(ts, p) == OptAlias(ts, it, m + 1);
    assert ArgSpan(ts, p + 2, it.field, m) && ts[m].RParen?;
  }

  lemma ItemSpells(ts: seq<Token>, p: nat)
    requires At(ts, p) && !ts[p].Star? && ParseSelectItem(ts, p).Done?
    ensures var r := ParseSelectItem(ts, p); ItemSpan(ts, p, r.value, r.pos)
  {
    if ts[p].Ident? && ts[p + 1].LParen? {
      CallSpells(ts, p);
    } else {
      var f := ParseField(ts, p);
      FieldSpells(ts, p);
      AliasSpells(ts, SelectItem("", Some(f.value), ""), f.pos);
      assert ColumnSpan(ts, p, ParseSelectItem(ts, p).value, ParseSelectItem(ts, p).pos);
    }
  }

  /** The list loop, with these items read, ends with all of them at e. */
  ghost predicate ListEnds(ts: seq<Token>, acc: seq<SelectItem>, p: nat, all: seq<SelectItem>, e: nat) {
    At(ts, p) && ParseSelectList(ts, acc, p) == Done(all, e)
  }

  /** What one turn of the list loop reads. */
  lemma TurnSpells(ts: seq<Token>, acc: seq<SelectItem>, p: nat, all: seq<SelectItem>, e: nat) returns (it: SelectItem, m: nat)
    requires ListEnds(ts, acc, p, all, e)
    ensures ItemSpan(ts, p, it, m) && p < m < |ts|
    ensures if ts[m].Comma? then ListEnds(ts, acc + [it], m + 1, all, e) else all == acc + [it] && e == m
  {
    if ts[p].Star? {
      it, m := SelectItem("", None, ""), p + 1;
    } else {
      ItemSpells(ts, p);
      it, m := ParseSelectItem(ts, p).value, ParseSelectItem(ts, p).pos;
    }
  }

  lemma OneItem(ts: seq<Token>, p: nat, it: SelectItem, m: nat)
    requires ItemSpan(ts, p, it, m) && m < |ts| && !ts[m].Comma?
    ensures ItemsSpan(ts, p, [it], m)
  {}

  lemma MoreItems(ts: seq<Token>, p: nat, it: SelectItem, m: nat, rest: seq<SelectItem>, q: nat)
    requires ItemSpan(ts, p, it, m) && m < |ts| && ts[m].Comma? && rest != [] && ItemsSpan(ts, m + 1, rest, q)
    ensures ItemsSpan(ts, p, [it] + rest, q)
  {
    assert ([it] + rest)[1..] == rest;
  }

  /** A list whose first item is read and whose rest is spelled. */
  lemma Longer(ts: seq<Token>, acc: seq<SelectItem>, p: nat, it: SelectItem, m: nat, all: seq<SelectItem>,
               rest: seq<SelectItem>, e: nat) returns (items: seq<SelectItem>)
    requires ItemSpan(ts, p, it, m) && m < |ts| && ts[m].Comma? && rest != [] && ItemsSpan(ts, m + 1, rest, e)
    requires all == acc + [it] + rest
    ensures all == acc + items && items != [] && ItemsSpan(ts, p, items, e)
  {
    items := [it] + rest;
    MoreItems(ts, p, it, m, rest, e);
    assert acc + [it] + rest == acc + ([it] + rest);
  }

  lemma {:induction false} ListSpells(ts: seq<Token>, acc: seq<SelectItem>, p: nat, all: seq<SelectItem>, e: nat)
      returns (items: seq<SelectItem>)
    requires ListEnds(ts, acc, p, all, e)
    ensures all == acc + items && items != [] && ItemsSpan(ts, p, items, e)
    decreases |ts| - p
  {
    var it, m := TurnSpells(ts, acc, p, all, e);
    if ts[m].Comma? {
      var rest := ListSpells(ts, acc + [it], m + 1, all, e);
      items := Longer(ts, acc, p, it, m, all, rest, e);
    } else {
      items := [it];
      OneItem(ts, p, it, m);
    }
  }

  lemma {:induction false} GroupsSpell(ts: seq<Token>, acc: seq<Field>, p: nat) returns (fs: seq<Field>)
    requires At(ts, p) && GroupFields(ts, acc, p).Done?
    ensures var r := GroupFields(ts, acc, p); r.value == acc + fs && FieldsSpan(ts, p, fs, r.pos)
    decreases |ts| - p
  {
    var f := ParseField(ts, p);
    FieldSpells(ts, p);
    if ts[f.pos].Comma? {
      var rest := GroupsSpell(ts, acc + [f.value], f.pos + 1);
      fs := [f.value] + rest;
      assert fs[1..] == rest && acc + [f.value] + rest == acc + fs;
    } else {
      fs := [f.value];
    }
  }

  lemma FromSpells(ts: seq<Token>, p: nat)
    requires At(ts, p) && ParseFrom(ts, p).Done?
    ensures FromSpan(ts, p, ParseFrom(ts, p).value, p + 2) && ParseFrom(ts, p).pos == p + 2
  {
    Folded();
  }

  lemma WhereSpells(ts: seq<Token>, p: nat)
    requires At(ts, p) && OptWhere(ts, p).Done?
    ensures WhereSpan(ts, p, OptWhere(ts, p).value, OptWhere(ts, p).pos)
  {
    Folded();
    if IsKw(ts[p], "WHERE") {
      OrBack(ts, p + 1);
    }
  }

  lemma LimitSpells(ts: seq<Token>, p: nat)
    requires At(ts, p) && OptLimit(ts, p).Done?
    ensures LimitSpan(ts, p, OptLimit(ts, p).value, OptLimit(ts, p).pos)
  {
    Folded();
    if IsKw(ts[p], "LIMIT") {
      NumberRead(ts[p + 1].text);
    }
  }

  lemma NumberRead(d: string)
    requires ParseInt64(d).Ok?
    ensures AllDigits(d) ==> ParseInt64(d).value == DigitsValue(d) < TWO63
  {}

  lemma GroupSpells(ts: seq<Token>, p: nat)
    requires At(ts, p) && OptGroupBy(ts, p).Done?
    ensures GroupSpan(ts, p, OptGroupBy(ts, p).value, OptGroupBy(ts, p).pos)
  {
    Folded();
    if IsKw(ts[p], "GROUP") {
      var fs := GroupsSpell(ts, [], p + 2);
      assert [] + fs == fs;
    }
  }

  lemma OrderSpells(ts: seq<Token>, p: nat)
    requires At(ts, p) && OptOrderBy(ts, p).Done?
    ensures OrderSpan(ts, p, OptOrderBy(ts, p).value, OptOrderBy(ts, p).pos)
  {
    Folded();
    if IsKw(ts[p], "ORDER") {
      FieldSpells(ts, p + 2);
      var f := ParseField(ts, p + 2);
      assert DirSpan(ts, f.pos, OptOrderBy(ts, p).value.value.desc, OptOrderBy(ts, p).pos);
    }
  }

  lemma EndSpells(ts: seq<Token>, s0: Stmt, p: nat)
    requires At(ts, p) && SelectTail(ts, s0, p).Done?
    ensures var r := SelectTail(ts, s0, p);
            EndSpan(ts, p, r.value, r.pos) && r.value == s0.(groupBy := r.value.groupBy, orderBy := r.value.orderBy, limit := r.value.limit)
  {
    var g := OptGroupBy(ts, p);
    var o := OptOrderBy(ts, g.pos);
    GroupSpells(ts, p);
    OrderSpells(ts, g.pos);
    LimitSpells(ts, o.pos);
  }

  lemma SelectParts(ts: seq<Token>, i: nat, w: nat, s0: Stmt)
    requires At(ts, 1) && ListEnds(ts, [], 1, s0.select, i) && At(ts, i) && ParseFrom(ts, i) == Done(s0.table, i + 2)
    requires OptWhere(ts, i + 2) == Done(s0.where, w)
    ensures ItemsSpan(ts, 1, s0.select, i) && FromSpan(ts, i, s0.table, i + 2) && WhereSpan(ts, i + 2, s0.where, w)
  {
    var items := ListSpells(ts, [], 1, s0.select, i);
    assert [] + items == items;
    FromSpells(ts, i);
    WhereSpells(ts, i + 2);
  }

  lemma SelectSpells(ts: seq<Token>)
    requires At(ts, 0) && IsKw(ts[0], "SELECT") && ParseSelect(ts, 0).Done?
    ensures SelectSpan(ts, ParseSelect(ts, 0).value, ParseSelect(ts, 0).pos)
  {
    Folded();
    var list := ParseSelectList(ts, [], 1);
    FromSpells(ts, list.pos);
    var w := OptWhere(ts, list.pos + 2);
    var s0 := Stmt(Select, "", ParseFrom(ts, list.pos).value, list.value, w.value, [], None, 0);
    SelectParts(ts, list.pos, w.pos, s0);
    EndSpells(ts, s0, w.pos);
  }

  lemma SearchSpells(ts: seq<Token>)
    requires At(ts, 0) && IsKw(ts[0], "SEARCH") && ParseSearch(ts, 0).Done?
    ensures SearchSpan(ts, ParseSearch(ts, 0).value, ParseSearch(ts, 0).pos)
  {
    Folded();
    FromSpells(ts, 2);
    var w := OptWhere(ts, 4);
    WhereSpells(ts, 4);
    LimitSpells(ts, w.pos);
  }

  lemma TailSpells(ts: seq<Token>)
    requires At(ts, 0) && IsKw(ts[0], "TAIL") && ParseTail(ts, 0).Done?
    ensures TailSpan(ts, ParseTail(ts, 0).value, ParseTail(ts, 0).pos)
  {
    Folded();
    FromSpells(ts, 1);
    WhereSpells(ts, 3);
  }

  /** Whatever is accepted is spelled: every clause of the statement stands in the text, in order,
      and the text has nothing besides. */
  lemma AcceptedIsSpelled(input: string)
    requires Parse(input).Ok?
    ensures LexSpec(input).Ok? && Spells(LexSpec(input).value, Parse(input).value)
  {
    var ts := LexSpec(input).value;
    if IsKw(ts[0], "SEARCH") {
      SearchSpells(ts);
    } else if IsKw(ts[0], "SELECT") {
      SelectSpells(ts);
    } else {
      TailSpells(ts);
    }
  }
}
