/**
  What the splitter's lookups and reference scan mean (tools/openapi-split/main.go:512-522, 587-611):
  which key a lookup finds, which texts are references, and where in a tree they stand.
 */
module OpenApiRefs {
  import opened Text
  import opened OpenApi

  // ---------------------------------------------------------------- lookups

  /** Pair k of a mapping's content has the key. */
  predicate KeyAt(c: seq<Node>, k: nat, key: string) { 2 * k + 1 < |c| && c[2 * k].value == key }

  /** Pair k is the first with its key. */
  ghost predicate FirstKey(c: seq<Node>, k: nat, key: string) {
    KeyAt(c, k, key) && forall j: nat :: j < k ==> !KeyAt(c, j, key)
  }

  lemma KeyBehind(c: seq<Node>, k: nat, key: string)
    requires |c| >= 2 && k > 0
    ensures KeyAt(c, k, key) <==> KeyAt(c[2..], k - 1, key)
  {
    if 2 * k + 1 < |c| {
      assert c[2..][2 * (k - 1)] == c[2 * k];
    }
  }

  /** A lookup finds the value of the first pair with the key, and nothing iff there is none; in
      anything but a mapping it finds nothing. */
  lemma {:induction false} FindIs(c: seq<Node>, key: string, v: Node)
    ensures Find(c, key) == Some(v) <==> exists k: nat :: FirstKey(c, k, key) && v == c[2 * k + 1]
    decreases |c|
  {
    if |c| >= 2 {
      if c[0].value == key {
        assert FirstKey(c, 0, key);
        forall k: nat | FirstKey(c, k, key) ensures k == 0 { assert KeyAt(c, 0, key); }
      } else {
        FindIs(c[2..], key, v);
        forall k: nat ensures k > 0 ==> (KeyAt(c, k, key) <==> KeyAt(c[2..], k - 1, key)) {
          if k > 0 { KeyBehind(c, k, key); }
        }
        if k: nat :| FirstKey(c, k, key) && v == c[2 * k + 1] {
          FirstBehind(c, k, key);
        }
        if k: nat :| FirstKey(c[2..], k, key) && v == c[2..][2 * k + 1] {
          FirstInFront(c, k, key);
        }
      }
    }
  }

  lemma FirstBehind(c: seq<Node>, k: nat, key: string)
    requires |c| >= 2 && c[0].value != key && FirstKey(c, k, key)
    ensures k > 0 && FirstKey(c[2..], k - 1, key) && c[2..][2 * (k - 1) + 1] == c[2 * k + 1]
  {
    KeyBehind(c, k, key);
    forall j: nat | j < k - 1 ensures !KeyAt(c[2..], j, key) { KeyBehind(c, j + 1, key); }
  }

  lemma FirstInFront(c: seq<Node>, k: nat, key: string)
    requires |c| >= 2 && c[0].value != key && FirstKey(c[2..], k, key)
    ensures FirstKey(c, k + 1, key) && c[2 * (k + 1) + 1] == c[2..][2 * k + 1]
  {
    KeyBehind(c, k + 1, key);
    forall j: nat | j < k + 1 ensures !KeyAt(c, j, key) {
      if j > 0 { KeyBehind(c, j, key); }
    }
  }

  // ---------------------------------------------------------------- references

  /** A $ref key whose scalar value reads #/components/section/name, cut at the first slash. */
  ghost predicate Refers(key: Node, val: Node, r: Ref) {
    && key.value == "$ref" && val.kind.ScalarKind? && '/' !in r.section
    && val.value == "#/components/" + r.section + "/" + r.name
  }

  lemma CutAtSlash(rest: string, a: string, b: string)
    requires '/' !in a && rest == a + "/" + b
    ensures IndexWhere(rest, IsSlash) == |a| && rest[..|a|] == a && rest[|a| + 1..] == b
  {
    NoneBefore(rest, IsSlash);
    var i := IndexWhere(rest, IsSlash);
    assert rest[|a|] == '/';
    assert forall k :: 0 <= k < |a| ==> rest[k] in a;
  }

  lemma RefIs(key: Node, val: Node, r: Ref)
    ensures RefOf(key, val) == Some(r) <==> Refers(key, val, r)
  {
    var p := "#/components/";
    if Refers(key, val, r) {
      var rest := r.section + "/" + r.name;
      assert val.value == p + rest;
      assert val.value[|p|..] == rest;
      CutAtSlash(rest, r.section, r.name);
    }
    if RefOf(key, val) == Some(r) {
      var rest := val.value[|p|..];
      var i := IndexWhere(rest, IsSlash);
      NoneBefore(rest, IsSlash);
      assert rest == rest[..i] + "/" + rest[i + 1..];
      assert val.value == p + rest;
      assert val.value == p + r.section + "/" + r.name;
    }
  }

  predicate ValueAt(c: seq<Node>, k: nat, v: Node) { 2 * k + 1 < |c| && c[2 * k + 1] == v }

  ghost predicate RefAt(c: seq<Node>, k: nat, r: Ref) { 2 * k + 1 < |c| && Refers(c[2 * k], c[2 * k + 1], r) }

  /** m is looked at below n: a value of a mapping, or an entry of anything else. */
  ghost predicate Part(n: Node, m: Node) {
    if n.kind.MappingKind? then exists k: nat :: ValueAt(n.content, k, m)
    else m in n.content
  }

  /** A pair of the mapping n is the reference. */
  ghost predicate RefersHere(n: Node, r: Ref) {
    n.kind.MappingKind? && exists k: nat :: RefAt(n.content, k, r)
  }

  /** A way down the tree. */
  ghost predicate Descent(ns: seq<Node>) {
    ns != [] && forall i {:trigger ns[i]} :: 0 <= i < |ns| - 1 ==> Part(ns[i], ns[i + 1])
  }

  /** Somewhere down from n a mapping has the reference. */
  ghost predicate Occurs(n: Node, r: Ref) {
    exists ns :: Descent(ns) && ns[0] == n && RefersHere(ns[|ns| - 1], r)
  }

  lemma OccursBelow(n: Node, m: Node, r: Ref)
    requires Part(n, m) && Occurs(m, r)
    ensures Occurs(n, r)
  {
    var ns :| Descent(ns) && ns[0] == m && RefersHere(ns[|ns| - 1], r);
    LongerDescent(n, ns);
  }

  lemma LongerDescent(n: Node, ns: seq<Node>)
    requires Descent(ns) && Part(n, ns[0])
    ensures Descent([n] + ns)
  {
    var down := [n] + ns;
    forall i | 0 <= i < |down| - 1 ensures Part(down[i], down[i + 1]) {
      if i > 0 {
        assert down[i] == ns[i - 1] && down[i + 1] == ns[i];
        assert Part(ns[i - 1], ns[i]);
      }
    }
  }

  lemma OccursHere(n: Node, r: Ref)
    requires RefersHere(n, r)
    ensures Occurs(n, r)
  {
    assert Descent([n]);
  }

  lemma OccursSplits(n: Node, r: Ref) returns (m: Node)
    requires Occurs(n, r) && !RefersHere(n, r)
    ensures Part(n, m) && Occurs(m, r)
  {
    var ns :| Descent(ns) && ns[0] == n && RefersHere(ns[|ns| - 1], r);
    m := ns[1];
    var rest := ns[1..];
    forall i | 0 <= i < |rest| - 1 ensures Part(rest[i], rest[i + 1]) {
      assert Part(ns[i + 1], ns[i + 2]);
    }
    assert Part(ns[0], ns[1]);
    assert Descent(rest) && rest[0] == m && RefersHere(rest[|rest| - 1], r);
  }

  /** What the scan finds stands in the tree. */
  lemma {:induction false} RefOccurs(n: Node, r: Ref)
    requires r in Refs(n)
    ensures Occurs(n, r)
    decreases n, 0
  {
    if n.kind.MappingKind? {
      var k := PairFound(n.content, r);
      if RefAt(n.content, k, r) {
        OccursHere(n, r);
      } else {
        RefOccurs(n.content[2 * k + 1], r);
        assert ValueAt(n.content, k, n.content[2 * k + 1]);
        OccursBelow(n, n.content[2 * k + 1], r);
      }
    } else {
      var k := EntryFound(n.content, r);
      RefOccurs(n.content[k], r);
      OccursBelow(n, n.content[k], r);
    }
  }

  lemma {:induction false} PairFound(c: seq<Node>, r: Ref) returns (k: nat)
    requires r in PairRefs(c)
    ensures 2 * k + 1 < |c| && (RefAt(c, k, r) || r in Refs(c[2 * k + 1]))
    decreases |c|
  {
    RefIs(c[0], c[1], r);
    if RefOf(c[0], c[1]) == Some(r) || r in Refs(c[1]) {
      k := 0;
    } else {
      var j := PairFound(c[2..], r);
      k := j + 1;
    }
  }

  lemma {:induction false} EntryFound(c: seq<Node>, r: Ref) returns (k: nat)
    requires r in ListRefs(c)
    ensures k < |c| && r in Refs(c[k])
    decreases |c|
  {
    if r in Refs(c[0]) {
      k := 0;
    } else {
      var j := EntryFound(c[1..], r);
      k := j + 1;
    }
  }

  lemma {:induction false} PairCounted(c: seq<Node>, r: Ref, k: nat)
    requires 2 * k + 1 < |c| && (RefAt(c, k, r) || r in Refs(c[2 * k + 1]))
    ensures r in PairRefs(c)
    decreases |c|
  {
    if k == 0 {
      RefIs(c[0], c[1], r);
    } else {
      PairCounted(c[2..], r, k - 1);
    }
  }

  lemma {:induction false} EntryCounted(c: seq<Node>, r: Ref, k: nat)
    requires k < |c| && r in Refs(c[k])
    ensures r in ListRefs(c)
    decreases |c|
  {
    if k > 0 {
      EntryCounted(c[1..], r, k - 1);
    }
  }

  lemma {:induction false} OccursFound(n: Node, r: Ref)
    requires Occurs(n, r)
    ensures r in Refs(n)
    decreases n
  {
    if RefersHere(n, r) {
      var k: nat :| RefAt(n.content, k, r);
      PairCounted(n.content, r, k);
    } else {
      var m := OccursSplits(n, r);
      assert m in n.content;
      OccursFound(m, r);
      if n.kind.MappingKind? {
        var k: nat :| ValueAt(n.content, k, m);
        PairCounted(n.content, r, k);
      } else {
        var k :| 0 <= k < |n.content| && m == n.content[k];
        EntryCounted(n.content, r, k);
      }
    }
  }

  /** The scan finds exactly the references standing somewhere down the tree. */
  lemma RefsAre(n: Node, r: Ref)
    ensures r in Refs(n) <==> Occurs(n, r)
  {
    if r in Refs(n) {
      RefOccurs(n, r);
    }
    if Occurs(n, r) {
      OccursFound(n, r);
    }
  }

  // ---------------------------------------------------------------- what a file carries, in order

  /** The kept entries of two stretches of a section are those of one and then those of the other. */
  lemma {:induction false} NamesKeptInOrder(section: string, a: seq<Node>, b: seq<Node>, closure: set<Ref>)
    requires |a| % 2 == 0
    ensures KeepNames(section, a + b, closure) == KeepNames(section, a, closure) + KeepNames(section, b, closure)
    decreases |a|
  {
    if a == [] {
      assert a + b == b;
    } else {
      assert (a + b)[2..] == a[2..] + b && (a + b)[0] == a[0] && (a + b)[1] == a[1];
      NamesKeptInOrder(section, a[2..], b, closure);
    }
  }

  /** One entry is kept as it is iff it is a security scheme or in the closure. */
  lemma OneNameKept(section: string, k: Node, v: Node, closure: set<Ref>)
    ensures var kept := KeepNames(section, [k, v], closure);
            if section == "securitySchemes" || Ref(section, k.value) in closure then kept == [ScalarNode(k.value), v]
            else kept == []
  {
    assert [k, v][2..] == [];
    assert KeepNames(section, [], closure) == [];
  }
}
