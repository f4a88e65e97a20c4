/**
  The OpenAPI splitter (tools/openapi-split/main.go): reference collection, closure to a fixpoint
  and the components each file carries.
 */
module OpenApi {
  import opened Text

  datatype Kind = ScalarKind | SequenceKind | MappingKind

  /** An alias-free YAML node; a mapping lists keys and values in turn. */
  datatype Node = Node(kind: Kind, value: string, content: seq<Node>)

  function ScalarNode(s: string): Node { Node(ScalarKind, s, []) }

  function MapNode(content: seq<Node>): Node { Node(MappingKind, "", content) }

  /** A reference #/components/section/name. */
  datatype Ref = Ref(section: string, name: string)

  // ---------------------------------------------------------------- lookups

  function Find(c: seq<Node>, key: string): Option<Node> {
    if |c| < 2 then None else if c[0].value == key then Some(c[1]) else Find(c[2..], key)
  }

  function MapGet(n: Node, key: string): Option<Node> {
    if n.kind.MappingKind? then Find(n.content, key) else None
  }

  method MapGetLoop(n: Node, key: string) returns (r: Option<Node>)
    ensures r == MapGet(n, key)
  {
    if !n.kind.MappingKind? {
      return None;
    }
    var i := 0;
    while i + 1 < |n.content|
      invariant 0 <= i <= |n.content|
      invariant Find(n.content[i..], key) == Find(n.content, key)
    {
      assert n.content[i..][2..] == n.content[i + 2..];
      if n.content[i].value == key {
        return Some(n.content[i + 1]);
      }
      i := i + 2;
    }
    return None;
  }

  /** The component a reference names. */
  function Lookup(components: Node, r: Ref): Option<Node> {
    match MapGet(components, r.section)
    case None => None
    case Some(sec) => MapGet(sec, r.name)
  }

  // ---------------------------------------------------------------- references

  const PREFIX := "#/components/"

  predicate IsSlash(c: char) { c == '/' }

  function RefOf(key: Node, val: Node): Option<Ref> {
    if key.value == "$ref" && val.kind.ScalarKind? && PREFIX <= val.value then
      var rest := val.value[|PREFIX|..];
      var i := IndexWhere(rest, IsSlash);
      if i == |rest| then None else Some(Ref(rest[..i], rest[i + 1..]))
    else None
  }

  function AsSet(r: Option<Ref>): set<Ref> { match r case Some(x) => {x} case None => {} }

  function Refs(n: Node): set<Ref> {
    if n.kind.MappingKind? then PairRefs(n.content) else ListRefs(n.content)
  }

  function PairRefs(c: seq<Node>): set<Ref> {
    if |c| < 2 then {} else AsSet(RefOf(c[0], c[1])) + Refs(c[1]) + PairRefs(c[2..])
  }

  function ListRefs(c: seq<Node>): set<Ref> {
    if c == [] then {} else Refs(c[0]) + ListRefs(c[1..])
  }

  method CollectRefs(n: Node, out: set<Ref>) returns (r: set<Ref>)
    ensures r == out + Refs(n)
    decreases n
  {
    r := out;
    var i := 0;
    if n.kind.MappingKind? {
      while i + 1 < |n.content|
        invariant 0 <= i <= |n.content|
        invariant r + PairRefs(n.content[i..]) == out + Refs(n)
      {
        var k, v := n.content[i], n.content[i + 1];
        assert n.content[i..][2..] == n.content[i + 2..];
        var ref := RefOf(k, v);
        if ref.Some? {
          r := r + {ref.value};
        }
        r := CollectRefs(v, r);
        i := i + 2;
      }
      return;
    }
    while i < |n.content|
      invariant 0 <= i <= |n.content|
      invariant r + ListRefs(n.content[i..]) == out + Refs(n)
    {
      assert n.content[i..][1..] == n.content[i + 1..];
      r := CollectRefs(n.content[i], r);
      i := i + 1;
    }
  }

  lemma {:induction false} FoundRefs(c: seq<Node>, key: string)
    requires Find(c, key).Some?
    ensures Refs(Find(c, key).value) <= PairRefs(c)
    decreases |c|
  {
    if c[0].value != key {
      FoundRefs(c[2..], key);
    }
  }

  lemma LookupRefs(components: Node, r: Ref)
    requires Lookup(components, r).Some?
    ensures Refs(Lookup(components, r).value) <= Refs(components)
  {
    FoundRefs(components.content, r.section);
    FoundRefs(MapGet(components, r.section).value.content, r.name);
  }

  // ---------------------------------------------------------------- closure

  /** Everything the listed components refer to is listed. */
  ghost predicate RefClosed(components: Node, s: set<Ref>) {
    forall r :: r in s && Lookup(components, r).Some? ==> Refs(Lookup(components, r).value) <= s
  }

  /** The least ref-closed set around `start`. */
  ghost predicate IsClosure(components: Node, start: set<Ref>, c: set<Ref>) {
    start <= c && RefClosed(components, c) && IsLeast(components, start, c)
  }

  ghost predicate IsLeast(components: Node, start: set<Ref>, c: set<Ref>) {
    forall s: set<Ref> :: start <= s && RefClosed(components, s) ==> c <= s
  }

  /** What one round finds: the references of all listed components that exist. */
  ghost predicate IsRound(components: Node, s: set<Ref>, next: set<Ref>) {
    && (forall r :: r in s && Lookup(components, r).Some? ==> Refs(Lookup(components, r).value) <= next)
    && (forall x :: x in next ==> exists r :: r in s && Lookup(components, r).Some? && x in Refs(Lookup(components, r).value))
  }

  method LookupLoop(components: Node, r: Ref) returns (comp: Option<Node>)
    ensures comp == Lookup(components, r)
  {
    var sec := MapGetLoop(components, r.section);
    if sec.None? {
      return None;
    }
    comp := MapGetLoop(sec.value, r.name);
  }

  method Round(components: Node, s: set<Ref>) returns (next: set<Ref>)
    ensures IsRound(components, s, next)
  {
    next := {};
    var todo := s;
    while todo != {}
      invariant todo <= s && IsRound(components, s - todo, next)
      decreases todo
    {
      var r :| r in todo;
      var comp := LookupLoop(components, r);
      ghost var before, done := next, s - todo;
      if comp.Some? {
        next := CollectRefs(comp.value, next);
      }
      todo := todo - {r};
      assert s - todo == done + {r};
    }
    assert s - todo == s;
  }

  lemma RoundWithin(components: Node, s: set<Ref>, next: set<Ref>)
    requires IsRound(components, s, next)
    ensures next <= Refs(components)
  {
    forall x | x in next ensures x in Refs(components) {
      var r :| r in s && Lookup(components, r).Some? && x in Refs(Lookup(components, r).value);
      LookupRefs(components, r);
    }
  }

  lemma RoundKeepsLeast(components: Node, start: set<Ref>, s: set<Ref>, next: set<Ref>)
    requires IsLeast(components, start, s) && IsRound(components, s, next)
    ensures IsLeast(components, start, s + next)
  {
    forall u: set<Ref> | start <= u && RefClosed(components, u) ensures s + next <= u {
      forall x | x in next ensures x in u {
        var r :| r in s && Lookup(components, r).Some? && x in Refs(Lookup(components, r).value);
      }
    }
  }

  /** Terminates: every round but the last adds a reference of the document. */
  method ResolveClosure(components: Node, start: set<Ref>) returns (closure: set<Ref>)
    ensures IsClosure(components, start, closure)
  {
    closure := start;
    ghost var all := start + Refs(components);
    while true
      invariant start <= closure <= all && IsLeast(components, start, closure)
      decreases all - closure
    {
      var next := Round(components, closure);
      RoundWithin(components, closure, next);
      var grew := !(next <= closure);
      if !grew {
        return;
      }
      RoundKeepsLeast(components, start, closure, next);
      assert all - (closure + next) < all - closure;
      closure := closure + next;
    }
  }

  /** There is only one such set. */
  lemma ClosureUnique(components: Node, start: set<Ref>, a: set<Ref>, b: set<Ref>)
    requires IsClosure(components, start, a) && IsClosure(components, start, b)
    ensures a == b
  {
    assert a <= b && b <= a;
  }

  // ---------------------------------------------------------------- components of a file

  const SECURITY := "securitySchemes"

  predicate Wanted(section: string, name: string, closure: set<Ref>) {
    section == SECURITY || Ref(section, name) in closure
  }

  function KeepNames(section: string, c: seq<Node>, closure: set<Ref>): seq<Node> {
    if |c| < 2 then []
    else (if Wanted(section, c[0].value, closure) then [ScalarNode(c[0].value), c[1]] else [])
         + KeepNames(section, c[2..], closure)
  }

  function KeepSections(c: seq<Node>, closure: set<Ref>): seq<Node> {
    if |c| < 2 then []
    else
      var kept := KeepNames(c[0].value, c[1].content, closure);
      (if kept == [] then [] else [ScalarNode(c[0].value), MapNode(kept)]) + KeepSections(c[2..], closure)
  }

  function Components(orig: Node, closure: set<Ref>): Node { MapNode(KeepSections(orig.content, closure)) }

  method BuildSection(section: string, c: seq<Node>, closure: set<Ref>) returns (out: seq<Node>)
    ensures out == KeepNames(section, c, closure)
  {
    out := [];
    var includeAll, j := section == SECURITY, 0;
    while j + 1 < |c|
      invariant 0 <= j <= |c|
      invariant out + KeepNames(section, c[j..], closure) == KeepNames(section, c, closure)
    {
      assert c[j..][2..] == c[j + 2..];
      if includeAll || Ref(section, c[j].value) in closure {
        out := out + [ScalarNode(c[j].value), c[j + 1]];
      }
      j := j + 2;
    }
  }

  method BuildComponents(orig: Node, closure: set<Ref>) returns (r: Node)
    ensures r == Components(orig, closure)
  {
    var c, out, i := orig.content, [], 0;
    while i + 1 < |c|
      invariant 0 <= i <= |c|
      invariant out + KeepSections(c[i..], closure) == KeepSections(c, closure)
    {
      assert c[i..][2..] == c[i + 2..];
      var kept := BuildSection(c[i].value, c[i + 1].content, closure);
      if kept != [] {
        out := out + [ScalarNode(c[i].value), MapNode(kept)];
      }
      i := i + 2;
    }
    return MapNode(out);
  }

  /** No key twice. */
  predicate UniqueKeys(c: seq<Node>) { |c| < 2 || (Find(c[2..], c[0].value) == None && UniqueKeys(c[2..])) }

  /** Sections are mappings from distinct names to objects. */
  predicate Sections(c: seq<Node>) {
    |c| < 2 || (c[1].kind.MappingKind? && UniqueKeys(c[1].content) && Objects(c[1].content) && Sections(c[2..]))
  }

  predicate Objects(c: seq<Node>) { |c| < 2 || (!c[1].kind.ScalarKind? && Objects(c[2..])) }

  /** The shape OpenAPI gives the components object (section 4.8.7 of OpenAPI 3.1.0). */
  predicate Shaped(components: Node) {
    components.kind.MappingKind? && UniqueKeys(components.content) && Sections(components.content)
  }

  lemma {:induction false} FindKept(section: string, c: seq<Node>, closure: set<Ref>, name: string)
    ensures Find(KeepNames(section, c, closure), name) == if Wanted(section, name, closure) then Find(c, name) else None
    decreases |c|
  {
    if |c| >= 2 {
      FindKept(section, c[2..], closure, name);
      var rest := KeepNames(section, c[2..], closure);
      assert ([ScalarNode(c[0].value), c[1]] + rest)[2..] == rest && [] + rest == rest;
    }
  }

  function SectionOf(sec: Option<Node>, section: string, closure: set<Ref>): Option<Node> {
    if sec.None? || KeepNames(section, sec.value.content, closure) == [] then None
    else Some(MapNode(KeepNames(section, sec.value.content, closure)))
  }

  lemma {:induction false} FindSection(c: seq<Node>, closure: set<Ref>, section: string)
    requires UniqueKeys(c)
    ensures Find(KeepSections(c, closure), section) == SectionOf(Find(c, section), section, closure)
    decreases |c|
  {
    if |c| >= 2 {
      FindSection(c[2..], closure, section);
      var kept, rest := KeepNames(c[0].value, c[1].content, closure), KeepSections(c[2..], closure);
      assert ([ScalarNode(c[0].value), MapNode(kept)] + rest)[2..] == rest && [] + rest == rest;
    }
  }

  lemma {:induction false} SectionIsMap(c: seq<Node>, section: string)
    requires Sections(c) && Find(c, section).Some?
    ensures Find(c, section).value.kind.MappingKind?
    ensures UniqueKeys(Find(c, section).value.content) && Objects(Find(c, section).value.content)
    decreases |c|
  {
    if c[0].value != section {
      SectionIsMap(c[2..], section);
    }
  }

  /** A file's components resolve exactly the closure and the security schemes, each to the
      source's own component. */
  lemma LookupBuilt(orig: Node, closure: set<Ref>, r: Ref)
    requires Shaped(orig)
    ensures Lookup(Components(orig, closure), r)
         == if Wanted(r.section, r.name, closure) then Lookup(orig, r) else None
  {
    FindSection(orig.content, closure, r.section);
    var sec := Find(orig.content, r.section);
    if sec.Some? {
      SectionIsMap(orig.content, r.section);
      FindKept(r.section, sec.value.content, closure, r.name);
    }
  }

  // ---------------------------------------------------------------- what the built part refers to

  /** The reference stands in a wanted component of the source. */
  ghost predicate FromWanted(section: string, c: seq<Node>, closure: set<Ref>, x: Ref) {
    exists name: string :: Wanted(section, name, closure) && Find(c, name).Some? && x in Refs(Find(c, name).value)
  }

  lemma HeadFound(section: string, c: seq<Node>, closure: set<Ref>, x: Ref)
    requires |c| >= 2 && Wanted(section, c[0].value, closure) && x in Refs(c[1])
    ensures FromWanted(section, c, closure, x)
  {
    assert Find(c, c[0].value) == Some(c[1]);
  }

  lemma TailFound(section: string, c: seq<Node>, closure: set<Ref>, x: Ref)
    requires |c| >= 2 && UniqueKeys(c) && FromWanted(section, c[2..], closure, x)
    ensures FromWanted(section, c, closure, x)
  {
    var name :| Wanted(section, name, closure) && Find(c[2..], name).Some? && x in Refs(Find(c[2..], name).value);
    assert Find(c, name) == Find(c[2..], name);
  }

  lemma PairRefsCons(k: Node, v: Node, rest: seq<Node>)
    requires !v.kind.ScalarKind?
    ensures PairRefs([k, v] + rest) == Refs(v) + PairRefs(rest)
  {
    assert ([k, v] + rest)[2..] == rest;
  }

  lemma {:induction false} KeptRefs(section: string, c: seq<Node>, closure: set<Ref>, x: Ref)
    requires UniqueKeys(c) && Objects(c) && x in PairRefs(KeepNames(section, c, closure))
    ensures FromWanted(section, c, closure, x)
    decreases |c|
  {
    var rest := KeepNames(section, c[2..], closure);
    if Wanted(section, c[0].value, closure) {
      PairRefsCons(ScalarNode(c[0].value), c[1], rest);
      if x in Refs(c[1]) {
        HeadFound(section, c, closure, x);
      } else {
        KeptRefs(section, c[2..], closure, x);
        TailFound(section, c, closure, x);
      }
    } else {
      assert [] + rest == rest;
      KeptRefs(section, c[2..], closure, x);
      TailFound(section, c, closure, x);
    }
  }

  /** A reference in the built components stands in a component of the source that was wanted. */
  ghost predicate Explained(orig: Node, closure: set<Ref>, x: Ref) {
    exists q: Ref :: Wanted(q.section, q.name, closure) && Lookup(orig, q).Some? && x in Refs(Lookup(orig, q).value)
  }

  lemma {:induction false} SectionRefs(c: seq<Node>, closure: set<Ref>, x: Ref) returns (section: string)
    requires UniqueKeys(c) && Sections(c) && x in PairRefs(KeepSections(c, closure))
    ensures Find(c, section).Some? && FromWanted(section, Find(c, section).value.content, closure, x)
    decreases |c|
  {
    var kept, rest := KeepNames(c[0].value, c[1].content, closure), KeepSections(c[2..], closure);
    if kept != [] {
      PairRefsCons(ScalarNode(c[0].value), MapNode(kept), rest);
      if x in PairRefs(kept) {
        KeptRefs(c[0].value, c[1].content, closure, x);
        return c[0].value;
      }
    } else {
      assert [] + rest == rest;
    }
    section := SectionRefs(c[2..], closure, x);
  }

  lemma BuiltRefs(orig: Node, closure: set<Ref>, x: Ref)
    requires Shaped(orig) && x in Refs(Components(orig, closure))
    ensures Explained(orig, closure, x)
  {
    var section := SectionRefs(orig.content, closure, x);
    var sec := Find(orig.content, section).value;
    SectionIsMap(orig.content, section);
    var name :| Wanted(section, name, closure) && Find(sec.content, name).Some? && x in Refs(Find(sec.content, name).value);
    assert Lookup(orig, Ref(section, name)) == Find(sec.content, name);
  }

  // ---------------------------------------------------------------- self-contained files

  /** A document: the nodes before the paths (version, info, servers, security, tags), the paths
      and the components. */
  datatype Doc = Doc(head: seq<Node>, paths: Node, components: Node)

  function DocRefs(d: Doc): set<Ref> { ListRefs(d.head) + Refs(d.paths) + Refs(d.components) }

  ghost predicate Resolves(refs: set<Ref>, components: Node) {
    forall r :: r in refs ==> Lookup(components, r).Some?
  }

  ghost predicate SelfContained(d: Doc) { Resolves(DocRefs(d), d.components) }

  /** The references of the security schemes, which every file carries. */
  function SchemeRefs(components: Node): set<Ref> {
    match MapGet(components, SECURITY) case Some(sec) => Refs(sec) case None => {}
  }

  lemma {:induction false} SchemesKept(c: seq<Node>, closure: set<Ref>)
    requires Objects(c)
    ensures PairRefs(KeepNames(SECURITY, c, closure)) == PairRefs(c)
    decreases |c|
  {
    if |c| >= 2 {
      SchemesKept(c[2..], closure);
      PairRefsCons(ScalarNode(c[0].value), c[1], KeepNames(SECURITY, c[2..], closure));
    }
  }

  lemma SchemesCarried(orig: Node, closure: set<Ref>)
    requires Shaped(orig)
    ensures SchemeRefs(orig) <= Refs(Components(orig, closure))
  {
    var sec := Find(orig.content, SECURITY);
    if sec.Some? {
      SectionIsMap(orig.content, SECURITY);
      SchemesKept(sec.value.content, closure);
      FindSection(orig.content, closure, SECURITY);
      var kept := KeepSections(orig.content, closure);
      if Find(kept, SECURITY).Some? {
        FoundRefs(kept, SECURITY);
      }
    }
  }

  /** Every reference of the built components is in the closure, or one of the schemes'. */
  lemma BuiltRefsWhere(orig: Node, start: set<Ref>, closure: set<Ref>, x: Ref)
    requires Shaped(orig) && IsClosure(orig, start, closure) && x in Refs(Components(orig, closure))
    ensures x in closure || x in SchemeRefs(orig)
    ensures x in Refs(orig)
  {
    BuiltRefs(orig, closure, x);
    var q: Ref :| Wanted(q.section, q.name, closure) && Lookup(orig, q).Some? && x in Refs(Lookup(orig, q).value);
    LookupRefs(orig, q);
    if q.section == SECURITY {
      var sec := MapGet(orig, SECURITY).value;
      FoundRefs(sec.content, q.name);
    }
  }

  /** When a file cut from a source without dangling references is self-contained: exactly when
      what its head and the security schemes refer to is in the closure of its paths, or is
      itself a security scheme. */
  lemma SplitFileSelfContained(src: Doc, head: seq<Node>, paths: Node, closure: set<Ref>)
    requires Shaped(src.components) && Refs(paths) <= Refs(src.paths)
    requires Resolves(ListRefs(head) + Refs(src.paths) + Refs(src.components), src.components)
    requires IsClosure(src.components, Refs(paths), closure)
    ensures SelfContained(Doc(head, paths, Components(src.components, closure)))
        <==> forall r :: r in ListRefs(head) + SchemeRefs(src.components) ==> Wanted(r.section, r.name, closure)
  {
    var orig := src.components;
    var built := Components(orig, closure);
    var d := Doc(head, paths, built);
    SchemesCarried(orig, closure);
    if SelfContained(d) {
      forall r | r in ListRefs(head) + SchemeRefs(orig) ensures Wanted(r.section, r.name, closure) {
        assert r in DocRefs(d);
        LookupBuilt(orig, closure, r);
      }
    }
    if forall r :: r in ListRefs(head) + SchemeRefs(orig) ==> Wanted(r.section, r.name, closure) {
      forall r | r in DocRefs(d) ensures Lookup(built, r).Some? {
        if r in Refs(built) {
          BuiltRefsWhere(orig, Refs(paths), closure, r);
        }
        LookupBuilt(orig, closure, r);
      }
    }
  }

  /** In particular when head and security schemes refer to nothing. */
  lemma PlainFileSelfContained(src: Doc, head: seq<Node>, paths: Node, closure: set<Ref>)
    requires Shaped(src.components) && Refs(paths) <= Refs(src.paths)
    requires Resolves(Refs(src.paths) + Refs(src.components), src.components)
    requires IsClosure(src.components, Refs(paths), closure)
    requires ListRefs(head) == {} && SchemeRefs(src.components) == {}
    ensures SelfContained(Doc(head, paths, Components(src.components, closure)))
  {
    SplitFileSelfContained(src, head, paths, closure);
  }
}
