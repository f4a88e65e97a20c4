/** Cutting the paths into four files and merging them back. */
module OpenApiPaths {
  import opened Text
  import opened OpenApi

  datatype File = Ingest | Query | Admin | Operations

  const TAG_FILES: map<string, File> := map[
    "Ingest \U{2014} Logs" := Ingest, "Ingest \U{2014} Metrics" := Ingest, "Ingest \U{2014} Traces" := Ingest,
    "Query" := Query, "PromQL" := Query, "Changes" := Query, "Topology" := Query, "Timeline" := Query,
    "Incidents" := Query, "RCA" := Query, "Dashboards" := Query,
    "Admin \U{2014} API Keys" := Admin, "Admin \U{2014} Alerting" := Admin, "Admin \U{2014} Retention" := Admin,
    "Admin \U{2014} Transform" := Admin, "Admin \U{2014} Erasure" := Admin, "Admin \U{2014} Dashboards" := Admin,
    "Admin \U{2014} Saved Searches" := Admin, "Admin \U{2014} Audit" := Admin, "Admin \U{2014} DLQ" := Admin,
    "Admin \U{2014} Quota" := Admin,
    "Health" := Operations]

  /** The tool's own map: the ingest and admin files take exactly the tags named after them, the
      operations file the health tag, the query file the rest. */
  lemma TagFamilies(tag: string)
    requires tag in TAG_FILES
    ensures TAG_FILES[tag] == Ingest <==> "Ingest" <= tag
    ensures TAG_FILES[tag] == Admin <==> "Admin" <= tag
    ensures TAG_FILES[tag] == Operations <==> tag == "Health"
  {
    if TAG_FILES[tag] == Ingest {
      assert tag[..6] == "Ingest";
    } else if TAG_FILES[tag] == Admin {
      assert tag[..5] == "Admin";
    } else {
      assert tag[2] != 'g' && tag[0] != 'A';
      assert "Ingest"[2] == 'g' && "Admin"[0] == 'A';
    }
    assert "Ingest"[0] == 'I' && "Admin"[0] == 'A';
  }

  const METHODS: set<string> := {"get", "post", "put", "patch", "delete"}

  // ---------------------------------------------------------------- classification

  function OpTags(op: Node): seq<Node> { match MapGet(op, "tags") case Some(t) => t.content case None => [] }

  predicate IsOperation(key: Node) { Lower(key.value) in METHODS }

  /** Some documented operation of the item carries the tag. */
  predicate Tagged(c: seq<Node>, tag: string) {
    |c| >= 2 && ((IsOperation(c[0]) && exists t :: t in OpTags(c[1]) && t.value == tag) || Tagged(c[2..], tag))
  }

  /** Every documented operation has tags, all of them known. */
  predicate WellTagged(c: seq<Node>, files: map<string, File>) {
    |c| < 2 || (
      && (IsOperation(c[0]) ==> OpTags(c[1]) != [] && forall t :: t in OpTags(c[1]) ==> t.value in files)
      && WellTagged(c[2..], files))
  }

  /** What classification promises: all operations well tagged, at least one, all in one file. */
  predicate BelongsTo(c: seq<Node>, files: map<string, File>, f: File) {
    && WellTagged(c, files)
    && (exists tag :: tag in files && Tagged(c, tag))
    && (forall tag :: tag in files && Tagged(c, tag) ==> files[tag] == f)
  }

  /** The tags of an item's operations, or an error. */
  function TagsOf(c: seq<Node>, files: map<string, File>): Result<set<string>> {
    if |c| < 2 then Ok({})
    else if !IsOperation(c[0]) then TagsOf(c[2..], files)
    else
      var tags := set t | t in OpTags(c[1]) :: t.value;
      if OpTags(c[1]) == [] || !(tags <= files.Keys) then Err
      else match TagsOf(c[2..], files)
        case Err => Err
        case Ok(more) => Ok(tags + more)
  }

  function FilesOf(tags: set<string>, files: map<string, File>): set<File> {
    set tag | tag in tags && tag in files :: files[tag]
  }

  /** The file, if it is one. */
  function OneFile(fs: set<File>): Result<File> {
    if |fs| != 1 then Err
    else if Ingest in fs then Ok(Ingest)
    else if Query in fs then Ok(Query)
    else if Admin in fs then Ok(Admin)
    else Ok(Operations)
  }

  lemma OneFileIs(fs: set<File>, f: File)
    ensures OneFile(fs) == Ok(f) <==> fs == {f}
  {
    if OneFile(fs) == Ok(f) {
      var g :| g in fs;
      assert |fs - {g}| == 0;
      assert fs == {g};
      assert g.Ingest? || g.Query? || g.Admin? || g.Operations?;
    }
  }

  function Classify(item: Node, files: map<string, File>): Result<File> {
    match TagsOf(item.content, files)
    case Err => Err
    case Ok(tags) => OneFile(FilesOf(tags, files))
  }

  function WithTags(tags: set<string>, more: Result<set<string>>): Result<set<string>> {
    match more case Err => Err case Ok(ts) => Ok(tags + ts)
  }

  lemma WithMoreTags(a: set<string>, b: set<string>, more: Result<set<string>>)
    ensures WithTags({}, more) == more
    ensures WithTags(a, WithTags(b, more)) == WithTags(a + b, more)
  {
    if more.Ok? {
      assert {} + more.value == more.value && a + (b + more.value) == a + b + more.value;
    }
  }

  /** The tags of one operation, all of which must be known. */
  method OperationTags(opTags: seq<Node>, files: map<string, File>) returns (r: Result<set<string>>)
    ensures r == var tags := set t | t in opTags :: t.value; if opTags == [] || !(tags <= files.Keys) then Err else Ok(tags)
  {
    if opTags == [] {
      return Err;
    }
    var seen: set<string> := {};
    for k := 0 to |opTags|
      invariant seen == set t | t in opTags[..k] :: t.value
      invariant seen <= files.Keys
    {
      assert opTags[..k + 1] == opTags[..k] + [opTags[k]];
      if opTags[k].value !in files {
        assert opTags[k] in opTags;
        return Err;
      }
      seen := seen + {opTags[k].value};
    }
    assert opTags[..|opTags|] == opTags;
    return Ok(seen);
  }

  method ClassifyPath(item: Node, files: map<string, File>) returns (r: Result<(File, set<string>)>)
    ensures r.Ok? <==> Classify(item, files).Ok?
    ensures r.Ok? ==> Classify(item, files) == Ok(r.value.0) && TagsOf(item.content, files) == Ok(r.value.1)
  {
    var c, tags: set<string>, i := item.content, {}, 0;
    assert c[0..] == c;
    WithMoreTags({}, {}, TagsOf(c, files));
    while i + 1 < |c|
      invariant 0 <= i <= |c|
      invariant TagsOf(c, files) == WithTags(tags, TagsOf(c[i..], files))
    {
      assert c[i..][2..] == c[i + 2..];
      if IsOperation(c[i]) {
        var own := OperationTags(OpTags(c[i + 1]), files);
        if own.Err? {
          return Err;
        }
        WithMoreTags(tags, own.value, TagsOf(c[i + 2..], files));
        tags := tags + own.value;
      }
      i := i + 2;
    }
    assert tags + {} == tags;
    var fs := FilesOf(tags, files);
    if |fs| != 1 {
      return Err;
    }
    var f :| f in fs;
    assert |fs - {f}| == 0;
    OneFileIs(fs, f);
    return Ok((f, tags));
  }

  lemma {:induction false} TagsOfMeans(c: seq<Node>, files: map<string, File>)
    ensures TagsOf(c, files).Ok? <==> WellTagged(c, files)
    ensures TagsOf(c, files).Ok? ==> forall tag :: tag in TagsOf(c, files).value <==> Tagged(c, tag)
    ensures TagsOf(c, files).Ok? ==> TagsOf(c, files).value <= files.Keys
    decreases |c|
  {
    if |c| >= 2 {
      TagsOfMeans(c[2..], files);
    }
  }

  /** A path is put into a file iff its operations, at least one, are all tagged and every tag
      is one of that file's. */
  lemma ClassifyMeans(item: Node, files: map<string, File>, f: File)
    ensures Classify(item, files) == Ok(f) <==> BelongsTo(item.content, files, f)
  {
    TagsOfMeans(item.content, files);
    var ts := TagsOf(item.content, files);
    if ts.Ok? {
      var fs := FilesOf(ts.value, files);
      if BelongsTo(item.content, files, f) {
        var tag :| tag in files && Tagged(item.content, tag);
        assert files[tag] in fs;
        assert fs == {f};
        OneFileIs(fs, f);
      }
      if Classify(item, files) == Ok(f) {
        OneFileIs(fs, f);
        assert f in fs;
        forall tag | tag in files && Tagged(item.content, tag) ensures files[tag] == f {
          assert files[tag] in fs;
        }
      }
    }
  }

  // ---------------------------------------------------------------- split

  datatype Pair = Pair(key: Node, val: Node)

  function Pairs(c: seq<Node>): seq<Pair> { if |c| < 2 then [] else [Pair(c[0], c[1])] + Pairs(c[2..]) }

  /** The paths of one file, in the source's order. */
  function Bucket(c: seq<Node>, files: map<string, File>, f: File): seq<Node> {
    if |c| < 2 then []
    else (if Classify(c[1], files) == Ok(f) then c[..2] else []) + Bucket(c[2..], files, f)
  }

  lemma {:induction false} BucketEven(c: seq<Node>, files: map<string, File>, f: File)
    ensures |Bucket(c, files, f)| % 2 == 0
    decreases |c|
  {
    if |c| >= 2 {
      BucketEven(c[2..], files, f);
    }
  }

  /** A path goes to the file it is classified to, as it is. */
  lemma BucketCons(k: Node, v: Node, rest: seq<Node>, files: map<string, File>, f: File)
    ensures Bucket([k, v] + rest, files, f)
         == (if Classify(v, files) == Ok(f) then [k, v] else []) + Bucket(rest, files, f)
  {
    var c := [k, v] + rest;
    assert c[..2] == [k, v] && c[2..] == rest && c[1] == v;
  }

  /** The paths of a file from two stretches are those of the one and then those of the other. */
  lemma {:induction false} BucketInOrder(a: seq<Node>, b: seq<Node>, files: map<string, File>, f: File)
    requires |a| % 2 == 0
    ensures Bucket(a + b, files, f) == Bucket(a, files, f) + Bucket(b, files, f)
    decreases |a|
  {
    if a == [] {
      assert a + b == b;
    } else {
      var rest := a[2..];
      BucketInOrder(rest, b, files, f);
      BucketCons(a[0], a[1], rest, files, f);
      BucketCons(a[0], a[1], rest + b, files, f);
      assert a == [a[0], a[1]] + rest && a + b == [a[0], a[1]] + (rest + b);
    }
  }

  predicate AllClassified(c: seq<Node>, files: map<string, File>) {
    |c| < 2 || (Classify(c[1], files).Ok? && AllClassified(c[2..], files))
  }

  datatype Buckets = Buckets(ingest: seq<Node>, query: seq<Node>, admin: seq<Node>, operations: seq<Node>) {
    function Of(f: File): seq<Node> {
      match f
      case Ingest => ingest
      case Query => query
      case Admin => admin
      case Operations => operations
    }

    function Add(f: File, key: Node, val: Node): (r: Buckets)
      ensures forall g :: r.Of(g) == if g == f then Of(g) + [key, val] else Of(g)
    {
      match f
      case Ingest => this.(ingest := ingest + [key, val])
      case Query => this.(query := query + [key, val])
      case Admin => this.(admin := admin + [key, val])
      case Operations => this.(operations := operations + [key, val])
    }
  }

  ghost predicate Filled(b: Buckets, c: seq<Node>, i: nat, files: map<string, File>, f: File)
    requires i <= |c|
  {
    b.Of(f) + Bucket(c[i..], files, f) == Bucket(c, files, f)
  }

  lemma FilledNext(b: Buckets, b': Buckets, c: seq<Node>, i: nat, files: map<string, File>, f: File)
    requires i + 1 < |c| && Filled(b, c, i, files, f)
    requires b'.Of(f) == if Classify(c[i + 1], files) == Ok(f) then b.Of(f) + [c[i], c[i + 1]] else b.Of(f)
    ensures Filled(b', c, i + 2, files, f)
  {
    assert c[i..][2..] == c[i + 2..] && c[i..][..2] == [c[i], c[i + 1]];
  }

  /** Every path goes to the one file it belongs to; one that belongs to none fails the split. */
  method SplitPaths(c: seq<Node>, files: map<string, File>) returns (r: Result<Buckets>)
    ensures r.Ok? <==> AllClassified(c, files)
    ensures r.Ok? ==> forall f: File :: r.value.Of(f) == Bucket(c, files, f)
  {
    var b, ok, i := Buckets([], [], [], []), true, 0;
    while i + 1 < |c|
      invariant 0 <= i <= |c|
      invariant (ok && AllClassified(c[i..], files)) <==> AllClassified(c, files)
      invariant ok ==> forall f: File :: Filled(b, c, i, files, f)
    {
      assert c[i..][2..] == c[i + 2..];
      var dest := ClassifyPath(c[i + 1], files);
      ghost var before := b;
      if dest.Err? {
        ok := false;
      } else {
        b := b.Add(dest.value.0, c[i], c[i + 1]);
      }
      ghost var done := i;
      i := i + 2;
      forall f: File | ok ensures Filled(b, c, i, files, f) {
        FilledNext(before, b, c, done, files, f);
      }
    }
    if !ok {
      return Err;
    }
    forall f: File ensures b.Of(f) == Bucket(c, files, f) {
      assert Filled(b, c, i, files, f);
    }
    return Ok(b);
  }

  /** A file's paths refer to nothing the source's paths do not. */
  lemma {:induction false} BucketRefs(c: seq<Node>, files: map<string, File>, f: File)
    ensures PairRefs(Bucket(c, files, f)) <= PairRefs(c)
    decreases |c|
  {
    if |c| >= 2 {
      BucketRefs(c[2..], files, f);
      var rest := Bucket(c[2..], files, f);
      assert (c[..2] + rest)[2..] == rest && [] + rest == rest;
    }
  }

  // ---------------------------------------------------------------- merge

  /** The files in the order of their names. */
  function InNameOrder(b: Buckets): seq<Node> { b.admin + b.ingest + b.operations + b.query }

  function KeysOf(ps: seq<Pair>): seq<string> { seq(|ps|, i requires 0 <= i < |ps| => ps[i].key.value) }

  predicate NoRepeat(s: seq<string>) { forall i, j :: 0 <= i < j < |s| ==> s[i] != s[j] }

  lemma {:induction false} PairsCat(a: seq<Node>, b: seq<Node>)
    requires |a| % 2 == 0
    ensures Pairs(a + b) == Pairs(a) + Pairs(b)
    decreases |a|
  {
    if a == [] {
      assert a + b == b;
    } else {
      assert (a + b)[2..] == a[2..] + b;
      PairsCat(a[2..], b);
    }
  }

  lemma ConsPairs(k: Node, v: Node, rest: seq<Node>)
    ensures Pairs([k, v] + rest) == [Pair(k, v)] + Pairs(rest)
  {
    assert ([k, v] + rest)[2..] == rest;
  }

  lemma ConsCount(x: Pair, ps: seq<Pair>, p: Pair)
    ensures multiset([x] + ps)[p] == multiset(ps)[p] + if x == p then 1 else 0
  {}

  lemma {:induction false} BucketPairs(c: seq<Node>, files: map<string, File>, f: File, p: Pair)
    ensures multiset(Pairs(Bucket(c, files, f)))[p]
         == if Classify(p.val, files) == Ok(f) then multiset(Pairs(c))[p] else 0
    decreases |c|
  {
    if |c| >= 2 {
      BucketPairs(c[2..], files, f, p);
      var x, rest := Pair(c[0], c[1]), Bucket(c[2..], files, f);
      ConsCount(x, Pairs(c[2..]), p);
      if Classify(c[1], files) == Ok(f) {
        assert c[..2] == [c[0], c[1]];
        ConsPairs(c[0], c[1], rest);
        ConsCount(x, Pairs(rest), p);
      } else {
        assert [] + rest == rest;
      }
    }
  }

  lemma {:induction false} ClassifiedPair(c: seq<Node>, files: map<string, File>, p: Pair)
    requires AllClassified(c, files) && p in Pairs(c)
    ensures Classify(p.val, files).Ok?
    decreases |c|
  {
    if p != Pair(c[0], c[1]) {
      ClassifiedPair(c[2..], files, p);
    }
  }

  lemma FourParts(b: Buckets)
    requires |b.admin| % 2 == 0 && |b.ingest| % 2 == 0 && |b.operations| % 2 == 0
    ensures multiset(Pairs(InNameOrder(b)))
         == multiset(Pairs(b.admin)) + multiset(Pairs(b.ingest)) + multiset(Pairs(b.operations)) + multiset(Pairs(b.query))
  {
    PairsCat(b.admin, b.ingest);
    PairsCat(b.admin + b.ingest, b.operations);
    PairsCat(b.admin + b.ingest + b.operations, b.query);
  }

  lemma FourCounts(b: Buckets, p: Pair)
    requires |b.admin| % 2 == 0 && |b.ingest| % 2 == 0 && |b.operations| % 2 == 0
    ensures multiset(Pairs(InNameOrder(b)))[p] == multiset(Pairs(b.admin))[p] + multiset(Pairs(b.ingest))[p]
                                                + multiset(Pairs(b.operations))[p] + multiset(Pairs(b.query))[p]
  {
    FourParts(b);
  }

  ghost predicate IsSplit(c: seq<Node>, files: map<string, File>, b: Buckets) {
    AllClassified(c, files) && forall f: File :: b.Of(f) == Bucket(c, files, f)
  }

  lemma OneOfFour(k: Result<File>, n: nat, a: nat, i: nat, o: nat, q: nat)
    requires a == (if k == Ok(Admin) then n else 0) && i == (if k == Ok(Ingest) then n else 0)
    requires o == (if k == Ok(Operations) then n else 0) && q == (if k == Ok(Query) then n else 0)
    requires n > 0 ==> k.Ok?
    ensures a + i + o + q == n
  {
    if k.Ok? {
      assert k.value.Admin? || k.value.Ingest? || k.value.Operations? || k.value.Query?;
    }
  }

  lemma PartsEven(c: seq<Node>, files: map<string, File>, b: Buckets)
    requires IsSplit(c, files, b)
    ensures b.admin == Bucket(c, files, Admin) && b.ingest == Bucket(c, files, Ingest)
    ensures b.operations == Bucket(c, files, Operations) && b.query == Bucket(c, files, Query)
    ensures |b.admin| % 2 == 0 && |b.ingest| % 2 == 0 && |b.operations| % 2 == 0
  {
    assert b.Of(Admin) == b.admin && b.Of(Ingest) == b.ingest && b.Of(Operations) == b.operations && b.Of(Query) == b.query;
    BucketEven(c, files, Admin);
    BucketEven(c, files, Ingest);
    BucketEven(c, files, Operations);
  }

  lemma SplitCounts(c: seq<Node>, files: map<string, File>, b: Buckets, p: Pair)
    requires IsSplit(c, files, b)
    ensures multiset(Pairs(InNameOrder(b)))[p] == multiset(Pairs(c))[p]
  {
    PartsEven(c, files, b);
    FourCounts(b, p);
    BucketPairs(c, files, Admin, p);
    BucketPairs(c, files, Ingest, p);
    BucketPairs(c, files, Operations, p);
    BucketPairs(c, files, Query, p);
    var n := multiset(Pairs(c))[p];
    if n > 0 {
      ClassifiedPair(c, files, p);
    }
    OneOfFour(Classify(p.val, files), n, multiset(Pairs(b.admin))[p], multiset(Pairs(b.ingest))[p],
              multiset(Pairs(b.operations))[p], multiset(Pairs(b.query))[p]);
  }

  /** Split and merged, every path item of the source is there as often as in the source, and
      unchanged. */
  lemma SplitMergePaths(c: seq<Node>, files: map<string, File>, b: Buckets)
    requires IsSplit(c, files, b)
    ensures multiset(Pairs(InNameOrder(b))) == multiset(Pairs(c))
  {
    forall p ensures multiset(Pairs(InNameOrder(b)))[p] == multiset(Pairs(c))[p] {
      SplitCounts(c, files, b, p);
    }
  }

  /** The path loop of the merge over the files' paths laid end to end. */
  method MergePaths(c: seq<Node>) returns (r: Result<seq<Node>>)
    requires |c| % 2 == 0
    ensures r == if NoRepeat(KeysOf(Pairs(c))) then Ok(c) else Err
  {
    var seen: set<string>, out: seq<Node>, i := {}, [], 0;
    while i + 1 < |c|
      invariant 0 <= i <= |c| && i % 2 == 0 && out == c[..i]
      invariant seen == (set k | k in KeysOf(Pairs(c[..i])))
      invariant NoRepeat(KeysOf(Pairs(c[..i])))
    {
      MergeStep(c, i);
      if c[i].value in seen {
        RepeatSeen(KeysOf(Pairs(c[..i])), c[i].value);
        RepeatStays(c, i + 2);
        return Err;
      }
      seen := seen + {c[i].value};
      out := out + [c[i], c[i + 1]];
      i := i + 2;
    }
    assert c[..i] == c;
    return Ok(out);
  }

  lemma MergeStep(c: seq<Node>, i: nat)
    requires i + 1 < |c| && i % 2 == 0
    ensures KeysOf(Pairs(c[..i + 2])) == KeysOf(Pairs(c[..i])) + [c[i].value]
    ensures c[..i + 2] == c[..i] + [c[i], c[i + 1]]
  {
    assert c[..i + 2] == c[..i] + [c[i], c[i + 1]];
    PairsCat(c[..i], [c[i], c[i + 1]]);
    assert [c[i], c[i + 1]][2..] == [];
    assert Pairs([c[i], c[i + 1]]) == [Pair(c[i], c[i + 1])];
  }

  lemma RepeatSeen(s: seq<string>, k: string)
    requires k in s
    ensures !NoRepeat(s + [k])
  {
    var j :| 0 <= j < |s| && s[j] == k;
    assert (s + [k])[j] == (s + [k])[|s|];
  }

  lemma RepeatStays(c: seq<Node>, i: nat)
    requires i <= |c| && i % 2 == 0 && !NoRepeat(KeysOf(Pairs(c[..i])))
    ensures !NoRepeat(KeysOf(Pairs(c)))
  {
    assert c == c[..i] + c[i..];
    PairsCat(c[..i], c[i..]);
    var a, all := KeysOf(Pairs(c[..i])), KeysOf(Pairs(c));
    var j, k :| 0 <= j < k < |a| && a[j] == a[k];
    assert all[j] == a[j] && all[k] == a[k];
  }

  lemma CountKey(ps: seq<Pair>, j: nat, k: nat)
    requires j < k < |ps|
    ensures multiset(ps) >= multiset{ps[j], ps[k]}
  {
    assert ps == ps[..j] + [ps[j]] + ps[j + 1..k] + [ps[k]] + ps[k + 1..];
  }

  lemma WithoutOne<T>(s: seq<T>, j: nat)
    requires j < |s|
    ensures multiset(s) == multiset(s[..j] + s[j + 1..]) + multiset{s[j]}
  {
    assert s == s[..j] + [s[j]] + s[j + 1..];
  }

  lemma TwoOf<T>(s: seq<T>, x: T, y: T)
    requires multiset(s) >= multiset{x, y}
    ensures exists j, k :: 0 <= j < k < |s| && ((s[j] == x && s[k] == y) || (s[j] == y && s[k] == x))
  {
    assert x in multiset(s);
    var j :| 0 <= j < |s| && s[j] == x;
    WithoutOne(s, j);
    var rest := s[..j] + s[j + 1..];
    assert multiset(rest) >= multiset{y};
    assert y in multiset(rest);
    var k :| 0 <= k < |rest| && rest[k] == y;
    var m := if k < j then k else k + 1;
    assert s[m] == y && m != j;
    if m < j {
      assert s[m] == y && s[j] == x;
    } else {
      assert s[j] == x && s[m] == y;
    }
  }

  lemma RepeatsAgree(a: seq<Pair>, b: seq<Pair>)
    requires multiset(a) == multiset(b) && !NoRepeat(KeysOf(b))
    ensures !NoRepeat(KeysOf(a))
  {
    var j, k :| 0 <= j < k < |KeysOf(b)| && KeysOf(b)[j] == KeysOf(b)[k];
    CountKey(b, j, k);
    TwoOf(a, b[j], b[k]);
    var m, n :| 0 <= m < n < |a| && ((a[m] == b[j] && a[n] == b[k]) || (a[m] == b[k] && a[n] == b[j]));
    assert KeysOf(a)[m] == KeysOf(a)[n];
  }

  /** The merge of a split accepts iff no path key stands twice in the source. */
  lemma MergeAccepts(c: seq<Node>, files: map<string, File>, b: Buckets)
    requires IsSplit(c, files, b)
    ensures NoRepeat(KeysOf(Pairs(InNameOrder(b)))) <==> NoRepeat(KeysOf(Pairs(c)))
  {
    SplitMergePaths(c, files, b);
    if !NoRepeat(KeysOf(Pairs(c))) {
      RepeatsAgree(Pairs(InNameOrder(b)), Pairs(c));
    }
    if !NoRepeat(KeysOf(Pairs(InNameOrder(b)))) {
      RepeatsAgree(Pairs(c), Pairs(InNameOrder(b)));
    }
  }

  /** Every file of a split is self-contained. */
  lemma EveryFileSelfContained(src: Doc, files: map<string, File>, b: Buckets, f: File, head: seq<Node>, closure: set<Ref>)
    requires src.paths.kind.MappingKind? && IsSplit(src.paths.content, files, b)
    requires Shaped(src.components) && Resolves(Refs(src.paths) + Refs(src.components), src.components)
    requires ListRefs(head) == {} && SchemeRefs(src.components) == {}
    requires IsClosure(src.components, Refs(MapNode(b.Of(f))), closure)
    ensures SelfContained(Doc(head, MapNode(b.Of(f)), Components(src.components, closure)))
  {
    BucketRefs(src.paths.content, files, f);
    PlainFileSelfContained(src, head, MapNode(b.Of(f)), closure);
  }
}
