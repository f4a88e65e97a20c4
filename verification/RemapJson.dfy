/**
  JSON values and what reading, writing, deleting, redacting and renaming at a path do to them
  (ingest/core/src/remap.rs:148-160, 422-455).
 */
module RemapJson {
  import opened Text

  /** A JSON value; integers and floats are told apart as the number type does. */
  datatype Json =
    | Null
    | Bool(b: bool)
    | Int(n: int)
    | Float(x: real)
    | Str(s: string)
    | Arr(items: seq<Json>)
    | Obj(fields: map<string, Json>)

  type Key = seq<string>

  // ---------------------------------------------------------------- paths

  function Get(v: Json, p: Key): Option<Json> {
    if p == [] then Some(v)
    else if v.Obj? && p[0] in v.fields then Get(v.fields[p[0]], p[1..])
    else None
  }

  function Fields(v: Json): map<string, Json> { if v.Obj? then v.fields else map[] }

  function Child(v: Json, key: string): Json {
    if key in Fields(v) then Fields(v)[key] else Obj(map[])
  }

  function Put(v: Json, p: Key, x: Json): Json
    requires p != []
    decreases |p|
  {
    Obj(Fields(v)[p[0] := if |p| == 1 then x else Put(Child(v, p[0]), p[1..], x)])
  }

  function Drop(v: Json, p: Key): Json
    requires p != []
  {
    if !v.Obj? || p[0] !in v.fields then v
    else if |p| == 1 then Obj(v.fields - {p[0]})
    else Obj(v.fields[p[0] := Drop(v.fields[p[0]], p[1..])])
  }

  /** Neither path leads through the other. */
  predicate Apart(p: Key, q: Key) { !(p <= q) && !(q <= p) }

  lemma ApartTail(p: Key, q: Key)
    requires Apart(p, q) && p[0] == q[0]
    ensures Apart(p[1..], q[1..]) && p[1..] != [] && q[1..] != []
  {
    assert p == [p[0]] + p[1..] && q == [q[0]] + q[1..];
  }

  /** Reading the path just written, or below it. */
  lemma {:induction false} GetPut(v: Json, p: Key, x: Json, below: Key)
    requires p != []
    ensures Get(Put(v, p, x), p + below) == Get(x, below)
    decreases |p|
  {
    assert (p + below)[1..] == p[1..] + below;
    if |p| > 1 {
      GetPut(Child(v, p[0]), p[1..], x, below);
    } else {
      assert p[1..] + below == below;
    }
  }

  /** Reading above the path written: the old value there, itself written below. */
  lemma {:induction false} GetAbovePut(v: Json, above: Key, p: Key, x: Json)
    requires p != []
    ensures Get(Put(v, above + p, x), above)
         == Some(Put(match Get(v, above) case Some(w) => w case None => Obj(map[]), p, x))
    decreases |above|
  {
    if above == [] {
      assert above + p == p;
    } else {
      var c := Child(v, above[0]);
      assert (above + p)[1..] == above[1..] + p;
      GetAbovePut(c, above[1..], p, x);
      if above[0] !in Fields(v) {
        NothingBelow(above[1..]);
      }
    }
  }

  lemma NothingBelow(p: Key)
    ensures Get(Obj(map[]), p) == if p == [] then Some(Obj(map[])) else None
  {}

  /** Paths apart from the one written read as before. */
  lemma {:induction false} GetApartPut(v: Json, p: Key, x: Json, q: Key)
    requires p != [] && Apart(p, q)
    ensures Get(Put(v, p, x), q) == Get(v, q)
    decreases |p|
  {
    if p[0] == q[0] {
      ApartTail(p, q);
      GetApartPut(Child(v, p[0]), p[1..], x, q[1..]);
      if p[0] !in Fields(v) {
        NothingBelow(q[1..]);
      }
    }
  }

  /** A deleted path reads as absent, and so does everything below it. */
  lemma {:induction false} GetDrop(v: Json, p: Key, below: Key)
    requires p != []
    ensures Get(Drop(v, p), p + below) == None
    decreases |p|
  {
    assert (p + below)[1..] == p[1..] + below && (p + below)[0] == p[0];
    if v.Obj? && p[0] in v.fields && |p| > 1 {
      GetDrop(v.fields[p[0]], p[1..], below);
    }
  }

  /** Reading above the path deleted: the old value there, with the path deleted in it. */
  lemma {:induction false} GetAboveDrop(v: Json, above: Key, p: Key)
    requires p != []
    ensures Get(Drop(v, above + p), above)
         == match Get(v, above) case Some(w) => Some(Drop(w, p)) case None => None
    decreases |above|
  {
    if above == [] {
      assert above + p == p;
    } else if v.Obj? && above[0] in v.fields {
      assert (above + p)[1..] == above[1..] + p;
      GetAboveDrop(v.fields[above[0]], above[1..], p);
    }
  }

  /** Paths apart from the one deleted read as before. */
  lemma {:induction false} GetApartDrop(v: Json, p: Key, q: Key)
    requires p != [] && Apart(p, q)
    ensures Get(Drop(v, p), q) == Get(v, q)
    decreases |p|
  {
    if v.Obj? && p[0] == q[0] && p[0] in v.fields {
      ApartTail(p, q);
      GetApartDrop(v.fields[p[0]], p[1..], q[1..]);
    }
  }

  // ---------------------------------------------------------------- redact and rename

  const REDACTED := Str("[REDACTED]")

  function Redacted(v: Json, p: Key): Json
    requires p != []
  {
    if Get(v, p).Some? then Put(v, p, REDACTED) else v
  }

  function Renamed(v: Json, src: Key, dst: Key): Json
    requires src != [] && dst != []
  {
    match Get(v, src)
    case None => v
    case Some(x) => Put(Drop(v, src), dst, x)
  }

  /** Afterwards the path is absent or the mask, nothing can be read below it, and paths apart
      from it are untouched. */
  lemma RedactHides(v: Json, p: Key, q: Key)
    requires p != []
    ensures Get(Redacted(v, p), p) == (if Get(v, p).Some? then Some(REDACTED) else None)
    ensures q != [] ==> Get(Redacted(v, p), p + q) == None
    ensures Apart(p, q) ==> Get(Redacted(v, p), q) == Get(v, q)
  {
    assert p + [] == p;
    if Get(v, p).Some? {
      GetPut(v, p, REDACTED, []);
      GetPut(v, p, REDACTED, q);
      if Apart(p, q) {
        GetApartPut(v, p, REDACTED, q);
      }
    } else if q != [] {
      MissingBelow(v, p, q);
    }
  }

  lemma {:induction false} MissingBelow(v: Json, p: Key, q: Key)
    requires Get(v, p) == None
    ensures Get(v, p + q) == None
    decreases |p|
  {
    assert (p + q)[1..] == p[1..] + q && (p + q)[0] == p[0];
    if v.Obj? && p[0] in v.fields {
      MissingBelow(v.fields[p[0]], p[1..], q);
    }
  }

  /** The value lands at the destination, with everything below it, also when one path extends
      the other. */
  lemma RenameLands(v: Json, src: Key, dst: Key, x: Json, below: Key)
    requires src != [] && dst != [] && Get(v, src) == Some(x)
    ensures Get(Renamed(v, src, dst), dst + below) == Get(x, below)
  {
    GetPut(Drop(v, src), dst, x, below);
  }

  /** What the source path reads afterwards, in the four relations the two paths can have. */
  lemma RenameSource(v: Json, src: Key, dst: Key, x: Json)
    requires src != [] && dst != [] && Get(v, src) == Some(x)
    ensures var w := Renamed(v, src, dst);
            && (Apart(src, dst) ==> Get(w, src) == None)
            && (src == dst ==> Get(w, src) == Some(x))
            && (dst < src ==> Get(w, src) == Get(x, src[|dst|..]))
            && (src < dst ==> Get(w, src) == Some(Put(Obj(map[]), dst[|src|..], x)))
  {
    var u := Drop(v, src);
    assert src + [] == src;
    GetDrop(v, src, []);
    if Apart(src, dst) {
      GetApartPut(u, dst, x, src);
    } else if dst <= src {
      assert src == dst + src[|dst|..];
      GetPut(u, dst, x, src[|dst|..]);
      assert src == dst ==> src[|dst|..] == [] && Get(x, []) == Some(x);
    } else {
      assert dst == src + dst[|src|..];
      GetAbovePut(u, src, dst[|src|..], x);
    }
  }

  /** Everything apart from both paths is untouched. */
  lemma RenameFrame(v: Json, src: Key, dst: Key, q: Key)
    requires src != [] && dst != [] && Apart(src, q) && Apart(dst, q)
    ensures Get(Renamed(v, src, dst), q) == Get(v, q)
  {
    if Get(v, src).Some? {
      GetApartDrop(v, src, q);
      GetApartPut(Drop(v, src), dst, Get(v, src).value, q);
    }
  }
}
