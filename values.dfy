/** Python values as they flow through the configuration engine: rule documents,
    regex captures, Brick attribute records and their string projections. */
module Values {

  datatype Option<T> = None | Some(value: T)

  /** A dynamically typed value. `Path` is a `pathlib.Path`, kept apart from `Str`
      because template expansion rewrites only `str` values; `Mapping` is a dict. */
  datatype Value =
    | Str(s: string)
    | Bool(b: bool)
    | Int(i: int)
    | Float(r: real)
    | Null
    | List(items: seq<Value>)
    | Tuple(items: seq<Value>)
    | Path(text: string)
    | Mapping(d: Dict)

  /** An insertion-ordered dict with string keys. */
  datatype Dict = Dict(keys: seq<string>, vals: map<string, Value>)

  const EmptyDict := Dict([], map[])

  ghost predicate Distinct(ks: seq<string>) {
    forall i, j :: 0 <= i < j < |ks| ==> ks[i] != ks[j]
  }

  /** Every dict that Python can build: each key once, keys and entries agree. */
  ghost predicate WellFormed(d: Dict) {
    Distinct(d.keys) && forall k :: k in d.vals <==> k in d.keys
  }

  /** `d.get(k, dflt)` */
  function Get(d: Dict, k: string, dflt: Value): Value {
    if k in d.vals then d.vals[k] else dflt
  }

  /** The keys of `ks` that `m` does not bind yet, in order. */
  function Fresh(ks: seq<string>, m: map<string, Value>): (r: seq<string>)
    ensures forall k :: k in r <==> k in ks && k !in m
  {
    if ks == [] then []
    else (if ks[0] in m then [] else [ks[0]]) + Fresh(ks[1..], m)
  }

  /** `d.update(p)`: existing keys keep their place, new keys are appended in `p`'s order. */
  function Update(d: Dict, p: Dict): Dict {
    Dict(d.keys + Fresh(p.keys, d.vals), d.vals + p.vals)
  }

  /** `d[k] = v` */
  function Assign(d: Dict, k: string, v: Value): Dict {
    Dict(if k in d.vals then d.keys else d.keys + [k], d.vals[k := v])
  }

  lemma {:induction false} FreshDistinct(ks: seq<string>, m: map<string, Value>)
    requires Distinct(ks)
    ensures Distinct(Fresh(ks, m))
  {
    if ks != [] {
      FreshDistinct(ks[1..], m);
      var t := Fresh(ks[1..], m);
      assert forall k :: k in t ==> k in ks[1..];
      var h := if ks[0] in m then [] else [ks[0]];
      assert Fresh(ks, m) == h + t;
      forall i, j | 0 <= i < j < |h + t| ensures (h + t)[i] != (h + t)[j] {
        if i < |h| {
          assert (h + t)[i] == ks[0];
          assert (h + t)[j] in t;
        }
      }
    }
  }

  /** An update keeps the dict well formed, keeps the old key order as a prefix,
      lets the patch win on shared keys and leaves every other entry alone. */
  lemma UpdateWellFormed(d: Dict, p: Dict)
    requires WellFormed(d) && WellFormed(p)
    ensures WellFormed(Update(d, p))
    ensures Update(d, p).keys[..|d.keys|] == d.keys
    ensures forall k :: k in Update(d, p).vals <==> k in d.vals || k in p.vals
    ensures forall k :: k in p.vals ==> Update(d, p).vals[k] == p.vals[k]
    ensures forall k :: k in d.vals && k !in p.vals ==> Update(d, p).vals[k] == d.vals[k]
  {
    var f := Fresh(p.keys, d.vals);
    FreshDistinct(p.keys, d.vals);
    var ks := d.keys + f;
    forall i, j | 0 <= i < j < |ks| ensures ks[i] != ks[j] {
      if j >= |d.keys| && i < |d.keys| {
        assert ks[j] in f;
        assert ks[i] in d.vals;
      } else if i >= |d.keys| {
        assert ks[i] == f[i - |d.keys|] && ks[j] == f[j - |d.keys|];
      }
    }
    assert forall k :: k in ks <==> k in d.keys || k in f;
  }

  lemma AssignWellFormed(d: Dict, k: string, v: Value)
    requires WellFormed(d)
    ensures WellFormed(Assign(d, k, v))
    ensures k in d.vals ==> Assign(d, k, v).keys == d.keys
  {
    var ks := Assign(d, k, v).keys;
    if k !in d.vals {
      forall i, j | 0 <= i < j < |ks| ensures ks[i] != ks[j] {
        if j == |d.keys| { assert ks[i] in d.keys; }
      }
      assert forall x :: x in ks <==> x in d.keys || x == k;
    }
  }

  /** Python truthiness (`bool(v)`); a Path object is always true. */
  predicate Truthy(v: Value) {
    match v
    case Str(s) => s != []
    case Bool(b) => b
    case Int(i) => i != 0
    case Float(r) => r != 0.0
    case Null => false
    case List(items) => items != []
    case Tuple(items) => items != []
    case Path(_) => true
    case Mapping(d) => d.vals != map[]
  }

  /** `v == False` in Python: `False`, `0` and `0.0` are all equal to `False`. */
  predicate EqualsFalse(v: Value) {
    v == Bool(false) || v == Int(0) || v == Float(0.0)
  }

  /** Whether `v` may be used as a dict key (lists and dicts may not). */
  predicate Hashable(v: Value) {
    match v
    case List(_) => false
    case Mapping(_) => false
    case Tuple(items) => forall i :: 0 <= i < |items| ==> Hashable(items[i])
    case _ => true
  }

  /** `v[i]` for a non-negative index: lists, tuples and strings are indexable. */
  function Index(v: Value, i: nat): Option<Value> {
    match v
    case List(items) => if i < |items| then Some(items[i]) else None
    case Tuple(items) => if i < |items| then Some(items[i]) else None
    case Str(s) => if i < |s| then Some(Str([s[i]])) else None
    case _ => None
  }

  /** Iterating a value with `for`: lists and tuples give their items, strings their
      characters, dicts their keys; anything else raises `TypeError`. */
  function Iterate(v: Value): (r: Option<seq<Value>>)
    ensures r.Some? <==> v.List? || v.Tuple? || v.Str? || v.Mapping?
    ensures (v.List? || v.Tuple?) ==> r == Some(v.items)
    ensures v.Str? ==> r.Some? && |r.value| == |v.s|
  {
    match v
    case List(items) => Some(items)
    case Tuple(items) => Some(items)
    case Str(s) => Some(seq(|s|, i requires 0 <= i < |s| => Str([s[i]])))
    case Mapping(d) => Some(seq(|d.keys|, i requires 0 <= i < |d.keys| => Str(d.keys[i])))
    case _ => None
  }

  /** `list(v)` when `v` is a tuple, `v` otherwise. */
  function Untuple(v: Value): (r: Value)
    ensures !r.Tuple?
    ensures v.Tuple? ==> r == List(v.items)
    ensures !v.Tuple? ==> r == v
  {
    if v.Tuple? then List(v.items) else v
  }

  /** `s.split(sep)` */
  function Split(s: string, sep: char): (r: seq<string>)
    ensures |r| > 0
  {
    if |s| == 0 then [""]
    else
      var rest := Split(s[1..], sep);
      if s[0] == sep then [""] + rest else [[s[0]] + rest[0]] + rest[1..]
  }

  /** `sep.join(parts)` */
  function Join(parts: seq<string>, sep: char): string {
    if |parts| == 0 then ""
    else if |parts| == 1 then parts[0]
    else parts[0] + [sep] + Join(parts[1..], sep)
  }

  lemma {:induction false} JoinSplit(s: string, sep: char)
    ensures Join(Split(s, sep), sep) == s
  {
    if |s| > 0 {
      var rest := Split(s[1..], sep);
      JoinSplit(s[1..], sep);
      if s[0] == sep {
        assert Split(s, sep) == [""] + rest;
        assert Join([""] + rest, sep) == "" + [sep] + Join(rest, sep);
      } else {
        var r := Split(s, sep);
        assert r == [[s[0]] + rest[0]] + rest[1..];
        if |rest| == 1 {
          assert r == [[s[0]] + rest[0]];
        } else {
          assert r[1..] == rest[1..];
          assert Join(rest, sep) == rest[0] + [sep] + Join(rest[1..], sep);
        }
      }
    }
  }

  lemma {:induction false} SplitWithoutSeparator(s: string, sep: char)
    requires sep !in s
    ensures Split(s, sep) == [s]
  {
    if |s| > 0 {
      assert sep !in s[1..];
      SplitWithoutSeparator(s[1..], sep);
      assert s[0] != sep;
      assert [s[0]] + s[1..] == s;
    }
  }

  /** `''.join(parts)` */
  function Concat(parts: seq<string>): string {
    if parts == [] then "" else parts[0] + Concat(parts[1..])
  }

  lemma {:induction false} ConcatAppend(xs: seq<string>, ys: seq<string>)
    ensures Concat(xs + ys) == Concat(xs) + Concat(ys)
  {
    if xs != [] {
      assert (xs + ys)[0] == xs[0];
      assert (xs + ys)[1..] == xs[1..] + ys;
      ConcatAppend(xs[1..], ys);
      calc {
        Concat(xs + ys);
        xs[0] + Concat(xs[1..] + ys);
        xs[0] + (Concat(xs[1..]) + Concat(ys));
        (xs[0] + Concat(xs[1..])) + Concat(ys);
      }
    } else {
      assert xs + ys == ys;
    }
  }

  /** `s.replace(' ', '')` */
  function RemoveSpaces(s: string): (r: string)
    ensures ' ' !in r
    ensures |r| <= |s|
  {
    if s == [] then "" else (if s[0] == ' ' then "" else [s[0]]) + RemoveSpaces(s[1..])
  }

  /** The pieces of a path text that `pathlib` keeps: no empty and no `.` components. */
  function PathPieces(segments: seq<string>): (r: seq<string>)
    ensures forall p :: p in r ==> p != "" && p != "."
  {
    if segments == [] then []
    else Keep(Split(segments[0], '/')) + PathPieces(segments[1..])
  }

  function Keep(pieces: seq<string>): (r: seq<string>)
    ensures forall p :: p in r ==> p in pieces && p != "" && p != "."
  {
    if pieces == [] then []
    else (if pieces[0] == "" || pieces[0] == "." then [] else [pieces[0]]) + Keep(pieces[1..])
  }

  /** A segment `pathlib` treats as absolute. */
  predicate Rooted(s: string) {
    |s| > 0 && s[0] == '/'
  }

  /** The segments from the last absolute one on (all of them when none is
      absolute): an absolute segment discards everything before it. */
  function FromRoot(segments: seq<string>): seq<string> {
    if segments == [] then []
    else
      var last := segments[|segments| - 1];
      if Rooted(last) then [last] else FromRoot(segments[..|segments| - 1]) + [last]
  }

  /** The root POSIX paths keep: exactly two leading slashes stay `//`, one or
      more than two become `/`. */
  function RootOf(s: string): string {
    if |s| >= 2 && s[1] == '/' && (|s| == 2 || s[2] != '/') then "//" else "/"
  }

  /** `str(pathlib.PurePosixPath(*segments))`. */
  function PathJoin(segments: seq<string>): string {
    var tail := FromRoot(segments);
    var pieces := PathPieces(tail);
    if tail != [] && Rooted(tail[0]) then RootOf(tail[0]) + Join(pieces, '/')
    else if pieces == [] then "." else Join(pieces, '/')
  }

  /** Relative segments join their non-empty, non-`.` pieces with `/`, and give
      `.` when there are none. */
  lemma PathJoinRelative(segments: seq<string>)
    requires forall i :: 0 <= i < |segments| ==> !Rooted(segments[i])
    ensures PathJoin(segments) ==
      if PathPieces(segments) == [] then "." else Join(PathPieces(segments), '/')
  {
    FromRootNone(segments);
  }

  lemma {:induction false} FromRootNone(segments: seq<string>)
    requires forall i :: 0 <= i < |segments| ==> !Rooted(segments[i])
    ensures FromRoot(segments) == segments
    decreases |segments|
  {
    if segments != [] {
      var n := |segments|;
      FromRootNone(segments[..n - 1]);
      assert segments[..n - 1] + [segments[n - 1]] == segments;
    }
  }

  lemma {:induction false} FromRootAt(segments: seq<string>, i: nat)
    requires i < |segments| && Rooted(segments[i])
    requires forall k :: i < k < |segments| ==> !Rooted(segments[k])
    ensures FromRoot(segments) == segments[i..]
    decreases |segments|
  {
    var n := |segments|;
    if i < n - 1 {
      var init := segments[..n - 1];
      FromRootAt(init, i);
      assert init[i..] + [segments[n - 1]] == segments[i..];
    }
  }

  /** The last absolute segment discards every segment before it, and the path
      then starts with `/`. */
  lemma PathJoinAbsolute(segments: seq<string>, i: nat)
    requires i < |segments| && Rooted(segments[i])
    requires forall k :: i < k < |segments| ==> !Rooted(segments[k])
    ensures PathJoin(segments) == PathJoin(segments[i..])
    ensures Rooted(PathJoin(segments))
  {
    FromRootAt(segments, i);
    FromRootAt(segments[i..], 0);
  }

  /** `Path('/x', 'a')` is `/x/a`: the root is kept. */
  lemma PathJoinRootKept()
    ensures PathJoin(["/x", "a"]) == "/x/a"
  {
    FromRootAt(["/x", "a"], 0);
    SplitWithoutSeparator("a", '/');
    SplitWithoutSeparator("x", '/');
    assert "/x"[1..] == "x";
    assert Split("/x", '/') == ["", "x"];
    assert ["/x", "a"][1..] == ["a"] && ["a"][1..] == [] && ["", "x"][1..] == ["x"] && ["x"][1..] == [];
    assert Keep(["x"]) == ["x"] && Keep(["", "x"]) == ["x"] && Keep(["a"]) == ["a"];
    assert PathPieces(["a"]) == ["a"];
    assert PathPieces(["/x", "a"]) == ["x", "a"];
    assert ["x", "a"][1..] == ["a"];
    assert Join(["x", "a"], '/') == "x/a";
    assert RootOf("/x") == "/";
  }

  /** `Path('a', '/x')` is `/x`: an absolute segment discards the ones before it. */
  lemma PathJoinRootRestarts()
    ensures PathJoin(["a", "/x"]) == "/x"
  {
    FromRootAt(["a", "/x"], 1);
    SplitWithoutSeparator("x", '/');
    assert "/x"[1..] == "x";
    assert Split("/x", '/') == ["", "x"];
    assert ["a", "/x"][1..] == ["/x"] && ["/x"][1..] == [] && ["", "x"][1..] == ["x"] && ["x"][1..] == [];
    assert Keep(["x"]) == ["x"] && Keep(["", "x"]) == ["x"];
    assert PathPieces(["/x"]) == ["x"];
  }

  /** `Path('//x')` is `//x`: exactly two leading slashes are kept. */
  lemma PathJoinDoubleRoot()
    ensures PathJoin(["//x"]) == "//x"
  {
    FromRootAt(["//x"], 0);
    SplitWithoutSeparator("x", '/');
    assert "//x"[1..] == "/x" && "/x"[1..] == "x";
    assert Split("/x", '/') == ["", "x"];
    assert Split("//x", '/') == ["", "", "x"];
    assert ["//x"][1..] == [] && ["", "", "x"][1..] == ["", "x"] && ["", "x"][1..] == ["x"] && ["x"][1..] == [];
    assert Keep(["x"]) == ["x"] && Keep(["", "x"]) == ["x"] && Keep(["", "", "x"]) == ["x"];
    assert PathPieces(["//x"]) == ["x"];
  }

  /** `str(i)` for a Python int. */
  function IntText(i: int): string {
    if i < 0 then "-" + NatText(-i) else NatText(i)
  }

  function NatText(n: nat): (r: string)
    ensures |r| > 0
  {
    var d := ["0123456789"[n % 10]];
    if n < 10 then d else NatText(n / 10) + d
  }
}
