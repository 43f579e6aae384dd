/** The Brick record (bin/lib/brick.py): a closed set of attributes filled from
    keyword arguments and defaults, a derived name, and the all-strings `config`
    projection that is persisted and compared between runs. */
module BrickRecord {
  import opened Values
  import opened Host

  /** The keys of `Brick._DEFAULTS`; `self.data` has exactly these keys. */
  datatype Attr =
    | Family | Subfamily | Set | Studs | Sockets | Grid | Size | Rot | Input
    | InputMin | InputMax | MirrorZ | BottomFill | Texture | Name | PathAttr

  /** The key as written in `_DEFAULTS`, in keyword arguments and in `config`. */
  function AttrName(a: Attr): string {
    match a
    case Family => "family"
    case Subfamily => "subfamily"
    case Set => "set"
    case Studs => "studs"
    case Sockets => "sockets"
    case Grid => "grid"
    case Size => "size"
    case Rot => "rot"
    case Input => "input"
    case InputMin => "inputMin"
    case InputMax => "inputMax"
    case MirrorZ => "mirrorZ"
    case BottomFill => "bottomFill"
    case Texture => "texture"
    case Name => "name"
    case PathAttr => "path"
  }

  /** The attribute a key names, if any. */
  function AttrOf(k: string): Option<Attr> {
    if k == "family" then Some(Family)
    else if k == "subfamily" then Some(Subfamily)
    else if k == "set" then Some(Set)
    else if k == "studs" then Some(Studs)
    else if k == "sockets" then Some(Sockets)
    else if k == "grid" then Some(Grid)
    else if k == "size" then Some(Size)
    else if k == "rot" then Some(Rot)
    else if k == "input" then Some(Input)
    else if k == "inputMin" then Some(InputMin)
    else if k == "inputMax" then Some(InputMax)
    else if k == "mirrorZ" then Some(MirrorZ)
    else if k == "bottomFill" then Some(BottomFill)
    else if k == "texture" then Some(Texture)
    else if k == "name" then Some(Name)
    else if k == "path" then Some(PathAttr)
    else None
  }

  /** Different attributes have different names. */
  lemma AttrNameInverse(a: Attr)
    ensures AttrOf(AttrName(a)) == Some(a)
  {
  }

  /** The keys filled before `name` and `path`, in declaration order. */
  const OrdinaryAttrs: seq<Attr> := [
    Family, Subfamily, Set, Studs, Sockets, Grid, Size, Rot, Input,
    InputMin, InputMax, MirrorZ, BottomFill, Texture]

  /** The keys of `_DEFAULTS` in declaration order: `name` and `path` come last. */
  const DefaultAttrs: seq<Attr> := OrdinaryAttrs + [Name, PathAttr]

  /** `Brick._DEFAULTS[a]`; `size`, `name` and `path` default to `None`. */
  function Default(a: Attr): Value {
    match a
    case Family => Str("Square")
    case Subfamily => Str("Tile")
    case Set => Str("Blank")
    case Studs => Bool(false)
    case Sockets => Bool(true)
    case Grid => Bool(false)
    case Rot => Tuple([Int(0), Int(0), Int(0)])
    case Input => Str("")
    case InputMin => Tuple([Int(0), Int(0), Int(0)])
    case InputMax => Tuple([Int(0), Int(0), Int(0)])
    case MirrorZ => Float(0.0)
    case BottomFill => Float(0.0)
    case Texture => Str("")
    case _ => Null
  }

  datatype Brick = Brick(data: map<Attr, Value>)

  /** `m.get(k)`: `None` when absent. */
  function Field<K>(m: map<K, Value>, k: K): Value {
    if k in m then m[k] else Null
  }

  /** The stored value of an ordinary key: the argument if given, else the default
      (for `size`, the list of the `x`, `y`, `z` arguments); tuples become lists. */
  function Ordinary(kwds: map<string, Value>, a: Attr): Value {
    Untuple(
      if AttrName(a) in kwds then kwds[AttrName(a)]
      else if a == Size then List([Field(kwds, "x"), Field(kwds, "y"), Field(kwds, "z")])
      else Default(a))
  }

  /** `self.data` once the loop has filled the first `i` ordinary keys. */
  function BaseUpTo(kwds: map<string, Value>, i: nat): map<Attr, Value>
    requires i <= |OrdinaryAttrs|
  {
    map a | a in OrdinaryAttrs[..i] :: Ordinary(kwds, a)
  }

  /** `self.data` once every ordinary key is filled. */
  function Base(kwds: map<string, Value>): map<Attr, Value> {
    map a | a != Name && a != PathAttr :: Ordinary(kwds, a)
  }

  /** `str(v)` */
  function StrOf(host: Host, v: Value): string {
    match v
    case Str(s) => s
    case Bool(b) => if b then "True" else "False"
    case Int(i) => IntText(i)
    case Null => "None"
    case Path(t) => t
    case _ => host.repr(v)
  }

  /** `f'{v:g}'`: defined for numbers (a bool counts as 0 or 1), an exception otherwise. */
  function GFormat(host: Host, v: Value): Option<string> {
    match v
    case Int(i) => Some(host.general(i as real))
    case Float(r) => Some(host.general(r))
    case Bool(b) => Some(host.general(if b then 1.0 else 0.0))
    case _ => None
  }

  predicate Numeric(v: Value) {
    v.Int? || v.Float? || v.Bool?
  }

  predicate IsHex(family: Value) {
    family == Str("Hex-R") || family == Str("Hex-S")
  }

  function NonNull(parts: seq<Value>): (r: seq<Value>)
    ensures forall v :: v in r <==> v in parts && v != Null
  {
    if parts == [] then [] else (if parts[0] == Null then [] else [parts[0]]) + NonNull(parts[1..])
  }

  function Texts(host: Host, parts: seq<Value>): (r: seq<string>)
    ensures |r| == |parts|
    ensures forall i :: 0 <= i < |parts| ==> r[i] == StrOf(host, parts[i])
  {
    if parts == [] then [] else [StrOf(host, parts[0])] + Texts(host, parts[1..])
  }

  /** `'-'.join([str(n) for n in parts if n is not None])` */
  function DashJoin(host: Host, parts: seq<Value>): string {
    Join(Texts(host, NonNull(parts)), '-')
  }

  /** The name derivation of the `name` property, from `set`, `family`, `subfamily`
      and `size` only; `None` is the exception from a short size or a non-number. */
  function DerivedName(host: Host, data: map<Attr, Value>): Option<string> {
    var family := Field(data, Family);
    var size := Field(data, Size);
    var head := [Field(data, Set), family, Field(data, Subfamily)];
    var x := Index(size, 0);
    if x.None? then None
    else if IsHex(family) then Some(DashJoin(host, head + [x.value]))
    else
      var gx := GFormat(host, x.value);
      var y := Index(size, 1);
      if gx.None? || y.None? then None
      else
        var gy := GFormat(host, y.value);
        if gy.None? then None
        else Some(DashJoin(host, head + [Str(gx.value + "x" + gy.value)]))
  }

  /** The `name` property: the stored name when truthy, else the derived one. */
  function NameOf(host: Host, data: map<Attr, Value>): Option<Value> {
    if Truthy(Field(data, Name)) then Some(data[Name])
    else match DerivedName(host, data)
      case None => None
      case Some(n) => Some(Str(n))
  }

  /** An argument `pathlib.Path` accepts: a string or a path. */
  function PathArg(v: Value): Option<string> {
    match v
    case Str(s) => Some(s)
    case Path(t) => Some(t)
    case _ => None
  }

  /** `pathlib.Path(self.set, self.subfamily)` */
  function DefaultPath(data: map<Attr, Value>): Option<string> {
    var s := PathArg(Field(data, Set));
    var f := PathArg(Field(data, Subfamily));
    if s.None? || f.None? then None else Some(PathJoin([s.value, f.value]))
  }

  /** The `name` slot: the argument if given, else the derived name. */
  function NameSlot(kwds: map<string, Value>, n: string): Value {
    Untuple(if "name" in kwds then kwds["name"] else Str(n))
  }

  /** The `path` slot: the argument if given, else the default path. */
  function PathSlot(kwds: map<string, Value>, p: string): Value {
    Untuple(if "path" in kwds then kwds["path"] else Path(p))
  }

  /** `self.data` once both derived slots are filled, from derivation `n` and default path `p`. */
  function Assemble(kwds: map<string, Value>, n: string, p: string): map<Attr, Value> {
    Base(kwds)[Name := NameSlot(kwds, n)][PathAttr := PathSlot(kwds, p)]
  }

  /** `Brick(**kwds)`; `None` is an exception out of the constructor. The name and
      the default path are computed even when supplied, as Python evaluates the
      default argument of `kwds.get` before the call; both read only slots filled
      before them. */
  function BrickOf(host: Host, kwds: map<string, Value>): Option<Brick> {
    var base := Base(kwds);
    var n := DerivedName(host, base);
    var p := DefaultPath(base);
    if "self" in kwds || n.None? || p.None? then None
    else Some(Brick(Assemble(kwds, n.value, p.value)))
  }

  lemma BaseStep(kwds: map<string, Value>, i: nat)
    requires i < |OrdinaryAttrs|
    ensures BaseUpTo(kwds, i + 1) == BaseUpTo(kwds, i)[OrdinaryAttrs[i] := Ordinary(kwds, OrdinaryAttrs[i])]
  {
    assert OrdinaryAttrs[..i + 1] == OrdinaryAttrs[..i] + [OrdinaryAttrs[i]];
  }

  /** The loop has filled exactly the ordinary keys once it has passed all of them. */
  lemma BaseComplete(kwds: map<string, Value>)
    ensures BaseUpTo(kwds, |OrdinaryAttrs|) == Base(kwds)
  {
    assert OrdinaryAttrs[..|OrdinaryAttrs|] == OrdinaryAttrs;
    forall a ensures a in OrdinaryAttrs <==> a != Name && a != PathAttr {
      match a
      case Name =>
      case PathAttr =>
      case Family => assert OrdinaryAttrs[0] == a;
      case Subfamily => assert OrdinaryAttrs[1] == a;
      case Set => assert OrdinaryAttrs[2] == a;
      case Studs => assert OrdinaryAttrs[3] == a;
      case Sockets => assert OrdinaryAttrs[4] == a;
      case Grid => assert OrdinaryAttrs[5] == a;
      case Size => assert OrdinaryAttrs[6] == a;
      case Rot => assert OrdinaryAttrs[7] == a;
      case Input => assert OrdinaryAttrs[8] == a;
      case InputMin => assert OrdinaryAttrs[9] == a;
      case InputMax => assert OrdinaryAttrs[10] == a;
      case MirrorZ => assert OrdinaryAttrs[11] == a;
      case BottomFill => assert OrdinaryAttrs[12] == a;
      case Texture => assert OrdinaryAttrs[13] == a;
    }
  }

  /** At the `name` step nothing is stored under `name` yet, so the property derives. */
  lemma NameStep(host: Host, kwds: map<string, Value>)
    ensures NameOf(host, Base(kwds)) ==
      if DerivedName(host, Base(kwds)).None? then None else Some(Str(DerivedName(host, Base(kwds)).value))
  {
  }

  /** Filling `name` does not disturb the slots the default path reads. */
  lemma PathStep(kwds: map<string, Value>, v: Value)
    ensures DefaultPath(Base(kwds)[Name := v]) == DefaultPath(Base(kwds))
  {
    assert Field(Base(kwds)[Name := v], Set) == Field(Base(kwds), Set);
    assert Field(Base(kwds)[Name := v], Subfamily) == Field(Base(kwds), Subfamily);
  }

  lemma FinishStep(host: Host, kwds: map<string, Value>, n: string, p: string)
    requires "self" !in kwds
    requires DerivedName(host, Base(kwds)) == Some(n) && DefaultPath(Base(kwds)) == Some(p)
    ensures BrickOf(host, kwds) == Some(Brick(Assemble(kwds, n, p)))
  {
  }

  lemma FailStep(host: Host, kwds: map<string, Value>)
    requires DerivedName(host, Base(kwds)).None? || DefaultPath(Base(kwds)).None?
    ensures BrickOf(host, kwds).None?
  {
  }

  /** `Brick.__init__`: one pass over `_DEFAULTS` in declaration order. The pass
      visits the ordinary keys in the loop (the `size` case and the default case of
      the `match`); `name` and `path`, the last two keys, are the two steps after it. */
  method NewBrick(host: Host, kwds: map<string, Value>) returns (r: Option<Brick>)
    ensures r == BrickOf(host, kwds)
  {
    if "self" in kwds {
      // `self` is the constructor's own positional parameter.
      return None;
    }
    BaseComplete(kwds);
    var data: map<Attr, Value> := map[];
    var i := 0;
    while i < |OrdinaryAttrs|
      invariant 0 <= i <= |OrdinaryAttrs|
      invariant data == BaseUpTo(kwds, i)
    {
      var a := OrdinaryAttrs[i];
      var k := AttrName(a);
      var v: Value;
      if a == Size {
        v := if k in kwds then kwds[k] else List([Field(kwds, "x"), Field(kwds, "y"), Field(kwds, "z")]);
      } else {
        v := if k in kwds then kwds[k] else Default(a);
      }
      assert Untuple(v) == Ordinary(kwds, a);
      BaseStep(kwds, i);
      data := data[a := Untuple(v)];
      i := i + 1;
    }
    NameStep(host, kwds);
    var current := NameOf(host, data);
    if current.None? {
      FailStep(host, kwds);
      return None;
    }
    ghost var n := DerivedName(host, data).value;
    var v := if "name" in kwds then kwds["name"] else current.value;
    assert Untuple(v) == NameSlot(kwds, n);
    data := data[Name := Untuple(v)];
    PathStep(kwds, NameSlot(kwds, n));
    var path := DefaultPath(data);
    if path.None? {
      FailStep(host, kwds);
      return None;
    }
    v := if "path" in kwds then kwds["path"] else Path(path.value);
    assert Untuple(v) == PathSlot(kwds, path.value);
    data := data[PathAttr := Untuple(v)];
    FinishStep(host, kwds, n, path.value);
    return Some(Brick(data));
  }

  /** The `config` property: every value as a string, booleans in lower case. */
  function Stringify(host: Host, v: Value): string {
    if v.Bool? then (if v.b then "true" else "false") else StrOf(host, v)
  }

  /** Keyed by attribute; in `config.json` each key is written as its `AttrName`. */
  function Config(host: Host, b: Brick): (r: map<Attr, string>)
    ensures r.Keys == b.data.Keys
  {
    map a | a in b.data :: Stringify(host, b.data[a])
  }

  /** The `x`, `y` and `z` properties read the size vector. */
  function X(b: Brick): Option<Value> { Index(Field(b.data, Size), 0) }
  function Y(b: Brick): Option<Value> { Index(Field(b.data, Size), 1) }
  function Z(b: Brick): Option<Value> { Index(Field(b.data, Size), 2) }

  // Properties of the constructor

  /** Unfolds `BrickOf` on a successful construction. */
  lemma BrickShape(host: Host, kwds: map<string, Value>, b: Brick)
    requires BrickOf(host, kwds) == Some(b)
    ensures "self" !in kwds && DerivedName(host, Base(kwds)).Some? && DefaultPath(Base(kwds)).Some?
    ensures b.data == Assemble(kwds, DerivedName(host, Base(kwds)).value, DefaultPath(Base(kwds)).value)
  {
  }

  /** The name is derivable exactly when the size has the entries the family needs
      and, for a rectangular family, they are numbers; the host plays no part. */
  predicate NameDerivable(data: map<Attr, Value>) {
    var size := Field(data, Size);
    Index(size, 0).Some? &&
    (IsHex(Field(data, Family)) ||
     (Numeric(Index(size, 0).value) && Index(size, 1).Some? && Numeric(Index(size, 1).value)))
  }

  lemma DerivedNameDefined(host: Host, data: map<Attr, Value>)
    ensures DerivedName(host, data).Some? <==> NameDerivable(data)
  {
  }

  /** Construction fails exactly when `self` is passed, the name cannot be derived
      (even if one is supplied), or `set` or `subfamily` is no path segment. */
  lemma BrickBuilds(host: Host, kwds: map<string, Value>)
    ensures BrickOf(host, kwds).Some? <==>
      "self" !in kwds && NameDerivable(Base(kwds)) &&
      PathArg(Ordinary(kwds, Set)).Some? && PathArg(Ordinary(kwds, Subfamily)).Some?
  {
    DerivedNameDefined(host, Base(kwds));
  }

  // A constructed brick is `Brick(Assemble(kwds, n, p))` for the derived name `n` and
  // default path `p` (`BrickShape`); the lemmas below are stated on that form.

  /** `data` has every default key; every ordinary key holds the supplied value or
      the default, tuples stored as lists; `size` falls back to `[x, y, z]`. */
  lemma BrickFields(kwds: map<string, Value>, n: string, p: string)
    ensures forall a :: a in Assemble(kwds, n, p)
    ensures forall a :: a != Name && a != PathAttr && a != Size ==>
      Assemble(kwds, n, p)[a] == Untuple(if AttrName(a) in kwds then kwds[AttrName(a)] else Default(a))
    ensures Assemble(kwds, n, p)[Size] ==
      if "size" in kwds then Untuple(kwds["size"])
      else List([Field(kwds, "x"), Field(kwds, "y"), Field(kwds, "z")])
    ensures forall a :: !Assemble(kwds, n, p)[a].Tuple?
  {
  }

  /** Without a `path` argument the path is `set/subfamily` of the brick's own values. */
  lemma BrickPathDefault(kwds: map<string, Value>, n: string, p: string)
    requires DefaultPath(Base(kwds)) == Some(p)
    requires "path" !in kwds
    ensures var data := Assemble(kwds, n, p);
      PathArg(data[Set]).Some? && PathArg(data[Subfamily]).Some? &&
      data[PathAttr] == Path(PathJoin([PathArg(data[Set]).value, PathArg(data[Subfamily]).value]))
  {
  }

  /** Two records that agree on `set`, `family`, `subfamily` and `size` derive the same name. */
  lemma NameDeterministic(host: Host, d1: map<Attr, Value>, d2: map<Attr, Value>)
    requires Field(d1, Set) == Field(d2, Set) && Field(d1, Family) == Field(d2, Family)
    requires Field(d1, Subfamily) == Field(d2, Subfamily) && Field(d1, Size) == Field(d2, Size)
    ensures DerivedName(host, d1) == DerivedName(host, d2)
  {
  }

  /** The stored name is the supplied one, or the derivation, which the brick's own
      `set`, `family`, `subfamily` and `size` reproduce; the `name` property re-derives
      when the stored name is falsy, so it is the supplied name only when that is truthy. */
  lemma BrickName(host: Host, kwds: map<string, Value>, n: string, p: string)
    requires DerivedName(host, Base(kwds)) == Some(n)
    ensures var data := Assemble(kwds, n, p);
      DerivedName(host, data) == Some(n) &&
      data[Name] == (if "name" in kwds then Untuple(kwds["name"]) else Str(n)) &&
      NameOf(host, data) ==
        if "name" in kwds && Truthy(Untuple(kwds["name"])) then Some(Untuple(kwds["name"])) else Some(Str(n))
  {
    NameDeterministic(host, Assemble(kwds, n, p), Base(kwds));
  }

  lemma JoinThree(a: string, b: string, c: string)
    ensures Join([a, b, c], '-') == a + "-" + b + "-" + c
  {
    assert [a, b, c][1..] == [b, c];
    assert [b, c][1..] == [c];
    assert Join([b, c], '-') == b + "-" + c;
  }

  lemma JoinFour(a: string, b: string, c: string, d: string)
    ensures Join([a, b, c, d], '-') == a + "-" + b + "-" + c + "-" + d
  {
    assert [a, b, c, d][1..] == [b, c, d];
    JoinThree(b, c, d);
  }

  lemma {:induction false} NonNullKeeps(parts: seq<Value>)
    requires forall i :: 0 <= i < |parts| ==> parts[i] != Null
    ensures NonNull(parts) == parts
  {
    if parts != [] {
      NonNullKeeps(parts[1..]);
    }
  }

  /** A rectangular family is named `set-family-subfamily-{x:g}x{y:g}`, whatever
      sequence holds the size and whichever kind of number each coordinate is. */
  lemma RectangularName(host: Host, data: map<Attr, Value>, theSet: string, family: string,
                        subfamily: string, x: Value, y: Value)
    requires Field(data, Set) == Str(theSet) && Field(data, Family) == Str(family)
    requires Field(data, Subfamily) == Str(subfamily)
    requires Index(Field(data, Size), 0) == Some(x) && Index(Field(data, Size), 1) == Some(y)
    requires Numeric(x) && Numeric(y)
    requires family != "Hex-R" && family != "Hex-S"
    ensures DerivedName(host, data) ==
      Some(theSet + "-" + family + "-" + subfamily + "-" + GFormat(host, x).value + "x" + GFormat(host, y).value)
  {
    var head := [Str(theSet), Str(family), Str(subfamily)];
    var gxy := GFormat(host, x).value + "x" + GFormat(host, y).value;
    assert !IsHex(Field(data, Family));
    assert DerivedName(host, data) == Some(DashJoin(host, head + [Str(gxy)]));
    NonNullKeeps(head + [Str(gxy)]);
    assert Texts(host, head + [Str(gxy)]) == [theSet, family, subfamily, gxy];
    JoinFour(theSet, family, subfamily, gxy);
    assert theSet + "-" + family + "-" + subfamily + "-" + gxy ==
      theSet + "-" + family + "-" + subfamily + "-" + GFormat(host, x).value + "x" + GFormat(host, y).value;
  }

  /** A hex family is named `set-family-subfamily-x` with `x` printed by `str`. */
  lemma HexName(host: Host, data: map<Attr, Value>, theSet: string, family: string,
                subfamily: string, x: Value)
    requires Field(data, Set) == Str(theSet) && Field(data, Family) == Str(family)
    requires Field(data, Subfamily) == Str(subfamily)
    requires Index(Field(data, Size), 0) == Some(x) && x != Null
    requires family == "Hex-R" || family == "Hex-S"
    ensures DerivedName(host, data) ==
      Some(theSet + "-" + family + "-" + subfamily + "-" + StrOf(host, x))
  {
    var parts := [Str(theSet), Str(family), Str(subfamily), x];
    assert IsHex(Field(data, Family));
    assert [Str(theSet), Str(family), Str(subfamily)] + [x] == parts;
    assert DerivedName(host, data) == Some(DashJoin(host, parts));
    NonNullKeeps(parts);
    assert Texts(host, parts) == [theSet, family, subfamily, StrOf(host, x)];
    JoinFour(theSet, family, subfamily, StrOf(host, x));
  }

  /** A `None` component is left out of the name rather than printed: a brick
      without a family is named `set-subfamily-{x:g}x{y:g}`. */
  lemma NullFamilyDropped(host: Host, data: map<Attr, Value>, theSet: string,
                          subfamily: string, x: Value, y: Value)
    requires Field(data, Set) == Str(theSet) && Field(data, Family) == Null
    requires Field(data, Subfamily) == Str(subfamily)
    requires Index(Field(data, Size), 0) == Some(x) && Index(Field(data, Size), 1) == Some(y)
    requires Numeric(x) && Numeric(y)
    ensures DerivedName(host, data) ==
      Some(theSet + "-" + subfamily + "-" + GFormat(host, x).value + "x" + GFormat(host, y).value)
  {
    var gxy := GFormat(host, x).value + "x" + GFormat(host, y).value;
    var parts := [Str(theSet), Null, Str(subfamily), Str(gxy)];
    assert !IsHex(Field(data, Family));
    assert [Str(theSet), Null, Str(subfamily)] + [Str(gxy)] == parts;
    assert DerivedName(host, data) == Some(DashJoin(host, parts));
    assert parts[1..][1..] == [Str(subfamily), Str(gxy)];
    NonNullKeeps(parts[1..][1..]);
    assert NonNull(parts) == [Str(theSet), Str(subfamily), Str(gxy)];
    assert Texts(host, [Str(theSet), Str(subfamily), Str(gxy)]) == [theSet, subfamily, gxy];
    JoinThree(theSet, subfamily, gxy);
    assert theSet + "-" + subfamily + "-" + gxy ==
      theSet + "-" + subfamily + "-" + GFormat(host, x).value + "x" + GFormat(host, y).value;
  }

  /** The `config` projection has one entry per default key; unsupplied flags print
      as `"false"`/`"true"` in lower case. */
  lemma ConfigOfBrick(host: Host, kwds: map<string, Value>, n: string, p: string)
    ensures var c := Config(host, Brick(Assemble(kwds, n, p)));
      (forall a :: a in c) &&
      ("studs" !in kwds ==> c[Studs] == "false") &&
      ("sockets" !in kwds ==> c[Sockets] == "true") &&
      ("grid" !in kwds ==> c[Grid] == "false")
  {
    var d := Assemble(kwds, n, p);
    assert forall a :: a in d;
    assert d[Studs] == Ordinary(kwds, Studs) && d[Sockets] == Ordinary(kwds, Sockets);
    assert d[Grid] == Ordinary(kwds, Grid);
  }

  /** `x`, `y`, `z` read the size vector, which defaults to the `x`, `y`, `z` arguments. */
  lemma SizeCoordinates(kwds: map<string, Value>, n: string, p: string)
    requires "size" !in kwds
    ensures var b := Brick(Assemble(kwds, n, p));
      X(b) == Some(Field(kwds, "x")) && Y(b) == Some(Field(kwds, "y")) && Z(b) == Some(Field(kwds, "z"))
  {
    BrickFields(kwds, n, p);
  }

  // What a brick set yields

  /** Iterating a brick set: the bricks produced before the iteration ended, and
      whether it ended with an uncaught exception (which aborts the whole run). */
  datatype Stream = Stream(items: seq<Brick>, crashed: bool)

  /** `prefix` followed by the rest of the iteration. */
  function Then(prefix: seq<Brick>, s: Stream): (r: Stream)
    ensures r.crashed == s.crashed && |r.items| == |prefix| + |s.items|
  {
    Stream(prefix + s.items, s.crashed)
  }

  lemma ThenAppend(a: seq<Brick>, b: seq<Brick>, s: Stream)
    ensures Then(a, Then(b, s)) == Then(a + b, s)
  {
    assert a + (b + s.items) == (a + b) + s.items;
  }

  /** A brick set's constructor: built, rejected with `ValueError` (which `configure`
      logs and skips), or aborted by any other exception. */
  datatype Construction<T> = Built(value: T) | Rejected | Aborted
}
