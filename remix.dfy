/** Remixed brick sets (bin/lib/remix.py): every input mesh whose file name one of
    the rule's regexes matches becomes a brick, configured by folding the rule
    table over a baseline and expanding the string attributes as templates. */
module Remixing {
  import opened Values
  import opened Host
  import opened BrickRecord
  import opened Statistics

  /** A `Remix` rule as its constructor leaves it: the input root and the glob
      pattern it iterates, the regex sources, and the rule table. */
  datatype Remix = Remix(name: string, root: string, pattern: string, regexes: seq<string>, config: Value)

  // Construction

  /** `s.split(sep, 1)` when `sep` occurs, as the pair of its two pieces. */
  function SplitOnce(s: string, sep: char): (r: Option<(string, string)>)
    ensures r.None? <==> sep !in s
    ensures r.Some? ==> s == r.value.0 + [sep] + r.value.1 && sep !in r.value.0
  {
    if s == [] then None
    else if s[0] == sep then Some(([], s[1..]))
    else
      match SplitOnce(s[1..], sep)
      case None => None
      case Some((a, b)) => Some(([s[0]] + a, b))
  }

  /** `[r.split(':', 1) for r in entries]` unpacked into pairs; an entry without
      `:` cannot be unpacked and raises `ValueError`. */
  function ParseEntries(entries: seq<string>): (r: Option<seq<(string, string)>>)
    ensures r.Some? <==> forall i :: 0 <= i < |entries| ==> ':' in entries[i]
    ensures r.Some? ==>
      && |r.value| == |entries|
      && forall i :: 0 <= i < |entries| ==> SplitOnce(entries[i], ':') == Some(r.value[i])
  {
    if entries == [] then Some([])
    else
      var head := SplitOnce(entries[0], ':');
      var rest := ParseEntries(entries[1..]);
      assert forall i :: 1 <= i < |entries| ==> entries[i] == entries[1..][i - 1];
      if head.None? || rest.None? then None else Some([head.value] + rest.value)
  }

  /** `{conf: glob for (conf, glob) in pairs}`: a later pair for a name wins. */
  function TableOf(pairs: seq<(string, string)>): (t: map<string, string>)
    ensures forall c :: c in t <==> exists i :: 0 <= i < |pairs| && pairs[i].0 == c
    ensures |pairs| > 0 ==> t[pairs[|pairs| - 1].0] == pairs[|pairs| - 1].1
  {
    if pairs == [] then map[]
    else
      var init := pairs[..|pairs| - 1];
      assert forall i :: 0 <= i < |init| ==> init[i] == pairs[i];
      TableOf(init)[pairs[|pairs| - 1].0 := pairs[|pairs| - 1].1]
  }

  /** `Remix._remixes`, the `--remix` entries as a table from rule name to glob. */
  function RemixTable(entries: seq<string>): Option<map<string, string>> {
    match ParseEntries(entries)
    case None => None
    case Some(pairs) => Some(TableOf(pairs))
  }

  /** The regex sources of `config['regex']`: every item must be a string that compiles. */
  function Patterns(host: Host, items: seq<Value>): (r: Option<seq<string>>)
    ensures r.Some? <==> forall i :: 0 <= i < |items| ==> items[i].Str? && host.compiles(items[i].s)
    ensures r.Some? ==> |r.value| == |items| && forall i :: 0 <= i < |items| ==> r.value[i] == items[i].s
  {
    if items == [] then Some([])
    else
      var rest := Patterns(host, items[1..]);
      if !items[0].Str? || !host.compiles(items[0].s) || rest.None? then
        assert rest.None? ==> exists i :: 1 <= i < |items| && !(items[i].Str? && host.compiles(items[i].s)) by {
          if rest.None? {
            var j :| 0 <= j < |items| - 1 && !(items[1..][j].Str? && host.compiles(items[1..][j].s));
            assert items[1..][j] == items[j + 1];
          }
        }
        None
      else Some([items[0].s] + rest.value)
  }

  /** The glob pattern of a rule: its `--remix` entry, or every `.stl` file below the root. */
  const DefaultPattern := "**/*.stl"

  /** `Remix(name, conf)` with `--input` as `input` (empty when unset) and the
      `--remix` entries as `entries`. */
  function NewRemix(host: Host, input: string, entries: seq<string>, name: string, conf: Value)
    : (r: Construction<Remix>)
    ensures r.Rejected? <==>
      input == "" || (|entries| > 0 && (RemixTable(entries).None? || name !in RemixTable(entries).value))
    ensures r.Built? ==> r.value.name == name && r.value.root == input
    ensures r.Built? && |entries| == 0 ==> r.value.pattern == DefaultPattern
    ensures r.Built? && |entries| > 0 ==> r.value.pattern == RemixTable(entries).value[name]
    ensures r.Built? ==>
      && conf.Mapping? && "regex" in conf.d.vals && "config" in conf.d.vals
      && r.value.config == conf.d.vals["config"]
      && Iterate(conf.d.vals["regex"]).Some?
      && Patterns(host, Iterate(conf.d.vals["regex"]).value) == Some(r.value.regexes)
  {
    if input == "" then Rejected
    else if |entries| > 0 && (RemixTable(entries).None? || name !in RemixTable(entries).value) then Rejected
    else
      var pattern := if |entries| > 0 then RemixTable(entries).value[name] else DefaultPattern;
      if !conf.Mapping? || "regex" !in conf.d.vals then Aborted
      else
        var items := Iterate(conf.d.vals["regex"]);
        if items.None? then Aborted
        else
          var regexes := Patterns(host, items.value);
          if regexes.None? || "config" !in conf.d.vals then Aborted
          else Built(Remix(name, input, pattern, regexes.value, conf.d.vals["config"]))
  }

  // Regex selection

  /** The captures of the first regex, in declared order, that fully matches `name`. */
  function FirstMatch(host: Host, regexes: seq<string>, name: string): (m: Option<Captures>)
    ensures m.None? <==> forall i :: 0 <= i < |regexes| ==> host.fullmatch(regexes[i], name).None?
    ensures m.Some? ==> exists i ::
      && 0 <= i < |regexes| && host.fullmatch(regexes[i], name) == m
      && forall j :: 0 <= j < i ==> host.fullmatch(regexes[j], name).None?
  {
    if regexes == [] then None
    else if host.fullmatch(regexes[0], name).Some? then host.fullmatch(regexes[0], name)
    else
      var m := FirstMatch(host, regexes[1..], name);
      assert forall i :: 1 <= i < |regexes| ==> regexes[i] == regexes[1..][i - 1];
      if m.Some? then
        var i :| 0 <= i < |regexes[1..]| && host.fullmatch(regexes[1..][i], name) == m
          && forall j :: 0 <= j < i ==> host.fullmatch(regexes[1..][j], name).None?;
        assert host.fullmatch(regexes[i + 1], name) == m;
        m
      else m
  }

  /** The `for … else` over the regexes. */
  method SelectMatch(host: Host, regexes: seq<string>, name: string) returns (m: Option<Captures>)
    ensures m == FirstMatch(host, regexes, name)
  {
    var i := 0;
    while i < |regexes|
      invariant 0 <= i <= |regexes|
      invariant FirstMatch(host, regexes, name) == FirstMatch(host, regexes[i..], name)
    {
      assert regexes[i..][0] == regexes[i] && regexes[i..][1..] == regexes[i + 1..];
      var found := host.fullmatch(regexes[i], name);
      if found.Some? {
        return found;
      }
      i := i + 1;
    }
    return None;
  }

  // The variable namespace

  /** A list of Python floats. */
  function FloatList(xs: seq<real>): Value {
    List(seq(|xs|, i requires 0 <= i < |xs| => Float(xs[i])))
  }

  /** `path0` … `path3`. */
  function PathName(i: nat): string {
    "path" + NatText(i)
  }

  /** `enumerate(infile.parts[:-5:-1])`: the last four parts, the file name first. */
  function PathVars(parts: seq<string>): map<string, Value> {
    var n := |parts|;
    (if n > 0 then map["path0" := Str(parts[n - 1])] else map[])
    + (if n > 1 then map["path1" := Str(parts[n - 2])] else map[])
    + (if n > 2 then map["path2" := Str(parts[n - 3])] else map[])
    + (if n > 3 then map["path3" := Str(parts[n - 4])] else map[])
  }

  /** `vars` before rule folding: the mesh bounds, then every capture group as the
      concatenation of its captures, then the path parts, each later source
      overriding an earlier one on a shared name. */
  function Variables(mesh: Mesh, caps: Captures, parts: seq<string>): map<string, Value> {
    MeshVars(mesh) + CaptureVars(caps) + PathVars(parts)
  }

  function MeshVars(mesh: Mesh): map<string, Value> {
    map["meshMin" := FloatList(mesh.min), "meshMax" := FloatList(mesh.max),
        "meshDimension" := FloatList(mesh.dimension)]
  }

  /** `''.join(v)` for every group of `match.capturesdict()`. */
  function CaptureVars(caps: Captures): map<string, Value> {
    map g | g in caps :: Str(Concat(caps[g]))
  }

  lemma PathNames()
    ensures PathName(0) == "path0" && PathName(1) == "path1"
    ensures PathName(2) == "path2" && PathName(3) == "path3"
  {
  }

  /** `pathI` is bound exactly for the `I` < 4 parts there are, to the `I`-th part
      counted back from the file name; no other name is bound. */
  lemma PathVarsMeaning(parts: seq<string>)
    ensures forall i :: 0 <= i < 4 ==>
      (PathName(i) in PathVars(parts) <==> i < |parts|)
      && (i < |parts| ==> PathVars(parts)[PathName(i)] == Str(parts[|parts| - 1 - i]))
  {
    PathNames();
    forall i | 0 <= i < 4
      ensures PathName(i) in PathVars(parts) <==> i < |parts|
      ensures i < |parts| ==> PathVars(parts)[PathName(i)] == Str(parts[|parts| - 1 - i])
    {
      match i
      case 0 =>
      case 1 =>
      case 2 =>
      case 3 =>
    }
  }

  lemma PathVarsKeys(parts: seq<string>)
    ensures forall k :: k in PathVars(parts) ==> |k| == 5 && k[0] == 'p'
  {
  }

  /** A path variable holds its part: the capture groups and mesh bounds under
      the same name are overridden. */
  lemma PathVariables(mesh: Mesh, caps: Captures, parts: seq<string>)
    ensures forall i :: 0 <= i < 4 && i < |parts| ==>
      PathName(i) in Variables(mesh, caps, parts)
      && Variables(mesh, caps, parts)[PathName(i)] == Str(parts[|parts| - 1 - i])
  {
    PathVarsMeaning(parts);
  }

  /** A capture group that is not a path variable holds the concatenation of its captures. */
  lemma CaptureVariables(mesh: Mesh, caps: Captures, parts: seq<string>)
    ensures forall g :: g in caps && g !in PathVars(parts) ==>
      Variables(mesh, caps, parts)[g] == Str(Concat(caps[g]))
  {
    var cv := CaptureVars(caps);
    assert forall g :: g in caps ==> g in cv && cv[g] == Str(Concat(caps[g]));
  }

  /** The mesh variables hold the mesh bounds and size unless a group of that name overrides them. */
  lemma MeshVariables(mesh: Mesh, caps: Captures, parts: seq<string>)
    ensures var vars := Variables(mesh, caps, parts);
      && ("meshMin" !in caps ==> vars["meshMin"] == FloatList(mesh.min))
      && ("meshMax" !in caps ==> vars["meshMax"] == FloatList(mesh.max))
      && ("meshDimension" !in caps ==> vars["meshDimension"] == FloatList(mesh.dimension))
  {
    MeshNamesFree(parts);
    var cv := CaptureVars(caps);
    assert forall g :: g in cv <==> g in caps;
    var mv := MeshVars(mesh);
    assert mv["meshMin"] == FloatList(mesh.min) && mv["meshMax"] == FloatList(mesh.max);
    assert mv["meshDimension"] == FloatList(mesh.dimension);
  }

  lemma MeshNamesFree(parts: seq<string>)
    ensures "meshMin" !in PathVars(parts) && "meshMax" !in PathVars(parts)
    ensures "meshDimension" !in PathVars(parts)
  {
    PathVarsKeys(parts);
    assert |"meshMin"| == 7 && |"meshMax"| == 7 && |"meshDimension"| == 13;
  }

  // The baseline

  /** `brickConfig` before the rules: the stem as name, the rule as set, the
      resolved input, the bounds and size from `vars`, and `set/parent` as path. */
  function Baseline(rule: string, f: InFile, vars: map<string, Value>): Dict {
    Record(Str(Stem(FileName(f))), Str(rule), Path(f.resolved), Field(vars, "meshMin"), Field(vars, "meshMax"),
           Path(PathJoin([rule, RemoveSpaces(ParentName(f))])), Field(vars, "meshDimension"))
  }

  /** The dict literal of `brickConfig`, its seven entries in their order. */
  function Record(name: Value, theSet: Value, input: Value, inputMin: Value, inputMax: Value,
                  path: Value, size: Value): Dict {
    Dict(RecordKeys,
         map["name" := name, "set" := theSet, "input" := input, "inputMin" := inputMin,
             "inputMax" := inputMax, "path" := path, "size" := size])
  }

  const RecordKeys: seq<string> := ["name", "set", "input", "inputMin", "inputMax", "path", "size"]

  lemma RecordWellFormed(name: Value, theSet: Value, input: Value, inputMin: Value, inputMax: Value,
                         path: Value, size: Value)
    ensures WellFormed(Record(name, theSet, input, inputMin, inputMax, path, size))
  {
    var d := Record(name, theSet, input, inputMin, inputMax, path, size);
    assert forall k :: k in d.vals <==> k in RecordKeys;
    forall i, j | 0 <= i < j < |RecordKeys| ensures RecordKeys[i] != RecordKeys[j] {
      assert || |RecordKeys[i]| != |RecordKeys[j]|
             || RecordKeys[i][0] != RecordKeys[j][0]
             || RecordKeys[i][|RecordKeys[i]| - 1] != RecordKeys[j][|RecordKeys[j]| - 1];
    }
  }

  lemma BaselineWellFormed(rule: string, f: InFile, vars: map<string, Value>)
    ensures WellFormed(Baseline(rule, f, vars))
  {
    RecordWellFormed(Str(Stem(FileName(f))), Str(rule), Path(f.resolved), Field(vars, "meshMin"),
                Field(vars, "meshMax"), Path(PathJoin([rule, RemoveSpaces(ParentName(f))])),
                Field(vars, "meshDimension"));
  }

  /** The baseline holds exactly the stem as `name`, the rule name as `set`, the resolved input, the mesh bounds and size as read from `vars`, and
      `rule/parent` (spaces removed from the parent) as `path`. */
  lemma BaselineFields(rule: string, f: InFile, vars: map<string, Value>)
    ensures var d := Baseline(rule, f, vars);
      && d.vals.Keys == {"name", "set", "input", "inputMin", "inputMax", "path", "size"}
      && d.vals["name"] == Str(Stem(FileName(f)))
      && d.vals["set"] == Str(rule)
      && d.vals["input"] == Path(f.resolved)
      && d.vals["inputMin"] == Field(vars, "meshMin")
      && d.vals["inputMax"] == Field(vars, "meshMax")
      && d.vals["path"] == Path(PathJoin([rule, RemoveSpaces(ParentName(f))]))
      && d.vals["size"] == Field(vars, "meshDimension")
  {
  }

  /** Over the variables of a match, the baseline's bounds and size are the mesh's,
      unless a capture group of the same name overrides them. */
  lemma BaselineMesh(rule: string, f: InFile, mesh: Mesh, caps: Captures, parts: seq<string>)
    ensures var d := Baseline(rule, f, Variables(mesh, caps, parts));
      && ("meshMin" !in caps ==> d.vals["inputMin"] == FloatList(mesh.min))
      && ("meshMax" !in caps ==> d.vals["inputMax"] == FloatList(mesh.max))
      && ("meshDimension" !in caps ==> d.vals["size"] == FloatList(mesh.dimension))
  {
    var vars := Variables(mesh, caps, parts);
    MeshVariables(mesh, caps, parts);
    assert "meshMin" in vars && "meshMax" in vars && "meshDimension" in vars;
    BaselineFields(rule, f, vars);
  }

  // Folding the rule table

  /** `d.update(v)`: a dict patches by key; any other iterable must yield pairs
      (each itself iterable into exactly two items, a string key and a value),
      which are assigned in turn. Anything else raises. */
  function Patch(d: Dict, v: Value): Option<Dict> {
    if v.Mapping? then Some(Update(d, v.d))
    else
      match Iterate(v)
      case None => None
      case Some(items) => PatchPairs(d, items)
  }

  function PatchPairs(d: Dict, items: seq<Value>): Option<Dict>
    decreases |items|
  {
    if items == [] then Some(d)
    else
      match Iterate(items[0])
      case Some(pair) =>
        if |pair| == 2 && pair[0].Str? then PatchPairs(Assign(d, pair[0].s, pair[1]), items[1..]) else None
      case None => None
  }

  /** The keys a patch value can write. */
  function PatchKeys(v: Value): set<string> {
    if v.Mapping? then v.d.vals.Keys
    else
      match Iterate(v)
      case None => {}
      case Some(items) => PairKeys(items)
  }

  function PairKeys(items: seq<Value>): set<string> {
    if items == [] then {}
    else
      (match Iterate(items[0])
       case Some(pair) => if |pair| == 2 && pair[0].Str? then {pair[0].s} else {}
       case None => {})
      + PairKeys(items[1..])
  }

  lemma {:induction false} PairsKeep(d: Dict, items: seq<Value>, k: string)
    requires WellFormed(d) && PatchPairs(d, items).Some? && k !in PairKeys(items)
    ensures WellFormed(PatchPairs(d, items).value)
    decreases |items|
    ensures k in PatchPairs(d, items).value.vals <==> k in d.vals
    ensures k in d.vals ==> PatchPairs(d, items).value.vals[k] == d.vals[k]
  {
    if items != [] {
      var pair := Iterate(items[0]).value;
      AssignWellFormed(d, pair[0].s, pair[1]);
      PairsKeep(Assign(d, pair[0].s, pair[1]), items[1..], k);
    }
  }

  lemma {:induction false} PairsWellFormed(d: Dict, items: seq<Value>)
    requires WellFormed(d) && PatchPairs(d, items).Some?
    ensures WellFormed(PatchPairs(d, items).value)
    decreases |items|
  {
    if items != [] {
      var pair := Iterate(items[0]).value;
      AssignWellFormed(d, pair[0].s, pair[1]);
      PairsWellFormed(Assign(d, pair[0].s, pair[1]), items[1..]);
    }
  }

  /** A patch keeps the dict well formed and leaves every key it does not write alone. */
  lemma PatchKeeps(d: Dict, v: Value, k: string)
    requires WellFormed(d) && Patch(d, v).Some? && (v.Mapping? ==> WellFormed(v.d))
    ensures WellFormed(Patch(d, v).value)
    ensures k !in PatchKeys(v) ==>
      (k in Patch(d, v).value.vals <==> k in d.vals)
      && (k in d.vals ==> Patch(d, v).value.vals[k] == d.vals[k])
  {
    if v.Mapping? {
      UpdateWellFormed(d, v.d);
    } else {
      PairsWellFormed(d, Iterate(v).value);
      if k !in PatchKeys(v) {
        PairsKeep(d, Iterate(v).value, k);
      }
    }
  }

  /** A dict patch writes its own value under each of its keys. */
  lemma PatchWins(d: Dict, v: Value)
    requires WellFormed(d) && v.Mapping? && WellFormed(v.d)
    ensures Patch(d, v).Some? && WellFormed(Patch(d, v).value)
    ensures forall k :: k in v.d.vals ==> Patch(d, v).value.vals[k] == v.d.vals[k]
    ensures forall k :: k in d.vals && k !in v.d.vals ==> Patch(d, v).value.vals[k] == d.vals[k]
    ensures Patch(d, v).value.keys[..|d.keys|] == d.keys
  {
    UpdateWellFormed(d, v.d);
  }

  /** `[vars[g] for g in names]` for the join: every name must be a string variable. */
  function Spelled(vars: map<string, Value>, names: seq<string>): (r: Option<seq<string>>)
    ensures r.Some? <==> forall i :: 0 <= i < |names| ==> names[i] in vars && vars[names[i]].Str?
    ensures r.Some? ==> |r.value| == |names| && forall i :: 0 <= i < |names| ==> r.value[i] == vars[names[i]].s
  {
    if names == [] then Some([])
    else
      var rest := Spelled(vars, names[1..]);
      assert forall i :: 1 <= i < |names| ==> names[i] == names[1..][i - 1];
      if names[0] !in vars || !vars[names[0]].Str? || rest.None? then None
      else Some([vars[names[0]].s] + rest.value)
  }

  /** `'/'.join([vars[g] for g in names])` */
  function Subkey(vars: map<string, Value>, names: seq<string>): Option<string> {
    match Spelled(vars, names)
    case None => None
    case Some(parts) => Some(Join(parts, '/'))
  }

  /** Applying one group of the rule table. */
  datatype Merge = Merged(d: Dict) | Dropped | Raised

  function FromPatch(p: Option<Dict>): Merge {
    if p.None? then Raised else Merged(p.value)
  }

  /** The entry of a sub-table chosen by a subkey: the exact one, else `_`, else `{}`. */
  function SubEntry(sub: Dict, subkey: string): (r: Value)
    ensures subkey in sub.vals ==> r == sub.vals[subkey]
    ensures subkey !in sub.vals && "_" in sub.vals ==> r == sub.vals["_"]
    ensures subkey !in sub.vals && "_" !in sub.vals ==> r == Mapping(EmptyDict)
  {
    Get(sub, subkey, Get(sub, "_", Mapping(EmptyDict)))
  }

  /** One iteration of `for group in self.config`. `*` patches directly; a named
      group picks its sub-table's `*` entry, then the entry for the subkey the
      variables spell out; a `False` entry drops the file. */
  function ApplyGroup(vars: map<string, Value>, group: string, sub: Value, cur: Dict): Merge {
    if group == "*" then FromPatch(Patch(cur, sub))
    else
      var subkey := Subkey(vars, Split(group, '/'));
      if subkey.None? || !sub.Mapping? then Raised
      else
        var star := Get(sub.d, "*", Mapping(EmptyDict));
        if EqualsFalse(star) then Dropped
        else
          match Patch(cur, star)
          case None => Raised
          case Some(mid) =>
            var entry := SubEntry(sub.d, subkey.value);
            if EqualsFalse(entry) then Dropped else FromPatch(Patch(mid, entry))
  }

  /** The groups of `groups` in turn, stopping at the first that does not merge. */
  function FoldGroups(vars: map<string, Value>, rules: Dict, groups: seq<string>, cur: Dict): Merge {
    if groups == [] then Merged(cur)
    else
      match ApplyGroup(vars, groups[0], Get(rules, groups[0], Null), cur)
      case Merged(next) => FoldGroups(vars, rules, groups[1..], next)
      case other => other
  }

  /** The whole rule fold. A rule table that is not a dict raises as soon as the
      loop subscripts it, so only one that iterates to nothing leaves the baseline. */
  function RuleFold(vars: map<string, Value>, rules: Value, base: Dict): Merge {
    if rules.Mapping? then FoldGroups(vars, rules.d, rules.d.keys, base)
    else if Iterate(rules) == Some([]) then Merged(base)
    else Raised
  }

  /** Folding the groups from the `i`-th on: the `i`-th group, then the rest. */
  lemma FoldAt(vars: map<string, Value>, rules: Dict, groups: seq<string>, i: nat, cur: Dict, step: Merge)
    requires i < |groups| && step == ApplyGroup(vars, groups[i], Get(rules, groups[i], Null), cur)
    ensures FoldGroups(vars, rules, groups[i..], cur)
         == if step.Merged? then FoldGroups(vars, rules, groups[i + 1..], step.d) else step
  {
    assert groups[i..][0] == groups[i] && groups[i..][1..] == groups[i + 1..];
  }

  /** The loop `for group in self.config`, updating `brickConfig` in place. */
  method MergeRules(vars: map<string, Value>, rules: Value, base: Dict) returns (m: Merge)
    ensures m == RuleFold(vars, rules, base)
  {
    if !rules.Mapping? {
      var items := Iterate(rules);
      return if items == Some([]) then Merged(base) else Raised;
    }
    var groups := rules.d.keys;
    var brickConfig := base;
    var i := 0;
    while i < |groups|
      invariant 0 <= i <= |groups|
      invariant RuleFold(vars, rules, base) == FoldGroups(vars, rules.d, groups[i..], brickConfig)
    {
      var step := ApplyGroup(vars, groups[i], Get(rules.d, groups[i], Null), brickConfig);
      FoldAt(vars, rules.d, groups, i, brickConfig, step);
      if !step.Merged? {
        return step;
      }
      brickConfig := step.d;
      i := i + 1;
    }
    return Merged(brickConfig);
  }

  /** A top-level `*` group writes its table over the working map. */
  lemma StarGroup(vars: map<string, Value>, sub: Dict, cur: Dict)
    requires WellFormed(cur) && WellFormed(sub)
    ensures ApplyGroup(vars, "*", Mapping(sub), cur).Merged?
    ensures var d := ApplyGroup(vars, "*", Mapping(sub), cur).d;
      && WellFormed(d)
      && (forall k :: k in sub.vals ==> d.vals[k] == sub.vals[k])
      && (forall k :: k in cur.vals && k !in sub.vals ==> d.vals[k] == cur.vals[k])
  {
    PatchWins(cur, Mapping(sub));
  }

  /** A named group whose `*` entry, or whose chosen entry after a dict `*`
      entry, equals `False` drops the file. */
  lemma NamedGroupDrops(vars: map<string, Value>, group: string, sub: Dict, cur: Dict, subkey: string)
    requires group != "*" && Subkey(vars, Split(group, '/')) == Some(subkey)
    requires WellFormed(cur)
    ensures EqualsFalse(Get(sub, "*", Mapping(EmptyDict))) ==> ApplyGroup(vars, group, Mapping(sub), cur) == Dropped
    ensures var star := Get(sub, "*", Mapping(EmptyDict));
      star.Mapping? && EqualsFalse(SubEntry(sub, subkey)) ==> ApplyGroup(vars, group, Mapping(sub), cur) == Dropped
  {
  }

  /** A named group with dict entries: the chosen entry beats the `*` entry, which
      beats the working map. */
  lemma NamedGroup(vars: map<string, Value>, group: string, sub: Dict, cur: Dict, subkey: string)
    requires group != "*" && Subkey(vars, Split(group, '/')) == Some(subkey)
    requires WellFormed(cur)
    ensures var star := Get(sub, "*", Mapping(EmptyDict));
      var entry := SubEntry(sub, subkey);
      star.Mapping? && WellFormed(star.d) && entry.Mapping? && WellFormed(entry.d) ==>
        ApplyGroup(vars, group, Mapping(sub), cur).Merged?
        && var d := ApplyGroup(vars, group, Mapping(sub), cur).d;
        && WellFormed(d)
        && (forall k :: k in entry.d.vals ==> d.vals[k] == entry.d.vals[k])
        && (forall k :: k in star.d.vals && k !in entry.d.vals ==> d.vals[k] == star.d.vals[k])
        && (forall k :: k in cur.vals && k !in star.d.vals && k !in entry.d.vals ==> d.vals[k] == cur.vals[k])
  {
    var star := Get(sub, "*", Mapping(EmptyDict));
    var entry := SubEntry(sub, subkey);
    if star.Mapping? && WellFormed(star.d) && entry.Mapping? && WellFormed(entry.d) {
      TwoPatches(cur, star.d, entry.d);
      var mid := Patch(cur, star).value;
      assert ApplyGroup(vars, group, Mapping(sub), cur) == Merged(Patch(mid, entry).value);
    }
  }

  /** Two dict patches in a row: the second beats the first, which beats the base. */
  lemma TwoPatches(cur: Dict, first: Dict, second: Dict)
    requires WellFormed(cur) && WellFormed(first) && WellFormed(second)
    ensures Patch(cur, Mapping(first)).Some?
    ensures var mid := Patch(cur, Mapping(first)).value;
      Patch(mid, Mapping(second)).Some? &&
      var d := Patch(mid, Mapping(second)).value;
      && WellFormed(d)
      && (forall k :: k in second.vals ==> d.vals[k] == second.vals[k])
      && (forall k :: k in first.vals && k !in second.vals ==> d.vals[k] == first.vals[k])
      && (forall k :: k in cur.vals && k !in first.vals && k !in second.vals ==> d.vals[k] == cur.vals[k])
  {
    PatchWins(cur, Mapping(first));
    PatchWins(Patch(cur, Mapping(first)).value, Mapping(second));
  }

  /** Folding `gs1 + gs2` folds `gs2` over the result of `gs1`: groups apply in
      table order, so a later group overrides an earlier one. */
  lemma {:induction false} FoldAppend(vars: map<string, Value>, rules: Dict, gs1: seq<string>, gs2: seq<string>,
                                      cur: Dict)
    ensures FoldGroups(vars, rules, gs1 + gs2, cur) ==
      match FoldGroups(vars, rules, gs1, cur)
      case Merged(d) => FoldGroups(vars, rules, gs2, d)
      case other => other
  {
    if gs1 == [] {
      assert gs1 + gs2 == gs2;
    } else {
      assert (gs1 + gs2)[0] == gs1[0] && (gs1 + gs2)[1..] == gs1[1..] + gs2;
      match ApplyGroup(vars, gs1[0], Get(rules, gs1[0], Null), cur)
      case Merged(next) => FoldAppend(vars, rules, gs1[1..], gs2, next);
      case _ =>
    }
  }

  /** The keys one group can write: its table for `*`, any entry's keys otherwise. */
  predicate Mentions(group: string, sub: Value, k: string) {
    if group == "*" then k in PatchKeys(sub)
    else sub.Mapping? && exists e :: e in sub.d.vals && k in PatchKeys(sub.d.vals[e])
  }

  /** Every document value that is a dict is well formed, at every depth one patch reads. */
  ghost predicate Sound(v: Value) {
    (v.Mapping? ==> WellFormed(v.d))
    && (v.Mapping? ==> forall e :: e in v.d.vals && v.d.vals[e].Mapping? ==> WellFormed(v.d.vals[e].d))
  }

  lemma GroupKeeps(vars: map<string, Value>, group: string, sub: Value, cur: Dict, k: string)
    requires WellFormed(cur) && Sound(sub) && ApplyGroup(vars, group, sub, cur).Merged?
    ensures WellFormed(ApplyGroup(vars, group, sub, cur).d)
    ensures !Mentions(group, sub, k) ==>
      (k in ApplyGroup(vars, group, sub, cur).d.vals <==> k in cur.vals)
      && (k in cur.vals ==> ApplyGroup(vars, group, sub, cur).d.vals[k] == cur.vals[k])
  {
    if group == "*" {
      PatchKeeps(cur, sub, k);
    } else {
      var subkey := Subkey(vars, Split(group, '/')).value;
      var star := Get(sub.d, "*", Mapping(EmptyDict));
      PatchKeeps(cur, star, k);
      var mid := Patch(cur, star).value;
      var entry := SubEntry(sub.d, subkey);
      PatchKeeps(mid, entry, k);
      if !Mentions(group, sub, k) {
        if "*" in sub.d.vals { assert k !in PatchKeys(sub.d.vals["*"]); }
        if subkey in sub.d.vals { assert k !in PatchKeys(sub.d.vals[subkey]); }
        if "_" in sub.d.vals { assert k !in PatchKeys(sub.d.vals["_"]); }
      }
    }
  }

  /** A key that no group of the table mentions keeps its baseline value. */
  lemma {:induction false} FoldKeeps(vars: map<string, Value>, rules: Dict, groups: seq<string>, cur: Dict,
                                     k: string)
    requires WellFormed(cur) && forall g :: g in rules.vals ==> Sound(rules.vals[g])
    requires FoldGroups(vars, rules, groups, cur).Merged?
    requires forall i :: 0 <= i < |groups| ==> !Mentions(groups[i], Get(rules, groups[i], Null), k)
    ensures WellFormed(FoldGroups(vars, rules, groups, cur).d)
    ensures k in FoldGroups(vars, rules, groups, cur).d.vals <==> k in cur.vals
    ensures k in cur.vals ==> FoldGroups(vars, rules, groups, cur).d.vals[k] == cur.vals[k]
  {
    if groups != [] {
      var sub := Get(rules, groups[0], Null);
      assert Sound(sub);
      GroupKeeps(vars, groups[0], sub, cur, k);
      var next := ApplyGroup(vars, groups[0], sub, cur).d;
      assert forall i :: 1 <= i < |groups| ==> groups[1..][i - 1] == groups[i];
      FoldKeeps(vars, rules, groups[1..], next, k);
    }
  }

  // Template expansion

  /** The rest of `for (k, v) in brickConfig.items()` from the `i`-th key: a string
      value is rendered and written back, and since `vars['config']` is
      `brickConfig` itself, each rendering sees the entries rendered before it. */
  function ExpandFrom(host: Host, vars: map<string, Value>, keys: seq<string>, i: nat, cur: Dict): Option<Dict>
    requires i <= |keys|
    decreases |keys| - i
  {
    if i == |keys| then Some(cur)
    else
      var v := Get(cur, keys[i], Null);
      if !v.Str? then ExpandFrom(host, vars, keys, i + 1, cur)
      else
        match host.format(v.s, vars["config" := Mapping(cur)])
        case None => None
        case Some(text) => ExpandFrom(host, vars, keys, i + 1, Assign(cur, keys[i], Str(text)))
  }

  function Expand(host: Host, vars: map<string, Value>, d: Dict): Option<Dict> {
    ExpandFrom(host, vars, d.keys, 0, d)
  }

  /** The expansion loop, rewriting `brickConfig` in place. */
  method ExpandTemplates(host: Host, vars: map<string, Value>, d: Dict) returns (r: Option<Dict>)
    ensures r == Expand(host, vars, d)
  {
    var keys := d.keys;
    var brickConfig := d;
    var i := 0;
    while i < |keys|
      invariant 0 <= i <= |keys|
      invariant Expand(host, vars, d) == ExpandFrom(host, vars, keys, i, brickConfig)
    {
      var v := Get(brickConfig, keys[i], Null);
      if v.Str? {
        var text := host.format(v.s, vars["config" := Mapping(brickConfig)]);
        if text.None? {
          return None;
        }
        brickConfig := Assign(brickConfig, keys[i], Str(text.value));
      }
      i := i + 1;
    }
    return Some(brickConfig);
  }

  /** `e` has the keys of `cur` in their order, the values of `cur` that are not
      strings, a string wherever `cur` has one, and the first `i` entries of `cur`. */
  ghost predicate Expanded(keys: seq<string>, i: nat, cur: Dict, e: Dict) {
    && WellFormed(e) && e.keys == keys
    && (forall k :: k in cur.vals && !cur.vals[k].Str? ==> k in e.vals && e.vals[k] == cur.vals[k])
    && (forall k :: k in cur.vals && cur.vals[k].Str? ==> k in e.vals && e.vals[k].Str?)
    && (forall j :: 0 <= j < i && j < |keys| ==> keys[j] in cur.vals && keys[j] in e.vals
                                                 && e.vals[keys[j]] == cur.vals[keys[j]])
  }

  /** Expansion keeps the keys and their order, leaves every value that is not a
      string as it was, turns strings into strings, and leaves the entries before
      the `i`-th alone. */
  lemma {:induction false} ExpandShape(host: Host, vars: map<string, Value>, keys: seq<string>, i: nat,
                                       cur: Dict)
    requires i <= |keys| && WellFormed(cur) && cur.keys == keys
    requires ExpandFrom(host, vars, keys, i, cur).Some?
    ensures Expanded(keys, i, cur, ExpandFrom(host, vars, keys, i, cur).value)
    decreases |keys| - i
  {
    if i == |keys| {
      assert Expanded(keys, i, cur, cur);
    } else {
      var v := Get(cur, keys[i], Null);
      assert keys[i] in cur.vals;
      if !v.Str? {
        assert ExpandFrom(host, vars, keys, i, cur) == ExpandFrom(host, vars, keys, i + 1, cur);
        ExpandShape(host, vars, keys, i + 1, cur);
      } else {
        var text := host.format(v.s, vars["config" := Mapping(cur)]).value;
        var next := Assign(cur, keys[i], Str(text));
        assert ExpandFrom(host, vars, keys, i, cur) == ExpandFrom(host, vars, keys, i + 1, next);
        AssignWellFormed(cur, keys[i], Str(text));
        ExpandShape(host, vars, keys, i + 1, next);
        ExpandStep(keys, i, cur, text, ExpandFrom(host, vars, keys, i + 1, next).value);
      }
    }
  }

  /** Rewriting the `i`-th string entry keeps the shape the later entries' expansion has. */
  lemma ExpandStep(keys: seq<string>, i: nat, cur: Dict, text: string, e: Dict)
    requires i < |keys| && WellFormed(cur) && cur.keys == keys && keys[i] in cur.vals && cur.vals[keys[i]].Str?
    requires Expanded(keys, i + 1, Assign(cur, keys[i], Str(text)), e)
    ensures Expanded(keys, i, cur, e)
  {
    var next := Assign(cur, keys[i], Str(text));
    assert forall j :: 0 <= j < i ==> keys[j] != keys[i];
    assert forall k :: k in cur.vals && k != keys[i] ==> k in next.vals && next.vals[k] == cur.vals[k];
  }

  // One file

  /** What `_remix` does with one file: a brick, `InvalidBrick` (the file is
      skipped), or another exception. */
  datatype Outcome = Made(brick: Brick) | Invalid | Failed

  /** `Remix._remix(infile)` */
  function RemixOutcome(host: Host, r: Remix, f: InFile): Outcome {
    var m := FirstMatch(host, r.regexes, FileName(f));
    if m.None? then Invalid
    else
      match host.readMesh(f)
      case None => Failed
      case Some(mesh) =>
        var vars := Variables(mesh, m.value, f.parts);
        match RuleFold(vars, r.config, Baseline(r.name, f, vars))
        case Dropped => Invalid
        case Raised => Failed
        case Merged(d) =>
          match Expand(host, vars, d)
          case None => Failed
          case Some(e) =>
            match BrickOf(host, e.vals)
            case None => Failed
            case Some(b) => Made(b)
  }

  /** `Remix._remix(infile)`: select the regex, read the mesh, build the variables
      and the baseline, fold the rules, expand the templates, build the brick. */
  method RemixFile(host: Host, r: Remix, f: InFile) returns (o: Outcome)
    ensures o == RemixOutcome(host, r, f)
  {
    var m := SelectMatch(host, r.regexes, FileName(f));
    if m.None? {
      return Invalid;
    }
    var mesh := host.readMesh(f);
    if mesh.None? {
      return Failed;
    }
    var vars := Variables(mesh.value, m.value, f.parts);
    var brickConfig := Baseline(r.name, f, vars);
    var merged := MergeRules(vars, r.config, brickConfig);
    if merged.Dropped? {
      return Invalid;
    }
    if merged.Raised? {
      return Failed;
    }
    var expanded := ExpandTemplates(host, vars, merged.d);
    if expanded.None? {
      return Failed;
    }
    var brick := NewBrick(host, expanded.value.vals);
    if brick.None? {
      return Failed;
    }
    return Made(brick.value);
  }

  /** A file no regex matches is dropped before its mesh is read: the outcome is
      the same whatever the mesh reader does. */
  lemma NoMatchNoMesh(host: Host, r: Remix, f: InFile, reader: InFile -> Option<Mesh>)
    requires forall i :: 0 <= i < |r.regexes| ==> host.fullmatch(r.regexes[i], FileName(f)).None?
    ensures RemixOutcome(host, r, f) == Invalid
    ensures RemixOutcome(host.(readMesh := reader), r, f) == Invalid
  {
  }

  /** With a dict rule table, the brick's keyword arguments are the expansion of
      the fold over the baseline: a baseline key that no group mentions and whose
      value is not a string reaches them unchanged. */
  lemma RemixKeepsBaseline(host: Host, r: Remix, f: InFile, caps: Captures, mesh: Mesh, k: string)
    requires FirstMatch(host, r.regexes, FileName(f)) == Some(caps) && host.readMesh(f) == Some(mesh)
    requires r.config.Mapping? && forall g :: g in r.config.d.vals ==> Sound(r.config.d.vals[g])
    requires var vars := Variables(mesh, caps, f.parts);
      RuleFold(vars, r.config, Baseline(r.name, f, vars)).Merged?
      && Expand(host, vars, RuleFold(vars, r.config, Baseline(r.name, f, vars)).d).Some?
    requires forall i :: 0 <= i < |r.config.d.keys| ==>
      !Mentions(r.config.d.keys[i], Get(r.config.d, r.config.d.keys[i], Null), k)
    requires var base := Baseline(r.name, f, Variables(mesh, caps, f.parts));
      k in base.vals && !base.vals[k].Str?
    ensures var vars := Variables(mesh, caps, f.parts);
      var base := Baseline(r.name, f, vars);
      var e := Expand(host, vars, RuleFold(vars, r.config, base).d).value;
      k in e.vals && e.vals[k] == base.vals[k]
  {
    var vars := Variables(mesh, caps, f.parts);
    var base := Baseline(r.name, f, vars);
    BaselineWellFormed(r.name, f, vars);
    FoldKeeps(vars, r.config.d, r.config.d.keys, base, k);
    var d := RuleFold(vars, r.config, base).d;
    ExpandShape(host, vars, d.keys, 0, d);
  }

  // The brick set

  /** Running the per-file outcomes: bricks in order, `InvalidBrick` files skipped,
      any other exception ending the iteration. */
  function RemixRun(outcomes: seq<Outcome>): (s: Stream)
    ensures |s.items| <= |outcomes|
  {
    if outcomes == [] then Stream([], false)
    else
      match outcomes[0]
      case Failed => Stream([], true)
      case Invalid => RemixRun(outcomes[1..])
      case Made(b) => Then([b], RemixRun(outcomes[1..]))
  }

  /** How many files were skipped before the iteration ended. */
  function Invalids(outcomes: seq<Outcome>): nat {
    if outcomes == [] || outcomes[0].Failed? then 0
    else (if outcomes[0].Invalid? then 1 else 0) + Invalids(outcomes[1..])
  }

  /** The outcome of every file, in glob order. */
  function Outcomes(host: Host, r: Remix, files: seq<InFile>): (os: seq<Outcome>)
    ensures |os| == |files| && forall i :: 0 <= i < |files| ==> os[i] == RemixOutcome(host, r, files[i])
  {
    seq(|files|, i requires 0 <= i < |files| => RemixOutcome(host, r, files[i]))
  }

  /** `Remix.bricks` iterated to the end or to its first uncaught exception. */
  function RemixStream(host: Host, r: Remix): Stream {
    match host.glob(r.root, r.pattern)
    case None => Stream([], true)
    case Some(files) => RemixRun(Outcomes(host, r, files))
  }

  /** How many `invalid` increments `Remix.bricks` makes. */
  function RemixInvalids(host: Host, r: Remix): nat {
    match host.glob(r.root, r.pattern)
    case None => 0
    case Some(files) => Invalids(Outcomes(host, r, files))
  }

  /** `Remix.bricks`: every file of the glob in turn; an `InvalidBrick` bumps this
      rule's `invalid` counter and nothing else, and iteration goes on. */
  method RemixBricks(host: Host, r: Remix, stats: Stats) returns (s: Stream)
    modifies stats
    ensures s == RemixStream(host, r)
    ensures stats.table == Add(old(stats.table), Str(r.name), "invalid", RemixInvalids(host, r))
  {
    var globbed := host.glob(r.root, r.pattern);
    if globbed.None? {
      return Stream([], true);
    }
    var files := globbed.value;
    s := RemixEach(f => RemixOutcome(host, r, f), Str(r.name), files, stats);
    assert Applied(f => RemixOutcome(host, r, f), files) == Outcomes(host, r, files);
  }

  /** `step` applied to every file, in order. */
  function Applied(step: InFile -> Outcome, files: seq<InFile>): (os: seq<Outcome>)
    ensures |os| == |files| && forall i :: 0 <= i < |files| ==> os[i] == step(files[i])
  {
    seq(|files|, i requires 0 <= i < |files| => step(files[i]))
  }

  /** The `for infile in self._glob` loop of `Remix.bricks`, with `step` standing
      for `self._remix` (the function `RemixFile` computes). */
  method RemixEach(step: InFile -> Outcome, rule: Value, files: seq<InFile>, stats: Stats) returns (s: Stream)
    modifies stats
    ensures s == RemixRun(Applied(step, files))
    ensures stats.table == Add(old(stats.table), rule, "invalid", Invalids(Applied(step, files)))
  {
    ghost var outcomes := Applied(step, files);
    ghost var start := stats.table;
    ghost var skipped := 0;
    var items: seq<Brick> := [];
    var i := 0;
    while i < |files|
      invariant 0 <= i <= |files|
      invariant RemixRun(outcomes) == Then(items, RemixRun(outcomes[i..]))
      invariant Invalids(outcomes) == skipped + Invalids(outcomes[i..])
      invariant stats.table == Add(start, rule, "invalid", skipped)
    {
      assert outcomes[i..][0] == outcomes[i] && outcomes[i..][1..] == outcomes[i + 1..];
      var o := step(files[i]);
      if o.Failed? {
        return Stream(items, true);
      }
      if o.Invalid? {
        AddAdd(start, rule, "invalid", skipped, 1);
        stats.Bump(rule, "invalid");
        skipped := skipped + 1;
      } else {
        assert items + ([o.brick] + RemixRun(outcomes[i + 1..]).items)
          == (items + [o.brick]) + RemixRun(outcomes[i + 1..]).items;
        items := items + [o.brick];
      }
      i := i + 1;
    }
    assert outcomes[i..] == [];
    assert items + [] == items;
    return Stream(items, false);
  }

  /** The outcomes before the first failure: all of them when none fails. */
  function UntilFailed(outcomes: seq<Outcome>): (r: seq<Outcome>)
    ensures |r| <= |outcomes| && r == outcomes[..|r|]
    ensures forall i :: 0 <= i < |r| ==> !r[i].Failed?
    ensures |r| < |outcomes| ==> outcomes[|r|].Failed?
  {
    if outcomes == [] || outcomes[0].Failed? then []
    else [outcomes[0]] + UntilFailed(outcomes[1..])
  }

  /** The bricks of the built files, in file order. */
  function MadeOf(outcomes: seq<Outcome>): (r: seq<Brick>)
    ensures |r| <= |outcomes|
    ensures forall b :: b in r <==> Made(b) in outcomes
  {
    if outcomes == [] then []
    else (if outcomes[0].Made? then [outcomes[0].brick] else []) + MadeOf(outcomes[1..])
  }

  /** The iteration yields the built bricks in file order, up to the first failure,
      and skips invalid files; it ends early exactly when some file fails. */
  lemma {:induction false} RemixRunMeaning(outcomes: seq<Outcome>)
    ensures RemixRun(outcomes).crashed <==> exists i :: 0 <= i < |outcomes| && outcomes[i].Failed?
    ensures RemixRun(outcomes).items == MadeOf(UntilFailed(outcomes))
    ensures !RemixRun(outcomes).crashed ==>
      |RemixRun(outcomes).items| + Invalids(outcomes) == |outcomes|
    ensures forall b :: b in RemixRun(outcomes).items ==> Made(b) in outcomes
  {
    if outcomes != [] {
      RemixRunMeaning(outcomes[1..]);
      if !outcomes[0].Failed? {
        assert UntilFailed(outcomes) == [outcomes[0]] + UntilFailed(outcomes[1..]);
        assert ([outcomes[0]] + UntilFailed(outcomes[1..]))[1..] == UntilFailed(outcomes[1..]);
      }
      assert forall i :: 0 < i < |outcomes| ==> outcomes[i] == outcomes[1..][i - 1];
      if exists i :: 0 <= i < |outcomes[1..]| && outcomes[1..][i].Failed? {
        var i :| 0 <= i < |outcomes[1..]| && outcomes[1..][i].Failed?;
        assert outcomes[i + 1].Failed?;
      }
      forall b | b in RemixRun(outcomes[1..]).items ensures Made(b) in outcomes {
        assert Made(b) in outcomes[1..];
      }
    }
  }
}
