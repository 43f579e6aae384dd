/** Generated brick sets (bin/lib/generate.py): the cartesian product of named axes,
    each combination laid over a copy of a base config, filtered by a condition. */
module Generation {
  import opened Values
  import opened Host
  import opened BrickRecord

  /** A `Generate` rule as its constructor stores it: the axis table, the condition
      template and the base config, each still an arbitrary document value. */
  datatype Generate = Generate(name: string, generate: Value, condition: Value, config: Value)

  /** `Generate(name, conf)` with `FLAGS.generate` as `allow`. An empty allow-list
      enables every rule; a missing `generate` entry (or a document that is not a
      mapping) raises, and not with `ValueError`. */
  function NewGenerate(allow: seq<string>, name: string, conf: Value): (r: Construction<Generate>)
    ensures r.Rejected? <==> |allow| > 0 && name !in allow
    ensures r.Built? <==> (|allow| == 0 || name in allow) && conf.Mapping? && "generate" in conf.d.vals
    ensures r.Built? ==> r.value.name == name && r.value.generate == conf.d.vals["generate"]
    ensures r.Built? ==>
      r.value.condition == (if "condition" in conf.d.vals then conf.d.vals["condition"] else Str("True"))
    ensures r.Built? ==>
      r.value.config == (if "config" in conf.d.vals then conf.d.vals["config"] else Mapping(EmptyDict))
  {
    if |allow| > 0 && name !in allow then Rejected
    else if !conf.Mapping? || "generate" !in conf.d.vals then Aborted
    else
      Built(Generate(name, conf.d.vals["generate"],
        Get(conf.d, "condition", Str("True")), Get(conf.d, "config", Mapping(EmptyDict))))
  }

  /** The pools `itertools.product` draws from: the axes of `keys`, in that order. */
  function Pools(axes: Dict, keys: seq<string>): (r: Option<seq<seq<Value>>>)
    ensures r.Some? ==> |r.value| == |keys|
    ensures r.Some? <==> forall i :: 0 <= i < |keys| ==> Iterate(Get(axes, keys[i], Null)).Some?
    ensures r.Some? ==> forall i :: 0 <= i < |keys| ==> Some(r.value[i]) == Iterate(Get(axes, keys[i], Null))
  {
    if keys == [] then Some([])
    else
      var head := Iterate(Get(axes, keys[0], Null));
      var tail := Pools(axes, keys[1..]);
      if head.None? then None
      else if tail.None? then
        assert exists i :: 1 <= i < |keys| && Iterate(Get(axes, keys[i], Null)).None? by {
          var j :| 0 <= j < |keys| - 1 && Iterate(Get(axes, keys[1..][j], Null)).None?;
          assert keys[1..][j] == keys[j + 1];
        }
        None
      else Some([head.value] + tail.value)
  }

  // The cartesian product

  /** `itertools.product(*pools)`: every choice of one item per pool, in odometer
      order (the last pool varies fastest). */
  function Product(pools: seq<seq<Value>>): seq<seq<Value>> {
    if pools == [] then [[]] else Spread(pools[0], Product(pools[1..]))
  }

  /** Each head followed by every tail, heads in order. */
  function Spread(heads: seq<Value>, tails: seq<seq<Value>>): (r: seq<seq<Value>>)
    ensures |r| == |heads| * |tails|
  {
    if heads == [] then []
    else Prefixed(heads[0], tails) + Spread(heads[1..], tails)
  }

  function Prefixed(h: Value, tails: seq<seq<Value>>): (r: seq<seq<Value>>)
    ensures |r| == |tails|
    ensures forall j :: 0 <= j < |tails| ==> r[j] == [h] + tails[j]
  {
    seq(|tails|, j requires 0 <= j < |tails| => [h] + tails[j])
  }

  /** The product of the pool sizes. */
  function Count(pools: seq<seq<Value>>): nat {
    if pools == [] then 1 else |pools[0]| * Count(pools[1..])
  }

  lemma {:induction false} ProductLength(pools: seq<seq<Value>>)
    ensures |Product(pools)| == Count(pools)
  {
    if pools != [] {
      ProductLength(pools[1..]);
    }
  }

  /** Odometer order: the combination at position `i * |tails| + j` is the `i`-th
      head of the first pool in front of the `j`-th combination of the others. */
  lemma {:induction false} SpreadAt(heads: seq<Value>, tails: seq<seq<Value>>, i: nat, j: nat)
    requires i < |heads| && j < |tails|
    ensures i * |tails| + j < |Spread(heads, tails)|
    ensures Spread(heads, tails)[i * |tails| + j] == [heads[i]] + tails[j]
  {
    var rest := Spread(heads[1..], tails);
    assert Spread(heads, tails) == Prefixed(heads[0], tails) + rest;
    if i > 0 {
      SpreadAt(heads[1..], tails, i - 1, j);
      assert (i - 1) * |tails| + j + |tails| == i * |tails| + j;
      assert heads[1..][i - 1] == heads[i];
    }
  }

  lemma ProductOrder(pools: seq<seq<Value>>, i: nat, j: nat)
    requires pools != [] && i < |pools[0]| && j < |Product(pools[1..])|
    ensures i * |Product(pools[1..])| + j < |Product(pools)|
    ensures Product(pools)[i * |Product(pools[1..])| + j] == [pools[0][i]] + Product(pools[1..])[j]
  {
    SpreadAt(pools[0], Product(pools[1..]), i, j);
  }

  lemma {:induction false} SpreadMembers(heads: seq<Value>, tails: seq<seq<Value>>, c: seq<Value>)
    ensures c in Spread(heads, tails) <==> |c| > 0 && c[0] in heads && c[1..] in tails
  {
    if heads != [] {
      SpreadMembers(heads[1..], tails, c);
      assert Spread(heads, tails) == Prefixed(heads[0], tails) + Spread(heads[1..], tails);
      if c in Prefixed(heads[0], tails) {
        var j :| 0 <= j < |tails| && Prefixed(heads[0], tails)[j] == c;
        assert c[1..] == tails[j];
      }
      if |c| > 0 && c[0] == heads[0] && c[1..] in tails {
        var j :| 0 <= j < |tails| && tails[j] == c[1..];
        assert Prefixed(heads[0], tails)[j] == c;
      }
      if |c| > 0 {
        assert c[0] in heads <==> c[0] == heads[0] || c[0] in heads[1..] by {
          assert heads == [heads[0]] + heads[1..];
        }
      }
    }
  }

  /** A combination is exactly one item from each pool, in pool order. */
  lemma {:induction false} ProductMembers(pools: seq<seq<Value>>, c: seq<Value>)
    ensures c in Product(pools) <==> |c| == |pools| && forall k :: 0 <= k < |c| ==> c[k] in pools[k]
  {
    if pools == [] {
      assert Product(pools) == [[]];
    } else {
      SpreadMembers(pools[0], Product(pools[1..]), c);
      if |c| > 0 {
        ProductMembers(pools[1..], c[1..]);
        if |c| == |pools| && forall k :: 0 <= k < |c| ==> c[k] in pools[k] {
          forall k | 0 <= k < |c[1..]| ensures c[1..][k] in pools[1..][k] {
            assert c[1..][k] == c[k + 1];
          }
        }
        if c in Product(pools) {
          forall k | 0 <= k < |c| ensures c[k] in pools[k] {
            if k > 0 { assert c[k] == c[1..][k - 1]; }
          }
        }
      }
    }
  }

  /** An empty axis leaves nothing to choose. */
  lemma {:induction false} ProductEmpty(pools: seq<seq<Value>>, k: nat)
    requires k < |pools| && pools[k] == []
    ensures Product(pools) == []
  {
    ProductLength(pools);
    CountZero(pools, k);
  }

  lemma {:induction false} CountZero(pools: seq<seq<Value>>, k: nat)
    requires k < |pools| && pools[k] == []
    ensures Count(pools) == 0
  {
    if k > 0 {
      CountZero(pools[1..], k - 1);
    }
  }

  // One combination

  /** `{k: v for (k, v) in zip(keys, vals)}` */
  function Bind(keys: seq<string>, vals: seq<Value>): Dict
    requires |keys| == |vals|
  {
    if keys == [] then EmptyDict
    else Assign(Bind(keys[..|keys| - 1], vals[..|vals| - 1]), keys[|keys| - 1], vals[|vals| - 1])
  }

  /** Distinct axis names bind each name to its own value, in axis order. */
  lemma {:induction false} BindMeaning(keys: seq<string>, vals: seq<Value>)
    requires |keys| == |vals| && Distinct(keys)
    ensures WellFormed(Bind(keys, vals)) && Bind(keys, vals).keys == keys
    ensures forall i :: 0 <= i < |keys| ==> Bind(keys, vals).vals[keys[i]] == vals[i]
  {
    if keys != [] {
      var n := |keys| - 1;
      var init := keys[..n];
      assert Distinct(init) by {
        forall i, j | 0 <= i < j < |init| ensures init[i] != init[j] {
          assert init[i] == keys[i] && init[j] == keys[j];
        }
      }
      BindMeaning(init, vals[..n]);
      var b := Bind(init, vals[..n]);
      assert keys[n] !in b.vals by {
        forall i | 0 <= i < n ensures keys[i] != keys[n] { }
        assert forall k :: k in b.vals <==> k in init;
      }
      AssignWellFormed(b, keys[n], vals[n]);
      assert init + [keys[n]] == keys;
      forall i | 0 <= i < |keys| ensures Bind(keys, vals).vals[keys[i]] == vals[i] {
        if i < n {
          assert init[i] == keys[i] && vals[..n][i] == vals[i];
        }
      }
    }
  }

  /** `conf = deepcopy(base); conf.update(bindings)`; `None` when `base` is no dict. */
  function Combination(base: Value, keys: seq<string>, combo: seq<Value>): Option<Dict>
    requires |keys| == |combo|
  {
    if base.Mapping? then Some(Update(base.d, Bind(keys, combo))) else None
  }

  /** Each combination's map: every axis binds its own value, every other key of
      the base keeps its base value, and the base's keys come first in their order. */
  lemma CombinationBindings(base: Dict, keys: seq<string>, combo: seq<Value>)
    requires WellFormed(base) && Distinct(keys) && |keys| == |combo|
    ensures Combination(Mapping(base), keys, combo).Some?
    ensures var c := Combination(Mapping(base), keys, combo).value;
      && WellFormed(c)
      && c.keys[..|base.keys|] == base.keys
      && (forall k :: k in c.vals <==> k in base.vals || k in keys)
      && (forall i :: 0 <= i < |keys| ==> c.vals[keys[i]] == combo[i])
      && (forall k :: k in base.vals && k !in keys ==> c.vals[k] == base.vals[k])
  {
    BindMeaning(keys, combo);
    UpdateWellFormed(base, Bind(keys, combo));
  }

  /** What one combination gives: a brick, nothing (the condition is false), or an
      exception (the base is no dict, the condition no string, formatting or
      evaluation raises, or the brick cannot be built). */
  datatype Step = Keep(brick: Brick) | Skip | Crash

  function StepOf(host: Host, keys: seq<string>, base: Value, cond: Value, combo: seq<Value>): Step
    requires |keys| == |combo|
  {
    var conf := Combination(base, keys, combo);
    if conf.None? || !cond.Str? then Crash
    else
      var text := host.format(cond.s, conf.value.vals);
      if text.None? then Crash
      else
        var verdict := host.eval(text.value);
        if verdict.None? then Crash
        else if !Truthy(verdict.value) then Skip
        else
          var b := BrickOf(host, conf.value.vals);
          if b.None? then Crash else Keep(b.value)
  }

  /** A kept combination yields the brick built from its map; a skipped one is
      one whose condition evaluates to something false. */
  lemma StepMeaning(host: Host, keys: seq<string>, base: Value, cond: Value, combo: seq<Value>)
    requires |keys| == |combo|
    ensures var st := StepOf(host, keys, base, cond, combo);
      var conf := Combination(base, keys, combo);
      && (st.Keep? ==> conf.Some? && BrickOf(host, conf.value.vals) == Some(st.brick))
      && (st.Skip? <==>
            conf.Some? && cond.Str? && host.format(cond.s, conf.value.vals).Some?
            && host.eval(host.format(cond.s, conf.value.vals).value).Some?
            && !Truthy(host.eval(host.format(cond.s, conf.value.vals).value).value))
  {
    var conf := Combination(base, keys, combo);
    if conf.Some? && cond.Str? {
      var text := host.format(cond.s, conf.value.vals);
      if text.Some? && host.eval(text.value).Some? {
        var verdict := host.eval(text.value).value;
        if Truthy(verdict) {
          assert StepOf(host, keys, base, cond, combo) ==
            (if BrickOf(host, conf.value.vals).None? then Crash else Keep(BrickOf(host, conf.value.vals).value));
        } else {
          assert StepOf(host, keys, base, cond, combo) == Skip;
        }
      }
    }
  }

  /** The body of the loop in `Generate.bricks` for one combination. */
  method Attempt(host: Host, keys: seq<string>, base: Value, cond: Value, itervals: seq<Value>)
    returns (st: Step)
    requires |keys| == |itervals|
    ensures st == StepOf(host, keys, base, cond, itervals)
  {
    if !base.Mapping? {
      return Crash;
    }
    var conf := Update(base.d, Bind(keys, itervals));
    if !cond.Str? {
      return Crash;
    }
    var text := host.format(cond.s, conf.vals);
    if text.None? {
      return Crash;
    }
    var verdict := host.eval(text.value);
    if verdict.None? {
      return Crash;
    }
    if !Truthy(verdict.value) {
      return Skip;
    }
    var b := NewBrick(host, conf.vals);
    if b.None? {
      return Crash;
    }
    return Keep(b.value);
  }

  predicate Sized(keys: seq<string>, combos: seq<seq<Value>>) {
    forall c :: c in combos ==> |c| == |keys|
  }

  /** The step of every combination, in order. */
  function Steps(host: Host, keys: seq<string>, base: Value, cond: Value, combos: seq<seq<Value>>): (r: seq<Step>)
    requires Sized(keys, combos)
    ensures |r| == |combos|
  {
    seq(|combos|, i requires 0 <= i < |combos| && Sized(keys, combos) =>
      StepOf(host, keys, base, cond, combos[i]))
  }

  /** Running the steps: bricks are yielded in order until the first exception. */
  function Run(steps: seq<Step>): (r: Stream)
    ensures |r.items| <= |steps|
  {
    if steps == [] then Stream([], false)
    else
      match steps[0]
      case Crash => Stream([], true)
      case Skip => Run(steps[1..])
      case Keep(b) => Then([b], Run(steps[1..]))
  }

  /** The bricks of the kept steps, in order. */
  function Kept(steps: seq<Step>): seq<Brick> {
    if steps == [] then []
    else (if steps[0].Keep? then [steps[0].brick] else []) + Kept(steps[1..])
  }

  /** The run raises exactly when some step does; otherwise it yields the bricks
      of all kept steps, in order. */
  lemma {:induction false} RunKeeps(steps: seq<Step>)
    ensures Run(steps).crashed <==> exists i :: 0 <= i < |steps| && steps[i].Crash?
    ensures !Run(steps).crashed ==> Run(steps).items == Kept(steps)
  {
    if steps != [] {
      RunKeeps(steps[1..]);
      assert forall i :: 0 < i < |steps| ==> steps[i] == steps[1..][i - 1];
      if exists i :: 0 <= i < |steps[1..]| && steps[1..][i].Crash? {
        var i :| 0 <= i < |steps[1..]| && steps[1..][i].Crash?;
        assert steps[i + 1].Crash?;
      }
    }
  }

  lemma ProductSized(pools: seq<seq<Value>>, keys: seq<string>)
    requires |pools| == |keys|
    ensures Sized(keys, Product(pools))
  {
    forall c | c in Product(pools) ensures |c| == |keys| {
      ProductMembers(pools, c);
    }
  }

  /** `Generate.bricks` iterated to the end or to its first exception. */
  function GenerateStream(host: Host, g: Generate): Stream {
    if !g.generate.Mapping? then Stream([], true)
    else
      var keys := g.generate.d.keys;
      var pools := Pools(g.generate.d, keys);
      if pools.None? then Stream([], true)
      else
        ProductSized(pools.value, keys);
        Run(Steps(host, keys, g.config, g.condition, Product(pools.value)))
  }

  /** Running the steps from the `i`-th on: the `i`-th step, then the rest. */
  lemma RunAt(steps: seq<Step>, i: nat)
    requires i < |steps|
    ensures Run(steps[i..]) == match steps[i]
      case Crash => Stream([], true)
      case Skip => Run(steps[i + 1..])
      case Keep(b) => Then([b], Run(steps[i + 1..]))
  {
    assert steps[i..][0] == steps[i] && steps[i..][1..] == steps[i + 1..];
  }

  /** `Generate.bricks`: the loop over `itertools.product` of the axes. */
  method GenerateBricks(host: Host, g: Generate) returns (s: Stream)
    ensures s == GenerateStream(host, g)
  {
    if !g.generate.Mapping? {
      return Stream([], true);
    }
    var keys := g.generate.d.keys;
    var pools := Pools(g.generate.d, keys);
    if pools.None? {
      return Stream([], true);
    }
    var combos := Product(pools.value);
    ProductSized(pools.value, keys);
    ghost var steps := Steps(host, keys, g.config, g.condition, combos);
    ghost var whole := Run(steps);
    assert GenerateStream(host, g) == whole;
    assert steps[0..] == steps;
    var items: seq<Brick> := [];
    var i := 0;
    while i < |combos|
      invariant 0 <= i <= |combos|
      invariant whole == Then(items, Run(steps[i..]))
    {
      var st := Attempt(host, keys, g.config, g.condition, combos[i]);
      RunAt(steps, i);
      if st.Crash? {
        return Stream(items, true);
      }
      if st.Keep? {
        ThenAppend(items, [st.brick], Run(steps[i + 1..]));
        items := items + [st.brick];
      }
      i := i + 1;
    }
    assert steps[i..] == [];
    assert items + [] == items;
    s := Stream(items, false);
  }

  // What the stream is made of

  /** The combinations whose step is not a skip, in order. */
  function SelectBy(combos: seq<seq<Value>>, steps: seq<Step>): (r: seq<seq<Value>>)
    requires |combos| == |steps|
    ensures forall c :: c in r ==> c in combos
  {
    if combos == [] then []
    else (if steps[0].Skip? then [] else [combos[0]]) + SelectBy(combos[1..], steps[1..])
  }

  /** The combinations whose condition does not come out false, in order. */
  function Selected(host: Host, keys: seq<string>, base: Value, cond: Value, combos: seq<seq<Value>>)
    : (r: seq<seq<Value>>)
    requires Sized(keys, combos)
    ensures forall c :: c in r ==> c in combos
  {
    SelectBy(combos, Steps(host, keys, base, cond, combos))
  }

  /** The `j`-th kept brick comes from a step whose combination is the `j`-th selected one. */
  ghost predicate Paired(combos: seq<seq<Value>>, steps: seq<Step>)
    requires |combos| == |steps|
  {
    && |Kept(steps)| == |SelectBy(combos, steps)|
    && forall j :: 0 <= j < |Kept(steps)| ==>
         exists i :: 0 <= i < |steps| && combos[i] == SelectBy(combos, steps)[j] && steps[i] == Keep(Kept(steps)[j])
  }

  /** Without an exception, the `j`-th kept brick comes from the `j`-th selected
      combination. */
  lemma {:induction false} KeptPairs(combos: seq<seq<Value>>, steps: seq<Step>)
    requires |combos| == |steps|
    requires forall i :: 0 <= i < |steps| ==> !steps[i].Crash?
    ensures |Kept(steps)| == |SelectBy(combos, steps)|
    ensures forall j :: 0 <= j < |Kept(steps)| ==>
      exists i :: 0 <= i < |steps| && combos[i] == SelectBy(combos, steps)[j] && steps[i] == Keep(Kept(steps)[j])
  {
    if combos != [] {
      assert forall i :: 0 <= i < |steps[1..]| ==> steps[1..][i] == steps[i + 1];
      KeptPairs(combos[1..], steps[1..]);
      assert steps[0] in steps;
      if steps[0].Keep? {
        KeptHead(combos, steps);
      } else {
        KeptSkip(combos, steps);
      }
    }
  }

  lemma KeptHead(combos: seq<seq<Value>>, steps: seq<Step>)
    requires |combos| == |steps| > 0 && steps[0].Keep?
    requires Paired(combos[1..], steps[1..])
    ensures Paired(combos, steps)
  {
    var kept := Kept(steps);
    var keptr := Kept(steps[1..]);
    var sel := SelectBy(combos, steps);
    var selr := SelectBy(combos[1..], steps[1..]);
    assert kept == [steps[0].brick] + keptr;
    assert sel == [combos[0]] + selr;
    forall j | 0 <= j < |kept|
      ensures exists i :: 0 <= i < |steps| && combos[i] == sel[j] && steps[i] == Keep(kept[j])
    {
      if j == 0 {
        assert combos[0] == sel[0] && steps[0] == Keep(kept[0]);
      } else {
        assert sel[j] == selr[j - 1] && kept[j] == keptr[j - 1];
        var i :| 0 <= i < |steps[1..]| && combos[1..][i] == selr[j - 1] && steps[1..][i] == Keep(keptr[j - 1]);
        assert combos[i + 1] == sel[j] && steps[i + 1] == Keep(kept[j]);
      }
    }
  }

  lemma KeptSkip(combos: seq<seq<Value>>, steps: seq<Step>)
    requires |combos| == |steps| > 0 && steps[0].Skip?
    requires Paired(combos[1..], steps[1..])
    ensures Paired(combos, steps)
  {
    assert Kept(steps) == Kept(steps[1..]) && SelectBy(combos, steps) == SelectBy(combos[1..], steps[1..]) by {
      assert Kept(steps) == [] + Kept(steps[1..]);
      assert SelectBy(combos, steps) == [] + SelectBy(combos[1..], steps[1..]);
    }
    forall j | 0 <= j < |Kept(steps)|
      ensures exists i :: 0 <= i < |steps| && combos[i] == SelectBy(combos, steps)[j] && steps[i] == Keep(Kept(steps)[j])
    {
      SkipAt(combos, steps, j);
    }
  }

  lemma SkipAt(combos: seq<seq<Value>>, steps: seq<Step>, j: nat)
    requires |combos| == |steps| > 0
    requires Paired(combos[1..], steps[1..])
    requires Kept(steps) == Kept(steps[1..]) && SelectBy(combos, steps) == SelectBy(combos[1..], steps[1..])
    requires j < |Kept(steps)|
    ensures exists i :: 0 <= i < |steps| && combos[i] == SelectBy(combos, steps)[j] && steps[i] == Keep(Kept(steps)[j])
  {
    var i :| 0 <= i < |steps[1..]| && combos[1..][i] == SelectBy(combos[1..], steps[1..])[j]
      && steps[1..][i] == Keep(Kept(steps[1..])[j]);
    assert combos[i + 1] == combos[1..][i] && steps[i + 1] == steps[1..][i];
  }

  /** `Generate.bricks` in full: when it ends normally it is the filter of the
      product of the axes by the condition, mapped to bricks, and its length is the
      number of combinations whose condition holds. */
  lemma GenerateFilters(host: Host, g: Generate)
    requires !GenerateStream(host, g).crashed
    ensures g.generate.Mapping? && Pools(g.generate.d, g.generate.d.keys).Some?
    ensures var keys := g.generate.d.keys;
      var combos := Product(Pools(g.generate.d, keys).value);
      var s := GenerateStream(host, g);
      && Sized(keys, combos)
      && var sel := Selected(host, keys, g.config, g.condition, combos);
      && |s.items| == |sel|
      && forall j :: 0 <= j < |sel| ==>
        Combination(g.config, keys, sel[j]).Some?
        && BrickOf(host, Combination(g.config, keys, sel[j]).value.vals) == Some(s.items[j])
  {
    var keys := g.generate.d.keys;
    var pools := Pools(g.generate.d, keys).value;
    ProductSized(pools, keys);
    var combos := Product(pools);
    var steps := Steps(host, keys, g.config, g.condition, combos);
    RunKeeps(steps);
    KeptPairs(combos, steps);
    var sel := Selected(host, keys, g.config, g.condition, combos);
    forall j | 0 <= j < |sel|
      ensures Combination(g.config, keys, sel[j]).Some?
      ensures BrickOf(host, Combination(g.config, keys, sel[j]).value.vals) == Some(Kept(steps)[j])
    {
      var i :| 0 <= i < |steps| && combos[i] == sel[j] && steps[i] == Keep(Kept(steps)[j]);
      StepMeaning(host, keys, g.config, g.condition, combos[i]);
    }
  }

  /** A generator with an empty axis produces nothing and raises nothing. */
  lemma GenerateEmptyAxis(host: Host, g: Generate, k: nat)
    requires g.generate.Mapping? && Pools(g.generate.d, g.generate.d.keys).Some?
    requires k < |g.generate.d.keys| && Pools(g.generate.d, g.generate.d.keys).value[k] == []
    ensures GenerateStream(host, g) == Stream([], false)
  {
    ProductEmpty(Pools(g.generate.d, g.generate.d.keys).value, k);
  }
}
