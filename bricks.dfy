/** The registry of brick sets and the artifact writer (bin/lib/bricks.py): brick
    sets are registered from the rule documents, their bricks are chained, and each
    brick's configuration is persisted in `config.json` and rendered to its `.scad`
    file unless both are already up to date. */
module Orchestration {
  import opened Values
  import opened Host
  import opened BrickRecord
  import opened Statistics
  import opened Generation
  import opened Remixing

  /** A registered brick set: a generated or a remixed one. */
  datatype BrickSet = Generated(g: Generate) | Remixed(r: Remix)

  function SetName(bs: BrickSet): string {
    match bs
    case Generated(g) => g.name
    case Remixed(r) => r.name
  }

  /** The flags the brick set constructors read: `--generate`, `--input` (empty
      when unset) and `--remix`. */
  datatype Flags = Flags(generate: seq<string>, input: string, remix: seq<string>)

  function Names(sets: seq<BrickSet>): (r: seq<string>)
    ensures |r| == |sets| && forall i :: 0 <= i < |sets| ==> r[i] == SetName(sets[i])
  {
    seq(|sets|, i requires 0 <= i < |sets| => SetName(sets[i]))
  }

  lemma NamesAppend(a: seq<BrickSet>, b: seq<BrickSet>)
    ensures Names(a + b) == Names(a) + Names(b)
  {
    assert forall i :: 0 <= i < |a + b| ==> Names(a + b)[i] == (Names(a) + Names(b))[i];
  }

  // Registration

  /** Registering one constructor call: a `ValueError` is logged and skipped, a
      name already taken raises `KeyError`, any other exception propagates. */
  function Admit(sets: seq<BrickSet>, c: Construction<BrickSet>): Option<seq<BrickSet>> {
    match c
    case Rejected => Some(sets)
    case Aborted => None
    case Built(bs) => if SetName(bs) in Names(sets) then None else Some(sets + [bs])
  }

  /** Registering the constructor calls in order, up to the first exception. */
  function Register(sets: seq<BrickSet>, cs: seq<Construction<BrickSet>>): Option<seq<BrickSet>>
    decreases |cs|
  {
    if cs == [] then Some(sets)
    else
      match Admit(sets, cs[0])
      case None => None
      case Some(next) => Register(next, cs[1..])
  }

  /** The brick sets the constructor calls built, in order. */
  function BuiltOf(cs: seq<Construction<BrickSet>>): (r: seq<BrickSet>)
    ensures |r| <= |cs|
  {
    if cs == [] then [] else (if cs[0].Built? then [cs[0].value] else []) + BuiltOf(cs[1..])
  }

  lemma {:induction false} BuiltOfAppend(a: seq<Construction<BrickSet>>, b: seq<Construction<BrickSet>>)
    ensures BuiltOf(a + b) == BuiltOf(a) + BuiltOf(b)
  {
    if a != [] {
      assert (a + b)[0] == a[0] && (a + b)[1..] == a[1..] + b;
      BuiltOfAppend(a[1..], b);
    } else {
      assert a + b == b;
    }
  }

  /** Registration succeeds exactly when no constructor raised anything but
      `ValueError` and the built sets have pairwise different names; it then appends
      every built set, in order, and nothing else. */
  lemma {:induction false} RegisterMeaning(sets: seq<BrickSet>, cs: seq<Construction<BrickSet>>)
    requires Distinct(Names(sets))
    decreases |cs|
    ensures Register(sets, cs).Some? <==>
      (forall i :: 0 <= i < |cs| ==> !cs[i].Aborted?) && Distinct(Names(sets + BuiltOf(cs)))
    ensures Register(sets, cs).Some? ==> Register(sets, cs).value == sets + BuiltOf(cs)
  {
    if cs == [] {
      assert sets + BuiltOf(cs) == sets;
    } else {
      var tail := cs[1..];
      assert forall i :: 1 <= i < |cs| ==> cs[i] == tail[i - 1];
      match cs[0]
      case Rejected =>
        assert BuiltOf(cs) == BuiltOf(tail);
        RegisterMeaning(sets, tail);
      case Aborted =>
      case Built(bs) =>
        assert BuiltOf(cs) == [bs] + BuiltOf(tail);
        var all := sets + BuiltOf(cs);
        assert all == (sets + [bs]) + BuiltOf(tail);
        assert Names(all)[|sets|] == SetName(bs);
        if SetName(bs) in Names(sets) {
          var k :| 0 <= k < |sets| && Names(sets)[k] == SetName(bs);
          assert Names(all)[k] == SetName(bs);
        } else {
          var next := sets + [bs];
          NamesAppend(sets, [bs]);
          forall i, j | 0 <= i < j < |Names(next)| ensures Names(next)[i] != Names(next)[j] {
            if j == |sets| {
              assert Names(next)[i] == Names(sets)[i];
            }
          }
          RegisterMeaning(next, tail);
          if Distinct(Names(all)) {
            forall i, j | 0 <= i < j < |Names(next)| ensures Names(next)[i] != Names(next)[j] {
              assert Names(next)[i] == Names(all)[i] && Names(next)[j] == Names(all)[j];
            }
          }
        }
    }
  }

  lemma {:induction false} RegisterAppend(sets: seq<BrickSet>, a: seq<Construction<BrickSet>>,
                                          b: seq<Construction<BrickSet>>)
    ensures Register(sets, a + b) ==
      match Register(sets, a)
      case None => None
      case Some(s) => Register(s, b)
    decreases |a|
  {
    if a == [] {
      assert a + b == b;
    } else {
      assert (a + b)[0] == a[0] && (a + b)[1..] == a[1..] + b;
      match Admit(sets, a[0])
      case None =>
      case Some(next) => RegisterAppend(next, a[1..], b);
    }
  }

  // Documents

  /** `doc.get(key, {})`, which must be a mapping for `.items()`. */
  function Section(doc: Value, key: string): Option<Dict> {
    if !doc.Mapping? then None
    else
      match Get(doc.d, key, Mapping(EmptyDict))
      case Mapping(d) => Some(d)
      case _ => None
  }

  function AsGenerated(c: Construction<Generate>): (r: Construction<BrickSet>)
    ensures r.Built? ==> r.value.Generated?
  {
    match c
    case Built(g) => Built(Generated(g))
    case Rejected => Rejected
    case Aborted => Aborted
  }

  function AsRemixed(c: Construction<Remix>): (r: Construction<BrickSet>)
    ensures r.Built? ==> r.value.Remixed?
  {
    match c
    case Built(x) => Built(Remixed(x))
    case Rejected => Rejected
    case Aborted => Aborted
  }

  /** `Generate(name, conf)` for every entry of a `generate` section, in order. */
  function GenerateRules(fl: Flags, sec: Dict): (cs: seq<Construction<BrickSet>>)
    ensures |cs| == |sec.keys|
    ensures forall i :: 0 <= i < |cs| && cs[i].Built? ==> cs[i].value.Generated?
  {
    seq(|sec.keys|, i requires 0 <= i < |sec.keys| =>
      AsGenerated(NewGenerate(fl.generate, sec.keys[i], Get(sec, sec.keys[i], Null))))
  }

  /** `Remix(name, conf)` for every entry of a `remix` section, in order. */
  function RemixRules(host: Host, fl: Flags, sec: Dict): (cs: seq<Construction<BrickSet>>)
    ensures |cs| == |sec.keys|
    ensures forall i :: 0 <= i < |cs| && cs[i].Built? ==> cs[i].value.Remixed?
  {
    seq(|sec.keys|, i requires 0 <= i < |sec.keys| =>
      AsRemixed(NewRemix(host, fl.input, fl.remix, sec.keys[i], Get(sec, sec.keys[i], Null))))
  }

  /** The constructor calls of one document: its `generate` rules, then its `remix`
      rules; `None` when the document or a section is not a mapping. */
  function Candidates(host: Host, fl: Flags, doc: Value): Option<seq<Construction<BrickSet>>> {
    var gen := Section(doc, "generate");
    var rem := Section(doc, "remix");
    if gen.None? || rem.None? then None
    else Some(GenerateRules(fl, gen.value) + RemixRules(host, fl, rem.value))
  }

  /** Registering the documents one after the other. */
  function ConfigureDocs(host: Host, fl: Flags, sets: seq<BrickSet>, docs: seq<Value>): Option<seq<BrickSet>>
    decreases |docs|
  {
    if docs == [] then Some(sets)
    else
      match Candidates(host, fl, docs[0])
      case None => None
      case Some(cs) =>
        match Register(sets, cs)
        case None => None
        case Some(next) => ConfigureDocs(host, fl, next, docs[1..])
  }

  /** `yaml.load` of every file, all of them before any rule is read; `None` is a
      file that does not parse. */
  function Loaded(texts: seq<Option<Value>>): (r: Option<seq<Value>>)
    ensures r.Some? <==> forall i :: 0 <= i < |texts| ==> texts[i].Some?
    ensures r.Some? ==> |r.value| == |texts| && forall i :: 0 <= i < |texts| ==> texts[i] == Some(r.value[i])
  {
    if texts == [] then Some([])
    else
      var rest := Loaded(texts[1..]);
      assert forall i :: 1 <= i < |texts| ==> texts[i] == texts[1..][i - 1];
      if texts[0].None? || rest.None? then None else Some([texts[0].value] + rest.value)
  }

  /** `configure(ymls)` on a registry holding `sets`. */
  function Configured(host: Host, fl: Flags, sets: seq<BrickSet>, texts: seq<Option<Value>>): Option<seq<BrickSet>> {
    match Loaded(texts)
    case None => None
    case Some(docs) => ConfigureDocs(host, fl, sets, docs)
  }

  /** The constructor calls of all documents, in order. */
  function AllCandidates(host: Host, fl: Flags, docs: seq<Value>): Option<seq<Construction<BrickSet>>> {
    if docs == [] then Some([])
    else
      match Candidates(host, fl, docs[0])
      case None => None
      case Some(cs) =>
        match AllCandidates(host, fl, docs[1..])
        case None => None
        case Some(rest) => Some(cs + rest)
  }

  /** Configuring document by document is registering all their rules in one go. */
  lemma {:induction false} ConfigureFlat(host: Host, fl: Flags, sets: seq<BrickSet>, docs: seq<Value>)
    ensures ConfigureDocs(host, fl, sets, docs) ==
      match AllCandidates(host, fl, docs)
      case None => None
      case Some(cs) => Register(sets, cs)
    decreases |docs|
  {
    if docs != [] && Candidates(host, fl, docs[0]).Some? {
      var cs := Candidates(host, fl, docs[0]).value;
      if Register(sets, cs).Some? {
        ConfigureFlat(host, fl, Register(sets, cs).value, docs[1..]);
      }
      if AllCandidates(host, fl, docs[1..]).Some? {
        RegisterAppend(sets, cs, AllCandidates(host, fl, docs[1..]).value);
      }
    }
  }

  /** `configure` succeeds exactly when every file parses, every section is a
      mapping, no constructor raises anything but `ValueError`, and the built sets
      have names pairwise different and new to the registry; it then appends the
      built sets in document order, and rejected rules leave no trace. */
  lemma ConfiguredSets(host: Host, fl: Flags, sets: seq<BrickSet>, texts: seq<Option<Value>>)
    requires Distinct(Names(sets))
    ensures Configured(host, fl, sets, texts).Some? <==>
      && Loaded(texts).Some?
      && AllCandidates(host, fl, Loaded(texts).value).Some?
      && (forall c :: c in AllCandidates(host, fl, Loaded(texts).value).value ==> !c.Aborted?)
      && Distinct(Names(sets + BuiltOf(AllCandidates(host, fl, Loaded(texts).value).value)))
    ensures Configured(host, fl, sets, texts).Some? ==>
      Configured(host, fl, sets, texts).value == sets + BuiltOf(AllCandidates(host, fl, Loaded(texts).value).value)
  {
    if Loaded(texts).Some? {
      var docs := Loaded(texts).value;
      ConfigureFlat(host, fl, sets, docs);
      if AllCandidates(host, fl, docs).Some? {
        RegisterMeaning(sets, AllCandidates(host, fl, docs).value);
      }
    }
  }

  /** Within one document the generated sets are registered first, then the
      remixed ones. */
  lemma DocumentOrder(host: Host, fl: Flags, doc: Value)
    requires Candidates(host, fl, doc).Some?
    ensures var b := BuiltOf(Candidates(host, fl, doc).value);
      forall i, j :: 0 <= i < j < |b| && b[i].Remixed? ==> b[j].Remixed?
  {
    var gen := GenerateRules(fl, Section(doc, "generate").value);
    var rem := RemixRules(host, fl, Section(doc, "remix").value);
    KindsInOrder(gen, rem);
  }

  /** Built generated sets followed by built remixed sets keep that order. */
  lemma KindsInOrder(gen: seq<Construction<BrickSet>>, rem: seq<Construction<BrickSet>>)
    requires forall i :: 0 <= i < |gen| && gen[i].Built? ==> gen[i].value.Generated?
    requires forall i :: 0 <= i < |rem| && rem[i].Built? ==> rem[i].value.Remixed?
    ensures var b := BuiltOf(gen + rem);
      forall i, j :: 0 <= i < j < |b| && b[i].Remixed? ==> b[j].Remixed?
  {
    BuiltOfAppend(gen, rem);
    BuiltOnly(gen);
    BuiltOnly(rem);
    var b := BuiltOf(gen + rem);
    var k := |BuiltOf(gen)|;
    forall i | 0 <= i < k ensures b[i].Generated? {
      assert b[i] == BuiltOf(gen)[i];
      var m :| 0 <= m < |gen| && gen[m] == Built(b[i]);
    }
    forall i | k <= i < |b| ensures b[i].Remixed? {
      assert b[i] == BuiltOf(rem)[i - k];
      var m :| 0 <= m < |rem| && rem[m] == Built(b[i]);
    }
  }

  /** Every set `BuiltOf` yields is the value of a built construction in `cs`. */
  lemma {:induction false} BuiltOnly(cs: seq<Construction<BrickSet>>)
    ensures forall b :: b in BuiltOf(cs) ==> Built(b) in cs
  {
    if cs != [] {
      BuiltOnly(cs[1..]);
      forall b | b in BuiltOf(cs[1..]) ensures Built(b) in cs {
        assert Built(b) in cs[1..];
      }
    }
  }

  // Registration step by step

  /** The registry after a run of registrations and whether it ended normally;
      sets registered before an exception stay registered. */
  datatype Progress = Progress(sets: seq<BrickSet>, ok: bool)

  /** The constructor calls registered one by one, up to the first exception. */
  function Admitting(sets: seq<BrickSet>, cs: seq<Construction<BrickSet>>): Progress
    decreases |cs|
  {
    if cs == [] then Progress(sets, true)
    else
      match Admit(sets, cs[0])
      case None => Progress(sets, false)
      case Some(next) => Admitting(next, cs[1..])
  }

  lemma {:induction false} AdmittingAgrees(sets: seq<BrickSet>, cs: seq<Construction<BrickSet>>)
    ensures Admitting(sets, cs).ok <==> Register(sets, cs).Some?
    ensures Register(sets, cs).Some? ==> Admitting(sets, cs).sets == Register(sets, cs).value
    decreases |cs|
  {
    if cs != [] {
      match Admit(sets, cs[0])
      case None =>
      case Some(next) => AdmittingAgrees(next, cs[1..]);
    }
  }

  /** One document: its `generate` section is read and registered before its
      `remix` section is even looked up. */
  function DocAdmitting(host: Host, fl: Flags, sets: seq<BrickSet>, doc: Value): Progress {
    var gen := Section(doc, "generate");
    if gen.None? then Progress(sets, false)
    else
      var g := Admitting(sets, GenerateRules(fl, gen.value));
      if !g.ok then g
      else
        var rem := Section(doc, "remix");
        if rem.None? then Progress(g.sets, false) else Admitting(g.sets, RemixRules(host, fl, rem.value))
  }

  function DocsAdmitting(host: Host, fl: Flags, sets: seq<BrickSet>, docs: seq<Value>): Progress
    decreases |docs|
  {
    if docs == [] then Progress(sets, true)
    else
      var d := DocAdmitting(host, fl, sets, docs[0]);
      if !d.ok then d else DocsAdmitting(host, fl, d.sets, docs[1..])
  }

  /** `configure(ymls)` step by step: nothing is registered unless every file parses. */
  function Configuring(host: Host, fl: Flags, sets: seq<BrickSet>, texts: seq<Option<Value>>): Progress {
    match Loaded(texts)
    case None => Progress(sets, false)
    case Some(docs) => DocsAdmitting(host, fl, sets, docs)
  }

  lemma DocAgrees(host: Host, fl: Flags, sets: seq<BrickSet>, doc: Value)
    ensures var d := DocAdmitting(host, fl, sets, doc);
      && (d.ok <==> Candidates(host, fl, doc).Some? && Register(sets, Candidates(host, fl, doc).value).Some?)
      && (d.ok ==> d.sets == Register(sets, Candidates(host, fl, doc).value).value)
  {
    var gen := Section(doc, "generate");
    var rem := Section(doc, "remix");
    if gen.Some? {
      var gs := GenerateRules(fl, gen.value);
      AdmittingAgrees(sets, gs);
      if rem.Some? {
        var rs := RemixRules(host, fl, rem.value);
        RegisterAppend(sets, gs, rs);
        if Register(sets, gs).Some? {
          AdmittingAgrees(Register(sets, gs).value, rs);
        }
      }
    }
  }

  lemma {:induction false} DocsAgree(host: Host, fl: Flags, sets: seq<BrickSet>, docs: seq<Value>)
    ensures DocsAdmitting(host, fl, sets, docs).ok <==> ConfigureDocs(host, fl, sets, docs).Some?
    ensures DocsAdmitting(host, fl, sets, docs).ok ==>
      DocsAdmitting(host, fl, sets, docs).sets == ConfigureDocs(host, fl, sets, docs).value
    decreases |docs|
  {
    if docs != [] {
      DocAgrees(host, fl, sets, docs[0]);
      var d := DocAdmitting(host, fl, sets, docs[0]);
      if d.ok {
        DocsAgree(host, fl, d.sets, docs[1..]);
      }
    }
  }

  /** Configuring step by step ends normally exactly when `Configured` succeeds,
      with the same registry. */
  lemma ConfiguringAgrees(host: Host, fl: Flags, sets: seq<BrickSet>, texts: seq<Option<Value>>)
    ensures Configuring(host, fl, sets, texts).ok <==> Configured(host, fl, sets, texts).Some?
    ensures Configuring(host, fl, sets, texts).ok ==>
      Configuring(host, fl, sets, texts).sets == Configured(host, fl, sets, texts).value
  {
    if Loaded(texts).Some? {
      DocsAgree(host, fl, sets, Loaded(texts).value);
    }
  }

  // The brick stream

  /** `brickset.bricks` iterated to its end or to its first exception. */
  function SetStream(host: Host, bs: BrickSet): Stream {
    match bs
    case Generated(g) => GenerateStream(host, g)
    case Remixed(r) => RemixStream(host, r)
  }

  /** The `invalid` increments a brick set makes while it is iterated. */
  function SetInvalids(host: Host, bs: BrickSet): nat {
    match bs
    case Generated(_) => 0
    case Remixed(r) => RemixInvalids(host, r)
  }

  /** `bricks()`: the sets' streams one after the other, up to the first exception;
      nothing is merged or deduplicated. */
  function Chain(host: Host, sets: seq<BrickSet>): Stream
    decreases |sets|
  {
    if sets == [] then Stream([], false)
    else
      var s := SetStream(host, sets[0]);
      if s.crashed then s else Then(s.items, Chain(host, sets[1..]))
  }

  /** The counters once `bricks()` has run. */
  function ChainTable(table: Table, host: Host, sets: seq<BrickSet>): Table
    decreases |sets|
  {
    if sets == [] then table
    else
      var t := Add(table, Str(SetName(sets[0])), "invalid", SetInvalids(host, sets[0]));
      if SetStream(host, sets[0]).crashed then t else ChainTable(t, host, sets[1..])
  }

  lemma {:induction false} ChainAppend(host: Host, a: seq<BrickSet>, b: seq<BrickSet>)
    ensures Chain(host, a + b) ==
      if Chain(host, a).crashed then Chain(host, a) else Then(Chain(host, a).items, Chain(host, b))
    decreases |a|
  {
    if a == [] {
      assert a + b == b;
    } else {
      assert (a + b)[0] == a[0] && (a + b)[1..] == a[1..] + b;
      ChainAppend(host, a[1..], b);
      var s := SetStream(host, a[0]);
      if !s.crashed && !Chain(host, a[1..]).crashed {
        assert s.items + (Chain(host, a[1..]).items + Chain(host, b).items)
          == (s.items + Chain(host, a[1..]).items) + Chain(host, b).items;
      }
    }
  }

  /** The chain raises exactly when some set's iteration does; otherwise every
      set's bricks appear as one block, in registration order. */
  lemma ChainMeaning(host: Host, sets: seq<BrickSet>)
    ensures Chain(host, sets).crashed <==> exists i :: 0 <= i < |sets| && SetStream(host, sets[i]).crashed
    ensures !Chain(host, sets).crashed ==> forall i :: 0 <= i < |sets| ==>
      Chain(host, sets).items ==
        Chain(host, sets[..i]).items + SetStream(host, sets[i]).items + Chain(host, sets[i + 1..]).items
  {
    ChainCrash(host, sets);
    if !Chain(host, sets).crashed {
      forall i | 0 <= i < |sets| ensures Chain(host, sets).items ==
        Chain(host, sets[..i]).items + SetStream(host, sets[i]).items + Chain(host, sets[i + 1..]).items
      {
        ChainSplit(host, sets, i);
      }
    }
  }

  lemma ChainSplit(host: Host, sets: seq<BrickSet>, i: nat)
    requires i < |sets| && !Chain(host, sets).crashed
    ensures Chain(host, sets).items ==
      Chain(host, sets[..i]).items + SetStream(host, sets[i]).items + Chain(host, sets[i + 1..]).items
  {
    assert sets == sets[..i] + sets[i..];
    ChainAppend(host, sets[..i], sets[i..]);
    ChainAt(host, sets, i);
  }

  /** One step of `Chain` from position `i`. */
  lemma ChainAt(host: Host, sets: seq<BrickSet>, i: nat)
    requires i < |sets|
    ensures var s := SetStream(host, sets[i]);
      Chain(host, sets[i..]) == (if s.crashed then s else Then(s.items, Chain(host, sets[i + 1..])))
  {
    assert sets[i..][0] == sets[i] && sets[i..][1..] == sets[i + 1..];
  }

  /** One step of `ChainTable` from position `i`. */
  lemma ChainTableAt(host: Host, sets: seq<BrickSet>, i: nat, table: Table)
    requires i < |sets|
    ensures var t := Add(table, Str(SetName(sets[i])), "invalid", SetInvalids(host, sets[i]));
      ChainTable(table, host, sets[i..]) ==
        (if SetStream(host, sets[i]).crashed then t else ChainTable(t, host, sets[i + 1..]))
  {
    assert sets[i..][0] == sets[i] && sets[i..][1..] == sets[i + 1..];
  }

  lemma {:induction false} ChainCrash(host: Host, sets: seq<BrickSet>)
    ensures Chain(host, sets).crashed <==> exists i :: 0 <= i < |sets| && SetStream(host, sets[i]).crashed
    decreases |sets|
  {
    if sets != [] {
      ChainCrash(host, sets[1..]);
      assert forall i :: 1 <= i < |sets| ==> sets[i] == sets[1..][i - 1];
      if exists i :: 0 <= i < |sets[1..]| && SetStream(host, sets[1..][i]).crashed {
        var i :| 0 <= i < |sets[1..]| && SetStream(host, sets[1..][i]).crashed;
        assert sets[i + 1] == sets[1..][i];
      }
    }
  }

  /** A brick set's iteration, as the methods perform it. */
  method Produce(host: Host, bs: BrickSet, stats: Stats) returns (s: Stream)
    modifies stats
    ensures s == SetStream(host, bs)
    ensures stats.table == Add(old(stats.table), Str(SetName(bs)), "invalid", SetInvalids(host, bs))
  {
    match bs
    case Generated(g) =>
      s := GenerateBricks(host, g);
    case Remixed(r) =>
      s := RemixBricks(host, r, stats);
  }

  // Writing the artifacts

  /** The state of `config.json`: absent, not JSON, or a JSON document. */
  datatype Saved = Missing | Corrupt | Doc(v: Value)

  /** What a run sees of the file system: the directories, the files with their
      text, and `config.json`. */
  datatype Tree = Tree(dirs: set<string>, files: map<Loc, string>, json: Saved)

  /** The resolved output directory and the path of `Makefile.mk` relative to it. */
  datatype Output = Output(dir: string, incl: string)

  /** `MAKEFILE_TMPL.format(incl=incl)` */
  function MakefileText(incl: string): string {
    "\ninclude " + incl + "\n\n"
  }

  /** The `Makefile` of a brick directory includes `Makefile.mk` by its base name. */
  const SubMakefile := MakefileText("Makefile.mk")

  /** `config.json` as the run starts from it: its `parameterSets`, `{}` when the
      file is absent; `None` is the exception from a corrupt file or a document that
      is not an object. */
  function Persisted(json: Saved): Option<Value> {
    match json
    case Missing => Some(Mapping(EmptyDict))
    case Corrupt => None
    case Doc(v) => if v.Mapping? then Some(Get(v.d, "parameterSets", Mapping(EmptyDict))) else None
  }

  /** The document written at the end of a run. */
  function SavedDoc(params: Value): (r: Value)
    ensures Persisted(Doc(r)) == Some(params)
  {
    Mapping(Dict(["parameterSets", "fileFormatVersion"],
      map["parameterSets" := params, "fileFormatVersion" := Str("1")]))
  }

  /** The names of the attributes a brick holds, in declaration order. */
  function EntryKeys(attrs: seq<Attr>, b: Brick): (r: seq<string>)
    ensures forall k :: k in r ==> AttrOf(k).Some? && AttrOf(k).value in b.data
  {
    if attrs == [] then []
    else
      AttrNameInverse(attrs[0]);
      (if attrs[0] in b.data then [AttrName(attrs[0])] else []) + EntryKeys(attrs[1..], b)
  }

  /** `brick.config` as a dict: the entry stored under the brick's name and the
      namespace the template is rendered in. */
  function Entry(host: Host, b: Brick): (r: Dict)
    ensures forall k :: k in r.vals ==>
      AttrOf(k).Some? && AttrOf(k).value in b.data && r.vals[k] == Str(Config(host, b)[AttrOf(k).value])
  {
    var keys := EntryKeys(DefaultAttrs, b);
    Dict(keys, map k | k in keys :: Str(Stringify(host, b.data[AttrOf(k).value])))
  }

  /** Python's `==` between `brick.config` and a stored entry: equal as mappings,
      whatever their key order. */
  predicate Same(entry: Dict, stored: Value) {
    stored.Mapping? && stored.d.vals == entry.vals
  }

  /** `brick.name`, which must be a string to build the file name. */
  function FileStem(host: Host, b: Brick): Option<string> {
    match NameOf(host, b.data)
    case Some(Str(s)) => Some(s)
    case _ => None
  }

  /** What the writer reads of a brick: `brick.name` as a file stem, the resolved
      `<output>/<path>/<name>.scad`, the `set` that keys `STATS`, and the config. */
  datatype Job = Job(stem: Option<string>, target: Option<Loc>, bucket: Value, entry: Dict)

  function JobOf(host: Host, out: Output, b: Brick): (j: Job)
    ensures j.stem == FileStem(host, b) && j.bucket == Field(b.data, Set) && j.entry == Entry(host, b)
    ensures j.target.Some? ==> j.stem.Some?
  {
    var stem := FileStem(host, b);
    Job(stem, if stem.None? then None else host.locate(out.dir, Field(b.data, PathAttr), stem.value + ".scad"),
      Field(b.data, Set), Entry(host, b))
  }

  /** What the writer reads of each brick of the stream, in order. */
  function Jobs(host: Host, out: Output, items: seq<Brick>): (js: seq<Job>)
    ensures |js| == |items|
  {
    if items == [] then [] else [JobOf(host, out, items[0])] + Jobs(host, out, items[1..])
  }

  lemma {:induction false} JobsAt(host: Host, out: Output, items: seq<Brick>, i: nat)
    requires i < |items|
    ensures Jobs(host, out, items)[i] == JobOf(host, out, items[i])
  {
    if i > 0 {
      JobsAt(host, out, items[1..], i - 1);
    }
  }

  /** The brick has a file name and a location, and its `set` can key `STATS`. */
  predicate Writable(j: Job) {
    j.stem.Some? && j.target.Some? && Hashable(j.bucket)
  }

  /** The stored entry and the rendered file of the brick are up to date. */
  predicate Current(j: Job, params: Dict, files: map<Loc, string>) {
    && j.stem.Some? && j.target.Some?
    && Same(j.entry, Get(params, j.stem.value, Mapping(EmptyDict)))
    && j.target.value in files
  }

  /** The two `STATS` increments a brick makes: its set's and the total. */
  function Tally(table: Table, bucket: Value, event: string): Table {
    Add(Add(table, bucket, event, 1), Str("total"), event, 1)
  }

  /** One `event` tally per job, in order. */
  function TallyAll(table: Table, js: seq<Job>, event: string): Table
    decreases |js|
  {
    if js == [] then table else TallyAll(Tally(table, js[0].bucket, event), js[1..], event)
  }

  /** Tallying one event leaves every other event's counters alone. */
  lemma {:induction false} TallyAllOthers(table: Table, js: seq<Job>, event: string)
    ensures forall b: Value, e: string :: e != event ==> Read(TallyAll(table, js, event), b, e) == Read(table, b, e)
    decreases |js|
  {
    if js != [] {
      TallyAllOthers(Tally(table, js[0].bucket, event), js[1..], event);
    }
  }

  /** When no job belongs to a set called `total`, tallying adds one per job to
      the total of that event. */
  lemma {:induction false} TallyAllTotal(table: Table, js: seq<Job>, event: string)
    requires forall j :: j in js ==> j.bucket != Str("total")
    ensures Read(TallyAll(table, js, event), Str("total"), event) == Read(table, Str("total"), event) + |js|
    decreases |js|
  {
    if js != [] {
      assert js[0] in js;
      assert forall j :: j in js[1..] ==> j in js;
      var t := Tally(table, js[0].bucket, event);
      assert Read(Add(table, js[0].bucket, event, 1), Str("total"), event) == Read(table, Str("total"), event);
      TallyAllTotal(t, js[1..], event);
    }
  }

  /** The number of bricks counted in the totals. */
  function Counted(table: Table): nat {
    Read(table, Str("total"), "unchanged") + Read(table, Str("total"), "new") + Read(table, Str("total"), "updated")
  }

  /** The writer's state between bricks: the file system, the `parameterSets`
      value being rebuilt, and the counters. */
  datatype Pass = Pass(tree: Tree, params: Value, table: Table)

  /** The state after a brick, and whether the brick raised. */
  datatype Visited = Visited(p: Pass, stopped: bool)

  /** A fresh directory and its `Makefile` when the brick's directory is missing. */
  function Prepared(host: Host, t: Tree, dir: string): (r: Tree)
    ensures t.dirs <= r.dirs && dir in r.dirs && t.files.Keys <= r.files.Keys && r.json == t.json
    ensures forall l :: l in t.files && (l.base != "Makefile" || l.dir in t.dirs) ==> r.files[l] == t.files[l]
    ensures dir in t.dirs ==> r == t
    ensures dir !in t.dirs ==>
      && r.dirs == t.dirs + host.ancestors(dir) + {dir}
      && r.files.Keys == t.files.Keys + {Loc(dir, "Makefile")}
      && r.files[Loc(dir, "Makefile")] == SubMakefile
  {
    if dir in t.dirs then t
    else Tree(t.dirs + host.ancestors(dir) + {dir}, t.files[Loc(dir, "Makefile") := SubMakefile], t.json)
  }

  /** One turn of the `for brick in self.bricks()` loop of `writeConfigs`. A brick
      whose entry and file are current is counted `unchanged` and writes nothing;
      any other brick stores its entry, renders its file (`new` when the file did not
      exist) and writes a `Makefile` into a directory it creates. */
  function Visit(host: Host, template: string, p: Pass, j: Job): Visited {
    if j.stem.None? || j.target.None? || !p.params.Mapping? then Visited(p, true)
    else if Current(j, p.params.d, p.tree.files) then
      if !Hashable(j.bucket) then Visited(p, true)
      else Visited(Pass(p.tree, p.params, Tally(p.table, j.bucket, "unchanged")), false)
    else
      var params := Mapping(Assign(p.params.d, j.stem.value, Mapping(j.entry)));
      var text := host.format(template, j.entry.vals);
      if text.None? then Visited(Pass(p.tree, params, p.table), true)
      else
        var t1 := Prepared(host, p.tree, j.target.value.dir);
        var event := if j.target.value in t1.files then "updated" else "new";
        var t2 := t1.(files := t1.files[j.target.value := text.value]);
        if !Hashable(j.bucket) then Visited(Pass(t2, params, p.table), true)
        else Visited(Pass(t2, params, Tally(p.table, j.bucket, event)), false)
  }

  /** What one turn does: it raises unless the brick is writable; afterwards the
      brick is current; a current brick changes nothing but its `unchanged` count;
      any other one gets its rendered file and a `new` or `updated` count, and a
      directory it creates gets a `Makefile`. */
  lemma VisitMeaning(host: Host, template: string, p: Pass, j: Job)
    ensures var r := Visit(host, template, p, j);
      && (!r.stopped ==> Writable(j) && p.params.Mapping? && r.p.params.Mapping?)
      && (!r.stopped ==> Current(j, r.p.params.d, r.p.tree.files))
      && (!r.stopped && Current(j, p.params.d, p.tree.files) ==>
           r.p.tree == p.tree && r.p.params == p.params && r.p.table == Tally(p.table, j.bucket, "unchanged"))
      && (!r.stopped && !Current(j, p.params.d, p.tree.files) ==>
           && Some(r.p.tree.files[j.target.value]) == host.format(template, j.entry.vals)
           && (r.p.table == Tally(p.table, j.bucket, "updated") || r.p.table == Tally(p.table, j.bucket, "new"))
           && (j.target.value.base != "Makefile" ==>
                r.p.table == Tally(p.table, j.bucket, if j.target.value in p.tree.files then "updated" else "new"))
           && (j.target.value.dir !in p.tree.dirs ==>
                && j.target.value.dir in r.p.tree.dirs
                && (j.target.value.base != "Makefile" ==>
                     r.p.tree.files[Loc(j.target.value.dir, "Makefile")] == SubMakefile)))
  {
    if j.stem.Some? && j.target.Some? && p.params.Mapping? && !Current(j, p.params.d, p.tree.files) {
      var params := Assign(p.params.d, j.stem.value, Mapping(j.entry));
      assert params.vals[j.stem.value] == Mapping(j.entry);
    }
  }

  /** Entries under other names and files the brick does not target (save the
      `Makefile` of a new directory) are untouched, files and directories are only
      added, and `config.json` is not written. */
  lemma VisitFrame(host: Host, template: string, p: Pass, j: Job)
    ensures var r := Visit(host, template, p, j);
      && (!r.stopped && p.params.Mapping? ==> forall k :: Some(k) != j.stem ==>
           Get(r.p.params.d, k, Mapping(EmptyDict)) == Get(p.params.d, k, Mapping(EmptyDict)))
      && p.tree.dirs <= r.p.tree.dirs && p.tree.files.Keys <= r.p.tree.files.Keys
      && r.p.tree.json == p.tree.json
      && (forall l :: (l in p.tree.files && Some(l) != j.target && (l.base != "Makefile" || l.dir in p.tree.dirs))
           ==> r.p.tree.files[l] == p.tree.files[l])
      && (forall l :: l in r.p.tree.files && l !in p.tree.files ==>
           Some(l) == j.target || (j.target.Some? && l == Loc(j.target.value.dir, "Makefile")))
  {
    if j.stem.Some? && j.target.Some? && p.params.Mapping? && !Current(j, p.params.d, p.tree.files) {
      var params := Assign(p.params.d, j.stem.value, Mapping(j.entry));
      assert params.vals[j.stem.value] == Mapping(j.entry);
    }
  }

  /** The loop over the bricks, up to the first exception. */
  function VisitAll(host: Host, template: string, p: Pass, js: seq<Job>): Visited
    decreases |js|
  {
    if js == [] then Visited(p, false)
    else
      var v := Visit(host, template, p, js[0]);
      if v.stopped then v else VisitAll(host, template, v.p, js[1..])
  }

  /** The result of `writeConfigs`: the file system, the counters, and whether it raised. */
  datatype Written = Written(tree: Tree, table: Table, crashed: bool)

  /** A missing top-level `Makefile` is written first. */
  function TopMakefile(out: Output, t: Tree): (r: Tree)
    ensures r.dirs == t.dirs && r.json == t.json
    ensures Loc(out.dir, "Makefile") in t.files ==> r == t
    ensures Loc(out.dir, "Makefile") !in t.files ==>
      && r.files.Keys == t.files.Keys + {Loc(out.dir, "Makefile")}
      && r.files[Loc(out.dir, "Makefile")] == MakefileText(out.incl)
      && forall l :: l in t.files ==> r.files[l] == t.files[l]
  {
    if Loc(out.dir, "Makefile") in t.files then t
    else t.(files := t.files[Loc(out.dir, "Makefile") := MakefileText(out.incl)])
  }

  /** The loop of `writeConfigs` over the bricks the iteration yields (`crashed`
      when the iteration ended in an exception), then the rewrite of `config.json`,
      which happens only when the run ends normally. */
  function WriteJobs(host: Host, template: string, t0: Tree, params: Value, table: Table,
                     js: seq<Job>, crashed: bool): Written
  {
    var v := VisitAll(host, template, Pass(t0, params, table), js);
    if v.stopped || crashed then Written(v.p.tree, v.p.table, true)
    else Written(v.p.tree.(json := Doc(SavedDoc(v.p.params))), v.p.table, false)
  }

  /** `writeConfigs` with the template text `template` (`None` when it cannot be
      read), where iterating the bricks yields `s` and moves the counters from
      `before` to `after`. */
  function WriteOver(host: Host, out: Output, template: Option<string>, t: Tree, before: Table, after: Table,
                     s: Stream): Written
  {
    if template.None? || out.dir !in t.dirs then Written(t, before, true)
    else
      match Persisted(t.json)
      case None => Written(TopMakefile(out, t), before, true)
      case Some(params) =>
        WriteJobs(host, template.value, TopMakefile(out, t), params, after, Jobs(host, out, s.items), s.crashed)
  }

  /** `writeConfigs` over the bricks of the registered sets. */
  function WriteRun(host: Host, out: Output, template: Option<string>, t: Tree, table: Table,
                    sets: seq<BrickSet>): Written
  {
    WriteOver(host, out, template, t, table, ChainTable(table, host, sets), Chain(host, sets))
  }

  // Properties of the writer

  /** When the template is read and the output directory exists, the run leaves a
      top-level `Makefile`, and one it had to create keeps its text unless a brick
      targets that very file. */
  lemma WriteTopMakefile(host: Host, out: Output, template: Option<string>, t: Tree, before: Table,
                         after: Table, s: Stream)
    ensures var w := WriteOver(host, out, template, t, before, after, s);
      template.Some? && out.dir in t.dirs ==>
      && Loc(out.dir, "Makefile") in w.tree.files
      && (Loc(out.dir, "Makefile") !in t.files &&
          (forall j :: j in Jobs(host, out, s.items) ==> j.target != Some(Loc(out.dir, "Makefile"))) ==>
            w.tree.files[Loc(out.dir, "Makefile")] == MakefileText(out.incl))
  {
    var t1 := TopMakefile(out, t);
    var l := Loc(out.dir, "Makefile");
    if template.Some? && out.dir in t.dirs && Persisted(t.json).Some? {
      var js := Jobs(host, out, s.items);
      var p := Pass(t1, Persisted(t.json).value, after);
      VisitAllGrows(host, template.value, p, js);
      if l !in t.files && forall j :: j in js ==> j.target != Some(l) {
        VisitAllLeaves(host, template.value, p, js, l);
      }
    }
  }

  /** Bricks whose entries and files are all current leave the file system and
      `parameterSets` exactly as they are. */
  lemma {:induction false} VisitAllCurrent(host: Host, template: string, p: Pass, js: seq<Job>)
    requires forall j :: j in js ==> Writable(j) && p.params.Mapping? && Current(j, p.params.d, p.tree.files)
    ensures !VisitAll(host, template, p, js).stopped
    ensures VisitAll(host, template, p, js).p.tree == p.tree
    ensures VisitAll(host, template, p, js).p.params == p.params
    ensures VisitAll(host, template, p, js).p.table == TallyAll(p.table, js, "unchanged")
    decreases |js|
  {
    if js != [] {
      assert js[0] in js;
      assert forall j :: j in js[1..] ==> j in js;
      VisitAllCurrent(host, template, Visit(host, template, p, js[0]).p, js[1..]);
    }
  }

  /** Bricks with other names leave the entry stored under `k` alone; files and
      directories are only ever added. */
  lemma {:induction false} VisitAllKeeps(host: Host, template: string, p: Pass, js: seq<Job>, k: string)
    requires forall j :: j in js ==> j.stem != Some(k)
    ensures var v := VisitAll(host, template, p, js);
      && (!v.stopped && p.params.Mapping? ==>
           v.p.params.Mapping? && Get(v.p.params.d, k, Mapping(EmptyDict)) == Get(p.params.d, k, Mapping(EmptyDict)))
      && p.tree.dirs <= v.p.tree.dirs && p.tree.files.Keys <= v.p.tree.files.Keys
      && v.p.tree.json == p.tree.json
    decreases |js|
  {
    if js != [] {
      VisitMeaning(host, template, p, js[0]);
      VisitFrame(host, template, p, js[0]);
      assert js[0] in js;
      assert forall j :: j in js[1..] ==> j in js;
      VisitAllKeeps(host, template, Visit(host, template, p, js[0]).p, js[1..], k);
    }
  }

  /** Directories and files are only ever added, and `config.json` is not touched. */
  lemma {:induction false} VisitAllGrows(host: Host, template: string, p: Pass, js: seq<Job>)
    ensures var v := VisitAll(host, template, p, js);
      p.tree.dirs <= v.p.tree.dirs && p.tree.files.Keys <= v.p.tree.files.Keys && v.p.tree.json == p.tree.json
    decreases |js|
  {
    if js != [] {
      VisitMeaning(host, template, p, js[0]);
      VisitFrame(host, template, p, js[0]);
      VisitAllGrows(host, template, Visit(host, template, p, js[0]).p, js[1..]);
    }
  }

  /** After a run over bricks with pairwise different names that ends normally,
      every brick's entry and file are current. */
  lemma {:induction false} VisitAllPersists(host: Host, template: string, p: Pass, js: seq<Job>)
    requires forall i, k :: 0 <= i < k < |js| ==> js[i].stem != js[k].stem
    ensures var v := VisitAll(host, template, p, js);
      !v.stopped ==>
        && (js != [] ==> v.p.params.Mapping?)
        && forall j :: j in js ==> Writable(j) && v.p.params.Mapping? && Current(j, v.p.params.d, v.p.tree.files)
    decreases |js|
  {
    if js != [] {
      var v := Visit(host, template, p, js[0]);
      VisitMeaning(host, template, p, js[0]);
      VisitFrame(host, template, p, js[0]);
      if !v.stopped {
        var tail := js[1..];
        assert forall i :: 0 <= i < |tail| ==> tail[i] == js[i + 1];
        VisitAllPersists(host, template, v.p, tail);
        var n := js[0].stem.value;
        forall j | j in tail ensures j.stem != Some(n) {
          var i :| 0 <= i < |tail| && tail[i] == j;
          assert js[i + 1] == j;
        }
        VisitAllKeeps(host, template, v.p, tail, n);
        var last := VisitAll(host, template, v.p, tail);
        assert VisitAll(host, template, p, js) == last;
        if !last.stopped {
          CurrentStays(js[0], v.p.params.d, v.p.tree.files, last.p.params.d, last.p.tree.files);
          assert forall j :: j in js ==> j == js[0] || j in tail;
        }
      }
    }
  }

  lemma CurrentStays(j: Job, d1: Dict, f1: map<Loc, string>, d2: Dict, f2: map<Loc, string>)
    requires Current(j, d1, f1)
    requires Get(d2, j.stem.value, Mapping(EmptyDict)) == Get(d1, j.stem.value, Mapping(EmptyDict))
    requires f1.Keys <= f2.Keys
    ensures Current(j, d2, f2)
  {
  }

  /** Files that no brick targets keep their text, except the `Makefile` of a
      directory that did not exist before. */
  lemma {:induction false} VisitAllLeaves(host: Host, template: string, p: Pass, js: seq<Job>, l: Loc)
    requires l in p.tree.files && (l.base != "Makefile" || l.dir in p.tree.dirs)
    requires forall j :: j in js ==> j.target != Some(l)
    ensures var f := VisitAll(host, template, p, js).p.tree.files; l in f && f[l] == p.tree.files[l]
    decreases |js|
  {
    if js != [] {
      var v := Visit(host, template, p, js[0]);
      VisitMeaning(host, template, p, js[0]);
      VisitFrame(host, template, p, js[0]);
      assert js[0] in js;
      assert forall j :: j in js[1..] ==> j in js;
      if !v.stopped {
        VisitAllLeaves(host, template, v.p, js[1..], l);
      }
    }
  }

  /** When no brick belongs to a set called `total`, a run that ends normally
      counts every brick exactly once in the totals. */
  lemma {:induction false} VisitAllCounts(host: Host, template: string, p: Pass, js: seq<Job>)
    requires forall j :: j in js ==> j.bucket != Str("total")
    ensures var v := VisitAll(host, template, p, js);
      !v.stopped ==> Counted(v.p.table) == Counted(p.table) + |js|
    decreases |js|
  {
    if js != [] {
      var j := js[0];
      var v := Visit(host, template, p, j);
      VisitMeaning(host, template, p, j);
      VisitFrame(host, template, p, j);
      assert j in js;
      assert forall c :: c in js[1..] ==> c in js;
      if !v.stopped {
        TallyCounts(p.table, j.bucket, "unchanged");
        TallyCounts(p.table, j.bucket, "updated");
        TallyCounts(p.table, j.bucket, "new");
        VisitAllCounts(host, template, v.p, js[1..]);
      }
    }
  }

  lemma TallyCounts(table: Table, bucket: Value, event: string)
    requires bucket != Str("total")
    requires event == "unchanged" || event == "new" || event == "updated"
    ensures Counted(Tally(table, bucket, event)) == Counted(table) + 1
  {
    var t1 := Add(table, bucket, event, 1);
    assert Read(t1, Str("total"), "unchanged") == Read(table, Str("total"), "unchanged");
    assert Read(t1, Str("total"), "new") == Read(table, Str("total"), "new");
    assert Read(t1, Str("total"), "updated") == Read(table, Str("total"), "updated");
  }

  /** A second pass over the same bricks, from what a successful pass left,
      finds every brick current, changes nothing and counts each brick
      `unchanged`. */
  lemma JobsTwice(host: Host, template: string, t0: Tree, params: Value, table: Table, table2: Table,
                  js: seq<Job>, crashed: bool)
    requires !WriteJobs(host, template, t0, params, table, js, crashed).crashed
    requires forall i, k :: 0 <= i < k < |js| ==> js[i].stem != js[k].stem
    ensures var w := WriteJobs(host, template, t0, params, table, js, crashed);
      && Persisted(w.tree.json).Some?
      && !WriteJobs(host, template, w.tree, Persisted(w.tree.json).value, table2, js, crashed).crashed
      && WriteJobs(host, template, w.tree, Persisted(w.tree.json).value, table2, js, crashed).tree == w.tree
      && WriteJobs(host, template, w.tree, Persisted(w.tree.json).value, table2, js, crashed).table
           == TallyAll(table2, js, "unchanged")
  {
    var p := Pass(t0, params, table);
    var v := VisitAll(host, template, p, js);
    VisitAllPersists(host, template, p, js);
    var w := v.p.tree.(json := Doc(SavedDoc(v.p.params)));
    VisitAllCurrent(host, template, Pass(w, v.p.params, table2), js);
  }

  /** `writeConfigs` is idempotent: over bricks with pairwise different names, a
      second run on what a successful first run left, iterating the same bricks,
      leaves the file system, `config.json` included, as it is and counts each
      brick `unchanged` once more. */
  lemma WriteTwice(host: Host, out: Output, template: Option<string>, t: Tree, before: Table, after: Table,
                   before2: Table, after2: Table, s: Stream)
    requires !WriteOver(host, out, template, t, before, after, s).crashed
    requires forall i, k :: 0 <= i < k < |s.items| ==> FileStem(host, s.items[i]) != FileStem(host, s.items[k])
    ensures var w := WriteOver(host, out, template, t, before, after, s);
      && !WriteOver(host, out, template, w.tree, before2, after2, s).crashed
      && WriteOver(host, out, template, w.tree, before2, after2, s).tree == w.tree
      && WriteOver(host, out, template, w.tree, before2, after2, s).table
           == TallyAll(after2, Jobs(host, out, s.items), "unchanged")
  {
    var js := Jobs(host, out, s.items);
    forall i, k | 0 <= i < k < |js| ensures js[i].stem != js[k].stem {
      JobsAt(host, out, s.items, i);
      JobsAt(host, out, s.items, k);
    }
    var t0 := TopMakefile(out, t);
    var params := Persisted(t.json).value;
    JobsTwice(host, template.value, t0, params, after, after2, js, s.crashed);
    var w := WriteJobs(host, template.value, t0, params, after, js, s.crashed);
    VisitAllGrows(host, template.value, Pass(t0, params, after), js);
    assert Loc(out.dir, "Makefile") in t0.files;
    assert TopMakefile(out, w.tree) == w.tree;
  }

  /** Counting every brick `unchanged`, as the second run of `WriteTwice` does,
      moves no `new` or `updated` counter, and when no brick's set is `total`,
      grows the total `unchanged` count by one per brick. */
  lemma TalliedUnchanged(host: Host, out: Output, items: seq<Brick>, table: Table)
    ensures var t := TallyAll(table, Jobs(host, out, items), "unchanged");
      && (forall b: Value, e: string :: e != "unchanged" ==> Read(t, b, e) == Read(table, b, e))
      && ((forall b :: b in items ==> Field(b.data, Set) != Str("total")) ==>
            Read(t, Str("total"), "unchanged") == Read(table, Str("total"), "unchanged") + |items|)
  {
    var js := Jobs(host, out, items);
    TallyAllOthers(table, js, "unchanged");
    if forall b :: b in items ==> Field(b.data, Set) != Str("total") {
      forall j | j in js ensures j.bucket != Str("total") {
        var i :| 0 <= i < |js| && js[i] == j;
        JobsAt(host, out, items, i);
        assert items[i] in items;
      }
      TallyAllTotal(table, js, "unchanged");
    }
  }

  /** A run that ends normally keeps every stored entry whose name is no brick's. */
  lemma WriteKeeps(host: Host, out: Output, template: Option<string>, t: Tree, before: Table, after: Table,
                   s: Stream, k: string)
    requires !WriteOver(host, out, template, t, before, after, s).crashed
    requires forall b :: b in s.items ==> FileStem(host, b) != Some(k)
    ensures Persisted(t.json).Some?
    ensures var w := WriteOver(host, out, template, t, before, after, s);
      && Persisted(w.tree.json).Some?
      && (Persisted(t.json).value.Mapping? ==>
           && Persisted(w.tree.json).value.Mapping?
           && Get(Persisted(w.tree.json).value.d, k, Mapping(EmptyDict))
                == Get(Persisted(t.json).value.d, k, Mapping(EmptyDict)))
  {
    var js := Jobs(host, out, s.items);
    forall j | j in js ensures j.stem != Some(k) {
      var i :| 0 <= i < |js| && js[i] == j;
      JobsAt(host, out, s.items, i);
      assert s.items[i] in s.items;
    }
    VisitAllKeeps(host, template.value, Pass(TopMakefile(out, t), Persisted(t.json).value, after), js, k);
  }

  /** When no brick belongs to a set called `total`, a run that ends normally
      counts every brick exactly once in the totals. */
  lemma WriteCounts(host: Host, out: Output, template: Option<string>, t: Tree, before: Table, after: Table,
                    s: Stream)
    requires !WriteOver(host, out, template, t, before, after, s).crashed
    requires forall b :: b in s.items ==> Field(b.data, Set) != Str("total")
    ensures Counted(WriteOver(host, out, template, t, before, after, s).table) == Counted(after) + |s.items|
  {
    var js := Jobs(host, out, s.items);
    forall j | j in js ensures j.bucket != Str("total") {
      var i :| 0 <= i < |js| && js[i] == j;
      JobsAt(host, out, s.items, i);
      assert s.items[i] in s.items;
    }
    VisitAllCounts(host, template.value, Pass(TopMakefile(out, t), Persisted(t.json).value, after), js);
  }

  // The objects

  /** The file system the writer works on. */
  class Disk {
    var dirs: set<string>
    var files: map<Loc, string>
    var json: Saved

    constructor(t: Tree)
      ensures Snapshot() == t
    {
      dirs, files, json := t.dirs, t.files, t.json;
    }

    function Snapshot(): Tree
      reads this
    {
      Tree(dirs, files, json)
    }

    /** One turn of the brick loop of `writeConfigs`; `params` is the
        `parameterSets` value being rebuilt. */
    method WriteBrick(host: Host, template: string, params: Value, j: Job, stats: Stats)
      returns (params': Value, stopped: bool)
      modifies this, stats
      ensures Visited(Pass(Snapshot(), params', stats.table), stopped)
        == Visit(host, template, Pass(old(Snapshot()), params, old(stats.table)), j)
    {
      if j.stem.None? || j.target.None? || !params.Mapping? {
        return params, true;
      }
      if Current(j, params.d, files) {
        if !Hashable(j.bucket) {
          return params, true;
        }
        stats.Bump(j.bucket, "unchanged");
        stats.Bump(Str("total"), "unchanged");
        return params, false;
      }
      params' := Mapping(Assign(params.d, j.stem.value, Mapping(j.entry)));
      var text := host.format(template, j.entry.vals);
      if text.None? {
        return params', true;
      }
      var target := j.target.value;
      if target.dir !in dirs {
        dirs := dirs + host.ancestors(target.dir) + {target.dir};
        files := files[Loc(target.dir, "Makefile") := SubMakefile];
      }
      var event := if target in files then "updated" else "new";
      files := files[target := text.value];
      if !Hashable(j.bucket) {
        return params', true;
      }
      stats.Bump(j.bucket, event);
      stats.Bump(Str("total"), event);
      stopped := false;
    }

    /** The brick loop of `writeConfigs` over the bricks `items`, up to the first
        brick that raises. */
    method WriteAll(host: Host, out: Output, template: string, params: Value, items: seq<Brick>, stats: Stats)
      returns (params': Value, stopped: bool)
      modifies this, stats
      ensures Visited(Pass(Snapshot(), params', stats.table), stopped)
        == VisitAll(host, template, Pass(old(Snapshot()), params, old(stats.table)), Jobs(host, out, items))
    {
      ghost var js := Jobs(host, out, items);
      params' := params;
      var i := 0;
      while i < |items|
        invariant 0 <= i <= |items|
        invariant VisitAll(host, template, Pass(old(Snapshot()), params, old(stats.table)), js)
          == VisitAll(host, template, Pass(Snapshot(), params', stats.table), js[i..])
      {
        JobsAt(host, out, items, i);
        assert js[i..][1..] == js[i + 1..];
        params', stopped := WriteBrick(host, template, params', JobOf(host, out, items[i]), stats);
        if stopped {
          return;
        }
        i := i + 1;
      }
      stopped := false;
    }
  }

  /** The registry of brick sets: a dict from name to brick set, in registration
      order. */
  class Bricks {
    var bricksets: seq<BrickSet>

    ghost predicate Valid()
      reads this
    {
      Distinct(Names(bricksets))
    }

    constructor()
      ensures bricksets == [] && Valid()
    {
      bricksets := [];
    }

    /** `add_brickset`: `false` is the `KeyError` of a name already registered, and
        then nothing changes. */
    method AddBrickset(bs: BrickSet) returns (added: bool)
      requires Valid()
      modifies this
      ensures Valid()
      ensures added <==> SetName(bs) !in Names(old(bricksets))
      ensures bricksets == if added then old(bricksets) + [bs] else old(bricksets)
    {
      if SetName(bs) in Names(bricksets) {
        return false;
      }
      NamesAppend(bricksets, [bs]);
      var ns := Names(bricksets + [bs]);
      forall i, j | 0 <= i < j < |ns| ensures ns[i] != ns[j] {
        if j == |bricksets| {
          assert ns[i] == Names(bricksets)[i];
        }
      }
      bricksets := bricksets + [bs];
      added := true;
    }

    /** The constructor calls of one section, registered in order; `false` is the
        exception that ends the registration. */
    method AdmitAll(cs: seq<Construction<BrickSet>>) returns (ok: bool)
      requires Valid()
      modifies this
      ensures Valid()
      ensures Admitting(old(bricksets), cs) == Progress(bricksets, ok)
    {
      var k := 0;
      while k < |cs|
        invariant 0 <= k <= |cs|
        invariant Valid()
        invariant Admitting(old(bricksets), cs) == Admitting(bricksets, cs[k..])
      {
        assert cs[k..][1..] == cs[k + 1..];
        match cs[k] {
          case Rejected =>
          case Aborted =>
            return false;
          case Built(bs) =>
            var added := AddBrickset(bs);
            if !added {
              return false;
            }
        }
        k := k + 1;
      }
      ok := true;
    }

    /** The `generate` rules of one document, then its `remix` rules. */
    method ConfigureDoc(host: Host, fl: Flags, doc: Value) returns (ok: bool)
      requires Valid()
      modifies this
      ensures Valid()
      ensures DocAdmitting(host, fl, old(bricksets), doc) == Progress(bricksets, ok)
    {
      var gen := Section(doc, "generate");
      if gen.None? {
        return false;
      }
      ok := AdmitAll(GenerateRules(fl, gen.value));
      if !ok {
        return;
      }
      var rem := Section(doc, "remix");
      if rem.None? {
        return false;
      }
      ok := AdmitAll(RemixRules(host, fl, rem.value));
    }

    /** `configure(ymls)`, with the files already read and parsed (`None` for a file
        that does not parse); `false` is the exception that ends it. */
    method Configure(host: Host, fl: Flags, texts: seq<Option<Value>>) returns (ok: bool)
      requires Valid()
      modifies this
      ensures Valid()
      ensures Configuring(host, fl, old(bricksets), texts) == Progress(bricksets, ok)
    {
      var docs := Loaded(texts);
      if docs.None? {
        return false;
      }
      var i := 0;
      while i < |docs.value|
        invariant 0 <= i <= |docs.value|
        invariant Valid()
        invariant DocsAdmitting(host, fl, old(bricksets), docs.value) == DocsAdmitting(host, fl, bricksets, docs.value[i..])
      {
        assert docs.value[i..][1..] == docs.value[i + 1..];
        ok := ConfigureDoc(host, fl, docs.value[i]);
        if !ok {
          return;
        }
        i := i + 1;
      }
      ok := true;
    }

    /** `bricks()`: every set's bricks in registration order, up to the first
        exception. */
    method AllBricks(host: Host, stats: Stats) returns (s: Stream)
      modifies stats
      ensures s == Chain(host, bricksets)
      ensures stats.table == ChainTable(old(stats.table), host, bricksets)
    {
      var items: seq<Brick> := [];
      var i := 0;
      while i < |bricksets|
        invariant 0 <= i <= |bricksets|
        invariant Chain(host, bricksets) == Then(items, Chain(host, bricksets[i..]))
        invariant ChainTable(old(stats.table), host, bricksets) == ChainTable(stats.table, host, bricksets[i..])
      {
        ChainAt(host, bricksets, i);
        ChainTableAt(host, bricksets, i, stats.table);
        var t := Produce(host, bricksets[i], stats);
        if t.crashed {
          return Stream(items + t.items, true);
        }
        ThenAppend(items, t.items, Chain(host, bricksets[i + 1..]));
        items := items + t.items;
        i := i + 1;
      }
      s := Stream(items, false);
    }

    /** `writeConfigs()`, with the template text read beforehand (`None` when it
        cannot be read); `false` is the exception that ends it. */
    method WriteConfigs(host: Host, out: Output, template: Option<string>, disk: Disk, stats: Stats)
      returns (ok: bool)
      modifies disk, stats
      ensures Written(disk.Snapshot(), stats.table, !ok)
        == WriteRun(host, out, template, old(disk.Snapshot()), old(stats.table), bricksets)
    {
      if template.None? || out.dir !in disk.dirs {
        return false;
      }
      if Loc(out.dir, "Makefile") !in disk.files {
        disk.files := disk.files[Loc(out.dir, "Makefile") := MakefileText(out.incl)];
      }
      var persisted := Persisted(disk.json);
      if persisted.None? {
        return false;
      }
      var s := AllBricks(host, stats);
      var params, stopped := disk.WriteAll(host, out, template.value, persisted.value, s.items, stats);
      if stopped {
        return false;
      }
      if s.crashed {
        return false;
      }
      disk.json := Doc(SavedDoc(params));
      ok := true;
    }
  }
}
