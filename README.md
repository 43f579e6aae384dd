# Brick configuration engine, modelled in Dafny

This project models the configuration-resolution core of the `bricks` build tooling, `bin/lib/*.py`. Rule documents declare two kinds of brick sets. A **Generate** set enumerates the cartesian product of parameter axes and keeps the combinations whose condition holds. A **Remix** set matches mesh files against regexes and folds a table of override rules over a baseline. Both produce **Brick** records.

The **Bricks** registry collects the sets and chains their bricks. Its writer then compares each brick's `config` projection with the entry persisted in `config.json`, and with the brick's rendered `.scad` file. From that it counts the brick `unchanged`, `new` or `updated`, and rewrites only what changed.

Modules, in dependency order:

- `values.dfy` (`Values`): Python values, insertion-ordered dicts and their `update`, truthiness, hashability and string helpers.
- `host.dfy` (`Host`): every collaborator the engine calls but does not own, as function parameters. These are the regex engine, the mesh reader, globbing, `str.format`, `eval`, float and container formatting, and path resolution. `None` from a collaborator is the exception the real call raises.
- `brick.dfy` (`BrickRecord`): `Brick`: the default keys, the constructor loop, the `name` property, `config`, and `x`/`y`/`z`.
- `generate.dfy` (`Generation`): `Generate.__init__` and `Generate.bricks`.
- `stats.dfy` (`Statistics`): the counter table `STATS`, as a class whose `Bump` is `STATS[bucket][event] += 1`.
- `remix.dfy` (`Remixing`): `Remix.__init__`, `Remix._remixes`, `Remix.bricks` and `Remix._remix`.
- `bricks.dfy` (`Orchestration`): `Bricks.add_brickset`, `configure`, `bricks` and `writeConfigs`. The file system appears as a `Disk` object.

A call ends in one of three ways: it returns, it raises `InvalidBrick`, or it raises anything else. Only `Remix.bricks` catches `InvalidBrick`: it counts the file as `invalid` and moves on. Only `configure` catches `ValueError`: it skips the rule. Any other exception ends the run, and the model keeps what the run had done up to that point.

The imperative source becomes imperative Dafny:

- `Stats`, `Disk` and `Bricks` are classes that update their fields.
- Each loop of the source is a `while` loop.
- Each such method is proved equal to a specification function. The properties are proved as lemmas about that function.

Behaviour of the code worth knowing:

- `bricks()` yields every brick of every set, names repeated or not (bin/lib/bricks.py:78-80). The writer stores entries by name (bin/lib/bricks.py:116), so a later brick with the same name replaces the earlier one's entry.
- A `config.json` that is not JSON, a document that is not an object, or a `parameterSets` that is not an object once a brick needs it, raises (bin/lib/bricks.py:99-110).
- A template that names an unknown variable raises `KeyError`, and nothing catches it (bin/lib/remix.py:111, bin/lib/bricks.py:117).
- A mesh that cannot be read raises and ends the run (bin/lib/remix.py:67).
- The baseline `name` of a remixed brick is the file stem (bin/lib/remix.py:77). The `name` property falls back to derivation when the stored name is falsy, so a derived name is used only when the stem is empty.
- A derived name is `set-family-subfamily-{x:g}x{y:g}`, or `set-family-subfamily-x` for the `Hex-R`/`Hex-S` families, with `None` parts dropped (bin/lib/brick.py:73-81).
- A `ValueError` from a constructor is skipped (bin/lib/bricks.py:59-63). A repeated brick-set name raises `KeyError` and ends `configure` (bin/lib/bricks.py:73-74).

## Model

| member | source | states |
|---|---|---|
| Values.Fresh | bin/lib/remix.py:90 | the keys a dict update appends are exactly the patch's keys the dict does not have yet |
| Values.UpdateWellFormed | bin/lib/remix.py:90 | `d.update(p)` keeps the dict well formed and keeps the old key order as a prefix; the patch's values win on shared keys; every other entry is kept |
| Values.AssignWellFormed | bin/lib/bricks.py:116 | `d[k] = v` keeps the dict well formed and leaves the key order alone when `k` is present |
| Values.Iterate | bin/lib/generate.py:27 | iteration succeeds exactly for lists, tuples, strings and dicts; lists and tuples give their items, strings one item per character |
| Values.Untuple | bin/lib/brick.py:44 | the stored value is never a tuple; a tuple becomes the list of its items; anything else is unchanged |
| Values.JoinSplit | bin/lib/remix.py:93-95 | joining the pieces of `s.split(sep)` with `sep` gives back `s` |
| Values.SplitWithoutSeparator | bin/lib/remix.py:93 | a group name without `/` splits into itself alone |
| Values.PathJoinRelative | bin/lib/brick.py:41 | `pathlib.Path` of segments without a root joins their non-empty, non-`.` pieces with `/`, or is `.` when none is left |
| Values.PathJoinAbsolute | bin/lib/brick.py:41 | a segment that starts with `/` discards every segment before it and the joined path keeps that root |
| Values.PathJoinRootKept | bin/lib/brick.py:41 | `Path('/x', 'a')` is `/x/a` |
| Values.PathJoinRootRestarts | bin/lib/brick.py:41 | `Path('a', '/x')` is `/x` |
| Values.PathJoinDoubleRoot | bin/lib/brick.py:41 | `Path('//x')` keeps its two leading slashes |
| Values.RemoveSpaces | bin/lib/remix.py:82 | `replace(' ', '')` leaves no space and never lengthens the text |
| Host.Stem | bin/lib/remix.py:77 | `infile.stem` is a prefix of the file name |
| BrickRecord.AttrNameInverse | bin/lib/brick.py:13-30 | every default key has its own name: a key's name leads back to the key |
| BrickRecord.NewBrick | bin/lib/brick.py:32-45 | the constructor loop over the defaults computes `BrickOf`, the record the properties below describe |
| BrickRecord.BrickBuilds | bin/lib/brick.py:32-45 | construction fails exactly when `self` is passed, the name cannot be derived (even when one is supplied, since `self.name` is evaluated eagerly), or `set`/`subfamily` is no path segment |
| BrickRecord.BrickShape | bin/lib/brick.py:32-45 | a built record is assembled from the ordinary keys, the derived name and the default path |
| BrickRecord.BaseComplete | bin/lib/brick.py:34-45 | after the loop has passed every ordinary key, exactly those keys are filled |
| BrickRecord.BrickFields | bin/lib/brick.py:13-45 | `data` has every default key; each ordinary key holds the supplied value, else the default, with tuples stored as lists; `size` falls back to `[x, y, z]` from the keyword arguments |
| BrickRecord.BrickPathDefault | bin/lib/brick.py:40-41 | without a `path` argument, the path is `pathlib.Path(set, subfamily)` of the brick's own resolved values, with `pathlib`'s rules for roots and empty pieces |
| BrickRecord.BrickName | bin/lib/brick.py:73-76 | the stored `name` (line 39) is the supplied one, else the derived one; the `name` property returns the supplied name only when it is truthy, otherwise the derived one |
| BrickRecord.NameDeterministic | bin/lib/brick.py:77-81 | two records that agree on `set`, `family`, `subfamily` and `size` derive the same name |
| BrickRecord.DerivedNameDefined | bin/lib/brick.py:77-81 | exactly when the derivation succeeds |
| BrickRecord.RectangularName | bin/lib/brick.py:79-81 | a non-hex family whose size has two numbers first (ints, floats or bools, in a list, tuple or string) is named `set-family-subfamily-{x:g}x{y:g}` |
| BrickRecord.HexName | bin/lib/brick.py:77-81 | a `Hex-R`/`Hex-S` family whose size has a first item that is not `None` (in a list, tuple or string) is named `set-family-subfamily-x`, with `x` printed by `str` |
| BrickRecord.NullFamilyDropped | bin/lib/brick.py:79-81 | a brick without a family is named `set-subfamily-{x:g}x{y:g}`: the `None` part is left out rather than printed |
| BrickRecord.NonNull | bin/lib/brick.py:81 | the kept parts are exactly the parts that are not `None` |
| BrickRecord.Config | bin/lib/brick.py:52-59 | `config` has exactly the keys of `data` |
| BrickRecord.ConfigOfBrick | bin/lib/brick.py:52-59 | `config` has one entry per default key; the unsupplied flags print as lower-case `"false"`/`"true"` |
| BrickRecord.SizeCoordinates | bin/lib/brick.py:61-71 | with no `size` argument (line 37), `x`, `y`, `z` read back the `x`, `y`, `z` arguments |
| Generation.NewGenerate | bin/lib/generate.py:17-23 | `ValueError` exactly when the allow-list is non-empty and lacks the name; built exactly when the name is allowed and the config is a mapping with `generate`; `condition` defaults to `'True'` and `config` to `{}` |
| Generation.Pools | bin/lib/generate.py:27 | the pools are the iterations of the axes, in declared order; fails exactly when an axis is not iterable |
| Generation.ProductLength | bin/lib/generate.py:27 | the product has as many combinations as the product of the pool sizes |
| Generation.ProductOrder | bin/lib/generate.py:27 | odometer order: combination `i * |rest| + j` is the first pool's `i`-th item in front of the `j`-th combination of the other pools; the last axis varies fastest |
| Generation.ProductMembers | bin/lib/generate.py:27 | a combination is exactly one item from each pool, in pool order |
| Generation.ProductEmpty | bin/lib/generate.py:27 | an empty axis leaves no combination |
| Generation.BindMeaning | bin/lib/generate.py:29 | distinct axis names bind each name to its own value, in axis order |
| Generation.CombinationBindings | bin/lib/generate.py:28-29 | each combination's map is a fresh copy of the base: every axis binds its value, every other base key keeps its base value, base keys come first |
| Generation.StepMeaning | bin/lib/generate.py:28-32 | a kept combination yields the brick built from its map; a combination is skipped exactly when its formatted condition evaluates to something false |
| Generation.Attempt | bin/lib/generate.py:28-32 | the loop body computes the step of one combination |
| Generation.RunKeeps | bin/lib/generate.py:27-32 | the iteration raises exactly when some step raises; otherwise it yields the bricks of the kept steps, in order |
| Generation.GenerateBricks | bin/lib/generate.py:26-32 | the loop over the product computes `GenerateStream` |
| Generation.KeptPairs | bin/lib/generate.py:30-32 | without an exception, the `j`-th brick comes from the `j`-th selected combination |
| Generation.GenerateFilters | bin/lib/generate.py:26-32 | a run without an exception yields one brick per combination whose condition holds, in product order, each built from that combination's map |
| Generation.GenerateEmptyAxis | bin/lib/generate.py:27 | a generator with an empty axis yields nothing and raises nothing |
| Statistics.Add | bin/lib/remix.py:54 | `n` increments raise that one counter by `n` and no other |
| Statistics.AddAdd | bin/lib/bricks.py:111-112 | two batches of increments on one counter add up |
| Statistics.Stats.Bump | bin/lib/bricks.py:111 | `STATS[bucket][event] += 1` raises that counter by one |
| Remixing.SplitOnce | bin/lib/remix.py:39 | `r.split(':', 1)` gives two pieces exactly when `:` occurs; they rebuild the entry, and the first holds no `:` |
| Remixing.ParseEntries | bin/lib/remix.py:39 | the `--remix` entries unpack exactly when each holds a `:` |
| Remixing.TableOf | bin/lib/remix.py:38-40 | the table has a key for each entry's name; the last entry for a name wins |
| Remixing.Patterns | bin/lib/remix.py:32 | the regex list compiles exactly when every item is a string that compiles |
| Remixing.NewRemix | bin/lib/remix.py:24-40 | `ValueError` exactly when `--input` is unset, or `--remix` is given but lacks the name or a malformed entry; the glob is the name's `--remix` pattern, else `**/*.stl`; a built rule keeps its name, regexes and config |
| Remixing.FirstMatch | bin/lib/remix.py:60-65 | no match exactly when no regex fully matches; otherwise the captures of the first regex in declared order that does |
| Remixing.SelectMatch | bin/lib/remix.py:60-65 | the `for … else` loop computes `FirstMatch` |
| Remixing.PathVarsMeaning | bin/lib/remix.py:74 | `pathI` is bound for the `I` < 4 parts there are, to the `I`-th part counted back from the file name |
| Remixing.PathVariables | bin/lib/remix.py:68-74 | a path variable holds its part, over any capture group or mesh variable of the same name |
| Remixing.CaptureVariables | bin/lib/remix.py:73 | a capture group that is no path variable holds the concatenation of its captures |
| Remixing.MeshVariables | bin/lib/remix.py:68-72 | `meshMin`, `meshMax` and `meshDimension` hold the mesh bounds and size unless a capture group of that name overrides them |
| Remixing.RecordWellFormed | bin/lib/remix.py:76-84 | the `brickConfig` literal is a well-formed dict with its seven keys in order |
| Remixing.BaselineWellFormed | bin/lib/remix.py:76-84 | the baseline is a well-formed dict |
| Remixing.BaselineFields | bin/lib/remix.py:76-84 | the baseline has exactly the keys `name`, `set`, `input`, `inputMin`, `inputMax`, `path`, `size`, holding the file stem, the rule name, the resolved input, the variables `meshMin`, `meshMax`, the path `rule/parent-without-spaces` and the variable `meshDimension` |
| Remixing.BaselineMesh | bin/lib/remix.py:68-84 | unless a capture group of that name overrides it, `inputMin`, `inputMax` and `size` hold the mesh's bounds and size |
| Remixing.PatchKeeps | bin/lib/remix.py:100 | a patch (the `update` here and at lines 90 and 105) keeps the dict well formed and leaves every key it does not write alone |
| Remixing.PatchWins | bin/lib/remix.py:100 | a dict patch (the `update` here and at lines 90 and 105) writes its own value under each of its keys, keeps the others and keeps the old key order |
| Remixing.Spelled | bin/lib/remix.py:95 | the subkey can be spelled exactly when every group name is a string variable |
| Remixing.SubEntry | bin/lib/remix.py:102 | the chosen entry is the exact subkey's, else `_`'s, else `{}` |
| Remixing.StarGroup | bin/lib/remix.py:89-91 | a top-level `*` group writes its table over the working map and keeps the other keys |
| Remixing.NamedGroupDrops | bin/lib/remix.py:97-104 | a `False` `*` entry, or a `False` chosen entry after a dict `*` entry, drops the file |
| Remixing.NamedGroup | bin/lib/remix.py:93-105 | with dict entries, the chosen entry beats `*`, which beats the working map, and the map stays a well-formed dict |
| Remixing.FoldAppend | bin/lib/remix.py:87-105 | groups apply in table order: folding `gs1 + gs2` folds `gs2` over the result of `gs1` |
| Remixing.GroupKeeps | bin/lib/remix.py:87-105 | a group that does not mention a key leaves it alone |
| Remixing.FoldKeeps | bin/lib/remix.py:87-105 | a key that no group mentions keeps its baseline value |
| Remixing.MergeRules | bin/lib/remix.py:87-105 | the group loop computes `RuleFold` |
| Remixing.ExpandTemplates | bin/lib/remix.py:107-111 | the expansion loop computes `Expand` |
| Remixing.ExpandShape | bin/lib/remix.py:107-111 | expansion keeps the keys and their order, leaves non-strings as they were, turns strings into strings and leaves earlier entries alone |
| Remixing.RemixFile | bin/lib/remix.py:57-116 | `_remix` computes `RemixOutcome` |
| Remixing.NoMatchNoMesh | bin/lib/remix.py:60-67 | a file no regex matches is `InvalidBrick` before its mesh is read, whatever the mesh reader does |
| Remixing.RemixKeepsBaseline | bin/lib/remix.py:76-116 | a baseline key that no group mentions and whose value is no string reaches the brick's arguments unchanged |
| Remixing.Outcomes | bin/lib/remix.py:48-51 | one outcome per globbed file, in glob order |
| Remixing.RemixEach | bin/lib/remix.py:48-54 | the file loop yields the run of the outcomes and adds the number of `InvalidBrick` files to the rule's `invalid` counter |
| Remixing.RemixBricks | bin/lib/remix.py:46-54 | `Remix.bricks` computes `RemixStream` and bumps exactly this rule's `invalid` counter, once per invalid file |
| Remixing.UntilFailed | bin/lib/remix.py:48-54 | the outcomes before the first file that raises: a prefix with no failure, followed by a failure or the end |
| Remixing.MadeOf | bin/lib/remix.py:48-54 | the bricks of exactly the built files, at most one per file |
| Remixing.RemixRunMeaning | bin/lib/remix.py:48-54 | the iteration ends early exactly when some file raises something other than `InvalidBrick`; it yields exactly the bricks of the built files before that, in glob order; without a failure, bricks plus invalid files account for every file |
| Orchestration.NamesAppend | bin/lib/bricks.py:75 | the names of two runs of sets are their names one after the other |
| Orchestration.RegisterMeaning | bin/lib/bricks.py:56-75 | registration succeeds exactly when no constructor raised anything but `ValueError` and the built sets have pairwise different, new names; it then appends exactly the built sets, in order |
| Orchestration.RegisterAppend | bin/lib/bricks.py:56-75 | registering two runs of calls is registering the first, then the second |
| Orchestration.Loaded | bin/lib/bricks.py:57 | every file is parsed before any rule is read; loading succeeds exactly when all parse |
| Orchestration.GenerateRules | bin/lib/bricks.py:58-60 | one constructor call per `generate` entry, in order |
| Orchestration.RemixRules | bin/lib/bricks.py:65-67 | one constructor call per `remix` entry, in order |
| Orchestration.ConfigureFlat | bin/lib/bricks.py:56-70 | configuring document by document is registering all their rules in one go |
| Orchestration.ConfiguredSets | bin/lib/bricks.py:56-75 | `configure` succeeds exactly when every file parses, every section is a mapping, no constructor raises anything but `ValueError`, and the built names are pairwise different and new; it then appends the built sets in document order |
| Orchestration.DocumentOrder | bin/lib/bricks.py:58-70 | within one document every generated set is registered before every remixed one |
| Orchestration.BuiltOnly | bin/lib/bricks.py:59-63 | every registered set is the result of a successful constructor call |
| Orchestration.AdmittingAgrees | bin/lib/bricks.py:72-75 | registering one call at a time ends normally exactly when `Register` succeeds, with the same registry |
| Orchestration.DocAgrees | bin/lib/bricks.py:57-70 | one document's step-by-step registration ends normally exactly when its rules can be read and registered |
| Orchestration.ConfiguringAgrees | bin/lib/bricks.py:56-70 | `configure` step by step ends normally exactly when `Configured` succeeds, with the same registry |
| Orchestration.ChainAppend | bin/lib/bricks.py:78-80 | chaining two runs of sets is chaining the first, then the second unless the first raised |
| Orchestration.ChainMeaning | bin/lib/bricks.py:78-80 | `bricks()` raises exactly when some set's iteration does; otherwise each set's bricks appear whole, in registration order, with nothing dropped |
| Orchestration.Produce | bin/lib/bricks.py:79-80 | one set's iteration yields its stream and adds only its own `invalid` count |
| Orchestration.TopMakefile | bin/lib/bricks.py:93-95 | a missing top-level `Makefile` is added with the `include` of `Makefile.mk`, and nothing else changes; an existing one is left alone |
| Orchestration.WriteTopMakefile | bin/lib/bricks.py:83-138 | once the template is read and the output directory exists, a run leaves a top-level `Makefile`, whether or not it raises later; one it created keeps its text unless a brick targets that file |
| Orchestration.SavedDoc | bin/lib/bricks.py:134-138 | the document written at the end reads back (as lines 99-102 read it) as the `parameterSets` it was given |
| Orchestration.EntryKeys | bin/lib/bricks.py:116 | every key of a stored entry names an attribute the brick holds |
| Orchestration.Entry | bin/lib/bricks.py:116 | each stored value (also compared at line 110) is the brick's `config` string for that attribute |
| Orchestration.JobOf | bin/lib/bricks.py:106-111 | the writer reads the brick's `name`, `set` and `config`; a brick has a target file only when it has a string name |
| Orchestration.JobsAt | bin/lib/bricks.py:104 | the writer's view of the `i`-th brick is that brick's own |
| Orchestration.Prepared | bin/lib/bricks.py:119-122 | an existing directory changes nothing; a missing one is created with its ancestors, and exactly one file is added, its `Makefile`, which includes `Makefile.mk`; every other file keeps its text |
| Orchestration.VisitMeaning | bin/lib/bricks.py:104-132 | one brick: it raises unless it is writable; afterwards its entry and file are current; a current brick changes nothing but its `unchanged` counts; any other gets its rendered file and a `new` (file absent before) or `updated` count in its set and in `total`; a directory it creates gets its `Makefile` |
| Orchestration.VisitFrame | bin/lib/bricks.py:104-132 | one brick leaves the other entries and every file it does not target alone (save the `Makefile` of a directory it creates), only adds files and directories, adds no file but its target and its directory's `Makefile`, and does not touch `config.json` |
| Orchestration.VisitAllCurrent | bin/lib/bricks.py:110-114 | bricks that are all current leave the file system and `parameterSets` exactly as they are, and only add one `unchanged` count per brick |
| Orchestration.VisitAllKeeps | bin/lib/bricks.py:116 | bricks with other names leave the entry stored under a name alone |
| Orchestration.VisitAllGrows | bin/lib/bricks.py:104-132 | files and directories are only added, and `config.json` is untouched during the loop |
| Orchestration.VisitAllPersists | bin/lib/bricks.py:104-132 | after a loop over bricks with pairwise different names that ends normally, every brick's entry and file are current |
| Orchestration.CurrentStays | bin/lib/bricks.py:110 | a current brick stays current while its entry is kept and files are only added |
| Orchestration.VisitAllLeaves | bin/lib/bricks.py:119-130 | a file that no brick targets keeps its text, except the `Makefile` of a directory that did not exist |
| Orchestration.VisitAllCounts | bin/lib/bricks.py:111-132 | when no brick's set is `total`, a loop that ends normally counts each brick exactly once in the totals |
| Orchestration.TallyCounts | bin/lib/bricks.py:111-132 | one brick adds one to the totals |
| Orchestration.JobsTwice | bin/lib/bricks.py:104-138 | a second pass over the same bricks, from what a successful pass left, finds every brick current, changes nothing on disk and only adds one `unchanged` count per brick |
| Orchestration.WriteTwice | bin/lib/bricks.py:83-138 | `writeConfigs` is idempotent: over bricks with pairwise different names, a second run on what a successful run left succeeds, leaves the file system, `config.json` included, unchanged, and only adds one `unchanged` count per brick |
| Orchestration.TalliedUnchanged | bin/lib/bricks.py:111-114 | counting every brick `unchanged` moves no `new`, `updated` or other counter, and, when no brick's set is `total`, raises the total `unchanged` count by the number of bricks |
| Orchestration.WriteKeeps | bin/lib/bricks.py:99-138 | a run that ends normally keeps every stored entry whose name is no brick's |
| Orchestration.WriteCounts | bin/lib/bricks.py:111-132 | a run that ends normally counts every brick exactly once in the totals |
| Orchestration.Disk.WriteBrick | bin/lib/bricks.py:104-132 | one turn of the brick loop computes `Visit` on the disk, the `parameterSets` value and the counters |
| Orchestration.Disk.WriteAll | bin/lib/bricks.py:104-132 | the brick loop computes `VisitAll` |
| Orchestration.Bricks.constructor | bin/lib/bricks.py:45-46 | the registry starts empty |
| Orchestration.Bricks.AddBrickset | bin/lib/bricks.py:72-75 | a name already registered raises (`false`) and changes nothing; otherwise exactly that set is appended |
| Orchestration.Bricks.AdmitAll | bin/lib/bricks.py:58-70 | the loop over one section's constructor calls computes `Admitting` |
| Orchestration.Bricks.ConfigureDoc | bin/lib/bricks.py:58-70 | one document's two loops compute `DocAdmitting` |
| Orchestration.Bricks.Configure | bin/lib/bricks.py:56-70 | `configure` computes `Configuring`: the registry and whether it raised |
| Orchestration.Bricks.AllBricks | bin/lib/bricks.py:78-80 | `bricks()` computes `Chain` over the registered sets and moves the counters as `ChainTable` says |
| Orchestration.Bricks.WriteConfigs | bin/lib/bricks.py:83-138 | `writeConfigs` computes `WriteRun`: the file system, the counters and whether it raised |

## Left out

- `meshDimension` rounding and the mesh reader (bin/lib/remix.py:67-72) are floating point over a foreign library. `Host.readMesh` returns the bounds and the size of a mesh.
- The regex engine, `str.format`, `eval`, `format(x, 'g')`, `str()` of floats and containers, `glob`, and `Path.resolve()` are collaborators given as `Host` function fields. Each is a function of the arguments the model passes, and no lemma assumes anything about what it returns.
- Generation: the condition is evaluated as a function of its formatted text alone. Python's `eval` at bin/lib/generate.py:30 also sees the method's locals (`conf`, `itervals`, `self`, `k`, `v`), so a condition that names one of them is not modelled.
- Document keys are strings only. So three paths are not modelled: an integer group key, which crashes at `group.split` (bin/lib/remix.py:93); a dict patch or a parameter axis with an integer key, which raises `TypeError` at `Brick(**…)` (bin/lib/remix.py:114, bin/lib/generate.py:32); and an integer rule name, which a non-empty `--generate` list of strings always rejects (bin/lib/generate.py:18).
- Laziness: each brick set's iteration is an eager `Stream` of bricks that ends early on an exception. Producing bricks touches no file, so the bricks written and the files left after a crash are the same.
- Bricks.WriteConfigs: the model runs all sets before writing and adds every set's `invalid` counts. In the source the sets are iterated lazily. So when writing a brick raises, the model counts `invalid` files of sets the source never reached. Files, `config.json` and the outcome agree.
- Orchestration.WriteTwice: requires pairwise different brick names. With a repeated name, the later brick's entry replaces the earlier one's, so a second run rewrites the earlier brick.
- Orchestration.WriteCounts: requires that no brick's `set` is the string `total`. Such a brick's increments would also land in the totals.
- Orchestration.VisitAllCounts: has the same `total` condition as `WriteCounts`.
- BrickRecord.GFormat: `format(i, 'g')` of an integer too large for a float raises `OverflowError`; the model formats every integer. Only a size coordinate of more than about 1.8e308 could tell.
- `STATS` keys are Python values. `True`, `1` and `1.0` are one key in Python but three here. Only a brick whose `set` is such a number could tell the difference.
- A pair patch whose key is not a string, in `dict.update` of a list of pairs, is treated as an exception. The string-keyed dict cannot hold it.
- The key order of a stored `config.json` entry is not modelled. Its comparison is order-insensitive, as Python's `==` on dicts is.
- JSON formatting of `config.json`, and the relative path of `Makefile.mk`, which is `Output.incl` here, are I/O details.
- For `mkdir(parents=True)`, the intermediate directories are the set `Host.ancestors`.
- `Bricks._bricks`, `outpaths` and `generates` are set in the constructor and never read. `Bricks.__str__` reads a nonexistent `name` attribute.
- The `logging` calls are left out: they have no effect on the state.
- `bin/lib/stats.py`, `bin/lib/globals.py`, `bin/configure.py` and `bin/stlinfo.py` are not part of this model. `STATS` is modelled from its use, as a counter per bucket and event starting at zero. `configure.py` calls a `writeJsonConfigs` that `Bricks` does not define.
- The absl flag definitions and the `--output` validator become parameters: `Flags`, `Output`, and the template text already read.
