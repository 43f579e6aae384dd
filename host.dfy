/** The collaborators the configuration engine calls but does not own: the regex
    engine, the mesh reader, directory globbing, `str.format`, `eval`, Python's
    float and container formatting, and path resolution. Each is a total function
    parameter; `None` stands for the exception the real call would raise. */
module Host {
  import opened Values

  /** `match.capturesdict()`: every named group with the list of its captures. */
  type Captures = map<string, seq<string>>

  /** Bounding-box corners and the quantised size in grid units of one mesh. */
  datatype Mesh = Mesh(min: seq<real>, max: seq<real>, dimension: seq<real>)

  /** An input file as `glob` yields it (`parts`) and as `resolve()` prints it. */
  datatype InFile = InFile(parts: seq<string>, resolved: string)

  /** A resolved output file: its parent directory and its base name. */
  datatype Loc = Loc(dir: string, base: string)

  datatype Host = Host(
    /** `regex.compile(p)` succeeds */
    compiles: string -> bool,
    /** `regex.compile(p).fullmatch(name)` */
    fullmatch: (string, string) -> Option<Captures>,
    /** `stl.Mesh.from_file(f)` with the bound and size computation */
    readMesh: InFile -> Option<Mesh>,
    /** iterating `pathlib.Path(root).glob(pattern)` */
    glob: (string, string) -> Option<seq<InFile>>,
    /** `template.format(**namespace)` / `template.format_map(namespace)` */
    format: (string, map<string, Value>) -> Option<string>,
    /** `eval(text)` */
    eval: string -> Option<Value>,
    /** `str(v)` of a float, list, tuple or dict */
    repr: Value -> string,
    /** `format(x, 'g')` of a number */
    general: real -> string,
    /** `output.joinpath(path, file).resolve()`; `None` when `path` is no path segment */
    locate: (string, Value, string) -> Option<Loc>,
    /** the directories `mkdir(parents=True)` on a directory creates besides it */
    ancestors: string -> set<string>)

  /** `infile.name` */
  function FileName(f: InFile): string {
    if |f.parts| == 0 then "" else f.parts[|f.parts| - 1]
  }

  /** `PurePath.stem` of a file name: drop the last suffix unless the only dot leads. */
  function Stem(name: string): (r: string)
    ensures |r| <= |name| && r == name[..|r|]
  {
    var i := LastDot(name, |name|);
    if 0 < i < |name| - 1 then name[..i] else name
  }

  /** The index of the last `.` in `name[..n]`, or -1. */
  function LastDot(name: string, n: nat): (i: int)
    requires n <= |name|
    ensures -1 <= i < n
    ensures i >= 0 ==> name[i] == '.'
    ensures forall j :: i < j < n ==> name[j] != '.'
  {
    if n == 0 then -1 else if name[n - 1] == '.' then n - 1 else LastDot(name, n - 1)
  }

  /** `infile.parent.name`: empty for a file at the top or directly under the root. */
  function ParentName(f: InFile): string {
    if |f.parts| < 2 || f.parts[|f.parts| - 2] == "/" then "" else f.parts[|f.parts| - 2]
  }
}
