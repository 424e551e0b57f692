/**
 * Writing the build artifacts of a successful compilation.
 *
 * For every compiled source that passes the path filters, every top-level
 * contract definition of its syntax tree gets four artifact paths in the
 * build directory, mirrored from the source's place under the workspace
 * root: `<name>.abi`, `<name>.bin`, `<name>.json` and `<name>.sol.js`. All
 * four are deleted, then the first three are written from the compiled
 * entry `contracts[source + ':' + name]`.
 *
 * The file system is a map from path to content plus a set of directories.
 */
module Artifacts {

  import opened Wrappers
  import opened Paths
  import opened SolcOutput

  // ---------------------------------------------------------------------
  // Selecting sources and contracts
  // ---------------------------------------------------------------------

  /** The writer's filters: `sourceDir`, `excludePath`, `singleContractFilePath`. */
  datatype Scope = Scope(sourceDir: string, excludePath: Option<string>, singleContractFilePath: Option<string>)

  /** JavaScript truthiness of an optional string: absent and "" are both false. */
  predicate Given(o: Option<string>) {
    o.Some? && o.value != ""
  }

  /** `isValid(source)`: the nested filter of the writer. */
  function IsValid(scope: Scope, source: string): bool {
    if !Given(scope.singleContractFilePath) || source == scope.singleContractFilePath.value then
      if !Given(scope.excludePath) || !StartsWith(source, scope.excludePath.value) then
        if scope.sourceDir == "" || StartsWith(source, scope.sourceDir) then true
        else false
      else false
    else false
  }

  /**
   * A source is in scope exactly when all three filters let it through; an
   * absent or empty filter lets everything through.
   */
  lemma IsValidMeaning(scope: Scope, source: string)
    ensures IsValid(scope, source) <==>
      && (!Given(scope.singleContractFilePath) || source == scope.singleContractFilePath.value)
      && (!Given(scope.excludePath) || !(scope.excludePath.value <= source))
      && (scope.sourceDir == "" || scope.sourceDir <= source)
  {
    if Given(scope.excludePath) {
      StartsWithIsPrefix(source, scope.excludePath.value);
    }
    StartsWithIsPrefix(source, scope.sourceDir);
  }

  /** The top-level children that are contract definitions, under either tag spelling. */
  predicate IsContractDefinition(child: AstNode) {
    child.name == "Contract" || child.name == "ContractDefinition"
  }

  /** One contract to write: its source and its name. */
  datatype Job = Job(source: string, contractName: string)

  /** The key of the contract's entry in the compiler output. */
  function ContractKey(job: Job): string {
    job.source + ":" + job.contractName
  }

  /** The contract one top-level child contributes: none unless it is a contract definition. */
  function ChildJobs(source: string, child: AstNode): seq<Job> {
    if IsContractDefinition(child) then [Job(source, child.attributesName)] else []
  }

  /** The contracts of one source, in child order. */
  function ContractJobs(source: string, children: seq<AstNode>): seq<Job> {
    if children == [] then []
    else ContractJobs(source, children[..|children| - 1]) + ChildJobs(source, children[|children| - 1])
  }

  /** The contracts one source contributes: none when it is out of scope. */
  function SourceJobs(scope: Scope, entry: (string, SourceUnit)): seq<Job> {
    if IsValid(scope, entry.0) then ContractJobs(entry.0, entry.1.children) else []
  }

  /** The contracts of every in-scope source, in source order. */
  function Jobs(sources: seq<(string, SourceUnit)>, scope: Scope): seq<Job> {
    if sources == [] then []
    else Jobs(sources[..|sources| - 1], scope) + SourceJobs(scope, sources[|sources| - 1])
  }

  /** A source yields a contract iff one of its children does. */
  lemma {:induction false} ContractJobsChildMembership(source: string, children: seq<AstNode>, job: Job)
    ensures job in ContractJobs(source, children) <==>
      exists k :: 0 <= k < |children| && job in ChildJobs(source, children[k])
  {
    if children != [] {
      var n := |children| - 1;
      var prefix := children[..n];
      ContractJobsChildMembership(source, prefix, job);
      assert ContractJobs(source, children) == ContractJobs(source, prefix) + ChildJobs(source, children[n]);
      if job in ContractJobs(source, children) {
        if job in ContractJobs(source, prefix) {
          var k :| 0 <= k < n && job in ChildJobs(source, prefix[k]);
          assert prefix[k] == children[k];
        } else {
          assert job in ChildJobs(source, children[n]);
        }
      }
      if exists k :: 0 <= k < |children| && job in ChildJobs(source, children[k]) {
        var k :| 0 <= k < |children| && job in ChildJobs(source, children[k]);
        if k < n {
          assert prefix[k] == children[k];
          assert job in ContractJobs(source, prefix);
        }
      }
    }
  }

  /** The contracts of a source are its contract-definition children, named by `attributes.name`. */
  lemma {:induction false} ContractJobsMembership(source: string, children: seq<AstNode>, job: Job)
    ensures job in ContractJobs(source, children) <==>
      exists k :: 0 <= k < |children| && IsContractDefinition(children[k])
        && job == Job(source, children[k].attributesName)
  {
    ContractJobsChildMembership(source, children, job);
  }

  /** A contract is written iff some source contributes it. */
  lemma {:induction false} JobsSourceMembership(sources: seq<(string, SourceUnit)>, scope: Scope, job: Job)
    ensures job in Jobs(sources, scope) <==> exists i :: 0 <= i < |sources| && job in SourceJobs(scope, sources[i])
  {
    if sources != [] {
      var n := |sources| - 1;
      var prefix := sources[..n];
      JobsSourceMembership(prefix, scope, job);
      assert Jobs(sources, scope) == Jobs(prefix, scope) + SourceJobs(scope, sources[n]);
      if job in Jobs(sources, scope) {
        if job in Jobs(prefix, scope) {
          var i :| 0 <= i < n && job in SourceJobs(scope, prefix[i]);
          assert prefix[i] == sources[i];
        } else {
          assert job in SourceJobs(scope, sources[n]);
        }
      }
      if exists i :: 0 <= i < |sources| && job in SourceJobs(scope, sources[i]) {
        var i :| 0 <= i < |sources| && job in SourceJobs(scope, sources[i]);
        if i < n {
          assert prefix[i] == sources[i];
          assert job in Jobs(prefix, scope);
        }
      }
    }
  }

  /**
   * The contracts written are exactly the contract-definition children of
   * the in-scope sources: an out-of-scope source, or a child of another
   * kind, never yields one.
   */
  lemma JobsMembership(sources: seq<(string, SourceUnit)>, scope: Scope, job: Job)
    ensures job in Jobs(sources, scope) <==>
      exists i, k :: 0 <= i < |sources| && 0 <= k < |sources[i].1.children|
        && IsValid(scope, sources[i].0)
        && IsContractDefinition(sources[i].1.children[k])
        && job == Job(sources[i].0, sources[i].1.children[k].attributesName)
  {
    JobsSourceMembership(sources, scope, job);
    forall i | 0 <= i < |sources|
      ensures job in SourceJobs(scope, sources[i]) <==>
        IsValid(scope, sources[i].0) &&
        exists k :: 0 <= k < |sources[i].1.children| && IsContractDefinition(sources[i].1.children[k])
          && job == Job(sources[i].0, sources[i].1.children[k].attributesName)
    {
      ContractJobsMembership(sources[i].0, sources[i].1.children, job);
    }
  }

  // ---------------------------------------------------------------------
  // Where the artifacts go
  // ---------------------------------------------------------------------

  /** The workspace root and the build directory, relative to it. */
  datatype Layout = Layout(rootPath: string, buildDir: string)

  /** `binPath = path.join(rootPath, buildDir)`. */
  function BinPath(layout: Layout): Path {
    Join(Split(layout.rootPath), Split(layout.buildDir))
  }

  /** `dirname(join(binPath, relative(rootPath, source)))`. */
  function OutputDir(layout: Layout, source: string): Path {
    Dirname(Join(BinPath(layout), Relative(Split(layout.rootPath), Split(source))))
  }

  /**
   * For a source file below the workspace root, the output directory is the
   * source's own directory, mirrored under the build directory.
   */
  lemma OutputDirMirrors(layout: Layout, source: string)
    requires Split(layout.rootPath) <= Split(source)
    requires |Split(layout.rootPath)| < |Split(source)|
    ensures OutputDir(layout, source)
         == BinPath(layout) + Split(source)[|Split(layout.rootPath)|..|Split(source)| - 1]
  {
    DirnameUnderRoot(BinPath(layout), Split(layout.rootPath), Split(source));
  }

  /**
   * Two sources below the root share an output directory exactly when they
   * share a directory: artifacts of different directories never collide.
   */
  lemma OutputDirSeparates(layout: Layout, s1: string, s2: string)
    requires Split(layout.rootPath) <= Split(s1) && |Split(layout.rootPath)| < |Split(s1)|
    requires Split(layout.rootPath) <= Split(s2) && |Split(layout.rootPath)| < |Split(s2)|
    ensures OutputDir(layout, s1) == OutputDir(layout, s2) <==> Dirname(Split(s1)) == Dirname(Split(s2))
  {
    OutputDirMirrors(layout, s1);
    OutputDirMirrors(layout, s2);
    MirroredDirnames(BinPath(layout), Split(layout.rootPath), Split(s1), Split(s2));
  }

  /** The four artifact kinds. */
  datatype Kind = Abi | Bin | JsonDoc | Truffle

  function Extension(k: Kind): string {
    match k
    case Abi => ".abi"
    case Bin => ".bin"
    case JsonDoc => ".json"
    case Truffle => ".sol.js"
  }

  /** `path.join(dirName, contractName + extension)`. */
  function ArtifactPath(dir: Path, name: string, k: Kind): Path {
    dir + [name + Extension(k)]
  }

  /** The four paths that processing one contract deletes. */
  function ArtifactPaths(dir: Path, name: string): set<Path> {
    {ArtifactPath(dir, name, Abi), ArtifactPath(dir, name, Bin),
     ArtifactPath(dir, name, JsonDoc), ArtifactPath(dir, name, Truffle)}
  }

  /** Whether `s` ends with `e`. */
  predicate EndsWith(s: string, e: string) {
    |e| <= |s| && s[|s| - |e|..] == e
  }

  /** The artifact kind a path's file name ends in, if any. */
  function KindOf(p: Path): Option<Kind> {
    if p == [] then None
    else
      var s := p[|p| - 1];
      if EndsWith(s, ".abi") then Some(Abi)
      else if EndsWith(s, ".bin") then Some(Bin)
      else if EndsWith(s, ".json") then Some(JsonDoc)
      else if EndsWith(s, ".sol.js") then Some(Truffle)
      else None
  }

  lemma SuffixOfConcat(n: string, e: string, m: nat)
    requires m <= |e|
    ensures (n + e)[|n + e| - m..] == e[|e| - m..]
  {
    assert (n + e)[|n|..] == e;
    assert (n + e)[|n + e| - m..] == (n + e)[|n|..][|e| - m..];
  }

  /** The file name of an artifact path ends in its extension, and in nothing that an earlier test matches. */
  lemma KindOfName(name: string, k: Kind)
    ensures var s := name + Extension(k);
      && (k == Abi <==> EndsWith(s, ".abi"))
      && (k != Abi ==> (k == Bin <==> EndsWith(s, ".bin")))
      && (k != Abi && k != Bin ==> (k == JsonDoc <==> EndsWith(s, ".json")))
      && (k == Truffle ==> EndsWith(s, ".sol.js"))
  {
    var e := Extension(k);
    SuffixOfConcat(name, e, 4);
    match k
    case Abi =>
    case Bin =>
      assert e[1] != ".abi"[1];
    case JsonDoc =>
      SuffixOfConcat(name, e, 5);
      assert e[1..][0] != ".abi"[0] && e[1..][0] != ".bin"[0];
    case Truffle =>
      SuffixOfConcat(name, e, 5);
      SuffixOfConcat(name, e, 7);
      assert e[3..][0] != ".abi"[0] && e[3..][0] != ".bin"[0] && e[2..][0] != ".json"[0];
  }

  /** An artifact path is recognised by its extension. */
  lemma KindOfArtifactPath(dir: Path, name: string, k: Kind)
    ensures KindOf(ArtifactPath(dir, name, k)) == Some(k)
  {
    assert ArtifactPath(dir, name, k)[|dir|] == name + Extension(k);
    KindOfName(name, k);
  }

  /**
   * Artifact paths never collide across kinds, contract names or
   * directories: one path names one artifact of one contract.
   */
  lemma ArtifactPathInjective(d1: Path, n1: string, k1: Kind, d2: Path, n2: string, k2: Kind)
    requires ArtifactPath(d1, n1, k1) == ArtifactPath(d2, n2, k2)
    ensures d1 == d2 && n1 == n2 && k1 == k2
  {
    var p := ArtifactPath(d1, n1, k1);
    KindOfArtifactPath(d1, n1, k1);
    KindOfArtifactPath(d2, n2, k2);
    assert |d1| == |d2|;
    assert d1 == p[..|d1|] && d2 == p[..|d2|];
    var s := p[|p| - 1];
    assert s == n1 + Extension(k1) == n2 + Extension(k2);
    assert n1 == s[..|n1|] && n2 == s[..|n2|];
  }

  /** Contracts with different directories or names share no artifact path. */
  lemma DisjointArtifactPaths(d1: Path, n1: string, d2: Path, n2: string, q: Path)
    requires (d1, n1) != (d2, n2)
    requires q in ArtifactPaths(d1, n1)
    ensures q !in ArtifactPaths(d2, n2)
  {
    var k1 :| q == ArtifactPath(d1, n1, k1);
    if q in ArtifactPaths(d2, n2) {
      var k2 :| q == ArtifactPath(d2, n2, k2);
      ArtifactPathInjective(d1, n1, k1, d2, n2, k2);
    }
  }

  /** The four artifact paths of one contract are four different paths. */
  lemma ArtifactPathsDistinct(dir: Path, name: string)
    ensures forall k1, k2 :: k1 != k2 ==> ArtifactPath(dir, name, k1) != ArtifactPath(dir, name, k2)
  {
    forall k1, k2 | k1 != k2
      ensures ArtifactPath(dir, name, k1) != ArtifactPath(dir, name, k2)
    {
      if ArtifactPath(dir, name, k1) == ArtifactPath(dir, name, k2) {
        ArtifactPathInjective(dir, name, k1, dir, name, k2);
      }
    }
  }

  // ---------------------------------------------------------------------
  // The file system
  // ---------------------------------------------------------------------

  /**
   * What a written file holds: text, or the `.json` artifact document,
   * which `JSON.stringify` renders as `ToJson` of the artifact.
   */
  datatype FileContent = Text(text: string) | JsonText(artifact: ContractArtifact)

  /** A snapshot of the file system. */
  datatype Disk = Disk(files: map<Path, FileContent>, dirs: set<Path>)

  /** A directory and every ancestor below the file-system root. */
  function Ancestors(p: Path): (r: set<Path>)
    ensures p in r
  {
    {p} + (set k | 0 < k < |p| :: p[..k])
  }

  /** The file system, updated in place by the Node `fs` calls the writer makes. */
  class FileSystem {
    var files: map<Path, FileContent>
    var dirs: set<Path>

    constructor (disk: Disk)
      ensures files == disk.files && dirs == disk.dirs
    {
      files := disk.files;
      dirs := disk.dirs;
    }

    function State(): Disk
      reads this
    {
      Disk(files, dirs)
    }

    /** `existsSync` for a file path. */
    function FileExists(p: Path): bool
      reads this
    {
      p in files
    }

    /** `existsSync` for a directory path. */
    function DirExists(p: Path): bool
      reads this
    {
      p in dirs
    }

    /** `mkdirSync`: makes one directory. */
    method MkdirSync(p: Path)
      modifies this
      ensures files == old(files) && dirs == old(dirs) + {p}
    {
      dirs := dirs + {p};
    }

    /** `fsExtra.mkdirsSync`: makes a directory and its missing ancestors. */
    method MkdirsSync(p: Path)
      modifies this
      ensures files == old(files) && dirs == old(dirs) + Ancestors(p)
    {
      dirs := dirs + Ancestors(p);
    }

    /** `unlinkSync`: removes a file. */
    method UnlinkSync(p: Path)
      requires p in files
      modifies this
      ensures files == old(files) - {p} && dirs == old(dirs)
    {
      files := files - {p};
    }

    /** `writeFileSync`: creates or replaces a file. */
    method WriteFileSync(p: Path, content: FileContent)
      modifies this
      ensures files == old(files)[p := content] && dirs == old(dirs)
    {
      files := files[p := content];
    }
  }

  // ---------------------------------------------------------------------
  // What the writer does, step by step
  // ---------------------------------------------------------------------

  /** The output directory of every source under a layout. */
  function OutputDirOf(layout: Layout): string -> Path {
    source => OutputDir(layout, source)
  }

  /** The three files written for one compiled contract. */
  function NewFiles(dir: Path, name: string, c: CompiledContract): map<Path, FileContent> {
    map[ArtifactPath(dir, name, Bin) := Text(c.bytecode),
        ArtifactPath(dir, name, Abi) := Text(c.interface),
        ArtifactPath(dir, name, JsonDoc) := JsonText(ShortJsonOutput(c))]
  }

  /** The result of writing: whether it ran to the end, and the file system it left. */
  datatype Run = Run(ok: bool, disk: Disk)

  /**
   * One contract, its artifacts in directory `dirOf(source)`: make the
   * directory if missing, delete the four artifact paths, then write three
   * files from the compiled entry. A missing entry throws after the deletes
   * (reading `bytecode` of `undefined`).
   */
  function ContractStep(d: Disk, dirOf: string -> Path, contracts: map<string, CompiledContract>, job: Job): Run {
    var dir := dirOf(job.source);
    var dirs := if dir in d.dirs then d.dirs else d.dirs + Ancestors(dir);
    var cleared := d.files - ArtifactPaths(dir, job.contractName);
    var key := ContractKey(job);
    if key in contracts then Run(true, Disk(cleared + NewFiles(dir, job.contractName, contracts[key]), dirs))
    else Run(false, Disk(cleared, dirs))
  }

  /** The contracts in order; the first one that throws ends the run. */
  function RunJobs(d: Disk, dirOf: string -> Path, contracts: map<string, CompiledContract>, jobs: seq<Job>): Run {
    if jobs == [] then Run(true, d)
    else
      var r := RunJobs(d, dirOf, contracts, jobs[..|jobs| - 1]);
      if !r.ok then r else ContractStep(r.disk, dirOf, contracts, jobs[|jobs| - 1])
  }

  /** Running two job lists in a row is running the second from where the first stopped. */
  lemma {:induction false} RunJobsAppend(d: Disk, dirOf: string -> Path, contracts: map<string, CompiledContract>,
                                         a: seq<Job>, b: seq<Job>)
    ensures RunJobs(d, dirOf, contracts, a + b)
         == (var r := RunJobs(d, dirOf, contracts, a);
             if r.ok then RunJobs(r.disk, dirOf, contracts, b) else r)
    decreases |b|
  {
    if b == [] {
      assert a + b == a;
    } else {
      var n := |b| - 1;
      assert (a + b)[..|a + b| - 1] == a + b[..n];
      assert (a + b)[|a + b| - 1] == b[n];
      RunJobsAppend(d, dirOf, contracts, a, b[..n]);
    }
  }

  /** One top-level child as the writer's callback sees it. */
  function ChildRun(d: Disk, dirOf: string -> Path, contracts: map<string, CompiledContract>,
                    source: string, child: AstNode): Run
  {
    if IsContractDefinition(child) then ContractStep(d, dirOf, contracts, Job(source, child.attributesName))
    else Run(true, d)
  }

  /** The children of one source, in order, until one throws. */
  function SourceRun(d: Disk, dirOf: string -> Path, contracts: map<string, CompiledContract>,
                     source: string, children: seq<AstNode>): Run
  {
    if children == [] then Run(true, d)
    else
      var r := SourceRun(d, dirOf, contracts, source, children[..|children| - 1]);
      if !r.ok then r else ChildRun(r.disk, dirOf, contracts, source, children[|children| - 1])
  }

  /** The sources, in order, skipping those out of scope, until one throws. */
  function SourcesRun(d: Disk, dirOf: string -> Path, contracts: map<string, CompiledContract>,
                      sources: seq<(string, SourceUnit)>, scope: Scope): Run
  {
    if sources == [] then Run(true, d)
    else
      var r := SourcesRun(d, dirOf, contracts, sources[..|sources| - 1], scope);
      var entry := sources[|sources| - 1];
      if !r.ok then r
      else if IsValid(scope, entry.0) then SourceRun(r.disk, dirOf, contracts, entry.0, entry.1.children)
      else r
  }

  /** A source that fails `isValid` changes nothing, wherever it stands among the others. */
  lemma {:induction false} OutOfScopeSourceSkipped(d: Disk, dirOf: string -> Path, contracts: map<string, CompiledContract>,
                                                   a: seq<(string, SourceUnit)>, entry: (string, SourceUnit),
                                                   b: seq<(string, SourceUnit)>, scope: Scope)
    requires !IsValid(scope, entry.0)
    ensures SourcesRun(d, dirOf, contracts, a + [entry] + b, scope) == SourcesRun(d, dirOf, contracts, a + b, scope)
    decreases |b|
  {
    if b == [] {
      assert a + [entry] + b == a + [entry];
      assert (a + [entry])[..|a|] == a;
      assert a + b == a;
    } else {
      var n := |b| - 1;
      var with, without := a + [entry] + b, a + b;
      assert with[..|with| - 1] == a + [entry] + b[..n];
      assert without[..|without| - 1] == a + b[..n];
      assert with[|with| - 1] == b[n] == without[|without| - 1];
      OutOfScopeSourceSkipped(d, dirOf, contracts, a, entry, b[..n], scope);
    }
  }

  /** The children of a source run as its contracts do. */
  lemma {:induction false} SourceRunIsRunJobs(d: Disk, dirOf: string -> Path, contracts: map<string, CompiledContract>,
                                              source: string, children: seq<AstNode>)
    ensures SourceRun(d, dirOf, contracts, source, children) == RunJobs(d, dirOf, contracts, ContractJobs(source, children))
  {
    if children != [] {
      var n := |children| - 1;
      var child := children[n];
      SourceRunIsRunJobs(d, dirOf, contracts, source, children[..n]);
      RunJobsAppend(d, dirOf, contracts, ContractJobs(source, children[..n]), ChildJobs(source, child));
      if IsContractDefinition(child) {
        var job := Job(source, child.attributesName);
        var r := RunJobs(d, dirOf, contracts, ContractJobs(source, children[..n]));
        assert [job][..0] == [];
        assert RunJobs(r.disk, dirOf, contracts, [job]) == ContractStep(r.disk, dirOf, contracts, job);
      }
    }
  }

  /** The sources run as the contracts they select do. */
  lemma {:induction false} SourcesRunIsRunJobs(d: Disk, dirOf: string -> Path, contracts: map<string, CompiledContract>,
                                               sources: seq<(string, SourceUnit)>, scope: Scope)
    ensures SourcesRun(d, dirOf, contracts, sources, scope) == RunJobs(d, dirOf, contracts, Jobs(sources, scope))
  {
    if sources != [] {
      var n := |sources| - 1;
      var entry := sources[n];
      SourcesRunIsRunJobs(d, dirOf, contracts, sources[..n], scope);
      RunJobsAppend(d, dirOf, contracts, Jobs(sources[..n], scope), SourceJobs(scope, entry));
      var r := RunJobs(d, dirOf, contracts, Jobs(sources[..n], scope));
      if IsValid(scope, entry.0) {
        SourceRunIsRunJobs(r.disk, dirOf, contracts, entry.0, entry.1.children);
      }
    }
  }

  /** Once a child has thrown, the children after it change nothing. */
  lemma {:induction false} SourceRunStopped(d: Disk, dirOf: string -> Path, contracts: map<string, CompiledContract>,
                                            source: string, children: seq<AstNode>, j: nat)
    requires j <= |children|
    requires !SourceRun(d, dirOf, contracts, source, children[..j]).ok
    ensures SourceRun(d, dirOf, contracts, source, children) == SourceRun(d, dirOf, contracts, source, children[..j])
    decreases |children|
  {
    if j == |children| {
      assert children[..j] == children;
    } else {
      var n := |children| - 1;
      assert children[..n][..j] == children[..j];
      SourceRunStopped(d, dirOf, contracts, source, children[..n], j);
    }
  }

  /** Once a source has thrown, the sources after it change nothing. */
  lemma {:induction false} SourcesRunStopped(d: Disk, dirOf: string -> Path, contracts: map<string, CompiledContract>,
                                             sources: seq<(string, SourceUnit)>, scope: Scope, i: nat)
    requires i <= |sources|
    requires !SourcesRun(d, dirOf, contracts, sources[..i], scope).ok
    ensures SourcesRun(d, dirOf, contracts, sources, scope) == SourcesRun(d, dirOf, contracts, sources[..i], scope)
    decreases |sources|
  {
    if i == |sources| {
      assert sources[..i] == sources;
    } else {
      var n := |sources| - 1;
      assert sources[..n][..i] == sources[..i];
      SourcesRunStopped(d, dirOf, contracts, sources[..n], scope, i);
    }
  }

  /** The build directory made when it is missing. */
  function WithBinPath(d: Disk, layout: Layout): Disk {
    var bin := BinPath(layout);
    if bin in d.dirs then d else d.(dirs := d.dirs + {bin})
  }

  /** `writeCompilationOutputToBuildDirectory` as a function of the file system it starts from. */
  function WriteOutput(d: Disk, sources: seq<(string, SourceUnit)>, contracts: map<string, CompiledContract>,
                       layout: Layout, scope: Scope): Run
  {
    SourcesRun(WithBinPath(d, layout), OutputDirOf(layout), contracts, sources, scope)
  }

  /**
   * Processing one contract changes only its four artifact paths, and adds
   * its output directory (with its ancestors) when that is missing.
   */
  lemma ContractStepFrame(d: Disk, dirOf: string -> Path, contracts: map<string, CompiledContract>, job: Job, p: Path)
    requires p !in ArtifactPaths(dirOf(job.source), job.contractName)
    ensures var r := ContractStep(d, dirOf, contracts, job);
      && (r.ok <==> ContractKey(job) in contracts)
      && d.dirs <= r.disk.dirs <= d.dirs + Ancestors(dirOf(job.source))
      && dirOf(job.source) in r.disk.dirs
      && (p in r.disk.files <==> p in d.files)
      && (p in d.files ==> r.disk.files[p] == d.files[p])
  {
  }

  /**
   * After one contract, `.bin`, `.abi` and `.json` hold the compiled
   * entry's bytecode, interface and artifact document, and `.sol.js` is
   * gone; when the entry is missing none of the four is left.
   */
  lemma ContractStepWrites(d: Disk, dirOf: string -> Path, contracts: map<string, CompiledContract>, job: Job)
    ensures var r := ContractStep(d, dirOf, contracts, job);
      var dir := dirOf(job.source);
      && ArtifactPath(dir, job.contractName, Truffle) !in r.disk.files
      && (r.ok ==>
            var c := contracts[ContractKey(job)];
            && r.disk.files[ArtifactPath(dir, job.contractName, Bin)] == Text(c.bytecode)
            && r.disk.files[ArtifactPath(dir, job.contractName, Abi)] == Text(c.interface)
            && r.disk.files[ArtifactPath(dir, job.contractName, JsonDoc)] == JsonText(ShortJsonOutput(c)))
      && (!r.ok ==> forall k :: ArtifactPath(dir, job.contractName, k) !in r.disk.files)
  {
    var dir, name := dirOf(job.source), job.contractName;
    var bin, abi, json, truffle :=
      ArtifactPath(dir, name, Bin), ArtifactPath(dir, name, Abi), ArtifactPath(dir, name, JsonDoc), ArtifactPath(dir, name, Truffle);
    ArtifactPathsDistinct(dir, name);
    assert bin != abi && bin != json && abi != json;
    assert truffle != bin && truffle != abi && truffle != json;
  }

  // ---------------------------------------------------------------------
  // The effect of a whole run, independent of the starting file system
  // ---------------------------------------------------------------------

  /**
   * What a run of contracts does to the files whatever they were before:
   * the paths it deletes, the files it leaves written, and the output
   * directories it reaches.
   */
  datatype Effect = Effect(ok: bool, touched: set<Path>, writes: map<Path, FileContent>, made: set<Path>)

  function JobsEffect(dirOf: string -> Path, contracts: map<string, CompiledContract>, jobs: seq<Job>): Effect {
    if jobs == [] then Effect(true, {}, map[], {})
    else
      var e := JobsEffect(dirOf, contracts, jobs[..|jobs| - 1]);
      if !e.ok then e
      else
        var job := jobs[|jobs| - 1];
        var dir := dirOf(job.source);
        var t := ArtifactPaths(dir, job.contractName);
        var key := ContractKey(job);
        var w := if key in contracts then (e.writes - t) + NewFiles(dir, job.contractName, contracts[key])
                 else e.writes - t;
        Effect(key in contracts, e.touched + t, w, e.made + {dir})
  }

  /** The files after an effect: touched paths removed, then the written files put back. */
  function Apply(e: Effect, files: map<Path, FileContent>): map<Path, FileContent> {
    (files - e.touched) + e.writes
  }

  /** Every written file is one of the touched paths, and none is a `.sol.js` artifact. */
  lemma {:induction false} EffectWritesTouched(dirOf: string -> Path, contracts: map<string, CompiledContract>, jobs: seq<Job>)
    ensures var e := JobsEffect(dirOf, contracts, jobs);
      && e.writes.Keys <= e.touched
      && forall p :: p in e.writes ==> KindOf(p) != Some(Truffle)
  {
    if jobs != [] {
      var n := |jobs| - 1;
      EffectWritesTouched(dirOf, contracts, jobs[..n]);
      var job := jobs[n];
      var dir := dirOf(job.source);
      KindOfArtifactPath(dir, job.contractName, Bin);
      KindOfArtifactPath(dir, job.contractName, Abi);
      KindOfArtifactPath(dir, job.contractName, JsonDoc);
    }
  }

  /** Deleting more paths after an effect is the effect with those paths touched too. */
  lemma ApplyThenDelete(files: map<Path, FileContent>, touched: set<Path>, writes: map<Path, FileContent>,
                        t: set<Path>, added: map<Path, FileContent>)
    ensures ((files - touched) + writes - t) + added == (files - (touched + t)) + ((writes - t) + added)
  {
  }

  /** The effect of one more contract after a run that has not thrown. */
  lemma JobsEffectStep(dirOf: string -> Path, contracts: map<string, CompiledContract>, jobs: seq<Job>)
    requires jobs != [] && JobsEffect(dirOf, contracts, jobs[..|jobs| - 1]).ok
    ensures var e := JobsEffect(dirOf, contracts, jobs[..|jobs| - 1]);
      var job := jobs[|jobs| - 1];
      var dir := dirOf(job.source);
      var e' := JobsEffect(dirOf, contracts, jobs);
      && (e'.ok <==> ContractKey(job) in contracts)
      && e'.touched == e.touched + ArtifactPaths(dir, job.contractName)
      && e'.writes == (e.writes - ArtifactPaths(dir, job.contractName))
           + (if ContractKey(job) in contracts then NewFiles(dir, job.contractName, contracts[ContractKey(job)]) else map[])
  {
  }

  /** One contract step deletes the contract's four paths, then adds its three files when its entry exists. */
  lemma ContractStepFiles(d: Disk, dirOf: string -> Path, contracts: map<string, CompiledContract>, job: Job)
    ensures var r := ContractStep(d, dirOf, contracts, job);
      var dir := dirOf(job.source);
      && (r.ok <==> ContractKey(job) in contracts)
      && r.disk.files == (d.files - ArtifactPaths(dir, job.contractName))
           + (if ContractKey(job) in contracts then NewFiles(dir, job.contractName, contracts[ContractKey(job)]) else map[])
  {
  }

  /** A run leaves the files as its effect says, whatever they were before. */
  lemma {:induction false} RunJobsFiles(d: Disk, dirOf: string -> Path, contracts: map<string, CompiledContract>, jobs: seq<Job>)
    ensures var r := RunJobs(d, dirOf, contracts, jobs);
      var e := JobsEffect(dirOf, contracts, jobs);
      r.ok == e.ok && r.disk.files == Apply(e, d.files)
  {
    if jobs != [] {
      var n := |jobs| - 1;
      RunJobsFiles(d, dirOf, contracts, jobs[..n]);
      var e := JobsEffect(dirOf, contracts, jobs[..n]);
      var job := jobs[n];
      var dir := dirOf(job.source);
      var t := ArtifactPaths(dir, job.contractName);
      var added := if ContractKey(job) in contracts then NewFiles(dir, job.contractName, contracts[ContractKey(job)]) else map[];
      var r := RunJobs(d, dirOf, contracts, jobs[..n]);
      if r.ok {
        ContractStepFiles(r.disk, dirOf, contracts, job);
        JobsEffectStep(dirOf, contracts, jobs);
        ApplyThenDelete(d.files, e.touched, e.writes, t, added);
      }
    }
  }

  /**
   * A run only adds directories, every output directory it reaches is
   * there afterwards, and when they all were there before it adds none.
   */
  lemma {:induction false} RunJobsDirs(d: Disk, dirOf: string -> Path, contracts: map<string, CompiledContract>, jobs: seq<Job>)
    ensures var r := RunJobs(d, dirOf, contracts, jobs);
      var e := JobsEffect(dirOf, contracts, jobs);
      && r.ok == e.ok
      && d.dirs <= r.disk.dirs
      && e.made <= r.disk.dirs
      && (e.made <= d.dirs ==> r.disk.dirs == d.dirs)
  {
    if jobs != [] {
      var n := |jobs| - 1;
      RunJobsDirs(d, dirOf, contracts, jobs[..n]);
    }
  }

  /** Applying an effect whose writes are all touched paths a second time changes nothing. */
  lemma ApplyIdempotent(e: Effect, files: map<Path, FileContent>)
    requires e.writes.Keys <= e.touched
    ensures Apply(e, Apply(e, files)) == Apply(e, files)
  {
    assert Apply(e, files) - e.touched == files - e.touched;
  }

  /** Running the same contracts again on the result leaves the same file system and outcome. */
  lemma RunJobsIdempotent(d: Disk, dirOf: string -> Path, contracts: map<string, CompiledContract>, jobs: seq<Job>)
    ensures var r := RunJobs(d, dirOf, contracts, jobs);
      RunJobs(r.disk, dirOf, contracts, jobs) == r
  {
    var r := RunJobs(d, dirOf, contracts, jobs);
    RunJobsFiles(d, dirOf, contracts, jobs);
    RunJobsFiles(r.disk, dirOf, contracts, jobs);
    RunJobsDirs(d, dirOf, contracts, jobs);
    RunJobsDirs(r.disk, dirOf, contracts, jobs);
    EffectWritesTouched(dirOf, contracts, jobs);
    ApplyIdempotent(JobsEffect(dirOf, contracts, jobs), d.files);
  }

  /** Writing the same compiler output twice leaves the same file system as writing it once. */
  lemma WriteOutputIdempotent(d: Disk, sources: seq<(string, SourceUnit)>, contracts: map<string, CompiledContract>,
                              layout: Layout, scope: Scope)
    ensures var r := WriteOutput(d, sources, contracts, layout, scope);
      WriteOutput(r.disk, sources, contracts, layout, scope) == r
  {
    var d0 := WithBinPath(d, layout);
    var jobs := Jobs(sources, scope);
    SourcesRunIsRunJobs(d0, OutputDirOf(layout), contracts, sources, scope);
    var r := RunJobs(d0, OutputDirOf(layout), contracts, jobs);
    RunJobsDirs(d0, OutputDirOf(layout), contracts, jobs);
    assert WithBinPath(r.disk, layout) == r.disk;
    SourcesRunIsRunJobs(r.disk, OutputDirOf(layout), contracts, sources, scope);
    RunJobsIdempotent(d0, OutputDirOf(layout), contracts, jobs);
  }

  /** A touched path is an artifact path of one of the contracts. */
  lemma {:induction false} EffectTouchedByJobs(dirOf: string -> Path, contracts: map<string, CompiledContract>, jobs: seq<Job>, p: Path)
    requires p in JobsEffect(dirOf, contracts, jobs).touched
    ensures exists job :: job in jobs && p in ArtifactPaths(dirOf(job.source), job.contractName)
  {
    var n := |jobs| - 1;
    if p in JobsEffect(dirOf, contracts, jobs[..n]).touched {
      EffectTouchedByJobs(dirOf, contracts, jobs[..n], p);
      var job :| job in jobs[..n] && p in ArtifactPaths(dirOf(job.source), job.contractName);
      assert job in jobs;
    } else {
      assert jobs[n] in jobs;
    }
  }

  /**
   * Only the artifact paths of the selected contracts can change: every
   * other path keeps its content, or its absence.
   */
  lemma WriteOutputFrame(d: Disk, sources: seq<(string, SourceUnit)>, contracts: map<string, CompiledContract>,
                         layout: Layout, scope: Scope, p: Path)
    requires forall job :: job in Jobs(sources, scope) ==> p !in ArtifactPaths(OutputDir(layout, job.source), job.contractName)
    ensures var r := WriteOutput(d, sources, contracts, layout, scope);
      && (p in r.disk.files <==> p in d.files)
      && (p in d.files ==> r.disk.files[p] == d.files[p])
  {
    var d0 := WithBinPath(d, layout);
    var jobs := Jobs(sources, scope);
    SourcesRunIsRunJobs(d0, OutputDirOf(layout), contracts, sources, scope);
    RunJobsFiles(d0, OutputDirOf(layout), contracts, jobs);
    EffectWritesTouched(OutputDirOf(layout), contracts, jobs);
    if p in JobsEffect(OutputDirOf(layout), contracts, jobs).touched {
      EffectTouchedByJobs(OutputDirOf(layout), contracts, jobs, p);
    }
  }

  /** Where a contract's artifacts go: its output directory and its name. */
  function Location(dirOf: string -> Path, job: Job): (Path, string) {
    (dirOf(job.source), job.contractName)
  }

  /** The last contract of a completed run has its three files written and its `.sol.js` deleted. */
  lemma LastJobWrites(dirOf: string -> Path, contracts: map<string, CompiledContract>, jobs: seq<Job>)
    requires jobs != []
    requires JobsEffect(dirOf, contracts, jobs).ok
    ensures var e := JobsEffect(dirOf, contracts, jobs);
      var job := jobs[|jobs| - 1];
      var dir := dirOf(job.source);
      && ContractKey(job) in contracts
      && ArtifactPath(dir, job.contractName, Truffle) in e.touched
      && var nf := NewFiles(dir, job.contractName, contracts[ContractKey(job)]);
         forall q :: q in nf ==> q in e.writes && e.writes[q] == nf[q]
  {
  }

  /** A later contract with other output paths leaves an earlier contract's files alone. */
  lemma LaterJobKeeps(dirOf: string -> Path, contracts: map<string, CompiledContract>, jobs: seq<Job>, q: Path)
    requires jobs != []
    requires JobsEffect(dirOf, contracts, jobs).ok
    requires q !in ArtifactPaths(dirOf(jobs[|jobs| - 1].source), jobs[|jobs| - 1].contractName)
    ensures var e := JobsEffect(dirOf, contracts, jobs);
      var e' := JobsEffect(dirOf, contracts, jobs[..|jobs| - 1]);
      && e'.ok
      && (q in e'.writes ==> q in e.writes && e.writes[q] == e'.writes[q])
      && (q in e'.touched ==> q in e.touched)
  {
  }

  /**
   * In a run that completes, a contract that no later contract shares
   * output paths with ends with its own three files written and its
   * `.sol.js` deleted.
   */
  lemma {:induction false} EffectLastWriter(dirOf: string -> Path, contracts: map<string, CompiledContract>, jobs: seq<Job>, i: nat)
    requires i < |jobs|
    requires JobsEffect(dirOf, contracts, jobs).ok
    requires forall k :: i < k < |jobs| ==> Location(dirOf, jobs[k]) != Location(dirOf, jobs[i])
    ensures var e := JobsEffect(dirOf, contracts, jobs);
      var job := jobs[i];
      var dir := dirOf(job.source);
      && ContractKey(job) in contracts
      && ArtifactPath(dir, job.contractName, Truffle) in e.touched
      && var nf := NewFiles(dir, job.contractName, contracts[ContractKey(job)]);
         forall q :: q in nf ==> q in e.writes && e.writes[q] == nf[q]
    decreases |jobs|
  {
    var n := |jobs| - 1;
    if i == n {
      LastJobWrites(dirOf, contracts, jobs);
    } else {
      var job := jobs[i];
      var dir := dirOf(job.source);
      var last := jobs[n];
      var ldir := dirOf(last.source);
      assert JobsEffect(dirOf, contracts, jobs[..n]).ok;
      forall k | i < k < |jobs[..n]|
        ensures Location(dirOf, jobs[..n][k]) != Location(dirOf, jobs[..n][i])
      {
        assert jobs[..n][k] == jobs[k];
      }
      EffectLastWriter(dirOf, contracts, jobs[..n], i);
      assert jobs[..n][i] == job;
      assert ContractKey(job) in contracts;
      var nf := NewFiles(dir, job.contractName, contracts[ContractKey(job)]);
      var truffle := ArtifactPath(dir, job.contractName, Truffle);
      assert Location(dirOf, jobs[n]) != Location(dirOf, jobs[i]);
      forall q | q in nf
        ensures q in JobsEffect(dirOf, contracts, jobs).writes
             && JobsEffect(dirOf, contracts, jobs).writes[q] == nf[q]
      {
        DisjointArtifactPaths(dir, job.contractName, ldir, last.contractName, q);
        LaterJobKeeps(dirOf, contracts, jobs, q);
      }
      DisjointArtifactPaths(dir, job.contractName, ldir, last.contractName, truffle);
      LaterJobKeeps(dirOf, contracts, jobs, truffle);
    }
  }

  /** The three files written for a contract: `.bin` its bytecode, `.abi` its interface, `.json` its artifact. */
  lemma NewFilesContents(dir: Path, name: string, c: CompiledContract)
    ensures var nf := NewFiles(dir, name, c);
      && ArtifactPath(dir, name, Bin) in nf && nf[ArtifactPath(dir, name, Bin)] == Text(c.bytecode)
      && ArtifactPath(dir, name, Abi) in nf && nf[ArtifactPath(dir, name, Abi)] == Text(c.interface)
      && ArtifactPath(dir, name, JsonDoc) in nf && nf[ArtifactPath(dir, name, JsonDoc)] == JsonText(ShortJsonOutput(c))
  {
    ArtifactPathsDistinct(dir, name);
  }

  /**
   * After a completed run of contracts, one whose output paths no later
   * contract shares has its three files and no `.sol.js`.
   */
  lemma RunJobsArtifacts(d: Disk, dirOf: string -> Path, contracts: map<string, CompiledContract>, jobs: seq<Job>, i: nat)
    requires i < |jobs|
    requires RunJobs(d, dirOf, contracts, jobs).ok
    requires forall k :: i < k < |jobs| ==> Location(dirOf, jobs[k]) != Location(dirOf, jobs[i])
    ensures var files := RunJobs(d, dirOf, contracts, jobs).disk.files;
      var job := jobs[i];
      var dir := dirOf(job.source);
      && ContractKey(job) in contracts
      && var nf := NewFiles(dir, job.contractName, contracts[ContractKey(job)]);
      && (forall q :: q in nf ==> q in files && files[q] == nf[q])
      && ArtifactPath(dir, job.contractName, Truffle) !in files
  {
    RunJobsFiles(d, dirOf, contracts, jobs);
    EffectLastWriter(dirOf, contracts, jobs, i);
    EffectWritesTouched(dirOf, contracts, jobs);
    KindOfArtifactPath(dirOf(jobs[i].source), jobs[i].contractName, Truffle);
  }

  /**
   * After a completed write, each selected contract whose output paths no
   * later contract shares has `D/N.bin`, `D/N.abi` and `D/N.json` holding
   * its compiled entry, and no `D/N.sol.js`.
   */
  lemma WriteOutputArtifacts(d: Disk, sources: seq<(string, SourceUnit)>, contracts: map<string, CompiledContract>,
                             layout: Layout, scope: Scope, i: nat)
    requires WriteOutput(d, sources, contracts, layout, scope).ok
    requires i < |Jobs(sources, scope)|
    requires var jobs := Jobs(sources, scope);
      forall k :: i < k < |jobs| ==> Location(OutputDirOf(layout), jobs[k]) != Location(OutputDirOf(layout), jobs[i])
    ensures var r := WriteOutput(d, sources, contracts, layout, scope);
      var job := Jobs(sources, scope)[i];
      var dir := OutputDir(layout, job.source);
      && ContractKey(job) in contracts
      && var c := contracts[ContractKey(job)];
      && ArtifactPath(dir, job.contractName, Bin) in r.disk.files
      && r.disk.files[ArtifactPath(dir, job.contractName, Bin)] == Text(c.bytecode)
      && ArtifactPath(dir, job.contractName, Abi) in r.disk.files
      && r.disk.files[ArtifactPath(dir, job.contractName, Abi)] == Text(c.interface)
      && ArtifactPath(dir, job.contractName, JsonDoc) in r.disk.files
      && r.disk.files[ArtifactPath(dir, job.contractName, JsonDoc)] == JsonText(ShortJsonOutput(c))
      && ArtifactPath(dir, job.contractName, Truffle) !in r.disk.files
  {
    var dirOf := OutputDirOf(layout);
    var jobs := Jobs(sources, scope);
    var job := jobs[i];
    SourcesRunIsRunJobs(WithBinPath(d, layout), dirOf, contracts, sources, scope);
    RunJobsArtifacts(WithBinPath(d, layout), dirOf, contracts, jobs, i);
    NewFilesContents(dirOf(job.source), job.contractName, contracts[ContractKey(job)]);
  }

  // ---------------------------------------------------------------------
  // The writer, as the source runs it
  // ---------------------------------------------------------------------

  /** Writing a file after a union is writing it into the second map. */
  lemma UpdateIsUnion(base: map<Path, FileContent>, added: map<Path, FileContent>, p: Path, content: FileContent)
    ensures (base + added)[p := content] == base + added[p := content]
  {
  }

  /** Deletes whichever of a contract's four artifact paths exist. */
  method RemoveArtifacts(fs: FileSystem, dirName: Path, contractName: string)
    modifies fs
    ensures fs.files == old(fs.files) - ArtifactPaths(dirName, contractName)
    ensures fs.dirs == old(fs.dirs)
  {
    var contractAbiPath := ArtifactPath(dirName, contractName, Abi);
    var contractBinPath := ArtifactPath(dirName, contractName, Bin);
    var contractJsonPath := ArtifactPath(dirName, contractName, JsonDoc);
    var truffleArtifactPath := ArtifactPath(dirName, contractName, Truffle);
    if fs.FileExists(contractAbiPath) {
      fs.UnlinkSync(contractAbiPath);
    }
    assert fs.files == old(fs.files) - {contractAbiPath};
    if fs.FileExists(contractBinPath) {
      fs.UnlinkSync(contractBinPath);
    }
    assert fs.files == old(fs.files) - {contractAbiPath, contractBinPath};
    if fs.FileExists(contractJsonPath) {
      fs.UnlinkSync(contractJsonPath);
    }
    assert fs.files == old(fs.files) - {contractAbiPath, contractBinPath, contractJsonPath};
    if fs.FileExists(truffleArtifactPath) {
      fs.UnlinkSync(truffleArtifactPath);
    }
  }

  /** Writes `.bin`, `.abi` and `.json` from one compiled entry. */
  method WriteArtifacts(fs: FileSystem, dirName: Path, contractName: string, compiled: CompiledContract)
    modifies fs
    ensures fs.files == old(fs.files) + NewFiles(dirName, contractName, compiled)
    ensures fs.dirs == old(fs.dirs)
  {
    var contractAbiPath := ArtifactPath(dirName, contractName, Abi);
    var contractBinPath := ArtifactPath(dirName, contractName, Bin);
    var contractJsonPath := ArtifactPath(dirName, contractName, JsonDoc);
    ghost var base := fs.files;
    fs.WriteFileSync(contractBinPath, Text(compiled.bytecode));
    UpdateIsUnion(base, map[], contractBinPath, Text(compiled.bytecode));
    fs.WriteFileSync(contractAbiPath, Text(compiled.interface));
    UpdateIsUnion(base, map[contractBinPath := Text(compiled.bytecode)], contractAbiPath, Text(compiled.interface));
    var shortJsonOutput := ShortJsonOutput(compiled);
    fs.WriteFileSync(contractJsonPath, JsonText(shortJsonOutput));
    UpdateIsUnion(base, map[contractBinPath := Text(compiled.bytecode), contractAbiPath := Text(compiled.interface)],
                  contractJsonPath, JsonText(shortJsonOutput));
  }

  /**
   * The callback for one contract-definition child: make its directory,
   * delete its four artifact paths, and write `.bin`, `.abi` and `.json`
   * from `contracts[source + ':' + contractName]`; `ok` is false when that
   * entry is missing and reading its `bytecode` throws.
   */
  method WriteContract(fs: FileSystem, layout: Layout, contracts: map<string, CompiledContract>,
                       source: string, contractName: string)
    returns (ok: bool)
    modifies fs
    ensures Run(ok, fs.State())
         == ContractStep(old(fs.State()), OutputDirOf(layout), contracts, Job(source, contractName))
  {
    var binPath := BinPath(layout);
    var relativePath := Relative(Split(layout.rootPath), Split(source));
    var dirName := Dirname(Join(binPath, relativePath));
    assert dirName == OutputDirOf(layout)(source);
    if !fs.DirExists(dirName) {
      fs.MkdirsSync(dirName);
    }
    RemoveArtifacts(fs, dirName, contractName);
    var key := source + ":" + contractName;
    assert key == ContractKey(Job(source, contractName));
    if key !in contracts {
      return false;
    }
    WriteArtifacts(fs, dirName, contractName, contracts[key]);
    ok := true;
  }

  /**
   * The callback run over the top-level children of one in-scope source:
   * every contract definition among them is written in order, and the
   * first missing compiled entry stops the run.
   */
  method WriteSource(fs: FileSystem, layout: Layout, contracts: map<string, CompiledContract>,
                     source: string, children: seq<AstNode>)
    returns (ok: bool)
    modifies fs
    ensures Run(ok, fs.State()) == SourceRun(old(fs.State()), OutputDirOf(layout), contracts, source, children)
  {
    ghost var start := fs.State();
    var j := 0;
    while j < |children|
      invariant 0 <= j <= |children|
      invariant SourceRun(start, OutputDirOf(layout), contracts, source, children[..j]) == Run(true, fs.State())
    {
      var child := children[j];
      assert children[..j + 1][..j] == children[..j];
      if IsContractDefinition(child) {
        var written := WriteContract(fs, layout, contracts, source, child.attributesName);
        if !written {
          SourceRunStopped(start, OutputDirOf(layout), contracts, source, children, j + 1);
          return false;
        }
      }
      j := j + 1;
    }
    assert children[..j] == children;
    return true;
  }

  /**
   * `writeCompilationOutputToBuildDirectory`: makes the build directory,
   * then writes the artifacts of every contract-definition child of every
   * in-scope source, in order; `ok` is false when a compiled entry was
   * missing and the run stopped there.
   */
  method WriteCompilationOutputToBuildDirectory(fs: FileSystem, sources: seq<(string, SourceUnit)>,
                                                contracts: map<string, CompiledContract>,
                                                layout: Layout, scope: Scope)
    returns (ok: bool)
    modifies fs
    ensures Run(ok, fs.State()) == WriteOutput(old(fs.State()), sources, contracts, layout, scope)
  {
    var binPath := BinPath(layout);
    if !fs.DirExists(binPath) {
      fs.MkdirSync(binPath);
    }
    ghost var start := fs.State();
    var i := 0;
    while i < |sources|
      invariant 0 <= i <= |sources|
      invariant SourcesRun(start, OutputDirOf(layout), contracts, sources[..i], scope) == Run(true, fs.State())
    {
      var (source, unit) := sources[i];
      assert sources[..i + 1][..i] == sources[..i];
      if IsValid(scope, source) {
        var written := WriteSource(fs, layout, contracts, source, unit.children);
        if !written {
          SourcesRunStopped(start, OutputDirOf(layout), contracts, sources, scope, i + 1);
          return false;
        }
      }
      i := i + 1;
    }
    assert sources[..i] == sources;
    return true;
  }
}
