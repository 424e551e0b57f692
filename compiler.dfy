/**
 * The compile command: pick a compiler, run it over the workspace's
 * sources, publish its errors and warnings, and write the build artifacts
 * when the outcome allows it.
 *
 * The compiler itself, the remote-version loader and the error parser are
 * parameters; the window notifications are folded into the `Outcome`.
 */
module Compiler {

  import opened Wrappers
  import opened Diagnostics
  import opened SolcOutput
  import opened Artifacts

  /** How a compile command ended; each case is what the user is told. */
  datatype Outcome =
    | NothingToCompile                               // "No solidity files (*.sol) found"
    | RemoteLoadFailed                               // "There was an error loading the remote version"
    | NoOutput                                       // "No output by the compiler"
    | CompilationFailed(counts: ErrorWarningCounts)  // "Compilation failed with N errors"
    | NothingWritten(counts: ErrorWarningCounts)     // errors listed, none of them errors or warnings
    | Written(reported: Option<ErrorWarningCounts>, ok: bool)  // artifacts written; `ok` false when the writer threw

  /**
   * Everything one processing of compiler output does: how it ends, what
   * the diagnostic collection holds afterwards (`None`: left as it was),
   * the lines appended to the output channel, and the file system left.
   */
  datatype Effects = Effects(outcome: Outcome, published: Option<map<string, seq<Diagnostic>>>,
                             logged: seq<string>, disk: Disk)

  /** Whether the counts let the writer run, when `errors` was present at all. */
  function ShouldWrite(errorsPresent: bool, counts: ErrorWarningCounts): bool {
    if errorsPresent then counts.errors == 0 && counts.warnings > 0 else true
  }

  /**
   * `processCompilationOuput` on a starting file system. An empty output
   * stops before the diagnostics are cleared; otherwise they are replaced
   * by the ones the error records map to, and the artifacts are written
   * exactly when `ShouldWrite` allows it.
   */
  function Process(output: CompilerOutput, toDiagnostic: RawError -> MappedError, d: Disk,
                   layout: Layout, scope: Scope): (r: Effects)
    ensures output.NoKeys? ==> r.outcome == NoOutput && r.published.None? && r.logged == [] && r.disk == d
    ensures output.Output? ==>
      && r.published == Some(if output.errors.Some? then Published(MapErrors(output.errors.value, toDiagnostic)) else map[])
      && r.logged == output.errors.GetOr([])
    ensures r.outcome.Written? <==>
      output.Output? && ShouldWrite(output.errors.Some?, Counts(MapErrors(output.errors.GetOr([]), toDiagnostic)))
    ensures r.outcome.Written? ==>
      Run(r.outcome.ok, r.disk) == WriteOutput(d, output.sources, output.contracts, layout, scope)
    ensures !r.outcome.Written? ==> r.disk == d
  {
    match output
    case NoKeys => Effects(NoOutput, None, [], d)
    case Output(errors, sources, contracts) =>
      if errors.Some? then
        var ms := MapErrors(errors.value, toDiagnostic);
        var counts := Counts(ms);
        if counts.errors > 0 then
          Effects(CompilationFailed(counts), Some(Published(ms)), errors.value, d)
        else if counts.warnings > 0 then
          var run := WriteOutput(d, sources, contracts, layout, scope);
          Effects(Written(Some(counts), run.ok), Some(Published(ms)), errors.value, run.disk)
        else
          Effects(NothingWritten(counts), Some(Published(ms)), errors.value, d)
      else
        var run := WriteOutput(d, sources, contracts, layout, scope);
        Effects(Written(None, run.ok), Some(map[]), [], run.disk)
  }

  /**
   * Artifacts are written exactly when the output has no `errors` list, or
   * has one in which no record is an error and at least one is a warning.
   * An error record therefore always blocks the writer, and so does a
   * present but empty list.
   */
  lemma WritesIff(output: CompilerOutput, toDiagnostic: RawError -> MappedError, d: Disk, layout: Layout, scope: Scope)
    requires output.Output?
    ensures var ms := MapErrors(output.errors.GetOr([]), toDiagnostic);
      Process(output, toDiagnostic, d, layout, scope).outcome.Written? <==>
        || output.errors.None?
        || ((forall k :: 0 <= k < |ms| ==> ms[k].diagnostic.severity != Error)
            && (exists k :: 0 <= k < |ms| && ms[k].diagnostic.severity == Warning))
  {
    CountsMeaning(MapErrors(output.errors.GetOr([]), toDiagnostic));
  }

  /** A present but empty `errors` list writes nothing and reports no failure. */
  lemma EmptyErrorsWriteNothing(output: CompilerOutput, toDiagnostic: RawError -> MappedError, d: Disk,
                                layout: Layout, scope: Scope)
    requires output.Output? && output.errors == Some([])
    ensures Process(output, toDiagnostic, d, layout, scope).outcome == NothingWritten(ErrorWarningCounts(0, 0))
    ensures Process(output, toDiagnostic, d, layout, scope).disk == d
  {
    var ms := MapErrors([], toDiagnostic);
    assert ms == [];
    CountsMeaning(ms);
  }

  /** `processCompilationOuput`, updating the channel, the collection and the file system in place. */
  method ProcessCompilationOutput(output: CompilerOutput, channel: OutputChannel, collection: DiagnosticCollection,
                                  fs: FileSystem, layout: Layout, scope: Scope,
                                  toDiagnostic: RawError -> MappedError)
    returns (outcome: Outcome)
    modifies channel, collection, fs
    ensures var e := Process(output, toDiagnostic, old(fs.State()), layout, scope);
      && outcome == e.outcome
      && channel.lines == old(channel.lines) + e.logged
      && collection.published == e.published.GetOr(old(collection.published))
      && fs.State() == e.disk
  {
    if output.NoKeys? {
      return NoOutput;
    }
    collection.Clear();
    if output.errors.Some? {
      var counts := OutputErrorsToDiagnostics(collection, output.errors.value, toDiagnostic);
      OutputErrorsToChannel(channel, output.errors.value);
      if counts.errors > 0 {
        outcome := CompilationFailed(counts);
      } else if counts.warnings > 0 {
        var ok := WriteCompilationOutputToBuildDirectory(fs, output.sources, output.contracts, layout, scope);
        outcome := Written(Some(counts), ok);
      } else {
        outcome := NothingWritten(counts);
      }
    } else {
      var ok := WriteCompilationOutputToBuildDirectory(fs, output.sources, output.contracts, layout, scope);
      outcome := Written(None, ok);
    }
  }

  /** The compiler a run uses: the bundled one, or the remote version when one is configured and loads. */
  function CompilerFor(remoteVersion: Option<string>, solcCompile: map<string, string> -> CompilerOutput,
                       loadRemoteVersion: string -> Option<map<string, string> -> CompilerOutput>)
    : Option<map<string, string> -> CompilerOutput>
  {
    if remoteVersion.None? then Some(solcCompile) else loadRemoteVersion(remoteVersion.value)
  }

  /**
   * `compile`: nothing happens for an empty source map; otherwise the
   * output channel is cleared, and the chosen compiler's output is
   * processed unless the remote version failed to load.
   */
  method Compile(contracts: map<string, string>, remoteVersion: Option<string>,
                 solcCompile: map<string, string> -> CompilerOutput,
                 loadRemoteVersion: string -> Option<map<string, string> -> CompilerOutput>,
                 channel: OutputChannel, collection: DiagnosticCollection, fs: FileSystem,
                 layout: Layout, scope: Scope, toDiagnostic: RawError -> MappedError)
    returns (outcome: Outcome)
    modifies channel, collection, fs
    ensures |contracts| == 0 ==>
      && outcome == NothingToCompile
      && channel.lines == old(channel.lines)
      && collection.published == old(collection.published)
      && fs.State() == old(fs.State())
    ensures |contracts| > 0 && CompilerFor(remoteVersion, solcCompile, loadRemoteVersion).None? ==>
      && outcome == RemoteLoadFailed
      && channel.lines == []
      && collection.published == old(collection.published)
      && fs.State() == old(fs.State())
    ensures |contracts| > 0 && CompilerFor(remoteVersion, solcCompile, loadRemoteVersion).Some? ==>
      var compiler := CompilerFor(remoteVersion, solcCompile, loadRemoteVersion).value;
      var e := Process(compiler(contracts), toDiagnostic, old(fs.State()), layout, scope);
      && outcome == e.outcome
      && channel.lines == e.logged
      && collection.published == e.published.GetOr(old(collection.published))
      && fs.State() == e.disk
  {
    if |contracts| == 0 {
      return NothingToCompile;
    }
    channel.Clear();
    if remoteVersion.None? {
      var output := solcCompile(contracts);
      outcome := ProcessCompilationOutput(output, channel, collection, fs, layout, scope, toDiagnostic);
    } else {
      var loaded := loadRemoteVersion(remoteVersion.value);
      if loaded.None? {
        return RemoteLoadFailed;
      }
      var output := loaded.value(contracts);
      outcome := ProcessCompilationOutput(output, channel, collection, fs, layout, scope, toDiagnostic);
    }
  }
}
