# Solidity compile command, modelled in Dafny

This project models the compile command of the `vscode-solidity-extended`
editor extension, `src/compiler.ts`. The command runs the Solidity compiler
over the workspace's `.sol` sources. It then publishes the compiler's errors
and warnings as editor diagnostics, one list per file. When the outcome
allows it, it writes one set of build artifacts per contract into the build
directory. The tree under the build directory mirrors the sources' places
under the workspace root.

Modules:

- `Wrappers` (`wrappers.dfy`): the `Option` type.
- `Paths` (`paths.dfy`): file paths as sequences of segments.
  - `path.join` is concatenation.
  - `path.dirname` drops the last segment.
  - `path.relative` strips the common prefix and climbs out of the rest of the base with `..` segments.
  - `startsWith` is compared character by character, and is proved equal to the prefix relation.
- `Diagnostics` (`diagnostics.dfy`): error aggregation (`outputErrorsToDiagnostics`, `outputErrorsToChannel`).
  - The record loop and the counting loop are methods with loop invariants.
  - The JavaScript `Map` keyed by `vscode.Uri` objects is a list of (uri, diagnostics) pairs, looked up by object identity.
  - `Uri.file` allocates a fresh object, so every lookup misses and every record becomes its own pair. The model proves this.
  - The diagnostic collection merges pairs for the same path in `set`. What ends up published is therefore each file's diagnostics in record order, and the model proves this too.
- `SolcOutput` (`solc_output.dfy`): the compiler output that is read, and the `.json` artifact document. The round trip of the artifact through its JSON form is proved.
- `Artifacts` (`artifacts.dfy`): the artifact writer (`writeCompilationOutputToBuildDirectory`).
  - It covers the `isValid` filter, the contract-definition filter, the output directory and the four artifact paths.
  - The file system is a class holding a file map and a directory set, updated in place by `existsSync`, `mkdirSync`, `mkdirsSync`, `unlinkSync` and `writeFileSync`.
  - The writer's loops are methods. They are proved equal to the pure run `WriteOutput`, which follows the same loop structure.
  - The properties are proved about `WriteOutput`: what is written, what is deleted, that nothing else changes, and that running twice is the same as running once.
  - The proofs go through `RunJobs`, which flattens the selected contracts into one list, and `JobsEffect`, the net effect of that list on any starting file system.
- `Compiler` (`compiler.dfy`): `compile` and `processCompilationOuput`.
  - The decision of what is cleared, published, logged and written is the function `Process`, and the methods are proved equal to it.
  - The compiler, the remote-version loader and the error parser `errorToDiagnostic` are function parameters.
  - Each window notification corresponds to one case of `Outcome`.

Behaviour modelled as the code has it:

- `if (output.errors)` treats an empty list as present. So an output with `errors: []` gets its diagnostics cleared and then writes nothing (`EmptyErrorsWriteNothing`). Only an output without an `errors` field is written unconditionally.
- Each contract's `.sol.js` path is deleted along with its `.abi`, `.bin` and `.json` paths (lines 190-192). It is never written again, because the artifactor call is commented out.
- An output without a `sources` field is an output with no sources: `for…in` over `undefined` runs zero times (line 153), so nothing is written.
- A contract whose `contracts[source + ':' + name]` entry is missing throws after its four deletes. The model returns `ok == false` with those deletes in place. Later contracts and sources are not processed, and the notifications that follow the writer are not shown.

## Model

| member | source | states |
|---|---|---|
| Paths.Split | src/compiler.ts:165 | the segments of a path string are non-empty and contain no `/` |
| Paths.Dirname | src/compiler.ts:167 | the directory of a path is the path minus its last segment |
| Paths.CommonPrefixLength | src/compiler.ts:165 | the length is a common prefix of both paths and the first position where they differ |
| Paths.Ups | src/compiler.ts:165 | `k` parent-directory segments, all of them `..` |
| Paths.Relative | src/compiler.ts:165 | definition of `path.relative`: climb out of the part of the base not shared with the target, then descend into the rest of the target |
| Paths.RelativeUnderRoot | src/compiler.ts:165 | for a path inside the root, `path.relative(root, p)` is the rest of `p` after the root |
| Paths.DirnameUnderRoot | src/compiler.ts:165-167 | `dirname(join(bin, relative(root, p)))` is `p`'s own directory moved from the root to `bin` |
| Paths.MirroredDirnames | src/compiler.ts:165-167 | two paths under the root get the same mirrored directory iff they have the same directory |
| Paths.StartsWithIsPrefix | src/compiler.ts:142-144 | `startsWith` holds exactly when the argument is a prefix of the string |
| Paths.StartsWith | src/compiler.ts:142-144 | definition of `startsWith`, compared character by character |
| Diagnostics.Uri.File | src/compiler.ts:33 | `vscode.Uri.file` returns a new object on every call, carrying the given file name as its path |
| Diagnostics.DiagnosticCollection.Clear | src/compiler.ts:106 | clearing leaves no diagnostics published |
| Diagnostics.DiagnosticCollection.Set | src/compiler.ts:53 | `set` adds each pair's diagnostics to its path's list, in pair order, and replaces the paths it names |
| Diagnostics.Merge | src/compiler.ts:53 | definition of what `set` publishes: tuples for the same path are merged, in tuple order |
| Diagnostics.OutputChannel.Clear | src/compiler.ts:69 | clearing empties the channel |
| Diagnostics.OutputChannel.AppendLine | src/compiler.ts:15 | the line is appended at the end |
| Diagnostics.CountSeverityAppend | src/compiler.ts:46-51 | summing the per-pair counts equals counting the concatenated diagnostics |
| Diagnostics.CountSeverityPositive | src/compiler.ts:47-48 | a severity count is positive iff some diagnostic has that severity |
| Diagnostics.ErrorsAndWarningsBound | src/compiler.ts:47-48 | errors plus warnings never exceed the number of diagnostics |
| Diagnostics.CountsMeaning | src/compiler.ts:27-51 | errors + warnings is at most the record count; errors > 0 iff some record maps to an Error; warnings > 0 iff some record maps to a Warning |
| Diagnostics.PublishedAppend | src/compiler.ts:30-42 | one more record adds its diagnostic at the end of its own file's list and changes no other file |
| Diagnostics.DiagnosticsForPrefix | src/compiler.ts:30-42 | for every file, the diagnostics of earlier records come before those of later ones |
| Diagnostics.RecordPublishedInOrder | src/compiler.ts:30-53 | each record's diagnostic is published under its own file, right after the earlier records for that file |
| Diagnostics.DiagnosticsForAbsent | src/compiler.ts:30-42 | a file that no record names gets no diagnostics |
| Diagnostics.MergeOneTuplePerRecord | src/compiler.ts:46-53 | merging one singleton pair per record gives each file its records' diagnostics in record order |
| Diagnostics.FlattenOneTuplePerRecord | src/compiler.ts:46-51 | the pairs' diagnostics, concatenated, are the records' diagnostics in record order |
| Diagnostics.CountSeverity | src/compiler.ts:47-48 | `filter(severity).length`: never more than the number of diagnostics counted |
| Diagnostics.GetByUri | src/compiler.ts:34 | `Map.get` finds a list iff some key is the very same object, and what it finds is the list stored under that key |
| Diagnostics.GetByUriFindsStored | src/compiler.ts:34 | in a map whose keys are distinct, `get` of a key returns exactly the list stored under it |
| Diagnostics.SetByUri | src/compiler.ts:41 | `Map.set` with a new key appends a pair. In a map with distinct keys, it replaces the list of the pair with that key in place, keeps every other pair, and leaves the keys distinct |
| Diagnostics.GroupByUri | src/compiler.ts:28-42 | the record loop leaves exactly one singleton pair per record, in record order |
| Diagnostics.CountAndCollect | src/compiler.ts:44-51 | the counting loop returns the Error and Warning counts over all pairs and the pairs unchanged |
| Diagnostics.OutputErrorsToDiagnostics | src/compiler.ts:26-56 | publishes every record's diagnostic under its file in record order, and returns the Error and Warning counts |
| Diagnostics.OutputErrorsToChannel | src/compiler.ts:13-19 | every record is appended to the channel verbatim, in order |
| SolcOutput.ToJson | src/compiler.ts:197-205 | the `.json` document has exactly the fields abi, bytecode, functionHashes, gasEstimates and runtimeBytecode, in that order, and reads back as the same artifact |
| SolcOutput.ShortJsonOutput | src/compiler.ts:197-203 | definition of `shortJsonOutput`: abi from `interface`, plus bytecode, functionHashes, gasEstimates and runtimeBytecode of the compiled entry |
| Artifacts.IsValidMeaning | src/compiler.ts:140-149 | `isValid` holds iff each filter is unset or empty or passes: equal to `singleContractFilePath`, not under `excludePath`, under `sourceDir` |
| Artifacts.IsValid | src/compiler.ts:140-149 | definition of `isValid` as the nested tests of `singleContractFilePath`, `excludePath` and `sourceDir` |
| Artifacts.ContractJobsChildMembership | src/compiler.ts:158-163 | a source yields a contract iff one of its top-level children yields it |
| Artifacts.ContractJobsMembership | src/compiler.ts:158-163 | a source yields a contract exactly for each child tagged `Contract` or `ContractDefinition`, named by its `attributes.name` |
| Artifacts.JobsSourceMembership | src/compiler.ts:153-156 | a contract is processed iff some source of the output contributes it |
| Artifacts.JobsMembership | src/compiler.ts:153-163 | the contracts processed are exactly the contract-definition children of the sources that pass `isValid` |
| Artifacts.OutputDirMirrors | src/compiler.ts:165-167 | a source under the root has its artifacts in its own directory, mirrored under the build directory |
| Artifacts.OutputDirSeparates | src/compiler.ts:151-167 | two sources under the root share an output directory iff they share a directory |
| Artifacts.BinPath | src/compiler.ts:134 | definition of `binPath`: the build directory joined to the workspace root |
| Artifacts.OutputDir | src/compiler.ts:165-167 | definition of `dirName`: the directory of the source's path relative to the root, joined to `binPath` |
| Artifacts.ArtifactPath | src/compiler.ts:173-176 | definition of the four artifact paths: the directory joined to the contract name plus the extension |
| Artifacts.KindOfName | src/compiler.ts:173-176 | a contract's file name ends in its own extension and in none of the extensions tested before it |
| Artifacts.KindOfArtifactPath | src/compiler.ts:173-176 | each artifact path is recognised by its extension as its own kind |
| Artifacts.ArtifactPathInjective | src/compiler.ts:173-176 | equal artifact paths have the same directory, contract name and kind |
| Artifacts.DisjointArtifactPaths | src/compiler.ts:173-176 | contracts with a different directory or name share no artifact path |
| Artifacts.ArtifactPathsDistinct | src/compiler.ts:173-176 | the four artifact paths of one contract are four different paths |
| Artifacts.Ancestors | src/compiler.ts:170 | the directories `mkdirsSync` makes include the directory itself |
| Artifacts.FileSystem.MkdirSync | src/compiler.ts:137 | adds one directory and leaves the files alone |
| Artifacts.FileSystem.MkdirsSync | src/compiler.ts:170 | adds the directory and its ancestors and leaves the files alone |
| Artifacts.FileSystem.UnlinkSync | src/compiler.ts:179 | removes exactly one existing file |
| Artifacts.FileSystem.WriteFileSync | src/compiler.ts:194 | creates or replaces exactly one file |
| Artifacts.NewFiles | src/compiler.ts:194-205 | definition of the three files written: `.bin` the bytecode, `.abi` the interface, `.json` the short JSON artifact |
| Artifacts.ContractStep | src/compiler.ts:165-205 | definition of one contract's step: make the directory when missing, delete the four paths, throw when the entry is missing, else write the three files |
| Artifacts.SourceRun | src/compiler.ts:158-216 | definition of the child callback over one source: each contract child in order, stopping at the first throw |
| Artifacts.SourcesRun | src/compiler.ts:153-216 | definition of the source loop: each `isValid` source in order, stopping at the first throw |
| Artifacts.WithBinPath | src/compiler.ts:134-138 | definition of the first step: make `binPath` when it does not exist |
| Artifacts.WriteOutput | src/compiler.ts:132-218 | definition of the whole writer: the `binPath` step, then the source loop |
| Artifacts.RunJobsAppend | src/compiler.ts:153-216 | running two lists of contracts in a row is running the second from where the first stopped, unless the first threw |
| Artifacts.OutOfScopeSourceSkipped | src/compiler.ts:153-156 | a source failing `isValid` changes nothing, wherever it stands in the output |
| Artifacts.SourceRunIsRunJobs | src/compiler.ts:158-216 | the child callback over one source does what its contract list does |
| Artifacts.SourcesRunIsRunJobs | src/compiler.ts:153-216 | the source loop does what the flattened contract list does |
| Artifacts.SourceRunStopped | src/compiler.ts:158-194 | once a child throws, the remaining children change nothing |
| Artifacts.SourcesRunStopped | src/compiler.ts:153-194 | once a source throws, the remaining sources change nothing |
| Artifacts.ContractStepFrame | src/compiler.ts:169-205 | one contract changes only its four artifact paths, makes its directory when missing, and throws iff its entry is missing |
| Artifacts.ContractStepWrites | src/compiler.ts:173-205 | after one contract, `.bin`, `.abi` and `.json` hold its entry's bytecode, interface and artifact, `.sol.js` is gone, and a missing entry leaves none of the four |
| Artifacts.EffectWritesTouched | src/compiler.ts:178-205 | every file written is one of the deleted paths, and none is a `.sol.js` |
| Artifacts.RunJobsFiles | src/compiler.ts:153-216 | a run leaves the files as its effect says: the touched paths removed and the written files put in, whatever the starting files |
| Artifacts.RunJobsDirs | src/compiler.ts:136-171 | a run only adds directories, every output directory exists afterwards, and none is added when all existed |
| Artifacts.ApplyIdempotent | src/compiler.ts:178-205 | deleting then writing the same files a second time changes nothing |
| Artifacts.RunJobsIdempotent | src/compiler.ts:153-216 | running the same contracts on the result gives the same result |
| Artifacts.WriteOutputIdempotent | src/compiler.ts:132-218 | writing the same compiler output twice leaves the same file system and outcome as writing it once |
| Artifacts.EffectTouchedByJobs | src/compiler.ts:173-192 | every deleted path is an artifact path of a processed contract |
| Artifacts.WriteOutputFrame | src/compiler.ts:132-218 | a path that is no artifact path of a selected contract keeps its content, or its absence |
| Artifacts.LastJobWrites | src/compiler.ts:194-205 | the last contract of a completed run leaves its three files written and its `.sol.js` deleted |
| Artifacts.LaterJobKeeps | src/compiler.ts:178-205 | a later contract with other paths keeps an earlier contract's files |
| Artifacts.EffectLastWriter | src/compiler.ts:153-216 | in a completed run, a contract whose paths no later contract shares ends with its three files and no `.sol.js` |
| Artifacts.NewFilesContents | src/compiler.ts:194-205 | the three files are `.bin` with the bytecode, `.abi` with the interface and `.json` with the artifact |
| Artifacts.RunJobsArtifacts | src/compiler.ts:153-216 | after a completed run, a contract that no later contract shares paths with has its three files and no `.sol.js` |
| Artifacts.WriteOutputArtifacts | src/compiler.ts:165-205 | after a completed write, `D/N.bin`, `D/N.abi` and `D/N.json` hold the entry's bytecode, interface and artifact, and `D/N.sol.js` is absent |
| Artifacts.RemoveArtifacts | src/compiler.ts:178-192 | the four existence checks and unlinks remove exactly the four artifact paths |
| Artifacts.WriteArtifacts | src/compiler.ts:194-205 | the three writes add exactly the `.bin`, `.abi` and `.json` files |
| Artifacts.WriteContract | src/compiler.ts:163-205 | the callback for one contract changes the file system as one contract step does, and reports whether it threw |
| Artifacts.WriteSource | src/compiler.ts:158-216 | the child loop of one source does what the specified child run does |
| Artifacts.WriteCompilationOutputToBuildDirectory | src/compiler.ts:132-218 | the writer leaves the file system, and reports completion, as `WriteOutput` says |
| Compiler.Process | src/compiler.ts:96-130 | empty output: nothing cleared, logged or written. Otherwise: diagnostics replaced by this run's, errors logged, artifacts written iff `errors` is absent or has 0 errors and some warnings, and the file system unchanged when nothing is written |
| Compiler.WritesIff | src/compiler.ts:108-129 | artifacts are written iff `errors` is absent, or no record is an Error and some record is a Warning |
| Compiler.EmptyErrorsWriteNothing | src/compiler.ts:108-124 | a present but empty `errors` list writes nothing and reports zero counts |
| Compiler.ShouldWrite | src/compiler.ts:108-129 | definition of the write decision: with an `errors` list, no errors and some warnings; without one, always |
| Compiler.CompilerFor | src/compiler.ts:74-92 | definition of the compiler choice: the bundled one when no remote version is configured, else the loaded remote version, or none when loading fails |
| Compiler.ProcessCompilationOutput | src/compiler.ts:96-130 | the channel, the collection and the file system change as `Process` says |
| Compiler.Compile | src/compiler.ts:58-94 | an empty source map changes nothing; a failed remote load clears the channel only; otherwise the chosen compiler's output is processed after the channel is cleared |

## Left out

- The window notifications (status bar, warning, error and information messages) and `outputChannel.show()` are presentation only. The notifications appear only as the case of `Outcome`.
- The configuration lookup of `compileUsingRemoteVersion` is a parameter, `remoteVersion`. `None` stands for undefined or null.
- The compiler and `solc.loadRemoteVersion` are function parameters. The callback of the remote load runs at once, in order.
- `errorToDiagnostic` lives in `./compilerErrors`, which is not part of this model. It is a parameter from record to (diagnostic, file name).
- Node's `path` normalisation of `.`, `..`, repeated and trailing separators and Windows separators is not modelled. Paths are split on `/` and empty segments are dropped.
- The file system keeps files and directories apart, so `existsSync` on a directory path consults only the directory set. File-system failures, permissions and partial writes are not modelled.
- The `.json` file holds the artifact record, not its text. Its rendering is `ToJson`; the 4-space formatting of `JSON.stringify` is not modelled. Fields that are `undefined` in the compiler output, which `JSON.stringify` omits, are not modelled: every field is present.
- The compiler output keeps only the fields that are read.
- `vscode.Uri.file` normalises its argument: a leading `/` is added to a relative name, Windows backslashes become `/`, and a `//host/` prefix becomes an authority. The model keeps the file name exactly as the error parser gives it. Two spellings of one file that the editor would merge therefore stay separate entries in the published map.
- Overlapping compilation runs and the commented-out truffle artifactor (lines 207-215) are not modelled.
- Artifacts.WriteOutputArtifacts: states the file contents only for contracts whose output paths no later contract shares. Two same-named contracts in one directory write the same paths, and the later one wins, as `Artifacts.OutputDirSeparates` and `Artifacts.EffectLastWriter` describe.
