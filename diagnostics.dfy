/**
 * Turning the compiler's raw error records into editor diagnostics.
 *
 * Each raw record is parsed by an error parser that is not part of this
 * model; it is a parameter `toDiagnostic` from the record to its diagnostic
 * and the name of the file it belongs to. The aggregation builds one
 * (uri, diagnostics) tuple per record, counts the Error and Warning
 * severities over all tuples, and publishes the tuples to the editor's
 * diagnostic collection, which merges tuples that name the same file.
 */
module Diagnostics {

  import opened Wrappers

  /** The editor's four diagnostic severities. */
  datatype Severity = Error | Warning | Information | Hint

  datatype Diagnostic = Diagnostic(severity: Severity, message: string)

  /** What the error parser yields for one raw record. */
  datatype MappedError = MappedError(diagnostic: Diagnostic, fileName: string)

  /** A raw compiler error record: free text. */
  type RawError = string

  datatype ErrorWarningCounts = ErrorWarningCounts(errors: nat, warnings: nat)

  /** An editor file URI. Every `File` call makes a new object. */
  class Uri {
    const fsPath: string

    constructor File(path: string)
      ensures fsPath == path
    {
      fsPath := path;
    }
  }

  /** The tuples handed to the diagnostic collection, and the JavaScript `Map` that builds them. */
  type Entries = seq<(Uri, seq<Diagnostic>)>

  /** The diagnostics stored for `f` in `m`, none when `f` has no entry. */
  function Lookup(m: map<string, seq<Diagnostic>>, f: string): seq<Diagnostic> {
    if f in m then m[f] else []
  }

  /**
   * What the collection holds after `set(entries)` on an empty collection:
   * tuples for the same file path are merged in order.
   */
  function Merge(entries: Entries): map<string, seq<Diagnostic>> {
    if entries == [] then map[]
    else
      var m := Merge(entries[..|entries| - 1]);
      var (uri, ds) := entries[|entries| - 1];
      m[uri.fsPath := Lookup(m, uri.fsPath) + ds]
  }

  /** The editor's diagnostic collection: published diagnostics per file path. */
  class DiagnosticCollection {
    var published: map<string, seq<Diagnostic>>

    constructor ()
      ensures published == map[]
    {
      published := map[];
    }

    method Clear()
      modifies this
      ensures published == map[]
    {
      published := map[];
    }

    /** Replaces the diagnostics of every file named in `entries`; other files keep theirs. */
    method Set(entries: Entries)
      modifies this
      ensures published == old(published) + Merge(entries)
    {
      published := published + Merge(entries);
    }
  }

  /** The log channel: lines in the order they were appended. */
  class OutputChannel {
    var lines: seq<string>

    constructor ()
      ensures lines == []
    {
      lines := [];
    }

    method Clear()
      modifies this
      ensures lines == []
    {
      lines := [];
    }

    method AppendLine(line: string)
      modifies this
      ensures lines == old(lines) + [line]
    {
      lines := lines + [line];
    }
  }

  // ---------------------------------------------------------------------
  // Specification of what is published and counted
  // ---------------------------------------------------------------------

  /** The parser applied to every record, in record order. */
  function MapErrors(errors: seq<RawError>, toDiagnostic: RawError -> MappedError): (ms: seq<MappedError>)
    ensures |ms| == |errors|
    ensures forall k :: 0 <= k < |errors| ==> ms[k] == toDiagnostic(errors[k])
  {
    seq(|errors|, k requires 0 <= k < |errors| => toDiagnostic(errors[k]))
  }

  /** The files that some record is attached to. */
  function FileNames(ms: seq<MappedError>): set<string> {
    set k | 0 <= k < |ms| :: ms[k].fileName
  }

  /** The diagnostics of the records attached to `f`, in record order. */
  function DiagnosticsFor(ms: seq<MappedError>, f: string): seq<Diagnostic> {
    if ms == [] then []
    else
      var last := ms[|ms| - 1];
      DiagnosticsFor(ms[..|ms| - 1], f) + (if last.fileName == f then [last.diagnostic] else [])
  }

  /** The intended published set: each file with the diagnostics of its own records. */
  function Published(ms: seq<MappedError>): map<string, seq<Diagnostic>> {
    map f | f in FileNames(ms) :: DiagnosticsFor(ms, f)
  }

  /** All diagnostics, in record order. */
  function AllDiagnostics(ms: seq<MappedError>): (ds: seq<Diagnostic>)
    ensures |ds| == |ms|
    ensures forall k :: 0 <= k < |ms| ==> ds[k] == ms[k].diagnostic
  {
    seq(|ms|, k requires 0 <= k < |ms| => ms[k].diagnostic)
  }

  /** The diagnostics of all tuples, in tuple order. */
  function Flatten(entries: Entries): seq<Diagnostic> {
    if entries == [] then []
    else Flatten(entries[..|entries| - 1]) + entries[|entries| - 1].1
  }

  /** How many of `ds` have severity `s`: `ds.filter(d => d.severity === s).length`. */
  function CountSeverity(ds: seq<Diagnostic>, s: Severity): (n: nat)
    ensures n <= |ds|
  {
    if ds == [] then 0
    else CountSeverity(ds[..|ds| - 1], s) + (if ds[|ds| - 1].severity == s then 1 else 0)
  }

  /** The counts the aggregation is meant to return. */
  function Counts(ms: seq<MappedError>): ErrorWarningCounts {
    var ds := AllDiagnostics(ms);
    ErrorWarningCounts(CountSeverity(ds, Error), CountSeverity(ds, Warning))
  }

  /** The tuple shape the record loop produces: one singleton tuple per record. */
  ghost predicate OneTuplePerRecord(entries: Entries, ms: seq<MappedError>) {
    && |entries| == |ms|
    && forall k :: 0 <= k < |ms| ==>
         entries[k].0.fsPath == ms[k].fileName && entries[k].1 == [ms[k].diagnostic]
  }

  // ---------------------------------------------------------------------
  // Lemmas
  // ---------------------------------------------------------------------

  /** Counting distributes over concatenation. */
  lemma {:induction false} CountSeverityAppend(a: seq<Diagnostic>, b: seq<Diagnostic>, s: Severity)
    ensures CountSeverity(a + b, s) == CountSeverity(a, s) + CountSeverity(b, s)
    decreases |b|
  {
    if b != [] {
      var b' := b[..|b| - 1];
      assert (a + b)[..|a + b| - 1] == a + b';
      assert (a + b)[|a + b| - 1] == b[|b| - 1];
      CountSeverityAppend(a, b', s);
    } else {
      assert a + b == a;
    }
  }

  /** A count is positive exactly when some diagnostic has that severity. */
  lemma {:induction false} CountSeverityPositive(ds: seq<Diagnostic>, s: Severity)
    ensures CountSeverity(ds, s) > 0 <==> exists k :: 0 <= k < |ds| && ds[k].severity == s
  {
    if ds != [] {
      var ds' := ds[..|ds| - 1];
      CountSeverityPositive(ds', s);
      if CountSeverity(ds', s) > 0 {
        var k :| 0 <= k < |ds'| && ds'[k].severity == s;
        assert ds[k] == ds'[k];
      }
      if exists k :: 0 <= k < |ds| && ds[k].severity == s {
        var k :| 0 <= k < |ds| && ds[k].severity == s;
        if k < |ds'| {
          assert ds'[k] == ds[k];
        }
      }
    }
  }

  /** Errors and warnings are counted apart, so together they never exceed the diagnostics. */
  lemma {:induction false} ErrorsAndWarningsBound(ds: seq<Diagnostic>)
    ensures CountSeverity(ds, Error) + CountSeverity(ds, Warning) <= |ds|
  {
    if ds != [] {
      ErrorsAndWarningsBound(ds[..|ds| - 1]);
    }
  }

  /** The counts: bounded by the records, and positive exactly when a record has that severity. */
  lemma CountsMeaning(ms: seq<MappedError>)
    ensures Counts(ms).errors + Counts(ms).warnings <= |ms|
    ensures Counts(ms).errors > 0 <==> exists k :: 0 <= k < |ms| && ms[k].diagnostic.severity == Error
    ensures Counts(ms).warnings > 0 <==> exists k :: 0 <= k < |ms| && ms[k].diagnostic.severity == Warning
  {
    var ds := AllDiagnostics(ms);
    ErrorsAndWarningsBound(ds);
    CountSeverityPositive(ds, Error);
    CountSeverityPositive(ds, Warning);
  }

  /**
   * One more record adds exactly one diagnostic, at the end of its own
   * file's list, and leaves every other file as it was.
   */
  lemma PublishedAppend(ms: seq<MappedError>, m: MappedError)
    ensures Published(ms + [m]) == Published(ms)[m.fileName := Lookup(Published(ms), m.fileName) + [m.diagnostic]]
  {
    var ms' := ms + [m];
    assert ms'[..|ms'| - 1] == ms;
    assert FileNames(ms') == FileNames(ms) + {m.fileName} by {
      forall f | f in FileNames(ms')
        ensures f in FileNames(ms) + {m.fileName}
      {
        var k :| 0 <= k < |ms'| && ms'[k].fileName == f;
        if k < |ms| {
          assert ms[k] == ms'[k];
        }
      }
      forall f | f in FileNames(ms)
        ensures f in FileNames(ms')
      {
        var k :| 0 <= k < |ms| && ms[k].fileName == f;
        assert ms'[k] == ms[k];
      }
      assert ms'[|ms|] == m;
    }
    if m.fileName !in FileNames(ms) {
      DiagnosticsForAbsent(ms, m.fileName);
    }
    var updated := Published(ms)[m.fileName := Lookup(Published(ms), m.fileName) + [m.diagnostic]];
    forall f | f in FileNames(ms')
      ensures Published(ms')[f] == updated[f]
    {
      assert DiagnosticsFor(ms', f) == DiagnosticsFor(ms, f) + (if m.fileName == f then [m.diagnostic] else []);
    }
  }

  /** The diagnostics of a prefix of the records lead those of all records, per file. */
  lemma {:induction false} DiagnosticsForPrefix(ms: seq<MappedError>, j: nat, f: string)
    requires j <= |ms|
    ensures DiagnosticsFor(ms[..j], f) <= DiagnosticsFor(ms, f)
    decreases |ms| - j
  {
    if j < |ms| {
      DiagnosticsForPrefix(ms, j + 1, f);
      assert ms[..j + 1][..j] == ms[..j];
    } else {
      assert ms[..j] == ms;
    }
  }

  /**
   * Record `k` is published once, under its own file name, right after the
   * diagnostics of the earlier records for that file.
   */
  lemma RecordPublishedInOrder(ms: seq<MappedError>, k: nat)
    requires k < |ms|
    ensures var f := ms[k].fileName;
      var i := |DiagnosticsFor(ms[..k], f)|;
      && f in Published(ms)
      && i < |Published(ms)[f]|
      && Published(ms)[f][i] == ms[k].diagnostic
  {
    var f := ms[k].fileName;
    assert ms[..k + 1][..k] == ms[..k];
    assert DiagnosticsFor(ms[..k + 1], f) == DiagnosticsFor(ms[..k], f) + [ms[k].diagnostic];
    DiagnosticsForPrefix(ms, k + 1, f);
    assert f in FileNames(ms);
  }

  /** A file no record is attached to gets no diagnostics. */
  lemma {:induction false} DiagnosticsForAbsent(ms: seq<MappedError>, f: string)
    requires f !in FileNames(ms)
    ensures DiagnosticsFor(ms, f) == []
  {
    if ms != [] {
      var ms' := ms[..|ms| - 1];
      assert f !in FileNames(ms');
      DiagnosticsForAbsent(ms', f);
      assert ms[|ms| - 1].fileName in FileNames(ms);
    }
  }

  /**
   * Publishing one singleton tuple per record, and letting the collection
   * merge tuples of the same file, publishes exactly the intended per-file
   * lists in record order.
   */
  lemma {:induction false} MergeOneTuplePerRecord(entries: Entries, ms: seq<MappedError>)
    requires OneTuplePerRecord(entries, ms)
    ensures Merge(entries) == Published(ms)
    decreases |ms|
  {
    if ms == [] {
      assert FileNames(ms) == {};
    } else {
      var n := |ms| - 1;
      assert OneTuplePerRecord(entries[..n], ms[..n]);
      MergeOneTuplePerRecord(entries[..n], ms[..n]);
      PublishedAppend(ms[..n], ms[n]);
      assert ms[..n] + [ms[n]] == ms;
    }
  }

  /** With one tuple per record, the tuples' diagnostics are the records' diagnostics. */
  lemma {:induction false} FlattenOneTuplePerRecord(entries: Entries, ms: seq<MappedError>)
    requires OneTuplePerRecord(entries, ms)
    ensures Flatten(entries) == AllDiagnostics(ms)
    decreases |ms|
  {
    if ms != [] {
      var n := |ms| - 1;
      assert OneTuplePerRecord(entries[..n], ms[..n]);
      FlattenOneTuplePerRecord(entries[..n], ms[..n]);
      assert AllDiagnostics(ms) == AllDiagnostics(ms[..n]) + [ms[n].diagnostic];
    }
  }

  // ---------------------------------------------------------------------
  // The aggregation, as the source runs it
  // ---------------------------------------------------------------------

  /** A JavaScript `Map` holds each key once. */
  predicate DistinctKeys(diagnosticMap: Entries) {
    forall i, j :: 0 <= i < j < |diagnosticMap| ==> diagnosticMap[i].0 != diagnosticMap[j].0
  }

  /** `Map.get`: the diagnostics of the tuple whose key is the object `uri`. */
  function GetByUri(diagnosticMap: Entries, uri: Uri): (r: Option<seq<Diagnostic>>)
    ensures r.Some? <==> exists k :: 0 <= k < |diagnosticMap| && diagnosticMap[k].0 == uri
    ensures r.Some? ==> exists k :: 0 <= k < |diagnosticMap| && diagnosticMap[k].0 == uri && r.value == diagnosticMap[k].1
  {
    if diagnosticMap == [] then None
    else if diagnosticMap[|diagnosticMap| - 1].0 == uri then Some(diagnosticMap[|diagnosticMap| - 1].1)
    else
      var r := GetByUri(diagnosticMap[..|diagnosticMap| - 1], uri);
      assert forall k :: 0 <= k < |diagnosticMap| - 1 ==> diagnosticMap[..|diagnosticMap| - 1][k] == diagnosticMap[k];
      r
  }

  /** In a `Map`, `get` returns the very list stored under the key. */
  lemma GetByUriFindsStored(diagnosticMap: Entries, uri: Uri, k: nat)
    requires DistinctKeys(diagnosticMap)
    requires k < |diagnosticMap| && diagnosticMap[k].0 == uri
    ensures GetByUri(diagnosticMap, uri) == Some(diagnosticMap[k].1)
  {
    var j :| 0 <= j < |diagnosticMap| && diagnosticMap[j].0 == uri
      && GetByUri(diagnosticMap, uri).value == diagnosticMap[j].1;
    assert j == k;
  }

  /**
   * `Map.set`: replaces the diagnostics of the tuple keyed by `uri` in
   * place, or appends a new tuple when there is none (a `Map` keeps
   * insertion order).
   */
  function SetByUri(diagnosticMap: Entries, uri: Uri, ds: seq<Diagnostic>): (r: Entries)
    ensures (forall k :: 0 <= k < |diagnosticMap| ==> diagnosticMap[k].0 != uri) ==> r == diagnosticMap + [(uri, ds)]
    ensures (exists k :: 0 <= k < |diagnosticMap| && diagnosticMap[k].0 == uri) ==> |r| == |diagnosticMap|
    ensures DistinctKeys(diagnosticMap) ==>
      forall k :: 0 <= k < |diagnosticMap| ==> r[k] == if diagnosticMap[k].0 == uri then (uri, ds) else diagnosticMap[k]
    ensures DistinctKeys(diagnosticMap) ==> DistinctKeys(r)
  {
    if diagnosticMap == [] then [(uri, ds)]
    else if diagnosticMap[0].0 == uri then
      var r := [(uri, ds)] + diagnosticMap[1..];
      assert forall k :: 1 <= k < |diagnosticMap| ==> r[k] == diagnosticMap[k];
      r
    else
      var rest := SetByUri(diagnosticMap[1..], uri, ds);
      var r := [diagnosticMap[0]] + rest;
      assert forall k :: 1 <= k < |diagnosticMap| ==> diagnosticMap[1..][k - 1] == diagnosticMap[k];
      assert forall k :: 1 <= k < |r| ==> r[k] == rest[k - 1];
      assert DistinctKeys(diagnosticMap) ==> DistinctKeys(diagnosticMap[1..]);
      r
  }

  /**
   * The record loop. The JavaScript `Map` is keyed by `Uri` objects, compared
   * by identity, and every record makes a fresh `Uri`, so no lookup finds an
   * earlier tuple: each record ends up in a tuple of its own.
   */
  method GroupByUri(errors: seq<RawError>, toDiagnostic: RawError -> MappedError)
    returns (diagnosticMap: Entries)
    ensures OneTuplePerRecord(diagnosticMap, MapErrors(errors, toDiagnostic))
  {
    ghost var ms := MapErrors(errors, toDiagnostic);
    diagnosticMap := [];
    var i := 0;
    while i < |errors|
      invariant 0 <= i <= |errors|
      invariant OneTuplePerRecord(diagnosticMap, ms[..i])
    {
      var mapped := toDiagnostic(errors[i]);
      var targetUri := new Uri.File(mapped.fileName);
      var diagnostics := GetByUri(diagnosticMap, targetUri).GetOr([]);
      diagnostics := diagnostics + [mapped.diagnostic];
      diagnosticMap := SetByUri(diagnosticMap, targetUri, diagnostics);
      i := i + 1;
    }
  }

  /** The tuple loop: counts Error and Warning severities over every tuple. */
  method CountAndCollect(diagnosticMap: Entries) returns (counts: ErrorWarningCounts, entries: Entries)
    ensures entries == diagnosticMap
    ensures counts.errors == CountSeverity(Flatten(diagnosticMap), Error)
    ensures counts.warnings == CountSeverity(Flatten(diagnosticMap), Warning)
  {
    counts := ErrorWarningCounts(0, 0);
    entries := [];
    var i := 0;
    while i < |diagnosticMap|
      invariant 0 <= i <= |diagnosticMap|
      invariant entries == diagnosticMap[..i]
      invariant counts.errors == CountSeverity(Flatten(entries), Error)
      invariant counts.warnings == CountSeverity(Flatten(entries), Warning)
    {
      var (uri, diags) := diagnosticMap[i];
      CountSeverityAppend(Flatten(entries), diags, Error);
      CountSeverityAppend(Flatten(entries), diags, Warning);
      counts := counts.(errors := counts.errors + CountSeverity(diags, Error),
                        warnings := counts.warnings + CountSeverity(diags, Warning));
      assert (entries + [(uri, diags)])[..i] == entries;
      entries := entries + [(uri, diags)];
      i := i + 1;
    }
    assert diagnosticMap[..i] == diagnosticMap;
  }

  /**
   * `outputErrorsToDiagnostics`: publishes every record's diagnostic under
   * its file, in record order, in one `set` call, and returns the counts.
   */
  method OutputErrorsToDiagnostics(collection: DiagnosticCollection, errors: seq<RawError>,
                                   toDiagnostic: RawError -> MappedError)
    returns (counts: ErrorWarningCounts)
    modifies collection
    ensures collection.published == old(collection.published) + Published(MapErrors(errors, toDiagnostic))
    ensures counts == Counts(MapErrors(errors, toDiagnostic))
  {
    ghost var ms := MapErrors(errors, toDiagnostic);
    var diagnosticMap := GroupByUri(errors, toDiagnostic);
    var entries;
    counts, entries := CountAndCollect(diagnosticMap);
    FlattenOneTuplePerRecord(diagnosticMap, ms);
    MergeOneTuplePerRecord(entries, ms);
    collection.Set(entries);
  }

  /** `outputErrorsToChannel`: every raw record goes to the log verbatim, in order. */
  method OutputErrorsToChannel(channel: OutputChannel, errors: seq<RawError>)
    modifies channel
    ensures channel.lines == old(channel.lines) + errors
  {
    var i := 0;
    while i < |errors|
      invariant 0 <= i <= |errors|
      invariant channel.lines == old(channel.lines) + errors[..i]
    {
      channel.AppendLine(errors[i]);
      assert errors[..i + 1] == errors[..i] + [errors[i]];
      i := i + 1;
    }
    assert errors[..i] == errors;
  }
}
