/**
 * The `Compiler` object of src/app/compiler.js: its session state, the
 * compile driver, the glue between import resolution and the compiler
 * back end, and `compilationFinished`.
 *
 * Every asynchronous hand-off becomes a returned `Next` value: the GitHub
 * fetcher, the in-process compiler and the worker are outside the model, and
 * a driver calls back into the object with what they produced.
 */
module Orchestrator {
  import opened Patterns
  import opened Resolver
  import opened Classifier
  import opened Jobs

  /** `self.lastCompilationResult`. */
  datatype LastResult =
    | Initial                                // `{data: null, source: null}`
    | Cleared                                // `null`
    | Stored(data: Payload, source: Input)   // `{data, source}`

  /** Events raised on `self.event`. */
  datatype Event =
    | Started                                       // 'compilationStarted'
    | Loaded(version: string)                       // 'compilerLoaded'
    | Finished(success: bool, data: Payload, source: Input)
    | Unresolved(error: string, files: Bundle)      // 'compilationFinished' with [false, {error}, files]

  /** A resolution waiting for `handleGithubCall` to answer. */
  datatype Suspended = Suspended(path: Path, ownerRepo: string, rest: string, files: Bundle, hints: seq<Path>)

  /** What `handleGithubCall` delivers to its callback. */
  datatype FetchOutcome = Fetched(content: Text) | FetchError(message: string)

  /** What the in-process `compiler.compile` did; `requested` lists its missing-input callbacks in order. */
  datatype Run = Returned(data: Payload, requested: seq<Path>) | Threw(exception: string, requested: seq<Path>)

  /** What a worker 'compiled' message carries in `data.data`: JSON, or text that does not parse. */
  datatype Reply = Parsed(data: Payload) | Unparsable(exception: string)

  /** What happens after a call returns. */
  datatype Next =
    | Idle                                  // an event was raised, or nothing is pending
    | AwaitFetch(pending: Suspended)        // `handleGithubCall(ownerRepo, rest, cb)` is in flight
    | CallBackend(input: Input, level: int) // `compileJSON(input, optimize ? 1 : 0)`
    | Throws                                // a TypeError escapes

  /**
   * What follows a resolution outcome: `compileJSON(input, optimize ? 1 : 0)`
   * after a success, nothing after a failure (its event has been raised), and
   * the wait for `handleGithubCall` after a suspension.
   */
  ghost predicate Continues(g: Gathered, optimize: bool, next: Next)
  {
    match g
    case SingleSource(source) => next == CallBackend(Single(source), if optimize then 1 else 0)
    case Sources(files) => next == CallBackend(Multi(files), if optimize then 1 else 0)
    case Failed(_, _) => next == Idle
    case Fetch(path, ownerRepo, rest, files, hints) => next == AwaitFetch(Suspended(path, ownerRepo, rest, files, hints))
  }

  /** The result `compileJSON` hands on: the compiler's output, or an exception turned into an error. */
  function RunResult(run: Run): (r: Payload)
    ensures run.Returned? ==> r == run.data
    ensures run.Threw? ==> r.error == Some(ExceptionPrefix + run.exception) && r.errors.None?
    ensures run.Threw? ==> forall errorType: string -> string ::
      Fatal(errorType, r) <==> IsValidError(errorType, ExceptionPrefix + run.exception)
  {
    match run
    case Returned(data, _) => data
    case Threw(exception, _) => ErrorPayload(ExceptionPrefix, exception)
  }

  /** The result of a worker reply: the parsed JSON, or the parse error turned into an error. */
  function ReplyResult(reply: Reply): (r: Payload)
    ensures reply.Parsed? ==> r == reply.data
    ensures reply.Unparsable? ==> r.error == Some(InvalidJsonPrefix + reply.exception) && r.errors.None?
    ensures reply.Unparsable? ==> forall errorType: string -> string ::
      Fatal(errorType, r) <==> IsValidError(errorType, InvalidJsonPrefix + reply.exception)
  {
    match reply
    case Parsed(data) => data
    case Unparsable(exception) => ErrorPayload(InvalidJsonPrefix, exception)
  }

  class Compiler {
    var cachedRemoteFiles: map<Path, Text>
    var acceptsMultipleFiles: bool
    var optimize: bool
    var lastCompilationResult: LastResult
    ghost var events: seq<Event>

    /** The constructor: an empty cache, no optimisation, no compiler loaded yet. */
    constructor()
      ensures cachedRemoteFiles == map[] && !acceptsMultipleFiles && !optimize
      ensures lastCompilationResult == Initial && events == []
    {
      cachedRemoteFiles := map[];
      acceptsMultipleFiles := false;
      optimize := false;
      lastCompilationResult := Initial;
      events := [];
    }

    /** `setOptimize` */
    method SetOptimize(o: bool)
      modifies this
      ensures optimize == o
      ensures cachedRemoteFiles == old(cachedRemoteFiles) && acceptsMultipleFiles == old(acceptsMultipleFiles)
      ensures lastCompilationResult == old(lastCompilationResult) && events == old(events)
    {
      optimize := o;
    }

    /**
     * A compiler finished loading, said whether it takes several files, and
     * `onCompilerLoaded(version)` raised 'compilerLoaded'.
     */
    method CompilerLoaded(supportsMulti: bool, version: string)
      modifies this
      ensures acceptsMultipleFiles == supportsMulti
      ensures cachedRemoteFiles == old(cachedRemoteFiles) && optimize == old(optimize)
      ensures lastCompilationResult == old(lastCompilationResult) && events == old(events) + [Loaded(version)]
    {
      acceptsMultipleFiles := supportsMulti;
      events := events + [Loaded(version)];
    }

    /**
     * `internalCompile(files, hints)`: resolve imports, then either call the
     * back end or report the failure. `g` is what `gatherImports` handed its
     * callback.
     */
    method InternalCompile(files: Bundle, hints: seq<Path>, editor: Editor) returns (g: Gathered, next: Next)
      requires files.Valid()
      modifies this
      ensures g == Gather(acceptsMultipleFiles, files, hints, editor, cachedRemoteFiles)
      ensures Continues(g, optimize, next)
      ensures cachedRemoteFiles == old(cachedRemoteFiles)
      ensures acceptsMultipleFiles == old(acceptsMultipleFiles) && optimize == old(optimize)
      ensures g.Failed? ==>
        lastCompilationResult == Cleared && events == old(events) + [Unresolved(g.error, g.files)]
      ensures !g.Failed? ==>
        lastCompilationResult == old(lastCompilationResult) && events == old(events)
    {
      g := GatherImports(acceptsMultipleFiles, files, hints, editor, cachedRemoteFiles);
      if g.Failed? {
        lastCompilationResult := Cleared;
        events := events + [Unresolved(g.error, g.files)];
      }
      next := match g
        case SingleSource(source) => CallBackend(Single(source), if optimize then 1 else 0)
        case Sources(b) => CallBackend(Multi(b), if optimize then 1 else 0)
        case Failed(_, _) => Idle
        case Fetch(path, ownerRepo, rest, b, left) => AwaitFetch(Suspended(path, ownerRepo, rest, b, left));
    }

    /** `compile()`: the open editor file, under its file name, as a one-file bundle. */
    method Compile(editor: Editor, fileNameFromKey: Path -> Path) returns (g: Gathered, next: Next)
      modifies this
      ensures g == Gather(acceptsMultipleFiles, SingleFile(fileNameFromKey(editor.cacheFile), editor.value),
                          [], editor, cachedRemoteFiles)
      ensures Continues(g, optimize, next)
      ensures cachedRemoteFiles == old(cachedRemoteFiles)
      ensures acceptsMultipleFiles == old(acceptsMultipleFiles) && optimize == old(optimize)
      ensures g.Failed? ==>
        lastCompilationResult == Cleared && events == old(events) + [Started, Unresolved(g.error, g.files)]
      ensures !g.Failed? ==>
        lastCompilationResult == old(lastCompilationResult) && events == old(events) + [Started]
    {
      ghost var before := events;
      events := events + [Started];
      var files := SingleFile(fileNameFromKey(editor.cacheFile), editor.value);
      ghost var a, c := acceptsMultipleFiles, cachedRemoteFiles;
      g, next := InternalCompile(files, [], editor);
      assert g == Gather(a, files, [], editor, c);
      if g.Failed? {
        assert before + [Started] + [Unresolved(g.error, g.files)] == before + [Started, Unresolved(g.error, g.files)];
      }
    }

    /**
     * The callback of `handleGithubCall`. On an error the import fails with the
     * fetcher's message and nothing is added; on success the content goes into
     * both the session cache and the bundle, and resolution resumes with the
     * hints that were left.
     */
    method FetchArrived(s: Suspended, outcome: FetchOutcome, editor: Editor) returns (g: Option<Gathered>, next: Next)
      requires s.files.Valid()
      modifies this
      ensures acceptsMultipleFiles == old(acceptsMultipleFiles) && optimize == old(optimize)
      ensures outcome.FetchError? ==>
        && g.None? && next == Idle
        && cachedRemoteFiles == old(cachedRemoteFiles)
        && lastCompilationResult == Cleared
        && events == old(events) + [Unresolved(ImportError(s.path, outcome.message), s.files)]
      ensures outcome.Fetched? ==>
        && cachedRemoteFiles == old(cachedRemoteFiles)[s.path := outcome.content]
        && g.Some?
        && g.value == Gather(acceptsMultipleFiles, Put(s.files, s.path, outcome.content), s.hints, editor, cachedRemoteFiles)
        && Continues(g.value, optimize, next)
        && (g.value.Failed? ==>
          lastCompilationResult == Cleared && events == old(events) + [Unresolved(g.value.error, g.value.files)])
        && (!g.value.Failed? ==>
          lastCompilationResult == old(lastCompilationResult) && events == old(events))
    {
      match outcome
      case FetchError(message) =>
        lastCompilationResult := Cleared;
        events := events + [Unresolved(ImportError(s.path, message), s.files)];
        g, next := None, Idle;
      case Fetched(content) =>
        cachedRemoteFiles := cachedRemoteFiles[s.path := content];
        var files := Put(s.files, s.path, content);
        var r;
        r, next := InternalCompile(files, s.hints, editor);
        g := Some(r);
    }

    /**
     * `compilationFinished(data, missingInputs, source)`. A retry resolves the
     * bundle again at once; `g` is then what that resolution handed on.
     */
    method CompilationFinished(errorType: string -> string, data: Payload, missing: Option<seq<Path>>,
                               source: Input, editor: Editor)
      returns (d: Decision, g: Option<Gathered>, next: Next)
      requires source.Multi? ==> source.files.Valid()
      modifies this
      ensures d == Route(Fatal(errorType, data), missing, source)
      ensures cachedRemoteFiles == old(cachedRemoteFiles)
      ensures acceptsMultipleFiles == old(acceptsMultipleFiles) && optimize == old(optimize)
      ensures d.Abort? ==>
        && g.None? && next == Idle && lastCompilationResult == Cleared
        && events == old(events) + [Finished(false, data, source)]
      ensures d.Accept? ==>
        && g.None? && next == Idle && lastCompilationResult == Stored(data, source)
        && events == old(events) + [Finished(true, data, source)]
      ensures d.Crash? ==>
        && g.None? && next == Throws
        && lastCompilationResult == old(lastCompilationResult) && events == old(events)
      ensures d.Retry? ==>
        && g.Some?
        && g.value == Gather(acceptsMultipleFiles, d.files, d.hints, editor, cachedRemoteFiles)
        && Continues(g.value, optimize, next)
        && (g.value.Failed? ==>
          lastCompilationResult == Cleared && events == old(events) + [Unresolved(g.value.error, g.value.files)])
        && (!g.value.Failed? ==>
          lastCompilationResult == old(lastCompilationResult) && events == old(events))
    {
      var ok := NoFatalErrors(errorType, data);
      d := Route(!ok, missing, source);
      g, next := None, Idle;
      match d
      case Abort =>
        lastCompilationResult := Cleared;
        events := events + [Finished(false, data, source)];
      case Accept =>
        lastCompilationResult := Stored(data, source);
        events := events + [Finished(true, data, source)];
      case Crash =>
        next := Throws;
      case Retry(files, hints) =>
        var r;
        r, next := InternalCompile(files, hints, editor);
        g := Some(r);
    }

    /**
     * The in-process `compileJSON`: every missing-input request is recorded in
     * order and answered with the sentinel, an exception becomes an error
     * result, and the outcome goes to `compilationFinished`.
     */
    method InProcessCompiled(errorType: string -> string, source: Input, run: Run, editor: Editor)
      returns (d: Decision, g: Option<Gathered>, next: Next)
      requires source.Multi? ==> source.files.Valid()
      modifies this
      ensures d == Route(Fatal(errorType, RunResult(run)), Some(run.requested), source)
      ensures cachedRemoteFiles == old(cachedRemoteFiles)
      ensures acceptsMultipleFiles == old(acceptsMultipleFiles) && optimize == old(optimize)
      ensures d.Abort? ==>
        && g.None? && next == Idle && lastCompilationResult == Cleared
        && events == old(events) + [Finished(false, RunResult(run), source)]
      ensures d.Accept? ==>
        && g.None? && next == Idle && lastCompilationResult == Stored(RunResult(run), source)
        && events == old(events) + [Finished(true, RunResult(run), source)]
      ensures d.Crash? ==>
        && g.None? && next == Throws
        && lastCompilationResult == old(lastCompilationResult) && events == old(events)
      ensures d.Retry? ==>
        && g.Some?
        && g.value == Gather(acceptsMultipleFiles, d.files, d.hints, editor, cachedRemoteFiles)
        && Continues(g.value, optimize, next)
        && (g.value.Failed? ==>
          lastCompilationResult == Cleared && events == old(events) + [Unresolved(g.value.error, g.value.files)])
        && (!g.value.Failed? ==>
          lastCompilationResult == old(lastCompilationResult) && events == old(events))
    {
      // The callback pushed each requested path, in order, and answered MissingInputReply().
      var missing := run.requested;
      var result := match run
        case Returned(data, _) => data
        case Threw(exception, _) => ErrorPayload(ExceptionPrefix, exception);
      d, g, next := CompilationFinished(errorType, result, Some(missing), source, editor);
    }

    /**
     * A worker 'compiled' message for job `id`: parse its output, take the job's
     * sources out of the table, and pass both to `compilationFinished`.
     */
    method WorkerCompiled(errorType: string -> string, jobs: JobTable, id: nat, reply: Reply,
                          missing: Option<seq<Path>>, editor: Editor)
      returns (d: Decision, g: Option<Gathered>, next: Next)
      requires id < |jobs.jobs| && jobs.jobs[id].Some?
      requires jobs.jobs[id].value.Multi? ==> jobs.jobs[id].value.files.Valid()
      modifies this, jobs
      ensures jobs.jobs == old(jobs.jobs)[id := None]
      ensures d == Route(Fatal(errorType, ReplyResult(reply)), missing, old(jobs.jobs[id]).value)
      ensures cachedRemoteFiles == old(cachedRemoteFiles)
      ensures acceptsMultipleFiles == old(acceptsMultipleFiles) && optimize == old(optimize)
      ensures d.Abort? ==>
        && g.None? && next == Idle && lastCompilationResult == Cleared
        && events == old(events) + [Finished(false, ReplyResult(reply), old(jobs.jobs[id]).value)]
      ensures d.Accept? ==>
        && g.None? && next == Idle && lastCompilationResult == Stored(ReplyResult(reply), old(jobs.jobs[id]).value)
        && events == old(events) + [Finished(true, ReplyResult(reply), old(jobs.jobs[id]).value)]
      ensures d.Crash? ==>
        && g.None? && next == Throws
        && lastCompilationResult == old(lastCompilationResult) && events == old(events)
      ensures d.Retry? ==>
        && g.Some?
        && g.value == Gather(acceptsMultipleFiles, d.files, d.hints, editor, cachedRemoteFiles)
        && Continues(g.value, optimize, next)
        && (g.value.Failed? ==>
          lastCompilationResult == Cleared && events == old(events) + [Unresolved(g.value.error, g.value.files)])
        && (!g.value.Failed? ==>
          lastCompilationResult == old(lastCompilationResult) && events == old(events))
    {
      var result := match reply
        case Parsed(data) => data
        case Unparsable(exception) => ErrorPayload(InvalidJsonPrefix, exception);
      var source := jobs.Consume(id);
      d, g, next := CompilationFinished(errorType, result, missing, source, editor);
    }
  }
}
