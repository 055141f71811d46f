/**
 * `compilationFinished` of src/app/compiler.js: deciding whether a compiler
 * result is fatal, and where a result goes next.
 *
 * `utils.errortype` lives in a file that is not part of this model; it is a
 * parameter `errorType` mapping an error message to its type word.
 */
module Classifier {
  import opened Patterns
  import opened Resolver

  /**
   * The fields of a compiler result the orchestrator reads: `error` and
   * `errors`, each possibly undefined. `rest` stands for everything else in
   * the output (contracts, sources), which passes through untouched.
   */
  datatype Payload = Payload(error: Option<string>, errors: Option<seq<string>>, rest: string)

  /**
   * What `compileJSON` was given: `{sources: files}` from a multi-file
   * resolution, or, for a single-file compiler, `files[editor.getCacheFile()]`,
   * which is undefined when that key is absent.
   */
  datatype Input = Multi(files: Bundle) | Single(text: Option<Text>)

  /** The error the in-process missing-input callback answers with. */
  const Deferred: string := "Deferred import"

  /** `isValidError`: not the deferred-import sentinel, and not a warning. */
  predicate IsValidError(errorType: string -> string, e: string): (b: bool)
    ensures b ==> errorType(e) != "warning"
    ensures forall pre, post :: e == pre + (Deferred + post) ==> !b
  {
    EveryShapeContains(e, Deferred);
    !Contains(e, Deferred) && errorType(e) != "warning"
  }

  /** The text and the pattern around it, wherever it sits, are found by the search. */
  lemma EveryShapeContains(e: string, pat: string)
    ensures forall pre, post :: e == pre + (pat + post) ==> Contains(e, pat)
  {
    forall pre, post | e == pre + (pat + post) ensures Contains(e, pat) {
      ContainsComplete(pre, pat, post);
    }
  }

  /** Every message of a result: its `error`, then its `errors`. */
  function Messages(d: Payload): seq<string>
  {
    (if d.error.Some? then [d.error.value] else []) + (if d.errors.Some? then d.errors.value else [])
  }

  /** A result is fatal iff its `error`, or one of its `errors`, is a valid error. */
  predicate Fatal(errorType: string -> string, d: Payload): (b: bool)
    ensures b <==> exists e :: e in Messages(d) && IsValidError(errorType, e)
  {
    FatalByMessages(errorType, d);
    || (d.error.Some? && IsValidError(errorType, d.error.value))
    || (d.errors.Some? && exists i :: 0 <= i < |d.errors.value| && IsValidError(errorType, d.errors.value[i]))
  }

  /** Looking through the `error` field and then the `errors` list is looking through every message. */
  lemma FatalByMessages(errorType: string -> string, d: Payload)
    ensures (|| (d.error.Some? && IsValidError(errorType, d.error.value))
             || (d.errors.Some? && exists i :: 0 <= i < |d.errors.value| && IsValidError(errorType, d.errors.value[i])))
        <==> exists e :: e in Messages(d) && IsValidError(errorType, e)
  {
    var head := if d.error.Some? then [d.error.value] else [];
    var tail := if d.errors.Some? then d.errors.value else [];
    assert Messages(d) == head + tail;
    if d.errors.Some? {
      forall i | 0 <= i < |tail| ensures tail[i] in Messages(d) {
        assert Messages(d)[|head| + i] == tail[i];
      }
    }
    forall e | e in Messages(d) && IsValidError(errorType, e)
      ensures || (d.error.Some? && IsValidError(errorType, d.error.value))
              || (d.errors.Some? && exists i :: 0 <= i < |d.errors.value| && IsValidError(errorType, d.errors.value[i]))
    {
      if e !in head {
        assert e in tail;
        var i :| 0 <= i < |tail| && tail[i] == e;
      }
    }
  }

  /** The `noFatalErrors` flag, as the source computes it with `forEach`. */
  method NoFatalErrors(errorType: string -> string, d: Payload) returns (ok: bool)
    ensures ok <==> !Fatal(errorType, d)
  {
    ok := true;
    if d.error.Some? && IsValidError(errorType, d.error.value) {
      ok := false;
    }
    if d.errors.Some? {
      var errs := d.errors.value;
      for i := 0 to |errs|
        invariant ok <==> !(d.error.Some? && IsValidError(errorType, d.error.value))
                          && forall j :: 0 <= j < i ==> !IsValidError(errorType, errs[j])
      {
        if IsValidError(errorType, errs[i]) {
          ok := false;
        }
      }
    }
  }

  /** The reply of the in-process missing-input callback: `{error: 'Deferred import'}`. */
  function MissingInputReply(): (r: Payload)
    ensures r.error.Some? && r.errors.None?
    ensures forall errorType: string -> string :: !Fatal(errorType, r)
  {
    ContainsComplete([], Deferred, []);
    assert [] + (Deferred + []) == Deferred;
    Payload(Some(Deferred), None, "")
  }

  /** Any message that mentions the sentinel is ignored, whatever its type. */
  lemma MentionsDeferredNotValid(errorType: string -> string, pre: string, post: string)
    ensures !IsValidError(errorType, pre + (Deferred + post))
  {
    ContainsComplete(pre, Deferred, post);
  }

  /** A result whose every message is a warning or mentions the sentinel is not fatal. */
  lemma IgnoredErrorsNotFatal(errorType: string -> string, d: Payload)
    requires d.error.Some? ==> errorType(d.error.value) == "warning" || Contains(d.error.value, Deferred)
    requires d.errors.Some? ==>
      forall i :: 0 <= i < |d.errors.value| ==>
        errorType(d.errors.value[i]) == "warning" || Contains(d.errors.value[i], Deferred)
    ensures !Fatal(errorType, d)
  {
  }

  /** What `compilationFinished` does with a result. */
  datatype Decision =
    | Abort                                  // fatal: clear the stored result, report failure
    | Retry(files: Bundle, hints: seq<Path>) // resolve again with the missing inputs as hints
    | Accept                                 // store `{data, source}`, report success
    | Crash                                  // `source.sources` on a non-bundle source: a TypeError

  /**
   * The three-way branch of `compilationFinished`. `missing` is `missingInputs`,
   * which may be undefined; an undefined or empty list does not cause a retry.
   */
  function Route(fatal: bool, missing: Option<seq<Path>>, source: Input): (d: Decision)
    ensures d.Abort? <==> fatal
    ensures d.Accept? <==> !fatal && (missing.None? || missing.value == [])
    ensures d.Retry? <==> !fatal && missing.Some? && missing.value != [] && source.Multi?
    ensures d.Retry? ==> d.files == source.files && d.hints == missing.value
  {
    if fatal then Abort
    else if missing.Some? && |missing.value| > 0 then
      match source
      case Multi(files) => Retry(files, missing.value)
      case Single(_) => Crash
    else Accept
  }

  /**
   * The deferred-import workaround: a result that only reports the sentinel
   * (and warnings) while inputs are missing resolves again, on the same bundle.
   */
  lemma DeferredImportsRetry(errorType: string -> string, d: Payload, missing: seq<Path>, files: Bundle)
    requires d.error.Some? ==> errorType(d.error.value) == "warning" || Contains(d.error.value, Deferred)
    requires d.errors.Some? ==>
      forall i :: 0 <= i < |d.errors.value| ==>
        errorType(d.errors.value[i]) == "warning" || Contains(d.errors.value[i], Deferred)
    requires missing != []
    ensures Route(Fatal(errorType, d), Some(missing), Multi(files)) == Retry(files, missing)
  {
    IgnoredErrorsNotFatal(errorType, d);
  }

  /** The prefix of the error an exception thrown by the in-process compiler becomes. */
  const ExceptionPrefix: string := "Uncaught JavaScript exception:\n"

  /** The prefix of the error a worker reply that is not JSON becomes. */
  const InvalidJsonPrefix: string := "Invalid JSON output from the compiler: "

  /**
   * `{error: prefix + exception}`: a result carrying a single error and no
   * `errors` list, fatal exactly when that one message is a valid error.
   */
  function ErrorPayload(prefix: string, exception: string): (r: Payload)
    ensures r.error == Some(prefix + exception) && r.errors.None?
    ensures forall errorType: string -> string ::
      Fatal(errorType, r) <==> IsValidError(errorType, prefix + exception)
  {
    Payload(Some(prefix + exception), None, "")
  }
}
