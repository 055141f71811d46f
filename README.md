# A verified model of the browser-solidity compiler orchestrator

This project models the `Compiler` object of browser-solidity's `src/app/compiler.js` in Dafny.
That object sits between the editor, a GitHub fetcher and the Solidity compiler. The model covers:

- **Import resolution (`gatherImports`).** It grows a bundle of source files from the editor store and
  a session cache of fetched files. A GitHub path suspends resolution until a fetch answers.
- **`compilationFinished`.** It decides whether a compiler result is fatal. Warnings and the
  "Deferred import" sentinel are not fatal. It then aborts, retries resolution with the inputs the
  compiler reported missing, or stores the result.
- **The worker job table.** It correlates worker replies with the sources that were sent.
- **The hand-written recognisers.** These cover the three regular expressions the resolver uses, and
  the removal of a leading `./`.

The modules follow the structure of the source.

- `patterns.dfy`, module `Patterns`. The recognisers:
  - the import pattern `/^\s*import\s*['"]([^'"]+)['"];/`;
  - the GitHub pattern `/^(https?:\/\/)?(www.)?github.com\/([^/]*\/[^/]*)\/(.*)/`;
  - the scheme pattern `/^[^:]*:\/\//`;
  - the `Deferred import` substring test.

  Each recogniser is a function with a soundness lemma and a completeness lemma. The soundness lemma
  says that whatever it accepts has the pattern's shape. The completeness lemma says that every
  string of that shape is accepted, with the expected capture groups.
- `resolver.dfy`, module `Resolver`. `Bundle` is the `files` object: its keys in insertion order
  (the order `for … in` visits them) and their texts. This module also holds:
  - the scan pass `Scan`, and its specification `ScanFrom` over the files' imports;
  - the drain pass `Drain`, and its specification `DrainSpec`, which pops the hints last first;
  - `Gather`, the whole do-while written as recursion over rounds (`GatherFrom`), which fixes the
    result exactly: the key order, which missing path is reported and which fetch is asked for;
  - `GatherImports`, which computes `Gather`; the predicate `Answer` states what every such result
    means (growth, provenance, closure, and the outcome's reason), and `GatherAnswer` proves it.
- `classifier.dfy`, module `Classifier`. It holds `isValidError`, the fatal test, the routing decision
  of `compilationFinished`, the missing-input callback's reply, and the error payloads built from
  exceptions.
- `jobs.dfy`, module `Jobs`. The worker's `jobs` array, as a class over a sequence of optional entries.
- `orchestrator.dfy`, module `Orchestrator`. The `Compiler` object, as a class. It holds the
  session cache, the multi-file flag, the optimise flag and `lastCompilationResult`, and a ghost log
  of the events it raised. The predicate `Continues` says which step follows a resolution: the
  back end at level `optimize ? 1 : 0`, nothing, or a pending fetch.
- `scenarios.dfy`, module `Scenarios`. Four concrete runs, each proved from the contracts above:
  - a local import of `./B.sol`;
  - a deferred import of a file that exists nowhere;
  - a GitHub import that suspends, is fetched and resumes;
  - a worker that answers one job before it dispatches the next.

Asynchrony is modelled with returned values instead of callbacks:

- `GatherImports` returns `Fetch(path, ownerRepo, rest, files, hints)` where the source calls
  `handleGithubCall`.
- `Compiler.FetchArrived` is that call's callback. It writes the cache and the bundle, then resumes
  resolution with the remaining hints. This is what the source's recursive `gatherImports` call does.
- The orchestrator's methods return a `Next` value: `CallBackend(input, level)` for
  `compileJSON(input, optimize ? 1 : 0)`, `AwaitFetch` for a pending fetch, `Idle` after a finish
  event, or `Throws` for a `TypeError`. A driver then calls `InProcessCompiled` or `WorkerCompiled`
  with what the compiler produced.

The loop in `GatherImports` terminates. Its measure is the set of editor and cache paths not yet in
the bundle, and a round that loops always takes at least one path out of that set (`StoresShrink`).
A GitHub fetch leaves the method, so file content fetched from the network cannot make the loop run
forever.

Where the code's behaviour may surprise a reader, the model follows the code:

- **Imports are found at the start of a file only.** The import pattern has no `m` flag, so `^`
  anchors at offset 0. A file contributes at most one import: the one that opens the file after
  optional white space. Imports at the start of later lines are not found.
- **The GitHub pattern needs the literal host.** A bare `owner/repo/rest` without `github.com/` is
  not matched. The two dots in `www.` and `github.com` are unescaped, so each matches any character
  except a line terminator. The last group `(.*)` stops at the first line terminator.
- **A failed fetch keeps earlier files.** Files added earlier in the same resolution stay in the
  bundle. The failure event carries that bundle, because `internalCompile`'s callback closes over the
  same `files` object that `gatherImports` mutated.
- **The single-file compile path can look up the wrong key.** `compile` stores the editor text under
  `utils.fileNameFromKey(editor.getCacheFile())`. The single-file path of `gatherImports` looks up
  `files[editor.getCacheFile()]`. When the two keys differ, the single-file compiler receives
  `undefined`. The model keeps this: `Gather` yields `SingleSource(None)` in that case.
- **A retry on a single-file source is a crash.** A retry after a single-file compile reads
  `source.sources` of a string or of `undefined`. That access, or the lookup in `gatherImports` that
  follows it, throws a `TypeError`. It is modelled as the decision `Crash` and the next step `Throws`.
- **The job guard never fails.** The guard `data.job in jobs !== undefined` at line 189 always
  holds. `WorkerCompiled` and `JobTable.Consume` therefore require the job to be present.

## Model

| member | source | states |
|---|---|---|
| Patterns.SpanLenOf | src/app/compiler.js:219 | A greedy run such as `\s*` or `[^'"]+` has exactly the length of the longest prefix that contains no stop character. |
| Patterns.IsSpace | src/app/compiler.js:219 | JavaScript `\s` never takes a quote or the `i` of `import`, so `\s*` stops where the keyword or a quote begins. |
| Patterns.LeadingImport | src/app/compiler.js:219 | A captured import path is non-empty and contains no quote. |
| Patterns.QuotedSound | src/app/compiler.js:219 | The quoted stage accepts only a quote, the path, a quote and `;`. |
| Patterns.QuotedComplete | src/app/compiler.js:219 | A quote, a non-empty quote-free path, a quote and `;` is always accepted, with that path. |
| Patterns.KeywordSound | src/app/compiler.js:219 | The keyword stage accepts only `import`, optional white space, then an accepted quoted part. |
| Patterns.KeywordComplete | src/app/compiler.js:219 | `import`, any white space, then text not starting with white space is passed to the quoted stage unchanged. |
| Patterns.LeadingImportSound | src/app/compiler.js:219 | A text that yields a path has the form white space, `import`, white space, quote, path, quote, `;`, anything. |
| Patterns.LeadingImportComplete | src/app/compiler.js:219 | Every text of that form yields exactly its path, whichever quotes are used. |
| Patterns.StripDotSlash | src/app/compiler.js:228-230 | A leading `./` is removed once; any other path is returned unchanged. |
| Patterns.ImportOf | src/app/compiler.js:219-230 | A file gives a hint exactly when it opens with the import pattern, and the hint holds no quote. `ImportOfSound` and `ImportOfComplete` give the shape of such a file. |
| Patterns.ImportOfSound | src/app/compiler.js:219-230 | A file that yields a hint opens with white space, `import`, white space, a quote, a non-empty quote-free path, a quote and `;`, and the hint is that path with one leading `./` removed. |
| Patterns.ImportOfComplete | src/app/compiler.js:219-230 | Every file that opens that way yields exactly that hint. |
| Patterns.IsLineTerminator | src/app/compiler.js:249 | The characters the unescaped `.` refuses (line feed, carriage return, U+2028, U+2029) are all white space too. |
| Patterns.GithubRef | src/app/compiler.js:249 | The third capture group (rest of the path) contains no line terminator. |
| Patterns.RepoPathSound | src/app/compiler.js:249 | After the host, a match is owner, `/`, repo, `/`, rest, then a line terminator or the end; owner and repo contain no `/`. |
| Patterns.RepoPathComplete | src/app/compiler.js:249 | Every string of that form matches, with groups `owner/repo` and `rest`. |
| Patterns.HostSound | src/app/compiler.js:249 | A match after the optional prefixes starts with `github`, one non-line-terminator character and `com/`. |
| Patterns.HostComplete | src/app/compiler.js:249 | `github`, any non-line-terminator character and `com/` lead to the owner/repo/rest part. |
| Patterns.WwwLenOf | src/app/compiler.js:249 | The optional `www.` group consumes exactly the given prefix when the host follows. |
| Patterns.SchemeLenOf | src/app/compiler.js:249 | The optional `https?://` group consumes exactly the given scheme when `www` or `github` follows. |
| Patterns.GithubRefSound | src/app/compiler.js:249 | Every path that matches is an optional scheme, an optional `www` plus one character, `github`, one character, `com/`, owner, repo and rest, and the groups are `owner/repo` and `rest`. |
| Patterns.GithubRefComplete | src/app/compiler.js:249 | Every string of that form matches, with those groups. |
| Patterns.HasUrlScheme | src/app/compiler.js:262 | A path that begins with `://` already has a scheme, because `[^:]*` may match nothing; a path with a scheme holds a colon. |
| Patterns.HasUrlSchemeSound | src/app/compiler.js:262 | A path with a URL scheme is colon-free text followed by `://`. |
| Patterns.HasUrlSchemeComplete | src/app/compiler.js:262 | Every colon-free text followed by `://` has a URL scheme. |
| Patterns.Contains | src/app/compiler.js:96 | The search succeeds on a text that starts with the pattern, and only on a text at least as long as the pattern. |
| Patterns.ContainsSound | src/app/compiler.js:96 | A text in which the substring search succeeds has the form before, pattern, after. |
| Patterns.ContainsComplete | src/app/compiler.js:96 | The search succeeds on any text of the form before, pattern, after. |
| Resolver.SingleFile | src/app/compiler.js:44-45 | `compile` builds a valid one-file bundle. |
| Resolver.Add | src/app/compiler.js:243-248 | Writing a new key appends it to the key order and keeps the bundle valid. |
| Resolver.Put | src/app/compiler.js:257 | Writing a key keeps its place if it was present and appends it otherwise; the text map is updated at that key. |
| Resolver.Imports | src/app/compiler.js:224-226 | The hints the files contribute, one per file, in key order. |
| Resolver.PushNew | src/app/compiler.js:233-235 | The queue keeps its old hints as a prefix and grows by at most one. Afterwards it holds exactly the old hints plus the import, if any. A path that is already queued, or a missing import, leaves the queue exactly as it was. |
| Resolver.Scan | src/app/compiler.js:224-237 | Equals `ScanFrom` over the files' imports in key order: each import is pushed unless already queued. |
| Resolver.ScanExtends | src/app/compiler.js:233-235 | The scan only appends to the hints: the old hints are a prefix of the new ones. |
| Resolver.ScanSound | src/app/compiler.js:226-235 | Every hint after the scan was a hint before it or is the import of a scanned file. |
| Resolver.ScanComplete | src/app/compiler.js:226-235 | The import of every scanned file is among the hints after the scan. |
| Resolver.ScanNoRepeats | src/app/compiler.js:233-235 | A hint list without repeats stays without repeats. |
| Resolver.Classify | src/app/compiler.js:249-267 | The branch a path found in neither store takes, in the source's order: GitHub fetch, then unsupported URL, then not found. |
| Resolver.ImportError | src/app/compiler.js:252-266 | A failure message starts with `Unable to import "`, and contains the path and the cause. |
| Resolver.ImportErrorNames | src/app/compiler.js:252-266 | For quote-free paths, two equal failure messages name the same path and the same cause: the message can be read back. |
| Resolver.DrainSpec | src/app/compiler.js:238-269 | The inner `while`: the bundle stays valid and only grows, every added file is read from the editor (first) or else the cache, every added key is one of the hints, and `reloop` holds iff a file was added. |
| Resolver.DrainComplete | src/app/compiler.js:238-269 | A pass that meets no missing path pops every hint, and afterwards every hint is in the bundle. |
| Resolver.DrainHalts | src/app/compiler.js:239-268 | A pass that stops does so on the last hint not present: the hints before it are left unpopped, every hint after it is present, the path is in neither the bundle nor a store, and it is classified as fetch, unsupported URL or not found. |
| Resolver.DrainPopsLastFirst | src/app/compiler.js:238-248 | Files are added in pop order: a file added later comes from an earlier position of the hint list. |
| Resolver.Drain | src/app/compiler.js:238-269 | The loop computes exactly `DrainSpec`: the same bundle, `reloop`, stopping path and unpopped hints. |
| Resolver.AddGrows | src/app/compiler.js:243-248 | Adding a new key only extends the bundle. |
| Resolver.PassKeeps | src/app/compiler.js:222-270 | One round of the do-while keeps the loop invariant. A round that stops names a requested path found nowhere, with the remaining hints requested too. A round that adds nothing leaves every hint present. |
| Resolver.GatherFromAnswer | src/app/compiler.js:222-271 | From any state that keeps the loop invariant, the remaining rounds end in a result that satisfies `Answer`. |
| Resolver.GatherAnswer | src/app/compiler.js:210-272 | Every result of `gatherImports` satisfies `Answer`. A single-file compiler gets `files[editor.getCacheFile()]` unchanged. Otherwise the bundle only grows, every added file comes from the editor (first) or the cache, and every added file is a hint or the import of an earlier file. Success means every hint is present and every file's import is present. Failure names a requested path found nowhere, with "Unsupported URL" or "File not found". A suspension names a requested GitHub path found nowhere, with its two groups and the remaining hints. |
| Resolver.GatherImports | src/app/compiler.js:210-272 | The do-while computes exactly `Gather` (so the key order and the path reported are those of the source), and its result satisfies `Answer`. |
| Resolver.WantedViaScan | src/app/compiler.js:224-237 | Hints produced by the scan are requested paths. |
| Resolver.GrowsKeepsImports | src/app/compiler.js:243-257 | Appending files leaves the imports of the earlier files as they were. |
| Resolver.GrowsKeepsWanted | src/app/compiler.js:243-257 | A requested path stays requested as the bundle grows. |
| Resolver.GrowsTrans | src/app/compiler.js:222-270 | Growth across rounds is still growth. |
| Resolver.AddedTrans | src/app/compiler.js:222-270 | Files read from the stores across rounds were all read from the stores. |
| Resolver.ReachedStep | src/app/compiler.js:238-248 | Files added in a round were requested by a hint or by a file already present. |
| Resolver.GrowsSameLength | src/app/compiler.js:270 | A round that adds no key leaves the bundle exactly as it was. |
| Resolver.ClosedAfterQuietPass | src/app/compiler.js:270-271 | When every scanned hint is present and nothing was added, every file's import is in the bundle. |
| Resolver.StoresShrink | src/app/compiler.js:243-270 | A round with `reloop` set strictly shrinks the set of store paths missing from the bundle, so the do-while terminates. |
| Classifier.IsValidError | src/app/compiler.js:93-101 | A valid error is not a warning, and no message with the sentinel anywhere in it is valid. |
| Classifier.Fatal | src/app/compiler.js:103-116 | A result is fatal iff one of its messages, the `error` field or an entry of `errors`, is a valid error. |
| Classifier.NoFatalErrors | src/app/compiler.js:91-116 | The `forEach` loop's flag is false iff the result is `Fatal`: its `error` or one of its `errors` is a valid error. |
| Classifier.MissingInputReply | src/app/compiler.js:67-70 | The callback answers `{error: 'Deferred import'}`. Its only message is the sentinel itself, so that answer, or any compiler message that quotes it, is never fatal, whatever `utils.errortype` says. |
| Classifier.MentionsDeferredNotValid | src/app/compiler.js:93-98 | Any message containing "Deferred import" is ignored, whatever its type. |
| Classifier.IgnoredErrorsNotFatal | src/app/compiler.js:103-116 | A result whose every message is a warning or mentions the sentinel is not fatal. |
| Classifier.Route | src/app/compiler.js:118-131 | Abort iff fatal. Accept iff not fatal and `missingInputs` is undefined or empty. Retry on `source.sources`, with the missing inputs as hints, iff not fatal, inputs are missing and the source is a bundle. |
| Classifier.DeferredImportsRetry | src/app/compiler.js:93-124 | A result reporting only the sentinel or warnings while inputs are missing re-runs resolution on the same bundle with those inputs. |
| Classifier.ErrorPayload | src/app/compiler.js:75-76 | An exception becomes a result whose only message is a prefix plus the exception (`Uncaught JavaScript exception:` in process, `Invalid JSON output from the compiler: ` for a worker reply at lines 185-186), and that result is fatal exactly when the message is a valid error. |
| Orchestrator.RunResult | src/app/compiler.js:72-77 | A run that returned hands on the compiler's output unchanged. A run that threw becomes the `ErrorPayload` with prefix `Uncaught JavaScript exception:` and a newline: one message, fatal exactly when it is a valid error. |
| Orchestrator.ReplyResult | src/app/compiler.js:182-187 | A reply that parses is handed on unchanged. One that does not parse becomes the `ErrorPayload` with prefix `Invalid JSON output from the compiler: `: one message, fatal exactly when it is a valid error. |
| Jobs.JobTable.constructor | src/app/compiler.js:173 | A fresh worker starts with an empty job table. |
| Jobs.JobTable.Dispatch | src/app/compiler.js:203-205 | Appends `{sources: input}` and returns `jobs.length - 1` after the push, the old length, which no earlier job had. |
| Jobs.JobTable.Consume | src/app/compiler.js:189-192 | Returns the sources dispatched under the id and empties that entry only; the table keeps its length, so ids are never reused. |
| Orchestrator.Compiler.constructor | src/app/compiler.js:13-89 | Empty cache, optimisation off, no multi-file support until a compiler loads, `lastCompilationResult` `{data: null, source: null}`. |
| Orchestrator.Compiler.SetOptimize | src/app/compiler.js:25-27 | Sets the optimise flag and nothing else. |
| Orchestrator.Compiler.CompilerLoaded | src/app/compiler.js:55-57 | Sets whether the loaded compiler accepts several files (line 63 in process, line 178 for a worker), raises `compilerLoaded` with the version, and changes nothing else. |
| Orchestrator.Compiler.InternalCompile | src/app/compiler.js:29-38 | The resolution is `Gather` against the session cache and the multi-file flag. A failure clears the stored result and raises `(false, {error}, files)` with the grown bundle. Otherwise nothing changes, and the next step calls `compileJSON` at level `optimize ? 1 : 0` or awaits the fetch. |
| Orchestrator.Compiler.Compile | src/app/compiler.js:40-47 | Raises `compilationStarted`, then resolves a one-file bundle keyed by `fileNameFromKey(editor.getCacheFile())` holding the editor text, with no hints; the failure and next-step clauses are those of `internalCompile`. |
| Orchestrator.Compiler.FetchArrived | src/app/compiler.js:250-261 | A fetch error fails the import with `Unable to import "m": err`, adds nothing and keeps the earlier files. The content goes into both the cache and the bundle, and resolution is `Gather` on the remaining hints, with the failure and next-step clauses of `internalCompile`. |
| Orchestrator.Compiler.CompilationFinished | src/app/compiler.js:90-132 | Follows `Route`. Abort clears the stored result and raises `(false, data, source)`. Accept stores `{data, source}` and raises `(true, data, source)`. Retry is `Gather` on `source.sources` with the missing inputs as hints, with the failure and next-step clauses of `internalCompile`. A crash changes nothing and throws. |
| Orchestrator.Compiler.InProcessCompiled | src/app/compiler.js:65-80 | The in-process result, or the exception payload, is routed with the requested paths, in the order the callback recorded them, as `missingInputs`; each decision leaves the state `compilationFinished` leaves. |
| Orchestrator.Compiler.WorkerCompiled | src/app/compiler.js:181-194 | The reply, or the invalid-JSON payload, is routed with the sources of its job, that job's entry is deleted, and each decision leaves the state `compilationFinished` leaves. |
| Scenarios.ImportOfTextA | src/app/compiler.js:219-230 | A file opening with `import './B.sol';` contributes the hint `B.sol`. |
| Scenarios.ImportOfTextB | src/app/compiler.js:219-226 | A file opening with `contract` contributes no hint. |
| Scenarios.TwoFileAnswer | src/app/compiler.js:222-271 | A file `a` imports `n`, which is in the editor and imports nothing. Every result `gatherImports` may give is success with exactly `a` then `n`, each with its editor text. |
| Scenarios.LocalImportResolves | src/app/compiler.js:210-272 | Resolving A.sol, which imports `./B.sol`, with B.sol in the editor and a multi-file compiler, gives the bundle A.sol then B.sol. |
| Scenarios.PlainName | src/app/compiler.js:249-266 | `X.sol` matches neither the GitHub pattern nor the scheme pattern. |
| Scenarios.MissingHintAnswer | src/app/compiler.js:238-267 | A hint found in no store, against a bundle that cannot grow, fails with `File not found` on the bundle as given. |
| Scenarios.RetriedMissing | src/app/compiler.js:118-124 | A non-fatal result with `x` missing re-runs resolution on the same bundle, and that resolution fails on `x`. |
| Scenarios.DeferredOnlyNotFatal | src/app/compiler.js:93-116 | A result whose only message mentions the sentinel is not fatal, even for an `errortype` that calls everything an error. |
| Scenarios.DeferredImportOfMissingFile | src/app/compiler.js:65-132 | The in-process compiler asked for X.sol and reported only an error mentioning the sentinel, under an `errortype` that calls every message an error. The result is routed to a retry with hint X.sol, the retry fails with `Unable to import "X.sol": File not found` on the bundle it was given, and the stored result is cleared. |
| Scenarios.GithubRefOfRemote | src/app/compiler.js:249 | `github.com/o/r/X.sol` matches the GitHub pattern with groups `o/r` and `X.sol`. |
| Scenarios.ImportOfTextG | src/app/compiler.js:219-230 | A file opening with `import 'github.com/o/r/X.sol';` contributes that path unchanged. |
| Scenarios.NothingToAdd | src/app/compiler.js:238-248 | When every editor and cache path is already in the bundle, resolution adds nothing. |
| Scenarios.Suspends | src/app/compiler.js:249-250 | A file whose only import is a GitHub path found in no store suspends on that path, with groups from the GitHub pattern, the bundle unchanged, and only that path left to drain. |
| Scenarios.Resumes | src/app/compiler.js:256-259 | After the fetch, resolution on the bundle with the fetched file and the cache holding it succeeds with both files. |
| Scenarios.GithubImportFetched | src/app/compiler.js:249-261 | Compiling a file that imports `github.com/o/r/X.sol` asks the fetcher for `o/r` and `X.sol`. The fetched content is written to the cache, and resolution resumes and succeeds with A.sol then the GitHub path. |
| Scenarios.JobIdsNotReused | src/app/compiler.js:189-205 | Two dispatches get ids 0 and 1, answering job 0 returns its sources, and the next dispatch gets id 2, not the freed 0. |

## Left out

- Loading a compiler (`loadVersion`, `loadInternal`, script injection and `setInterval` polling, lines 134-166) is browser I/O and timers. So is the "Compiler not yet loaded." stub that this code installs.
- Worker transport is message passing. This covers spawning, `terminate`, `postMessage`, the `versionLoaded` message other than its multi-file flag, and the `onerror`/`error` listeners that raise `Worker error:` results.
- `solc(window.Module)`, `compiler.compile` and `compiler.version()` are a foreign compiler. A run is given as its result (or its exception) and the paths it requested.
- `JSON.parse` and `JSON.stringify` are foreign serialisation. A reply is given as parsed or unparsable.
- `handleGithubCall` is network I/O. It is replaced by the `Fetch` suspension and `FetchArrived`.
- Orchestrator.Compiler.FetchArrived: `FetchError` stands for a truthy `err`. A falsy `err` such as the empty string takes the success path at line 251; the model has no such outcome.
- The editor, `utils.errortype` and `utils.fileNameFromKey` are defined in files that are not part of this model. They appear as a map with the open file's key and text, and as function parameters.
- The event bus and `console.log` are not modelled. The triggers of `compilationStarted`, `compilerLoaded` and `compilationFinished` are recorded in the ghost sequence `events`. `loadingCompiler` (line 136) belongs to loading, which is left out, and is not recorded.
- Resolver.Bundle: JavaScript enumerates integer-like keys of an object before the others. The model's key order is plain insertion order.
- Resolver.Bundle: the `in` operator also sees properties inherited from `Object.prototype` (for example `constructor`). The model's membership test is plain map membership.
- Concurrency is not modelled. Two compilations whose fetches interleave share the cache, and the multi-file flag can change while a fetch is pending. Each call reads the object's fields at the moment it runs, and concurrent runs are not modelled.
- Patterns: the recognisers are written for the three regular expressions in use, not for JavaScript regular expressions in general.
- Patterns: strings are sequences of Unicode scalar values, while the source's regular expressions (no `u` flag) read UTF-16 code units. A `.` takes a whole character outside the Basic Multilingual Plane in the model, but only half of one in the source. So `www\u{1F600}github.com/o/r/X.sol` is a GitHub reference in the model and "File not found" in the source. Lone surrogates in file texts cannot be written at all.
