/**
 * Worked runs of the model on concrete inputs: a two-file project whose
 * first file imports the second, a compiler result that only reports the
 * deferred-import sentinel for a file nobody has, and a worker that
 * answers its jobs.
 */
module Scenarios {
  import opened Patterns
  import opened Resolver
  import opened Classifier
  import opened Jobs
  import opened Orchestrator

  /** The open file: it begins with an import of `./B.sol`. */
  const TextA: Text := "import './B.sol';\ncontract A {}"

  /** The imported file: no import. */
  const TextB: Text := "contract B {}"

  /** The open file's leading import, found by shape rather than by evaluating the recogniser on the literal. */
  lemma LeadingImportOfTextA()
    ensures LeadingImport(TextA) == Some("./B.sol")
  {
    var q: char := '\'';
    assert TextA == "" + ("import" + (" " + ([q] + ("./B.sol" + ([q, ';'] + "\ncontract A {}")))));
    assert NoQuote("./B.sol");
    LeadingImportComplete("", " ", q, "./B.sol", q, "\ncontract A {}");
  }

  /** A leading import `./p` makes the file ask for `p`. */
  lemma ImportOfDotSlash(t: Text, q: Path)
    requires LeadingImport(t) == Some(q) && StartsWith(q, "./")
    ensures ImportOf(t) == Some(q[2..])
  {
  }

  /** The import path of the open file starts with `./`, and B.sol follows it. */
  lemma DotSlashB()
    ensures StartsWith("./B.sol", "./") && "./B.sol"[2..] == "B.sol"
  {
  }

  /** With `./` stripped, the open file asks for B.sol. */
  lemma ImportOfTextA()
    ensures ImportOf(TextA) == Some("B.sol")
  {
    LeadingImportOfTextA();
    DotSlashB();
    ImportOfDotSlash(TextA, "./B.sol");
  }

  /** A file that opens with a declaration contributes no hint. */
  lemma ImportOfTextB()
    ensures ImportOf(TextB) == None
  {
    assert SpanLen(TextB, NotSpace) == 0;
    assert !StartsWith(TextB, "import") by { assert TextB[0] == 'c'; }
  }

  /** The parts of a multi-file `Answer` that do not depend on how a missing path is classified. */
  lemma MultiFileAnswer(files: Bundle, hints: seq<Path>, editor: Editor, cache: map<Path, Text>, g: Gathered)
    requires files.Valid() && Answer(true, files, hints, editor, cache, g)
    ensures !g.SingleSource? && g.files.Valid() && Grows(files, g.files)
    ensures AddedFromStores(files, g.files, editor, cache)
    ensures g.Sources? ==> Closed(g.files)
    ensures g.Failed? ==> exists m :: Wanted(m, g.files, |g.files.order|, hints) && m !in editor.files && m !in g.files.text
    ensures g.Fetch? ==> Wanted(g.path, g.files, |g.files.order|, hints) && g.path !in editor.files && g.path !in g.files.text
  {
  }

  /** Keys without repeats: the second and the third differ. */
  lemma SecondThirdDiffer(s: seq<Path>)
    requires NoRepeats(s) && |s| > 2
    ensures s[1] != s[2]
  {
  }

  /**
   * A bundle grown from one file `a` with files of an editor holding only `a`
   * and `n` (and an empty cache) is `a` alone, or `a` then `n`.
   */
  lemma TwoFileShape(a: Path, n: Path, ta: Text, tb: Text, b: Bundle)
    requires a != n && b.Valid() && Grows(SingleFile(a, ta), b)
    requires AddedFromStores(SingleFile(a, ta), b, Editor(map[a := ta, n := tb], a, ta), map[])
    ensures |b.order| == 1 || |b.order| == 2
    ensures b.order[0] == a && a in b.text && b.text[a] == ta
    ensures |b.order| == 1 ==> n !in b.text
    ensures |b.order| == 2 ==> b == Bundle([a, n], map[a := ta, n := tb])
  {
    var editor := Editor(map[a := ta, n := tb], a, ta);
    assert b.order[..1] == [a];
    forall i | 1 <= i < |b.order| ensures b.order[i] == n && b.text[n] == tb {
      assert FromStores(b.order[i], b.text[b.order[i]], editor, map[]);
      assert b.order[i] != b.order[0];
    }
    if |b.order| > 2 {
      SecondThirdDiffer(b.order);
      assert false;
    }
    if |b.order| == 2 {
      assert b.order[1] == n && n in b.text && b.text[n] == tb;
      assert b.order == [a, n];
      forall k | k in b.text ensures k == a || k == n {
        assert k in b.order;
      }
      assert b.text.Keys == {a, n};
      assert b.text == map[a := ta, n := tb];
    }
  }

  /** The imports of the bundle `a` alone. */
  lemma ImportsOfOne(a: Path, n: Path, ta: Text, b: Bundle)
    requires ImportOf(ta) == Some(n)
    requires b.Valid() && b.order == [a] && a in b.text && b.text[a] == ta
    ensures Imports(b) == [Some(n)]
  {
    assert Imports(b)[0] == ImportOf(ta);
  }

  /** The imports of the bundle `a` then `n`. */
  lemma ImportsOfTwo(a: Path, n: Path, ta: Text, tb: Text, b: Bundle)
    requires ImportOf(ta) == Some(n) && ImportOf(tb) == None
    requires b.Valid() && b.order == [a, n] && a in b.text && b.text[a] == ta && n in b.text && b.text[n] == tb
    ensures Imports(b) == [Some(n), None]
  {
    assert Imports(b)[0] == ImportOf(ta);
    assert Imports(b)[1] == ImportOf(tb);
  }

  /** When the imports are `n` and perhaps nothing, `n` is the only path asked for. */
  lemma OnlyWanted(n: Path, b: Bundle)
    requires b.Valid() && (Imports(b) == [Some(n)] || Imports(b) == [Some(n), None])
    ensures Some(n) in Imports(b)
    ensures forall m :: Wanted(m, b, |b.order|, []) ==> m == n
  {
    assert Imports(b)[..|b.order|] == Imports(b);
  }

  /**
   * Resolution of a one-file bundle `a` whose only import `n` is in the
   * editor, and `n` imports nothing: whatever `gatherImports` does that meets
   * its contract ends in success with exactly the two files, `a` first.
   */
  lemma TwoFileAnswer(a: Path, n: Path, ta: Text, tb: Text, g: Gathered)
    requires a != n && ImportOf(ta) == Some(n) && ImportOf(tb) == None
    requires !g.SingleSource? && g.files.Valid() && Grows(SingleFile(a, ta), g.files)
    requires AddedFromStores(SingleFile(a, ta), g.files, Editor(map[a := ta, n := tb], a, ta), map[])
    requires g.Sources? ==> Closed(g.files)
    requires g.Failed? ==> exists m :: Wanted(m, g.files, |g.files.order|, []) && m !in map[a := ta, n := tb]
    requires g.Fetch? ==> Wanted(g.path, g.files, |g.files.order|, []) && g.path !in map[a := ta, n := tb]
    ensures g == Sources(Bundle([a, n], map[a := ta, n := tb]))
  {
    var b := g.files;
    TwoFileShape(a, n, ta, tb, b);
    assert b.order == [a] || b.order == [a, n] by {
      if |b.order| == 1 {
        assert b.order == [b.order[0]];
      }
    }
    if |b.order| == 1 {
      ImportsOfOne(a, n, ta, b);
    } else {
      ImportsOfTwo(a, n, ta, tb, b);
    }
    OnlyWanted(n, b);
    assert !g.Failed? && !g.Fetch?;
    assert n in b.text;
  }

  /**
   * `compile()` on the open file A.sol of an editor that also holds B.sol,
   * with a compiler that takes several files: the bundle sent to the
   * compiler is A.sol then B.sol, each with its editor text.
   */
  method LocalImportResolves() returns (g: Gathered)
    ensures g == Sources(Bundle(["A.sol", "B.sol"], map["A.sol" := TextA, "B.sol" := TextB]))
  {
    var editor := Editor(map["A.sol" := TextA, "B.sol" := TextB], "A.sol", TextA);
    g := GatherImports(true, SingleFile("A.sol", TextA), [], editor, map[]);
    ImportOfTextA();
    ImportOfTextB();
    MultiFileAnswer(SingleFile("A.sol", TextA), [], editor, map[], g);
    TwoFileAnswer("A.sol", "B.sol", TextA, TextB, g);
  }

  // ---------------------------------------------------------------------------
  // A deferred import of a file that is nowhere
  // ---------------------------------------------------------------------------

  /** Too short to hold `github?com/`: never a GitHub reference. */
  lemma ShortNotGithub(m: Path)
    requires |m| < 11
    ensures GithubRef(m) == None
  {
  }

  /** Without a colon there is no URL scheme. */
  lemma NoColonNoScheme(m: Path)
    requires NoColon(m)
    ensures !HasUrlScheme(m)
  {
    SpanLenOf(m, "", IsColon);
    assert m + "" == m;
  }

  /** X.sol is a plain file name: neither a GitHub reference nor a URL. */
  lemma PlainName()
    ensures GithubRef("X.sol") == None && !HasUrlScheme("X.sol")
  {
    ShortNotGithub("X.sol");
    NoColonNoScheme("X.sol");
  }

  /** The outcome-specific parts of a multi-file `Answer`. */
  lemma AnswerOutcomes(files: Bundle, hints: seq<Path>, editor: Editor, cache: map<Path, Text>, g: Gathered)
    requires files.Valid() && Answer(true, files, hints, editor, cache, g)
    ensures g.Sources? ==> forall h :: h in hints ==> h in g.files.text
    ensures g.Failed? ==> exists m ::
      && Wanted(m, g.files, |g.files.order|, hints) && m !in editor.files && GithubRef(m).None?
      && g.error == ImportError(m, if HasUrlScheme(m) then "Unsupported URL" else "File not found")
    ensures g.Fetch? ==>
      && Wanted(g.path, g.files, |g.files.order|, hints) && GithubRef(g.path) == Some((g.ownerRepo, g.rest))
      && forall h :: h in g.hints ==> Wanted(h, g.files, |g.files.order|, hints)
  {
  }

  /**
   * Resolving hint `x` against a bundle that holds only `a`, which imports
   * nothing, with an editor that holds only `a`: the bundle cannot grow, and
   * `x` fails as a file that is not found.
   */
  lemma MissingHintAnswer(a: Path, x: Path, ta: Text, g: Gathered)
    requires a != x && ImportOf(ta) == None && GithubRef(x) == None && !HasUrlScheme(x)
    requires !g.SingleSource? && g.files.Valid() && Grows(SingleFile(a, ta), g.files)
    requires AddedFromStores(SingleFile(a, ta), g.files, Editor(map[a := ta], a, ta), map[])
    requires g.Sources? ==> x in g.files.text
    requires g.Failed? ==> exists m ::
      && Wanted(m, g.files, |g.files.order|, [x]) && m !in map[a := ta]
      && g.error == ImportError(m, if HasUrlScheme(m) then "Unsupported URL" else "File not found")
    requires g.Fetch? ==> Wanted(g.path, g.files, |g.files.order|, [x]) && GithubRef(g.path).Some?
    ensures g == Failed(ImportError(x, "File not found"), SingleFile(a, ta))
  {
    var b := g.files;
    OneFileShape(a, ta, b);
    ImportsOfNone(a, ta, b);
    OnlyHint(x, b);
    assert !g.Sources? && !g.Fetch?;
  }

  /** When no file imports anything, the call's one hint is the only path asked for. */
  lemma OnlyHint(x: Path, b: Bundle)
    requires b.Valid() && Imports(b) == [None]
    ensures forall m :: Wanted(m, b, |b.order|, [x]) ==> m == x
  {
    assert Imports(b)[..|b.order|] == [None];
  }

  /**
   * A retry of that bundle with hint `x`: `compilationFinished` routes a
   * non-fatal result with `x` missing to resolution, which fails on `x`.
   */
  lemma RetriedMissing(a: Path, x: Path, ta: Text, fatal: bool, d: Decision, g: Option<Gathered>)
    requires a != x && ImportOf(ta) == None && GithubRef(x) == None && !HasUrlScheme(x)
    requires !fatal && d == Route(fatal, Some([x]), Multi(SingleFile(a, ta)))
    requires d.Retry? ==> g.Some? && Answer(true, d.files, d.hints, Editor(map[a := ta], a, ta), map[], g.value)
    ensures d == Retry(SingleFile(a, ta), [x])
    ensures g == Some(Failed(ImportError(x, "File not found"), SingleFile(a, ta)))
  {
    var files, editor := SingleFile(a, ta), Editor(map[a := ta], a, ta);
    MultiFileAnswer(files, [x], editor, map[], g.value);
    AnswerOutcomes(files, [x], editor, map[], g.value);
    MissingHintAnswer(a, x, ta, g.value);
  }

  /** A bundle grown from `a` with the files of an editor holding only `a` is `a` alone. */
  lemma OneFileShape(a: Path, ta: Text, b: Bundle)
    requires b.Valid() && Grows(SingleFile(a, ta), b)
    requires AddedFromStores(SingleFile(a, ta), b, Editor(map[a := ta], a, ta), map[])
    ensures b == SingleFile(a, ta)
  {
    assert b.order[..1] == [a];
    if |b.order| > 1 {
      SecondDiffers(b.order);
      assert false;
    }
    assert b.order == [a];
    forall k | k in b.text ensures k == a {
      assert k in b.order;
    }
    assert b.text.Keys == {a};
    assert b.text == map[a := ta];
  }

  /** Keys without repeats: the first and the second differ. */
  lemma SecondDiffers(s: seq<Path>)
    requires NoRepeats(s) && |s| > 1
    ensures s[0] != s[1]
  {
  }

  /** The single file imports nothing. */
  lemma ImportsOfNone(a: Path, ta: Text, b: Bundle)
    requires ImportOf(ta) == None && b == SingleFile(a, ta)
    ensures Imports(b) == [None]
  {
    assert Imports(b)[0] == ImportOf(ta);
  }

  /**
   * The in-process compiler asked for X.sol and got the sentinel back, so its
   * result reports only `Deferred import`. The result is not fatal and inputs
   * are missing, so resolution runs again with X.sol as its hint. X.sol is in
   * neither store and is no URL, so the compilation fails with the resolver's
   * message, on the bundle it was given, and the stored result is cleared.
   */
  method DeferredImportOfMissingFile() returns (d: Decision, g: Option<Gathered>, last: LastResult)
    ensures d == Retry(SingleFile("A.sol", TextB), ["X.sol"])
    ensures g == Some(Failed("Unable to import \"X.sol\": File not found", SingleFile("A.sol", TextB)))
    ensures last == Cleared
  {
    var editor := Editor(map["A.sol" := TextB], "A.sol", TextB);
    var files := SingleFile("A.sol", TextB);
    var c := new Compiler();
    c.CompilerLoaded(true, "0.4.2");
    var pre := "A.sol:1:1: Error: Source \"X.sol\" not found: ";
    var data := Payload(None, Some([pre + (Deferred + [])]), "");
    DeferredOnlyNotFatal(AllErrors, pre, [], data);
    var next;
    d, g, next := c.InProcessCompiled(AllErrors, Multi(files), Returned(data, ["X.sol"]), editor);
    last := c.lastCompilationResult;
    if d.Retry? {
      GatherAnswer(true, d.files, d.hints, editor, map[]);
    }
    ImportOfTextB();
    PlainName();
    RetriedMissing("A.sol", "X.sol", TextB, Fatal(AllErrors, data), d, g);
    NotFoundMessage();
  }

  /** A result whose one error mentions the sentinel is not fatal, whatever `errortype` says. */
  lemma DeferredOnlyNotFatal(errorType: string -> string, pre: string, post: string, data: Payload)
    requires data.error.None? && data.errors == Some([pre + (Deferred + post)])
    ensures !Fatal(errorType, data)
  {
    MentionsDeferredNotValid(errorType, pre, post);
  }

  /** The message the resolver builds for X.sol. */
  lemma NotFoundMessage()
    ensures ImportError("X.sol", "File not found") == "Unable to import \"X.sol\": File not found"
  {
  }

  /** An `errortype` that calls every message an error. */
  function AllErrors(e: string): (t: string)
    ensures t == "error"
  {
    "error"
  }

  // ---------------------------------------------------------------------------
  // An import from GitHub
  // ---------------------------------------------------------------------------

  /** A GitHub path: owner `o`, repository `r`, file X.sol. */
  const RemotePath: Path := "github.com/o/r/X.sol"

  /** An open file that imports the GitHub path and nothing else. */
  const TextG: Text := "import 'github.com/o/r/X.sol';"

  lemma LeadingImportOfTextG()
    ensures LeadingImport(TextG) == Some(RemotePath)
  {
    var q: char := '\'';
    TextGShape();
    RemoteNoQuote();
    LeadingImportComplete("", " ", q, RemotePath, q, "");
  }

  /** The GitHub file is the import keyword, a space, and the quoted path. */
  lemma TextGShape()
    ensures TextG == "" + ("import" + (" " + (['\''] + (RemotePath + (['\'', ';'] + "")))))
  {
  }

  /** The GitHub path holds no quote. */
  lemma RemoteNoQuote()
    ensures NoQuote(RemotePath)
  {
  }

  /** A leading import without `./` is the hint as written. */
  lemma ImportOfPlain(t: Text, q: Path)
    requires LeadingImport(t) == Some(q) && !StartsWith(q, "./")
    ensures ImportOf(t) == Some(q)
  {
  }

  lemma RemotePathPlain()
    ensures !StartsWith(RemotePath, "./")
  {
    assert RemotePath[0] == 'g';
  }

  /** The open file asks for the GitHub path. */
  lemma ImportOfTextG()
    ensures ImportOf(TextG) == Some(RemotePath)
  {
    LeadingImportOfTextG();
    RemotePathPlain();
    ImportOfPlain(TextG, RemotePath);
  }

  /** `github.com/owner/repo/rest`, with no scheme and no `www`, matches with its two groups. */
  lemma GithubRefParts(m: Path, owner: string, repo: string, rest: string)
    requires m == "github" + (['.'] + ("com/" + (owner + ("/" + (repo + ("/" + rest))))))
    requires NoSlash(owner) && NoSlash(repo) && NoLineTerminator(rest)
    ensures GithubRef(m) == Some((owner + "/" + repo, rest))
  {
    GithubRefComplete("", "", '.', owner, repo, rest, "");
    assert rest + "" == rest;
    assert "" + ("" + m) == m;
  }

  /** The pieces of the GitHub path. */
  lemma RemotePathParts()
    ensures RemotePath == "github" + (['.'] + ("com/" + ("o" + ("/" + ("r" + ("/" + "X.sol"))))))
    ensures NoSlash("o") && NoSlash("r") && NoLineTerminator("X.sol")
    ensures "o" + "/" + "r" == "o/r"
  {
  }

  /** The GitHub pattern splits the path into `o/r` and X.sol. */
  lemma GithubRefOfRemote()
    ensures GithubRef(RemotePath) == Some(("o/r", "X.sol"))
  {
    RemotePathParts();
    GithubRefParts(RemotePath, "o", "r", "X.sol");
  }

  /**
   * Resolving a bundle that holds only `a`, whose import `p` is a GitHub path
   * in neither store: resolution suspends on `p`, with the bundle unchanged
   * and nothing but `p` left to drain.
   */
  lemma FetchPending(a: Path, p: Path, ta: Text, ownerRepo: string, rest: string, g: Gathered)
    requires a != p && ImportOf(ta) == Some(p) && GithubRef(p) == Some((ownerRepo, rest))
    requires !g.SingleSource? && g.files.Valid() && Grows(SingleFile(a, ta), g.files)
    requires AddedFromStores(SingleFile(a, ta), g.files, Editor(map[a := ta], a, ta), map[])
    requires g.Sources? ==> Closed(g.files)
    requires g.Failed? ==> exists m :: Wanted(m, g.files, |g.files.order|, []) && GithubRef(m).None?
    requires g.Fetch? ==>
      && Wanted(g.path, g.files, |g.files.order|, []) && GithubRef(g.path) == Some((g.ownerRepo, g.rest))
      && forall h :: h in g.hints ==> Wanted(h, g.files, |g.files.order|, [])
    ensures g.Fetch? && g.path == p && g.ownerRepo == ownerRepo && g.rest == rest
    ensures g.files == SingleFile(a, ta)
    ensures forall h :: h in g.hints ==> h == p
  {
    var b := g.files;
    OneFileShape(a, ta, b);
    ImportsOfOne(a, p, ta, b);
    OnlyWanted(p, b);
    assert !g.Sources? && !g.Failed?;
  }

  /** When every store path is already in `files`, a bundle grown from it by the resolver is `files`. */
  lemma NothingToAdd(files: Bundle, b: Bundle, editor: Editor, cache: map<Path, Text>)
    requires files.Valid() && b.Valid() && Grows(files, b) && AddedFromStores(files, b, editor, cache)
    requires forall k :: k in editor.files ==> k in files.text
    requires forall k :: k in cache ==> k in files.text
    ensures b == files
  {
    var n := |files.order|;
    if |b.order| > n {
      assert b.order[..n] == files.order;
      NotInPrefix(b.order, n);
      assert false;
    }
    assert b.order == files.order;
    forall k | k in b.text ensures k in files.text {
      assert k in b.order;
    }
    assert b.text == files.text;
  }

  /** Keys without repeats: the key at `i` is none of the keys before it. */
  lemma NotInPrefix(s: seq<Path>, i: nat)
    requires NoRepeats(s) && i < |s|
    ensures s[i] !in s[..i]
  {
  }

  /** When the files ask only for `p` and it is present, every path asked for is present. */
  lemma WantedPresent(p: Path, b: Bundle, hints: seq<Path>)
    requires b.Valid() && Imports(b) == [Some(p), None] && p in b.text
    requires forall h :: h in hints ==> h == p
    ensures forall m :: Wanted(m, b, |b.order|, hints) ==> m in b.text
  {
    assert Imports(b)[..|b.order|] == Imports(b);
  }

  /**
   * Resuming after the fetch: the bundle holds `a` and the fetched `p`, the
   * cache holds `p`, and the hints left are `p` only. Nothing can be added
   * and nothing is missing, so resolution succeeds on that bundle.
   */
  lemma FetchedResolves(a: Path, p: Path, ta: Text, tb: Text, hints: seq<Path>, g: Gathered)
    requires a != p && ImportOf(ta) == Some(p) && ImportOf(tb) == None
    requires forall h :: h in hints ==> h == p
    requires Bundle([a, p], map[a := ta, p := tb]).Valid()
    requires !g.SingleSource? && g.files.Valid() && Grows(Bundle([a, p], map[a := ta, p := tb]), g.files)
    requires AddedFromStores(Bundle([a, p], map[a := ta, p := tb]), g.files, Editor(map[a := ta], a, ta), map[p := tb])
    requires g.Failed? ==> exists m :: Wanted(m, g.files, |g.files.order|, hints) && m !in g.files.text
    requires g.Fetch? ==> Wanted(g.path, g.files, |g.files.order|, hints) && g.path !in g.files.text
    ensures g == Sources(Bundle([a, p], map[a := ta, p := tb]))
  {
    var files := Bundle([a, p], map[a := ta, p := tb]);
    var b := g.files;
    NothingToAdd(files, b, Editor(map[a := ta], a, ta), map[p := tb]);
    ImportsOfTwo(a, p, ta, tb, b);
    WantedPresent(p, b, hints);
    assert !g.Failed? && !g.Fetch?;
  }

  /** The first resolution of the GitHub scenario, from the contract of `gatherImports`. */
  lemma Suspends(a: Path, p: Path, ta: Text, ownerRepo: string, rest: string, g: Gathered)
    requires a != p && ImportOf(ta) == Some(p) && GithubRef(p) == Some((ownerRepo, rest))
    requires Answer(true, SingleFile(a, ta), [], Editor(map[a := ta], a, ta), map[], g)
    ensures g.Fetch? && g.path == p && g.ownerRepo == ownerRepo && g.rest == rest
    ensures g.files == SingleFile(a, ta)
    ensures forall h :: h in g.hints ==> h == p
  {
    var files, editor := SingleFile(a, ta), Editor(map[a := ta], a, ta);
    MultiFileAnswer(files, [], editor, map[], g);
    AnswerOutcomes(files, [], editor, map[], g);
    FetchPending(a, p, ta, ownerRepo, rest, g);
  }

  /** Writing a second key into a one-file bundle appends it. */
  lemma PutSecond(a: Path, p: Path, ta: Text, tb: Text)
    requires a != p
    ensures Put(SingleFile(a, ta), p, tb) == Bundle([a, p], map[a := ta, p := tb])
  {
    assert [a] + [p] == [a, p];
  }

  /** The resumed resolution of the GitHub scenario, from the contract of `gatherImports`. */
  lemma Resumes(a: Path, p: Path, ta: Text, tb: Text, hints: seq<Path>, g: Gathered)
    requires a != p && ImportOf(ta) == Some(p) && ImportOf(tb) == None
    requires forall h :: h in hints ==> h == p
    requires Answer(true, Put(SingleFile(a, ta), p, tb), hints, Editor(map[a := ta], a, ta), map[p := tb], g)
    ensures g == Sources(Bundle([a, p], map[a := ta, p := tb]))
  {
    var files := Put(SingleFile(a, ta), p, tb);
    PutSecond(a, p, ta, tb);
    MultiFileAnswer(files, hints, Editor(map[a := ta], a, ta), map[p := tb], g);
    FetchedResolves(a, p, ta, tb, hints, g);
  }

  /**
   * `compile()` on an open file that imports a GitHub path, with a compiler
   * that takes several files: resolution asks the fetcher for `o/r` and
   * X.sol. When the content arrives it is written to the session cache and
   * to the bundle, and resolution resumes and succeeds with both files.
   */
  method GithubImportFetched() returns (g1: Gathered, g2: Option<Gathered>, cache: map<Path, Text>)
    ensures g1.Fetch? && g1.path == RemotePath && g1.ownerRepo == "o/r" && g1.rest == "X.sol"
    ensures g1.files == SingleFile("A.sol", TextG)
    ensures g2 == Some(Sources(Bundle(["A.sol", RemotePath], map["A.sol" := TextG, RemotePath := TextB])))
    ensures cache == map[RemotePath := TextB]
  {
    var editor := Editor(map["A.sol" := TextG], "A.sol", TextG);
    var c := new Compiler();
    c.CompilerLoaded(true, "0.4.2");
    var next1;
    g1, next1 := c.Compile(editor, k => k);
    GatherAnswer(true, SingleFile("A.sol", TextG), [], editor, map[]);
    ImportOfTextG();
    GithubRefOfRemote();
    Suspends("A.sol", RemotePath, TextG, "o/r", "X.sol", g1);
    var pending := next1.pending;
    var next2;
    g2, next2 := c.FetchArrived(pending, Fetched(TextB), editor);
    cache := c.cachedRemoteFiles;
    GatherAnswer(true, Put(SingleFile("A.sol", TextG), RemotePath, TextB), g1.hints, editor, cache);
    ImportOfTextB();
    Resumes("A.sol", RemotePath, TextG, TextB, g1.hints, g2.value);
  }

  // ---------------------------------------------------------------------------
  // The worker's job table
  // ---------------------------------------------------------------------------

  /**
   * Two jobs are dispatched and the first is answered before a third is
   * dispatched: the ids are 0, 1 and 2, the answer returns the first job's
   * sources, and the third job does not reuse the freed id.
   */
  method JobIdsNotReused(x: Input, y: Input, z: Input) returns (i: nat, j: nat, k: nat, back: Input)
    ensures i == 0 && j == 1 && k == 2 && back == x
  {
    var t := new JobTable();
    i := t.Dispatch(x);
    j := t.Dispatch(y);
    back := t.Consume(i);
    k := t.Dispatch(z);
  }
}
