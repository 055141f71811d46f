/**
 * The import resolver `gatherImports` of src/app/compiler.js: it grows a
 * bundle of source files until every import hint is present, or stops at
 * the first hint it cannot resolve locally.
 *
 * The editor store and the session's remote cache are finite maps. A hint
 * that needs the GitHub fetcher suspends resolution: GatherImports returns
 * a Fetch continuation, and the orchestrator (module Orchestrator) feeds
 * the fetch result back, which is where the JavaScript re-invokes
 * gatherImports from the fetch callback.
 */
module Resolver {
  import opened Patterns

  /**
   * The JavaScript `files` object: its keys in insertion order, which is the
   * order `for (fileName in files)` visits them, and its contents.
   */
  datatype Bundle = Bundle(order: seq<Path>, text: map<Path, Text>)
  {
    ghost predicate Valid()
    {
      && NoRepeats(order)
      && (forall i :: 0 <= i < |order| ==> order[i] in text)
      && (forall k {:trigger k in text} :: k in text ==> k in order)
    }
  }

  ghost predicate NoRepeats<T>(s: seq<T>)
  {
    forall i, j :: 0 <= i < j < |s| ==> s[i] != s[j]
  }

  /** A bundle with one file, as `compile` builds it. */
  function SingleFile(k: Path, t: Text): (b: Bundle)
    ensures b.Valid() && b.text == map[k := t]
  {
    Bundle([k], map[k := t])
  }

  /** `files[k] = t` for a key not yet present: the key goes last. */
  function Add(b: Bundle, k: Path, t: Text): (r: Bundle)
    requires b.Valid() && k !in b.text
    ensures r.Valid()
    ensures r.order == b.order + [k] && r.text == b.text[k := t]
  {
    Bundle(b.order + [k], b.text[k := t])
  }

  /** `files[k] = t` for any key: a new key goes last, an existing one keeps its place. */
  function Put(b: Bundle, k: Path, t: Text): (r: Bundle)
    requires b.Valid()
    ensures r.Valid() && r.text == b.text[k := t]
    ensures k in b.text ==> r.order == b.order
    ensures k !in b.text ==> r.order == b.order + [k]
  {
    if k in b.text then Bundle(b.order, b.text[k := t]) else Add(b, k, t)
  }

  /** b2 is b with keys appended: no key removed, none overwritten. */
  ghost predicate Grows(b: Bundle, b2: Bundle)
  {
    && |b.order| <= |b2.order|
    && b2.order[..|b.order|] == b.order
    && (forall k :: k in b.text ==> k in b2.text && b2.text[k] == b.text[k])
  }

  /** The editor collaborator: its files, the key of the open file, and that file's text. */
  datatype Editor = Editor(files: map<Path, Text>, cacheFile: Path, value: Text)

  /** The hint each file of the bundle contributes, if any, in key order. */
  function Imports(b: Bundle): (r: seq<Option<Path>>)
    requires b.Valid()
    ensures |r| == |b.order|
  {
    seq(|b.order|, i requires 0 <= i < |b.order| => ImportOf(b.text[b.order[i]]))
  }

  /** Where a path resolved without the network comes from, in precedence order. */
  ghost predicate FromStores(k: Path, t: Text, editor: Editor, cache: map<Path, Text>)
  {
    || (k in editor.files && t == editor.files[k])
    || (k !in editor.files && k in cache && t == cache[k])
  }

  /** Every key added between b and b2 was read from the editor or the cache. */
  ghost predicate AddedFromStores(b: Bundle, b2: Bundle, editor: Editor, cache: map<Path, Text>)
    requires b2.Valid() && |b.order| <= |b2.order|
  {
    forall i :: |b.order| <= i < |b2.order| ==> FromStores(b2.order[i], b2.text[b2.order[i]], editor, cache)
  }

  /** h is a hint of the call, or the import of one of the first n files of b. */
  ghost predicate Wanted(h: Path, b: Bundle, n: nat, hints: seq<Path>)
    requires b.Valid() && n <= |b.order|
  {
    h in hints || Some(h) in Imports(b)[..n]
  }

  /**
   * Each file added after the first `start` ones was asked for: it is a hint
   * of the call, or the import of a file that was in the bundle before it.
   */
  ghost predicate Reached(b: Bundle, start: nat, hints: seq<Path>)
    requires b.Valid() && start <= |b.order|
  {
    forall i :: start <= i < |b.order| ==> Wanted(b.order[i], b, i, hints)
  }

  /** Every file's import is itself in the bundle. */
  ghost predicate Closed(b: Bundle)
    requires b.Valid()
  {
    forall p :: Some(p) in Imports(b) ==> p in b.text
  }

  // ---------------------------------------------------------------------------
  // The scan pass (src/app/compiler.js:224-237)
  // ---------------------------------------------------------------------------

  /** `if (importHints.indexOf(p) === -1) importHints.push(p)` */
  function PushNew(hints: seq<Path>, imp: Option<Path>): (r: seq<Path>)
    ensures |hints| <= |r| <= |hints| + 1 && r[..|hints|] == hints
    ensures forall h :: h in r <==> h in hints || imp == Some(h)
    ensures imp.None? || imp.value in hints ==> r == hints
  {
    match imp
    case None => hints
    case Some(p) => if p in hints then hints else hints + [p]
  }

  /** The hints after the scan has met the imports `imps`, in order. */
  function ScanFrom(hints: seq<Path>, imps: seq<Option<Path>>): seq<Path>
  {
    if imps == [] then hints else PushNew(ScanFrom(hints, imps[..|imps| - 1]), imps[|imps| - 1])
  }

  method Scan(b: Bundle, hints: seq<Path>) returns (r: seq<Path>)
    requires b.Valid()
    ensures r == ScanFrom(hints, Imports(b))
  {
    r := hints;
    for i := 0 to |b.order|
      invariant r == ScanFrom(hints, Imports(b)[..i])
    {
      var imp := ImportOf(b.text[b.order[i]]);
      assert Imports(b)[..i + 1][..i] == Imports(b)[..i];
      if imp.Some? && imp.value !in r {
        r := r + [imp.value];
      }
    }
    assert Imports(b)[..|b.order|] == Imports(b);
  }

  /** Scanning only appends to the hints. */
  lemma {:induction false} ScanExtends(hints: seq<Path>, imps: seq<Option<Path>>)
    ensures |hints| <= |ScanFrom(hints, imps)| && ScanFrom(hints, imps)[..|hints|] == hints
  {
    if imps != [] {
      ScanExtends(hints, imps[..|imps| - 1]);
    }
  }

  /** Every appended hint is one of the imports met. */
  lemma {:induction false} ScanSound(hints: seq<Path>, imps: seq<Option<Path>>)
    ensures forall h :: h in ScanFrom(hints, imps) ==> h in hints || Some(h) in imps
  {
    if imps != [] {
      var front := imps[..|imps| - 1];
      ScanSound(hints, front);
      assert forall x :: x in front ==> x in imps;
    }
  }

  /** Every import met ends up among the hints. */
  lemma {:induction false} ScanComplete(hints: seq<Path>, imps: seq<Option<Path>>)
    ensures forall p :: Some(p) in imps ==> p in ScanFrom(hints, imps)
  {
    if imps != [] {
      var front := imps[..|imps| - 1];
      ScanComplete(hints, front);
      ScanExtends(ScanFrom(hints, front), [imps[|imps| - 1]]);
      assert imps == front + [imps[|imps| - 1]];
      var r := ScanFrom(hints, imps);
      forall p | Some(p) in imps ensures p in r {
        if Some(p) in front {
          assert p in ScanFrom(hints, front);
        }
      }
    }
  }

  /** A path is pushed at most once: hints without repeats stay without repeats. */
  lemma {:induction false} ScanNoRepeats(hints: seq<Path>, imps: seq<Option<Path>>)
    requires NoRepeats(hints)
    ensures NoRepeats(ScanFrom(hints, imps))
  {
    if imps != [] {
      var front := imps[..|imps| - 1];
      ScanNoRepeats(hints, front);
      var prev := ScanFrom(hints, front);
      var imp := imps[|imps| - 1];
      assert ScanFrom(hints, imps) == PushNew(prev, imp);
      if imp.Some? && imp.value !in prev {
        var r := prev + [imp.value];
        forall i, j | 0 <= i < j < |r| ensures r[i] != r[j] {
          if j == |prev| {
            assert r[i] == prev[i] && prev[i] in prev;
            assert r[j] == imp.value;
          } else {
            assert r[i] == prev[i] && r[j] == prev[j];
          }
        }
      }
    }
  }

  // ---------------------------------------------------------------------------
  // The drain pass (src/app/compiler.js:238-269)
  // ---------------------------------------------------------------------------

  /** Why a popped hint stops the pass. */
  datatype Halt =
    | Remote(ownerRepo: string, rest: string)  // matches the GitHub pattern: fetch it
    | Unsupported                               // another URL scheme
    | NotFound

  /** The branch a hint found in neither store takes. */
  function Classify(m: Path): (h: Halt)
    ensures h.Remote? <==> GithubRef(m).Some?
    ensures h.Remote? ==> GithubRef(m) == Some((h.ownerRepo, h.rest))
    ensures h.Unsupported? <==> GithubRef(m).None? && HasUrlScheme(m)
  {
    match GithubRef(m)
    case Some(g) => Remote(g.0, g.1)
    case None => if HasUrlScheme(m) then Unsupported else NotFound
  }

  /** The message `cb` receives for a failed import. */
  function ImportError(m: Path, cause: string): (e: string)
    ensures StartsWith(e, "Unable to import \"") && Contains(e, m) && Contains(e, cause)
  {
    var pre := "Unable to import \"";
    var mid := "\": ";
    ContainsComplete(pre, m, mid + cause);
    ContainsComplete(pre + m + mid, cause, []);
    Regroup(pre, m, mid, cause);
    pre + m + mid + cause
  }

  lemma Regroup(a: string, b: string, c: string, d: string)
    ensures a + b + c + d == a + (b + (c + d)) == (a + b + c) + (d + [])
  {
  }

  /** For a path without quotes, the message gives back both the path and the cause. */
  lemma ImportErrorNames(m: Path, cause: string, m2: Path, cause2: string)
    requires NoQuote(m) && NoQuote(m2) && ImportError(m, cause) == ImportError(m2, cause2)
    ensures m == m2 && cause == cause2
  {
    var pre, mid := "Unable to import \"", "\": ";
    Regroup(pre, m, mid, cause);
    Regroup(pre, m2, mid, cause2);
    assert IsQuote(mid[0]);
    QuoteEnds(pre, mid, m, cause, m2, cause2);
  }

  /** A quote-free field closed by a quote can be read back from the text it was put in. */
  lemma QuoteEnds(pre: string, mid: string, m: string, cause: string, m2: string, cause2: string)
    requires mid != [] && IsQuote(mid[0]) && NoQuote(m) && NoQuote(m2)
    requires pre + (m + (mid + cause)) == pre + (m2 + (mid + cause2))
    ensures m == m2 && cause == cause2
  {
    var s1, s2 := m + (mid + cause), m2 + (mid + cause2);
    assert s1 == (pre + s1)[|pre|..] == (pre + s2)[|pre|..] == s2;
    SpanLenOf(m, mid + cause, IsQuote);
    SpanLenOf(m2, mid + cause2, IsQuote);
    assert s1[..|m|] == m && s2[..|m2|] == m2;
    assert s1[|m| + |mid|..] == cause && s2[|m2| + |mid|..] == cause2;
  }

  /** What a drain pass leaves: the bundle, whether it grew, why it stopped, the hints not yet popped. */
  datatype Drained = Drained(files: Bundle, reloop: bool, halt: Option<(Path, Halt)>, left: seq<Path>)

  /** Where popping from the end of s first meets h: its last position. */
  function LastIndex(s: seq<Path>, h: Path): (i: nat)
    requires h in s
    ensures i < |s| && s[i] == h && forall j :: i < j < |s| ==> s[j] != h
  {
    if s[|s| - 1] == h then |s| - 1 else LastIndex(s[..|s| - 1], h)
  }

  /**
   * The drain loop `while (importHints.length > 0) { m = importHints.pop() ... }`:
   * pop the last hint, skip it if present, read it from the editor, else the
   * cache, else stop on it. The bundle only grows, from the stores, with
   * requested paths, and `reloop` records whether it grew.
   */
  function DrainSpec(b: Bundle, hints: seq<Path>, editor: Editor, cache: map<Path, Text>): (r: Drained)
    requires b.Valid()
    ensures r.files.Valid() && Grows(b, r.files) && AddedFromStores(b, r.files, editor, cache)
    ensures r.reloop <==> |b.order| < |r.files.order|
    ensures forall i :: |b.order| <= i < |r.files.order| ==> r.files.order[i] in hints
    decreases |hints|
  {
    if hints == [] then
      Stays(b, editor, cache);
      Drained(b, false, None, [])
    else
      var m := hints[|hints| - 1];
      var rest := hints[..|hints| - 1];
      if m in b.text then
        var r := DrainSpec(b, rest, editor, cache);
        PoppedWithin(r.files.order, |b.order|, hints);
        r
      else if m in editor.files || m in cache then
        var t := if m in editor.files then editor.files[m] else cache[m];
        var r := DrainSpec(Add(b, m, t), rest, editor, cache);
        AddedOne(b, m, t, r.files, editor, cache);
        PoppedWithinAdd(r.files.order, |b.order|, hints);
        Drained(r.files, true, r.halt, r.left)
      else
        Stays(b, editor, cache);
        Drained(b, false, Some((m, Classify(m))), rest)
  }

  /** A bundle grows into itself, adding nothing. */
  lemma Stays(b: Bundle, editor: Editor, cache: map<Path, Text>)
    requires b.Valid()
    ensures Grows(b, b) && AddedFromStores(b, b, editor, cache)
  {
    assert b.order[..|b.order|] == b.order;
  }

  /** Keys drawn from the hints left after a pop are hints. */
  lemma PoppedWithin(s: seq<Path>, lo: nat, hints: seq<Path>)
    requires hints != [] && forall i :: lo <= i < |s| ==> s[i] in hints[..|hints| - 1]
    ensures forall i :: lo <= i < |s| ==> s[i] in hints
  {
    assert forall h :: h in hints[..|hints| - 1] ==> h in hints;
  }

  /** The popped hint, followed by keys drawn from the hints left, are hints. */
  lemma PoppedWithinAdd(s: seq<Path>, lo: nat, hints: seq<Path>)
    requires hints != [] && lo < |s| && s[lo] == hints[|hints| - 1]
    requires forall i :: lo + 1 <= i < |s| ==> s[i] in hints[..|hints| - 1]
    ensures forall i :: lo <= i < |s| ==> s[i] in hints
  {
    PoppedWithin(s, lo + 1, hints);
  }

  /** Adding a store file, then growing further, is growth from the stores starting at the first. */
  lemma AddedOne(b: Bundle, m: Path, t: Text, b2: Bundle, editor: Editor, cache: map<Path, Text>)
    requires b.Valid() && m !in b.text && FromStores(m, t, editor, cache)
    requires b2.Valid() && Grows(Add(b, m, t), b2) && AddedFromStores(Add(b, m, t), b2, editor, cache)
    ensures Grows(b, b2) && AddedFromStores(b, b2, editor, cache) && b2.order[|b.order|] == m
  {
    var b1 := Add(b, m, t);
    AddGrows(b, m, t);
    GrowsTrans(b, b1, b2);
    assert b2.order[..|b1.order|][|b.order|] == m;
    assert AddedFromStores(b, b1, editor, cache);
    AddedTrans(b, b1, b2, editor, cache);
  }

  /** No key appended after b is one b already had. */
  lemma AppendedAreNew(b: Bundle, b2: Bundle, x: Path)
    requires b.Valid() && b2.Valid() && Grows(b, b2) && x in b.text
    ensures forall i :: |b.order| <= i < |b2.order| ==> b2.order[i] != x
  {
    var k :| 0 <= k < |b.order| && b.order[k] == x;
    assert b2.order[..|b.order|][k] == x;
  }

  /**
   * One pop of a hint that is present or in a store: the drain goes on from
   * b1, which is b, or b with that hint added.
   */
  lemma DrainUnfold(b: Bundle, hints: seq<Path>, editor: Editor, cache: map<Path, Text>) returns (b1: Bundle)
    requires b.Valid() && hints != []
    requires var m := hints[|hints| - 1]; m in b.text || m in editor.files || m in cache
    ensures b1.Valid() && hints[|hints| - 1] in b1.text && Grows(b, b1)
    ensures hints[|hints| - 1] in b.text ==> b1 == b
    ensures hints[|hints| - 1] !in b.text ==> |b1.order| == |b.order| + 1 && b1.order[|b.order|] == hints[|hints| - 1]
    ensures var r, r1 := DrainSpec(b, hints, editor, cache), DrainSpec(b1, hints[..|hints| - 1], editor, cache);
      r.files == r1.files && r.halt == r1.halt && r.left == r1.left
  {
    var m := hints[|hints| - 1];
    if m in b.text {
      b1 := b;
      assert b.order[..|b.order|] == b.order;
    } else {
      b1 := Add(b, m, if m in editor.files then editor.files[m] else cache[m]);
      AddGrows(b, m, if m in editor.files then editor.files[m] else cache[m]);
    }
  }

  /** A drain that does not stop on a hint leaves every hint present and none to pop. */
  lemma {:induction false} DrainComplete(b: Bundle, hints: seq<Path>, editor: Editor, cache: map<Path, Text>)
    requires b.Valid()
    ensures var r := DrainSpec(b, hints, editor, cache);
      r.halt.None? ==> r.left == [] && forall h :: h in hints ==> h in r.files.text
    decreases |hints|
  {
    if hints != [] {
      var m := hints[|hints| - 1];
      var rest := hints[..|hints| - 1];
      if m in b.text || m in editor.files || m in cache {
        var b1 := DrainUnfold(b, hints, editor, cache);
        var r1 := DrainSpec(b1, rest, editor, cache);
        DrainComplete(b1, rest, editor, cache);
        if r1.halt.None? {
          assert m in r1.files.text;
          CoverStep(hints, r1.files.text);
        }
      }
    }
  }

  /** The front of the hints present and the last one present: all of them present. */
  lemma CoverStep(hints: seq<Path>, text: map<Path, Text>)
    requires hints != [] && hints[|hints| - 1] in text
    requires forall h :: h in hints[..|hints| - 1] ==> h in text
    ensures forall h :: h in hints ==> h in text
  {
    assert hints == hints[..|hints| - 1] + [hints[|hints| - 1]];
  }

  /**
   * A drain that stops does so on the last hint popped, which no store has;
   * every hint after it is present by then, and the ones before it are left.
   */
  lemma {:induction false} DrainHalts(b: Bundle, hints: seq<Path>, editor: Editor, cache: map<Path, Text>)
    requires b.Valid()
    ensures var r := DrainSpec(b, hints, editor, cache);
      r.halt.Some? ==>
        var m := r.halt.value.0;
        && |r.left| < |hints| && r.left == hints[..|r.left|] && m == hints[|r.left|]
        && (forall j :: |r.left| < j < |hints| ==> hints[j] in r.files.text)
        && m !in r.files.text && m !in editor.files && m !in cache
        && r.halt.value.1 == Classify(m)
    decreases |hints|
  {
    if hints != [] {
      var m := hints[|hints| - 1];
      var rest := hints[..|hints| - 1];
      if m in b.text || m in editor.files || m in cache {
        var b1 := DrainUnfold(b, hints, editor, cache);
        var r1 := DrainSpec(b1, rest, editor, cache);
        DrainHalts(b1, rest, editor, cache);
        if r1.halt.Some? {
          assert m in b1.text && Grows(b1, r1.files);
          HaltStep(hints, r1.left, r1.halt.value.0, r1.files.text);
        }
      }
    }
  }

  /** Stopping on a hint of the front, after popping a present last hint, is stopping on it in the whole. */
  lemma HaltStep(hints: seq<Path>, left: seq<Path>, m: Path, text: map<Path, Text>)
    requires hints != [] && hints[|hints| - 1] in text
    requires var rest := hints[..|hints| - 1];
      && |left| < |rest| && left == rest[..|left|] && m == rest[|left|]
      && forall j :: |left| < j < |rest| ==> rest[j] in text
    ensures |left| < |hints| && left == hints[..|left|] && m == hints[|left|]
    ensures forall j :: |left| < j < |hints| ==> hints[j] in text
  {
    var rest := hints[..|hints| - 1];
    forall j | |left| < j < |hints| ensures hints[j] in text {
      if j < |rest| {
        assert rest[j] == hints[j];
      }
    }
  }

  /**
   * Files are appended in the order the hints are popped, from the end: a
   * file appended later was requested further to the front.
   */
  lemma {:induction false} DrainPopsLastFirst(b: Bundle, hints: seq<Path>, editor: Editor, cache: map<Path, Text>)
    requires b.Valid()
    ensures var r := DrainSpec(b, hints, editor, cache);
      forall i, j :: |b.order| <= i < j < |r.files.order| ==>
        LastIndex(hints, r.files.order[j]) < LastIndex(hints, r.files.order[i])
    decreases |hints|
  {
    if hints != [] {
      var m := hints[|hints| - 1];
      var rest := hints[..|hints| - 1];
      if m in b.text || m in editor.files || m in cache {
        var b1 := DrainUnfold(b, hints, editor, cache);
        var r1 := DrainSpec(b1, rest, editor, cache);
        DrainPopsLastFirst(b1, rest, editor, cache);
        AppendedAreNew(b1, r1.files, m);
        PopOrderStep(hints, b.order, b1.order, r1.files.order);
      }
    }
  }

  /**
   * Popping the last hint m: the keys appended from b1 on (none of them m) are
   * ordered for the front, hence for the whole; m, if appended, comes first.
   */
  lemma PopOrderStep(hints: seq<Path>, o: seq<Path>, o1: seq<Path>, o2: seq<Path>)
    requires hints != [] && |o| <= |o1| <= |o| + 1 && |o1| <= |o2|
    requires |o| < |o1| ==> o2[|o|] == hints[|hints| - 1]
    requires forall i :: |o1| <= i < |o2| ==> o2[i] in hints[..|hints| - 1] && o2[i] != hints[|hints| - 1]
    requires forall i, j :: |o1| <= i < j < |o2| ==>
      LastIndex(hints[..|hints| - 1], o2[j]) < LastIndex(hints[..|hints| - 1], o2[i])
    ensures forall i :: |o| <= i < |o2| ==> o2[i] in hints
    ensures forall i, j :: |o| <= i < j < |o2| ==> LastIndex(hints, o2[j]) < LastIndex(hints, o2[i])
  {
    var rest := hints[..|hints| - 1];
    assert forall x :: x in rest ==> x in hints;
    forall i | |o1| <= i < |o2| ensures LastIndex(hints, o2[i]) == LastIndex(rest, o2[i]) < |hints| - 1 {
    }
  }

  /** The method form of DrainSpec, as the source's while loop. */
  method Drain(b: Bundle, hints: seq<Path>, editor: Editor, cache: map<Path, Text>)
    returns (b2: Bundle, reloop: bool, halt: Option<(Path, Halt)>, left: seq<Path>)
    requires b.Valid()
    ensures Drained(b2, reloop, halt, left) == DrainSpec(b, hints, editor, cache)
  {
    b2, reloop, halt, left := b, false, None, hints;
    while |left| > 0
      invariant b2.Valid()
      invariant var r := DrainSpec(b2, left, editor, cache);
        DrainSpec(b, hints, editor, cache) == Drained(r.files, reloop || r.reloop, r.halt, r.left)
    {
      var m := left[|left| - 1];
      left := left[..|left| - 1];
      if m in b2.text {
        continue;
      }
      if m in editor.files {
        b2 := Add(b2, m, editor.files[m]);
        reloop := true;
      } else if m in cache {
        b2 := Add(b2, m, cache[m]);
        reloop := true;
      } else {
        halt := Some((m, Classify(m)));
        return;
      }
    }
  }

  lemma AddGrows(b: Bundle, k: Path, t: Text)
    requires b.Valid() && k !in b.text
    ensures Grows(b, Add(b, k, t))
  {
    assert Add(b, k, t).order[..|b.order|] == b.order;
  }

  // ---------------------------------------------------------------------------
  // gatherImports (src/app/compiler.js:210-272)
  // ---------------------------------------------------------------------------

  datatype Gathered =
    | SingleSource(source: Option<Text>)  // the compiler takes one file: `files[editor.getCacheFile()]`
    | Sources(files: Bundle)              // `cb(null, {sources: files})`
    | Failed(error: string, files: Bundle)
    | Fetch(path: Path, ownerRepo: string, rest: string, files: Bundle, hints: seq<Path>)

  /** What `gatherImports` hands its callback, given the bundle and hints it started from. */
  ghost predicate Answer(accepts: bool, files: Bundle, hints: seq<Path>, editor: Editor, cache: map<Path, Text>, g: Gathered)
    requires files.Valid()
  {
    // Single-file compilers: the open file, looked up as is, with no scan and no error.
    && (!accepts ==>
      g == SingleSource(if editor.cacheFile in files.text then Some(files.text[editor.cacheFile]) else None))
    // Otherwise the bundle grows from the editor and the cache only, each file added on request.
    && (accepts ==>
      && !g.SingleSource? && g.files.Valid() && Grows(files, g.files)
      && AddedFromStores(files, g.files, editor, cache)
      && Reached(g.files, |files.order|, hints))
    // Success: every hint is present and the bundle is closed under imports.
    && (g.Sources? ==> Closed(g.files) && forall h :: h in hints ==> h in g.files.text)
    // Failure: a wanted path found nowhere, reported with the source's cause.
    && (g.Failed? ==> exists m ::
      && Wanted(m, g.files, |g.files.order|, hints)
      && m !in g.files.text && m !in editor.files && m !in cache
      && GithubRef(m).None?
      && g.error == ImportError(m, if HasUrlScheme(m) then "Unsupported URL" else "File not found"))
    // Suspension: a wanted GitHub path found nowhere, with the hints still to drain.
    && (g.Fetch? ==>
      && Wanted(g.path, g.files, |g.files.order|, hints)
      && g.path !in g.files.text && g.path !in editor.files && g.path !in cache
      && GithubRef(g.path) == Some((g.ownerRepo, g.rest))
      && forall h :: h in g.hints ==> Wanted(h, g.files, |g.files.order|, hints))
  }

  /**
   * The do-while of `gatherImports` from bundle b and pending hints hs: scan,
   * drain, then stop on the drain's halt, finish when nothing was added, or
   * go round again with no pending hints.
   */
  function GatherFrom(b: Bundle, hs: seq<Path>, editor: Editor, cache: map<Path, Text>): Gathered
    requires b.Valid()
    decreases (editor.files.Keys + cache.Keys) - b.text.Keys
  {
    var d := DrainSpec(b, ScanFrom(hs, Imports(b)), editor, cache);
    if d.halt.Some? then
      var m := d.halt.value.0;
      match d.halt.value.1
      case Remote(ownerRepo, rest) => Fetch(m, ownerRepo, rest, d.files, d.left)
      case Unsupported => Failed(ImportError(m, "Unsupported URL"), d.files)
      case NotFound => Failed(ImportError(m, "File not found"), d.files)
    else if !d.reloop then Sources(d.files)
    else
      StoresShrink(b, d.files, editor, cache);
      GatherFrom(d.files, [], editor, cache)
  }

  /** One round of GatherFrom, case by case. */
  lemma GatherFromUnfold(b: Bundle, hs: seq<Path>, editor: Editor, cache: map<Path, Text>)
    requires b.Valid()
    ensures var d := DrainSpec(b, ScanFrom(hs, Imports(b)), editor, cache);
      var g := GatherFrom(b, hs, editor, cache);
      && (d.halt.Some? && d.halt.value.1.Remote? ==>
        g == Fetch(d.halt.value.0, d.halt.value.1.ownerRepo, d.halt.value.1.rest, d.files, d.left))
      && (d.halt.Some? && d.halt.value.1.Unsupported? ==> g == Failed(ImportError(d.halt.value.0, "Unsupported URL"), d.files))
      && (d.halt.Some? && d.halt.value.1.NotFound? ==> g == Failed(ImportError(d.halt.value.0, "File not found"), d.files))
      && (d.halt.None? && !d.reloop ==> g == Sources(d.files))
      && (d.halt.None? && d.reloop ==> g == GatherFrom(d.files, [], editor, cache))
  {
  }

  /** `gatherImports(files, importHints, cb)`: what it hands its callback. */
  function Gather(accepts: bool, files: Bundle, hints: seq<Path>, editor: Editor, cache: map<Path, Text>): Gathered
    requires files.Valid()
  {
    if !accepts then SingleSource(if editor.cacheFile in files.text then Some(files.text[editor.cacheFile]) else None)
    else GatherFrom(files, hints, editor, cache)
  }

  method GatherImports(accepts: bool, files: Bundle, hints: seq<Path>, editor: Editor, cache: map<Path, Text>)
    returns (g: Gathered)
    requires files.Valid()
    ensures g == Gather(accepts, files, hints, editor, cache)
    ensures Answer(accepts, files, hints, editor, cache, g)
  {
    GatherAnswer(accepts, files, hints, editor, cache);
    if !accepts {
      return SingleSource(if editor.cacheFile in files.text then Some(files.text[editor.cacheFile]) else None);
    }
    var b, hs := files, hints;
    while true
      invariant b.Valid()
      invariant GatherFrom(b, hs, editor, cache) == GatherFrom(files, hints, editor, cache)
      decreases (editor.files.Keys + cache.Keys) - b.text.Keys
    {
      // for (var fileName in files) ..., then while (importHints.length > 0) ...
      var scanned := Scan(b, hs);
      var b2, reloop, halt, left := Drain(b, scanned, editor, cache);
      GatherFromUnfold(b, hs, editor, cache);
      if halt.Some? {
        var m := halt.value.0;
        match halt.value.1
        case Remote(ownerRepo, rest) =>
          return Fetch(m, ownerRepo, rest, b2, left);
        case Unsupported =>
          return Failed(ImportError(m, "Unsupported URL"), b2);
        case NotFound =>
          return Failed(ImportError(m, "File not found"), b2);
      }
      if !reloop {
        return Sources(b2);
      }
      StoresShrink(b, b2, editor, cache);
      b, hs := b2, [];
    }
  }

  /** A stop on m, which no store has, meets Answer, as a fetch or as a failure. */
  lemma HaltAnswer(files: Bundle, hints: seq<Path>, editor: Editor, cache: map<Path, Text>, m: Path, b2: Bundle, g: Gathered)
    requires files.Valid() && b2.Valid() && Grows(files, b2) && AddedFromStores(files, b2, editor, cache)
    requires Reached(b2, |files.order|, hints)
    requires Wanted(m, b2, |b2.order|, hints) && m !in b2.text && m !in editor.files && m !in cache
    requires GithubRef(m).Some? ==>
      && g.Fetch? && g.path == m && g.files == b2 && GithubRef(m) == Some((g.ownerRepo, g.rest))
      && forall h :: h in g.hints ==> Wanted(h, b2, |b2.order|, hints)
    requires GithubRef(m).None? ==>
      g == Failed(ImportError(m, if HasUrlScheme(m) then "Unsupported URL" else "File not found"), b2)
    ensures Answer(true, files, hints, editor, cache, g)
  {
  }

  /** A quiet round with every hint present meets Answer as a success. */
  lemma SourcesAnswer(files: Bundle, hints: seq<Path>, editor: Editor, cache: map<Path, Text>, b2: Bundle)
    requires files.Valid() && b2.Valid() && Grows(files, b2) && AddedFromStores(files, b2, editor, cache)
    requires Reached(b2, |files.order|, hints)
    requires Closed(b2) && forall h :: h in hints ==> h in b2.text
    ensures Answer(true, files, hints, editor, cache, Sources(b2))
  {
  }

  /**
   * One round of the do-while (scan every file, then drain the hints) keeps
   * the resolution invariant, and says where it stops: on a requested path no
   * store has, or with every hint present, the bundle closed if nothing was added.
   */
  lemma PassKeeps(files: Bundle, b: Bundle, hs: seq<Path>, hints: seq<Path>, editor: Editor, cache: map<Path, Text>)
    requires files.Valid() && b.Valid() && Grows(files, b) && AddedFromStores(files, b, editor, cache)
    requires Reached(b, |files.order|, hints)
    requires forall h :: h in hs ==> Wanted(h, b, |b.order|, hints)
    requires forall h :: h in hints ==> h in b.text || h in hs
    ensures var d := DrainSpec(b, ScanFrom(hs, Imports(b)), editor, cache);
      && Grows(files, d.files) && AddedFromStores(files, d.files, editor, cache)
      && Reached(d.files, |files.order|, hints)
      && (d.halt.Some? ==>
        var m := d.halt.value.0;
        && Wanted(m, d.files, |d.files.order|, hints)
        && m !in d.files.text && m !in editor.files && m !in cache
        && d.halt.value.1 == Classify(m)
        && forall h :: h in d.left ==> Wanted(h, d.files, |d.files.order|, hints))
      && (d.halt.None? ==> forall h :: h in hints ==> h in d.files.text)
      && (d.halt.None? && !d.reloop ==> Closed(d.files))
  {
    var scanned := ScanFrom(hs, Imports(b));
    ScanSound(hs, Imports(b));
    ScanComplete(hs, Imports(b));
    ScanExtends(hs, Imports(b));
    WantedViaScan(b, hs, scanned, hints);
    var d := DrainSpec(b, scanned, editor, cache);
    DrainComplete(b, scanned, editor, cache);
    DrainHalts(b, scanned, editor, cache);
    GrowsKeepsWanted(b, d.files, hints);
    GrowsTrans(files, b, d.files);
    AddedTrans(files, b, d.files, editor, cache);
    ReachedStep(files, b, d.files, scanned, hints);
    if d.halt.Some? {
      assert d.halt.value.0 in scanned;
      assert forall h :: h in d.left ==> h in scanned;
    } else if !d.reloop {
      GrowsSameLength(b, d.files);
      ClosedAfterQuietPass(b, scanned);
    }
  }

  /** Every round of GatherFrom keeps the invariant, so its result meets Answer. */
  lemma {:induction false} GatherFromAnswer(files: Bundle, b: Bundle, hs: seq<Path>, hints: seq<Path>,
                                            editor: Editor, cache: map<Path, Text>)
    requires files.Valid() && b.Valid() && Grows(files, b) && AddedFromStores(files, b, editor, cache)
    requires Reached(b, |files.order|, hints)
    requires forall h :: h in hs ==> Wanted(h, b, |b.order|, hints)
    requires forall h :: h in hints ==> h in b.text || h in hs
    ensures Answer(true, files, hints, editor, cache, GatherFrom(b, hs, editor, cache))
    decreases (editor.files.Keys + cache.Keys) - b.text.Keys
  {
    var d := DrainSpec(b, ScanFrom(hs, Imports(b)), editor, cache);
    var g := GatherFrom(b, hs, editor, cache);
    PassKeeps(files, b, hs, hints, editor, cache);
    GatherFromUnfold(b, hs, editor, cache);
    if d.halt.Some? {
      HaltAnswer(files, hints, editor, cache, d.halt.value.0, d.files, g);
    } else if !d.reloop {
      SourcesAnswer(files, hints, editor, cache, d.files);
    } else {
      StoresShrink(b, d.files, editor, cache);
      GatherFromAnswer(files, d.files, [], hints, editor, cache);
    }
  }

  /** What `gatherImports` hands its callback meets Answer, for every input. */
  lemma GatherAnswer(accepts: bool, files: Bundle, hints: seq<Path>, editor: Editor, cache: map<Path, Text>)
    requires files.Valid()
    ensures Answer(accepts, files, hints, editor, cache, Gather(accepts, files, hints, editor, cache))
  {
    if accepts {
      assert files.order[..|files.order|] == files.order;
      GatherFromAnswer(files, files, hints, hints, editor, cache);
    }
  }

  // ---------------------------------------------------------------------------
  // Helper lemmas for GatherImports
  // ---------------------------------------------------------------------------

  /** The scan's hints are wanted, and the call's hints are still covered. */
  lemma WantedViaScan(b: Bundle, hs: seq<Path>, scanned: seq<Path>, hints: seq<Path>)
    requires b.Valid()
    requires forall h :: h in scanned ==> h in hs || Some(h) in Imports(b)
    requires forall h :: h in hs ==> Wanted(h, b, |b.order|, hints)
    ensures forall h :: h in scanned ==> Wanted(h, b, |b.order|, hints)
  {
    assert Imports(b)[..|b.order|] == Imports(b);
  }

  /** Appending files leaves the imports of the earlier ones as they were. */
  lemma GrowsKeepsImports(b: Bundle, b2: Bundle)
    requires b.Valid() && b2.Valid() && Grows(b, b2)
    ensures Imports(b2)[..|b.order|] == Imports(b)
  {
    forall j | 0 <= j < |b.order| ensures Imports(b2)[j] == Imports(b)[j] {
      assert b2.order[..|b.order|][j] == b.order[j];
      assert b.order[j] in b.text;
    }
  }

  lemma GrowsKeepsWanted(b: Bundle, b2: Bundle, hints: seq<Path>)
    requires b.Valid() && b2.Valid() && Grows(b, b2)
    ensures forall h :: Wanted(h, b, |b.order|, hints) ==> Wanted(h, b2, |b2.order|, hints)
  {
    GrowsKeepsImports(b, b2);
    assert Imports(b)[..|b.order|] == Imports(b);
    assert Imports(b2)[..|b2.order|] == Imports(b2);
    assert forall x :: x in Imports(b2)[..|b.order|] ==> x in Imports(b2);
  }

  lemma GrowsTrans(b0: Bundle, b1: Bundle, b2: Bundle)
    requires Grows(b0, b1) && Grows(b1, b2)
    ensures Grows(b0, b2)
  {
    assert b2.order[..|b0.order|] == b2.order[..|b1.order|][..|b0.order|];
  }

  lemma AddedTrans(b0: Bundle, b1: Bundle, b2: Bundle, editor: Editor, cache: map<Path, Text>)
    requires b1.Valid() && b2.Valid() && Grows(b0, b1) && Grows(b1, b2)
    requires AddedFromStores(b0, b1, editor, cache) && AddedFromStores(b1, b2, editor, cache)
    ensures |b0.order| <= |b2.order| && AddedFromStores(b0, b2, editor, cache)
  {
    forall i | |b0.order| <= i < |b1.order|
      ensures FromStores(b2.order[i], b2.text[b2.order[i]], editor, cache)
    {
      assert b2.order[..|b1.order|][i] == b1.order[i];
      assert b1.order[i] in b1.text;
    }
  }

  /** The files one pass adds were scanned hints, so they are reached. */
  lemma ReachedStep(files: Bundle, b: Bundle, b2: Bundle, scanned: seq<Path>, hints: seq<Path>)
    requires files.Valid() && b.Valid() && b2.Valid()
    requires Grows(files, b) && Grows(b, b2)
    requires Reached(b, |files.order|, hints)
    requires forall h :: h in scanned ==> Wanted(h, b, |b.order|, hints)
    requires forall i :: |b.order| <= i < |b2.order| ==> b2.order[i] in scanned
    ensures Reached(b2, |files.order|, hints)
  {
    GrowsKeepsImports(b, b2);
    forall i | |files.order| <= i < |b2.order| ensures Wanted(b2.order[i], b2, i, hints) {
      var n := if i < |b.order| then i else |b.order|;
      assert Imports(b2)[..n] == Imports(b)[..n];
      assert forall x :: x in Imports(b2)[..n] ==> x in Imports(b2)[..i];
      if i < |b.order| {
        assert b2.order[..|b.order|][i] == b.order[i];
        assert Wanted(b.order[i], b, i, hints);
      } else {
        assert Imports(b)[..|b.order|] == Imports(b);
        assert Wanted(b2.order[i], b, |b.order|, hints);
      }
    }
  }

  lemma GrowsSameLength(b: Bundle, b2: Bundle)
    requires b.Valid() && b2.Valid() && Grows(b, b2) && |b2.order| == |b.order|
    ensures b2 == b
  {
    assert b2.order == b2.order[..|b.order|];
    assert b2.text.Keys == b.text.Keys;
    assert b2.text == b.text;
  }

  /** A pass that drains every scanned hint without adding a file leaves a closed bundle. */
  lemma ClosedAfterQuietPass(b: Bundle, scanned: seq<Path>)
    requires b.Valid()
    requires forall p :: Some(p) in Imports(b) ==> p in scanned
    requires forall h :: h in scanned ==> h in b.text
    ensures Closed(b)
  {
  }

  /** Each looping pass takes at least one path out of the stores' unread keys. */
  lemma StoresShrink(b: Bundle, b2: Bundle, editor: Editor, cache: map<Path, Text>)
    requires b.Valid() && b2.Valid() && Grows(b, b2) && |b.order| < |b2.order|
    requires AddedFromStores(b, b2, editor, cache)
    ensures (editor.files.Keys + cache.Keys) - b2.text.Keys < (editor.files.Keys + cache.Keys) - b.text.Keys
  {
    var k := b2.order[|b.order|];
    assert k in b2.text;
    assert FromStores(k, b2.text[k], editor, cache);
    assert k !in b.text by {
      forall i | 0 <= i < |b.order| ensures b.order[i] != k {
        assert b2.order[..|b.order|][i] == b.order[i];
      }
    }
  }
}
