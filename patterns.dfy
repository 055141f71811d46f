/**
 * Hand-written recognisers for the four regular expressions the compiler
 * front end uses (src/app/compiler.js): the start-of-file import pattern,
 * the leading "./" strip, the GitHub reference pattern and the URL scheme
 * pattern, plus the substring test behind `/Deferred import/.exec`.
 *
 * Each recogniser is a deterministic scan; its partner lemmas show that it
 * accepts exactly the strings of the shape the regular expression describes
 * (soundness returns the pieces, completeness takes them).
 */
module Patterns {

  datatype Option<T> = None | Some(value: T)

  type Path = string
  type Text = string

  // ---------------------------------------------------------------------------
  // Character classes
  // ---------------------------------------------------------------------------

  /**
   * JavaScript `\s`: tab, line feed, vertical tab, form feed, carriage
   * return, space, and the Unicode space separators, line and paragraph
   * separators and the byte order mark. Checked by range first, so that an
   * ordinary printable character is refused after two comparisons.
   */
  predicate IsSpace(c: char): (b: bool)
    ensures b ==> !IsQuote(c) && c != 'i'
  {
    if c <= ' ' then c == ' ' || ('\t' <= c <= '\r')
    else if c < '\U{00A0}' then false
    else
      || c == '\U{00A0}' || c == '\U{1680}' || ('\U{2000}' <= c <= '\U{200A}')
      || c == '\U{2028}' || c == '\U{2029}' || c == '\U{202F}' || c == '\U{205F}'
      || c == '\U{3000}' || c == '\U{FEFF}'
  }

  predicate NotSpace(c: char) { !IsSpace(c) }

  /** The characters JavaScript's `.` refuses to match (no `s` flag). */
  predicate IsLineTerminator(c: char): (b: bool)
    ensures b ==> IsSpace(c)
  {
    c == '\n' || c == '\r' || c == '\U{2028}' || c == '\U{2029}'
  }

  predicate IsQuote(c: char) { c == '\'' || c == '"' }

  predicate IsSlash(c: char) { c == '/' }

  predicate IsColon(c: char) { c == ':' }

  /** No character of s is a `stop` character. */
  predicate NoneOf(s: string, stop: char -> bool) { forall k :: 0 <= k < |s| ==> !stop(s[k]) }

  predicate AllSpace(s: string) { NoneOf(s, NotSpace) }

  predicate NoQuote(s: string) { NoneOf(s, IsQuote) }

  predicate NoSlash(s: string) { NoneOf(s, IsSlash) }

  predicate NoColon(s: string) { NoneOf(s, IsColon) }

  predicate NoLineTerminator(s: string) { NoneOf(s, IsLineTerminator) }

  predicate StartsWith(s: string, prefix: string)
  {
    |prefix| <= |s| && s[..|prefix|] == prefix
  }

  // ---------------------------------------------------------------------------
  // Greedy scanning: the length of the longest prefix free of `stop`
  // characters, which is where a greedy `[^x]*` or `\s*` ends.
  // ---------------------------------------------------------------------------

  function SpanLen(s: string, stop: char -> bool): (n: nat)
    ensures n <= |s|
    ensures NoneOf(s[..n], stop)
    ensures n < |s| ==> stop(s[n])
  {
    if s == [] || stop(s[0]) then 0
    else
      var n := 1 + SpanLen(s[1..], stop);
      assert s[..n] == [s[0]] + s[1..][..n - 1];
      n
  }

  /** A run followed by a stop character (or by nothing) is exactly the span. */
  lemma {:induction false} SpanLenOf(run: string, after: string, stop: char -> bool)
    requires NoneOf(run, stop)
    requires after == [] || stop(after[0])
    ensures SpanLen(run + after, stop) == |run|
  {
    if run != [] {
      assert (run + after)[0] == run[0];
      assert (run + after)[1..] == run[1..] + after;
      assert NoneOf(run[1..], stop) by {
        forall k | 0 <= k < |run| - 1 ensures !stop(run[1..][k]) {
          assert run[1..][k] == run[k + 1];
        }
      }
      SpanLenOf(run[1..], after, stop);
    }
  }

  /** Cutting a string at n, around the character found there. */
  lemma CutAround(s: string, n: nat, c: char)
    requires n < |s| && s[n] == c
    ensures s == s[..n] + ([c] + s[n + 1..])
  {
  }

  lemma CutAt(s: string, n: nat)
    requires n <= |s|
    ensures s == s[..n] + s[n..]
  {
  }

  // ---------------------------------------------------------------------------
  // The import pattern /^\s*import\s*['"]([^'"]+)['"];/ without the m flag:
  // `^` anchors at offset 0 only, so a file yields at most one import, and
  // only when the file begins with it (after optional white space). Each
  // stage below reads the suffix the previous one leaves.
  // ---------------------------------------------------------------------------

  function LeadingImport(t: Text): (r: Option<Path>)
    ensures r.Some? ==> r.value != [] && NoQuote(r.value)
  {
    Keyword(t[SpanLen(t, NotSpace)..])
  }

  /** `import`, optional white space, then the quoted path. */
  function Keyword(u: string): (r: Option<Path>)
    ensures r.Some? ==> r.value != [] && NoQuote(r.value)
  {
    if StartsWith(u, "import") then
      var v := u[6..];
      Quoted(v[SpanLen(v, NotSpace)..])
    else None
  }

  /** A quote, a non-empty run of non-quotes, a quote (of either kind), `;`. */
  function Quoted(v: string): (r: Option<Path>)
    ensures r.Some? ==> r.value != [] && NoQuote(r.value)
  {
    if v != [] && IsQuote(v[0]) then
      var w := v[1..];
      var n := SpanLen(w, IsQuote);
      if 0 < n && n + 1 < |w| && w[n + 1] == ';' then Some(w[..n]) else None
    else None
  }

  lemma QuotedSound(v: string) returns (q1: char, q2: char, rest: string)
    requires Quoted(v).Some?
    ensures IsQuote(q1) && IsQuote(q2)
    ensures v == [q1] + (Quoted(v).value + ([q2, ';'] + rest))
  {
    var w := v[1..];
    var n := SpanLen(w, IsQuote);
    q1, q2, rest := v[0], w[n], w[n + 2..];
    assert w[n..] == [q2, ';'] + rest;
    assert w == w[..n] + w[n..];
    assert v == [v[0]] + w;
  }

  lemma KeywordSound(u: string) returns (ws2: string, v: string)
    requires Keyword(u).Some?
    ensures AllSpace(ws2) && Quoted(v) == Keyword(u)
    ensures u == "import" + (ws2 + v)
  {
    var v0 := u[6..];
    var n := SpanLen(v0, NotSpace);
    ws2, v := v0[..n], v0[n..];
    assert forall k :: 0 <= k < n ==> !NotSpace(v0[k]);
    assert v0 == ws2 + v;
    assert u == u[..6] + v0;
  }

  /** Whatever LeadingImport finds, the text has the shape of the pattern. */
  lemma LeadingImportSound(t: Text) returns (ws: string, ws2: string, q1: char, q2: char, rest: string)
    requires LeadingImport(t).Some?
    ensures AllSpace(ws) && AllSpace(ws2) && IsQuote(q1) && IsQuote(q2)
    ensures t == ws + ("import" + (ws2 + ([q1] + (LeadingImport(t).value + ([q2, ';'] + rest)))))
  {
    var i := SpanLen(t, NotSpace);
    ws := t[..i];
    assert forall k :: 0 <= k < i ==> !NotSpace(t[k]);
    assert t == ws + t[i..];
    var v;
    ws2, v := KeywordSound(t[i..]);
    q1, q2, rest := QuotedSound(v);
  }

  lemma QuotedComplete(q1: char, p: Path, q2: char, rest: string)
    requires IsQuote(q1) && IsQuote(q2) && p != [] && NoQuote(p)
    ensures Quoted([q1] + (p + ([q2, ';'] + rest))) == Some(p)
  {
    var w := p + ([q2, ';'] + rest);
    assert ([q1] + w)[1..] == w;
    SpanLenOf(p, [q2, ';'] + rest, IsQuote);
    assert w[..|p|] == p && w[|p| + 1] == ';';
  }

  lemma KeywordComplete(ws2: string, v: string)
    requires AllSpace(ws2) && (v == [] || !IsSpace(v[0]))
    ensures Keyword("import" + (ws2 + v)) == Quoted(v)
  {
    var u := "import" + (ws2 + v);
    assert u[..6] == "import" && u[6..] == ws2 + v;
    SpanLenOf(ws2, v, NotSpace);
    assert (ws2 + v)[|ws2|..] == v;
  }

  /** Every text of the pattern's shape yields exactly the quoted path. */
  lemma LeadingImportComplete(ws: string, ws2: string, q1: char, p: Path, q2: char, rest: string)
    requires AllSpace(ws) && AllSpace(ws2) && IsQuote(q1) && IsQuote(q2)
    requires p != [] && NoQuote(p)
    ensures LeadingImport(ws + ("import" + (ws2 + ([q1] + (p + ([q2, ';'] + rest)))))) == Some(p)
  {
    var v := [q1] + (p + ([q2, ';'] + rest));
    var u := "import" + (ws2 + v);
    QuotedComplete(q1, p, q2, rest);
    KeywordComplete(ws2, v);
    SpanLenOf(ws, u, NotSpace);
    assert (ws + u)[|ws|..] == u;
  }

  // ---------------------------------------------------------------------------
  // `if (importFilePath.startsWith('./')) importFilePath = importFilePath.slice(2)`
  // ---------------------------------------------------------------------------

  function StripDotSlash(p: Path): (r: Path)
    ensures StartsWith(p, "./") ==> "./" + r == p
    ensures !StartsWith(p, "./") ==> r == p
  {
    if StartsWith(p, "./") then p[2..] else p
  }

  /** The hint a file contributes to a scan: its leading import, "./" removed. */
  function ImportOf(t: Text): (r: Option<Path>)
    ensures r.Some? <==> LeadingImport(t).Some?
    ensures r.Some? ==> r.value == StripDotSlash(LeadingImport(t).value)
    ensures r.Some? ==> NoQuote(r.value)
  {
    match LeadingImport(t)
    case None => None
    case Some(p) => Some(StripDotSlash(p))
  }

  /** A hint comes from a file that opens with the import pattern, its path with "./" removed. */
  lemma ImportOfSound(t: Text) returns (ws: string, ws2: string, q1: char, p: Path, q2: char, rest: string)
    requires ImportOf(t).Some?
    ensures AllSpace(ws) && AllSpace(ws2) && IsQuote(q1) && IsQuote(q2) && p != [] && NoQuote(p)
    ensures t == ws + ("import" + (ws2 + ([q1] + (p + ([q2, ';'] + rest)))))
    ensures ImportOf(t) == Some(StripDotSlash(p))
  {
    p := LeadingImport(t).value;
    ws, ws2, q1, q2, rest := LeadingImportSound(t);
  }

  /** Every file that opens with the import pattern contributes its path, "./" removed. */
  lemma ImportOfComplete(ws: string, ws2: string, q1: char, p: Path, q2: char, rest: string)
    requires AllSpace(ws) && AllSpace(ws2) && IsQuote(q1) && IsQuote(q2)
    requires p != [] && NoQuote(p)
    ensures ImportOf(ws + ("import" + (ws2 + ([q1] + (p + ([q2, ';'] + rest)))))) == Some(StripDotSlash(p))
  {
    LeadingImportComplete(ws, ws2, q1, p, q2, rest);
  }

  // ---------------------------------------------------------------------------
  // The GitHub pattern /^(https?:\/\/)?(www.)?github.com\/([^/]*\/[^/]*)\/(.*)/.
  // The dots in `www.` and `github.com` are unescaped and match any character
  // except a line terminator, as does the `.` of the last group, which is
  // greedy but need not reach the end of the string. Group 3 is
  // "<owner>/<repo>", group 4 the rest of the path. Taking each optional
  // group whenever it is present is what backtracking settles on, since the
  // text after the group could not start the pattern's remainder otherwise.
  // ---------------------------------------------------------------------------

  function SchemeLen(m: string): nat
  {
    if StartsWith(m, "https://") then 8 else if StartsWith(m, "http://") then 7 else 0
  }

  function WwwLen(u: string): nat
  {
    if |u| >= 4 && u[..3] == "www" && !IsLineTerminator(u[3]) then 4 else 0
  }

  function GithubRef(m: string): (r: Option<(string, string)>)
    ensures r.Some? ==> NoLineTerminator(r.value.1)
  {
    var u := m[Min(SchemeLen(m), |m|)..];
    Host(u[Min(WwwLen(u), |u|)..])
  }

  function Min(a: nat, b: nat): nat { if a <= b then a else b }

  /** `github`, any character, `com/`, then owner/repo/rest. */
  function Host(v: string): (r: Option<(string, string)>)
    ensures r.Some? ==> NoLineTerminator(r.value.1)
  {
    if |v| >= 11 && v[..6] == "github" && !IsLineTerminator(v[6]) && v[7..11] == "com/" then
      RepoPath(v[11..])
    else None
  }

  function RepoPath(x: string): (r: Option<(string, string)>)
    ensures r.Some? ==> NoLineTerminator(r.value.1)
  {
    var a := SpanLen(x, IsSlash);
    if a < |x| then
      var y := x[a + 1..];
      var b := SpanLen(y, IsSlash);
      if b < |y| then
        var z := y[b + 1..];
        Some((x[..a] + "/" + y[..b], z[..SpanLen(z, IsLineTerminator)]))
      else None
    else None
  }

  predicate IsSchemePrefix(scheme: string)
  {
    scheme == "" || scheme == "http://" || scheme == "https://"
  }

  predicate IsWwwPrefix(www: string)
  {
    www == "" || (|www| == 4 && www[..3] == "www" && !IsLineTerminator(www[3]))
  }

  lemma RepoPathSound(x: string) returns (owner: string, repo: string, rest: string, tail: string)
    requires RepoPath(x).Some?
    ensures NoSlash(owner) && NoSlash(repo) && NoLineTerminator(rest)
    ensures tail == [] || IsLineTerminator(tail[0])
    ensures x == owner + ("/" + (repo + ("/" + (rest + tail))))
    ensures RepoPath(x).value == (owner + "/" + repo, rest)
  {
    var a := SpanLen(x, IsSlash);
    var y := x[a + 1..];
    var b := SpanLen(y, IsSlash);
    var z := y[b + 1..];
    var e := SpanLen(z, IsLineTerminator);
    owner, repo, rest, tail := x[..a], y[..b], z[..e], z[e..];
    CutAt(z, e);
    CutAround(y, b, '/');
    CutAround(x, a, '/');
  }

  /** A slash-free segment followed by `/`: the greedy `[^/]*` stops just before the slash. */
  lemma SlashSegment(seg: string, after: string)
    requires NoSlash(seg)
    ensures SpanLen(seg + ("/" + after), IsSlash) == |seg|
    ensures (seg + ("/" + after))[..|seg|] == seg && (seg + ("/" + after))[|seg| + 1..] == after
  {
    SpanLenOf(seg, "/" + after, IsSlash);
  }

  lemma RepoPathComplete(owner: string, repo: string, rest: string, tail: string)
    requires NoSlash(owner) && NoSlash(repo) && NoLineTerminator(rest)
    requires tail == [] || IsLineTerminator(tail[0])
    ensures RepoPath(owner + ("/" + (repo + ("/" + (rest + tail))))) == Some((owner + "/" + repo, rest))
  {
    var z := rest + tail;
    var y := repo + ("/" + z);
    var x := owner + ("/" + y);
    SlashSegment(owner, y);
    SlashSegment(repo, z);
    SpanLenOf(rest, tail, IsLineTerminator);
    assert z[..|rest|] == rest;
  }

  lemma HostSound(v: string) returns (dot: char, owner: string, repo: string, rest: string, tail: string)
    requires Host(v).Some?
    ensures !IsLineTerminator(dot)
    ensures NoSlash(owner) && NoSlash(repo) && NoLineTerminator(rest)
    ensures tail == [] || IsLineTerminator(tail[0])
    ensures v == "github" + ([dot] + ("com/" + (owner + ("/" + (repo + ("/" + (rest + tail)))))))
    ensures Host(v).value == (owner + "/" + repo, rest)
  {
    dot := v[6];
    owner, repo, rest, tail := RepoPathSound(v[11..]);
    var r := v[7..];
    CutAt(r, 4);
    assert r[..4] == v[7..11] && r[4..] == v[11..];
    CutAround(v, 6, dot);
    assert v[..6] == "github";
  }

  /** Whatever GithubRef accepts has the shape of the GitHub pattern. */
  lemma GithubRefSound(m: string)
    returns (scheme: string, www: string, dot: char, owner: string, repo: string, rest: string, tail: string)
    requires GithubRef(m).Some?
    ensures IsSchemePrefix(scheme) && IsWwwPrefix(www) && !IsLineTerminator(dot)
    ensures NoSlash(owner) && NoSlash(repo) && NoLineTerminator(rest)
    ensures tail == [] || IsLineTerminator(tail[0])
    ensures m == scheme + (www + ("github" + ([dot] + ("com/" + (owner + ("/" + (repo + ("/" + (rest + tail)))))))))
    ensures GithubRef(m).value == (owner + "/" + repo, rest)
  {
    var i := Min(SchemeLen(m), |m|);
    var u := m[i..];
    var w := Min(WwwLen(u), |u|);
    var v := u[w..];
    scheme, www := m[..i], u[..w];
    assert IsSchemePrefix(scheme);
    assert IsWwwPrefix(www);
    dot, owner, repo, rest, tail := HostSound(v);
    CutAt(u, w);
    CutAt(m, i);
  }

  lemma HostComplete(dot: char, x: string)
    requires !IsLineTerminator(dot)
    ensures Host("github" + ([dot] + ("com/" + x))) == RepoPath(x)
  {
    var v := "github" + ([dot] + ("com/" + x));
    assert v[..6] == "github" && v[6] == dot && v[7..11] == "com/" && v[11..] == x;
  }

  lemma WwwLenOf(www: string, v: string)
    requires IsWwwPrefix(www) && StartsWith(v, "github")
    ensures WwwLen(www + v) == |www|
    ensures (www + v)[0] == 'w' || (www + v)[0] == 'g'
  {
    if www == "" {
      assert (www + v)[2] == v[..6][2] == 't';
      assert (www + v)[0] == v[..6][0];
    } else {
      assert (www + v)[..3] == www[..3];
      assert (www + v)[0] == www[..3][0];
    }
  }

  lemma SchemeLenOf(scheme: string, u: string)
    requires IsSchemePrefix(scheme) && u != [] && (u[0] == 'w' || u[0] == 'g')
    ensures SchemeLen(scheme + u) == |scheme|
  {
    var m := scheme + u;
    if scheme == "" {
      assert m[0] == u[0];
    } else if scheme == "http://" {
      assert m[4] == ':';
      assert m[..7] == scheme;
    } else {
      assert m[..8] == scheme;
    }
  }

  /** Every string of the GitHub pattern's shape is accepted, with its two groups. */
  lemma GithubRefComplete(scheme: string, www: string, dot: char, owner: string, repo: string, rest: string, tail: string)
    requires IsSchemePrefix(scheme) && IsWwwPrefix(www) && !IsLineTerminator(dot)
    requires NoSlash(owner) && NoSlash(repo) && NoLineTerminator(rest)
    requires tail == [] || IsLineTerminator(tail[0])
    ensures GithubRef(scheme + (www + ("github" + ([dot] + ("com/" + (owner + ("/" + (repo + ("/" + (rest + tail))))))))))
         == Some((owner + "/" + repo, rest))
  {
    var x := owner + ("/" + (repo + ("/" + (rest + tail))));
    var v := "github" + ([dot] + ("com/" + x));
    var u := www + v;
    var m := scheme + u;
    RepoPathComplete(owner, repo, rest, tail);
    HostComplete(dot, x);
    assert v[..6] == "github";
    WwwLenOf(www, v);
    SchemeLenOf(scheme, u);
    assert m[|scheme|..] == u;
    assert u[|www|..] == v;
  }

  // ---------------------------------------------------------------------------
  // The scheme pattern /^[^:]*:\/\//: the first colon is followed by "//".
  // ---------------------------------------------------------------------------

  function HasUrlScheme(m: string): (r: bool)
    ensures StartsWith(m, "://") ==> r
    ensures r ==> |m| >= 3 && ':' in m
  {
    StartsWith(m[SpanLen(m, IsColon)..], "://")
  }

  lemma HasUrlSchemeSound(m: string) returns (pre: string, post: string)
    requires HasUrlScheme(m)
    ensures NoColon(pre) && m == pre + ("://" + post)
  {
    var c := SpanLen(m, IsColon);
    pre, post := m[..c], m[c + 3..];
    assert forall k :: 0 <= k < c ==> !IsColon(m[k]);
    assert m[c..] == m[c..c + 3] + post;
    assert m == pre + m[c..];
  }

  lemma HasUrlSchemeComplete(pre: string, post: string)
    requires NoColon(pre)
    ensures HasUrlScheme(pre + ("://" + post))
  {
    var m := pre + ("://" + post);
    SpanLenOf(pre, "://" + post, IsColon);
    assert m[|pre|..] == "://" + post;
  }

  // ---------------------------------------------------------------------------
  // Substring search, as `/Deferred import/.exec(error)` performs it.
  // ---------------------------------------------------------------------------

  function Contains(s: string, pat: string): (r: bool)
    ensures StartsWith(s, pat) ==> r
    ensures r ==> |pat| <= |s|
    decreases |s|
  {
    if |s| < |pat| then false
    else StartsWith(s, pat) || Contains(s[1..], pat)
  }

  lemma {:induction false} ContainsSound(s: string, pat: string) returns (pre: string, post: string)
    requires Contains(s, pat)
    ensures s == pre + (pat + post)
    decreases |s|
  {
    if StartsWith(s, pat) {
      pre, post := [], s[|pat|..];
      assert s == s[..|pat|] + s[|pat|..];
    } else {
      var pre', post' := ContainsSound(s[1..], pat);
      pre, post := [s[0]] + pre', post';
      assert s == [s[0]] + s[1..];
    }
  }

  lemma {:induction false} ContainsComplete(pre: string, pat: string, post: string)
    ensures Contains(pre + (pat + post), pat)
    decreases |pre|
  {
    var s := pre + (pat + post);
    if pre == [] {
      assert s[..|pat|] == pat;
    } else {
      assert s[1..] == pre[1..] + (pat + post);
      ContainsComplete(pre[1..], pat, post);
    }
  }
}
