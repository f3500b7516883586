/**
  The three regular expressions of the test runner, written as explicit string
  predicates and extractors. Each has a declarative "shape" (the way the regex
  reads: a concatenation of constrained pieces) and a lemma tying the scanning
  definition to that shape.

  Python's `re.match` anchors at the start; `.` matches anything but a newline;
  `$` matches at the end of the text or just before a newline that is the last
  character. `BodyEnd` captures the latter.
 */
module Patterns {
  import opened Wrappers
  import opened Text

  /** Where a pattern ending in `$` must stop: before one final newline, else at the end. */
  function BodyEnd(t: string): (e: nat)
    ensures e <= |t|
    ensures e == |t| || (e == |t| - 1 && t[e] == '\n')
  {
    if |t| > 0 && t[|t| - 1] == '\n' then |t| - 1 else |t|
  }

  // ---------------------------------------------------------------- ^{[^:]*:.*}$

  /** The regex `^{[^:]*:.*}$` that decides whether a response body is parsed as JSON. */
  predicate IsJsonLike(t: string) {
    && |t| > 0
    && t[0] == '{'
    && ':' in t
    && var i := IndexOf(t, ':');
       var e := BodyEnd(t);
       && i + 1 < e
       && t[e - 1] == '}'
       && '\n' !in t[i + 1..e - 1]
  }

  /** How the regex reads: `{`, colon-free text, `:`, one line of text, `}`, at most one newline. */
  ghost predicate JsonShape(t: string, a: string, b: string, tail: string) {
    && t == "{" + a + ":" + b + "}" + tail
    && ':' !in a
    && '\n' !in b
    && (tail == "" || tail == "\n")
  }

  lemma JsonLikeSound(t: string)
    requires IsJsonLike(t)
    ensures exists a, b, tail :: JsonShape(t, a, b, tail)
  {
    var i := IndexOf(t, ':');
    var e := BodyEnd(t);
    var a, b, tail := t[1..i], t[i + 1..e - 1], t[e..];
    assert ':' !in a by { assert forall k :: 0 <= k < |a| ==> a[k] == t[1 + k]; }
    assert t == "{" + a + ":" + b + "}" + tail;
    assert JsonShape(t, a, b, tail);
  }

  lemma JsonLikeComplete(t: string, a: string, b: string, tail: string)
    requires JsonShape(t, a, b, tail)
    ensures IsJsonLike(t)
  {
    var i := 1 + |a|;
    assert t[i] == ':';
    assert forall k :: 1 <= k < i ==> t[k] == a[k - 1];
    assert ':' in t;
    assert IndexOf(t, ':') == i;
    var e := BodyEnd(t);
    assert e == i + 1 + |b| + 1;
    assert t[i + 1..e - 1] == b;
  }

  /** The classifier accepts exactly the texts of the regex's shape. */
  lemma JsonLikeIsRegex(t: string)
    ensures IsJsonLike(t) <==> exists a, b, tail :: JsonShape(t, a, b, tail)
  {
    if IsJsonLike(t) {
      JsonLikeSound(t);
    }
    if exists a, b, tail :: JsonShape(t, a, b, tail) {
      var a, b, tail :| JsonShape(t, a, b, tail);
      JsonLikeComplete(t, a, b, tail);
    }
  }

  // ---------------------------------------------------------------- ^.*/user/login$

  const LoginSuffix := "/user/login"

  /** The login regex, which singles out the login case by its URL: any text, then `/user/login` at the end. */
  predicate IsLoginUrl(u: string) {
    var e := BodyEnd(u);
    && |LoginSuffix| <= e
    && u[e - |LoginSuffix|..e] == LoginSuffix
    && '\n' !in u[..e - |LoginSuffix|]
  }

  ghost predicate LoginShape(u: string, p: string, tail: string) {
    && u == p + LoginSuffix + tail
    && '\n' !in p
    && (tail == "" || tail == "\n")
  }

  /** A URL is a login URL exactly when it is one line ending in the login path. */
  lemma LoginUrlIsRegex(u: string)
    ensures IsLoginUrl(u) <==> exists p, tail :: LoginShape(u, p, tail)
  {
    var e := BodyEnd(u);
    if IsLoginUrl(u) {
      var p, tail := u[..e - |LoginSuffix|], u[e..];
      assert u == p + LoginSuffix + tail;
      assert LoginShape(u, p, tail);
    }
    if exists p, tail :: LoginShape(u, p, tail) {
      var p, tail :| LoginShape(u, p, tail);
      assert u[|u| - |tail| - 1] == 'n';
      assert e == |p| + |LoginSuffix|;
      assert u[..e - |LoginSuffix|] == p;
      assert u[e - |LoginSuffix|..e] == LoginSuffix;
    }
  }

  // ---------------------------------------------------------------- ^.*export_file *== *'(?P<file_name>[^']*)'.*$

  const ExportKey := "export_file"

  /** First position at or after `i` that is not a space. */
  function SkipSpaces(t: string, i: nat): (j: nat)
    requires i <= |t|
    ensures i <= j <= |t|
    ensures forall k :: i <= k < j ==> t[k] == ' '
    ensures j < |t| ==> t[j] != ' '
    decreases |t| - i
  {
    if i < |t| && t[i] == ' ' then SkipSpaces(t, i + 1) else i
  }

  predicate AllSpaces(s: string) {
    forall k :: 0 <= k < |s| ==> s[k] == ' '
  }

  /** What `.*$` accepts: no newline, except possibly as the very last character. */
  predicate NewlineOnlyLast(r: string) {
    forall k :: 0 <= k < |r| - 1 ==> r[k] != '\n'
  }

  /** After the key: spaces, `==`, spaces; the position of the opening quote, if the text continues so. */
  function OpeningQuote(t: string, j0: nat): Option<nat>
    requires j0 <= |t|
  {
    var j1 := SkipSpaces(t, j0);
    if !StartsWith(t[j1..], "==") then None
    else
      var j2 := SkipSpaces(t, j1 + 2);
      if j2 < |t| && t[j2] == '\'' then Some(j2) else None
  }

  /** From the opening quote: the name up to the closing quote, if the rest of the line allows it. */
  function QuotedName(t: string, j2: nat): Option<string>
    requires j2 < |t|
  {
    match IndexFrom(t, j2 + 1, '\'')
    case None => None
    case Some(c) => if NewlineOnlyLast(t[c + 1..]) then Some(t[j2 + 1..c]) else None
  }

  /**
    The file name captured when the leading `.*` of the pattern consumes exactly
    `t[..k]`: spaces around `==` are skipped, the name runs to the next quote,
    and the rest of the line must not contain a newline.
   */
  function ExportMatchAt(t: string, k: nat): Option<string> {
    if k > |t| || '\n' in t[..k] || !StartsWith(t[k..], ExportKey) then None
    else
      match OpeningQuote(t, k + |ExportKey|)
      case None => None
      case Some(j2) => QuotedName(t, j2)
  }

  /** How the regex reads, with the leading `.*` fixed to `p`. */
  ghost predicate ExportShape(t: string, p: string, s1: string, s2: string, name: string, q: string, tail: string) {
    && t == p + ExportKey + s1 + "==" + s2 + "'" + name + "'" + q + tail
    && '\n' !in p
    && AllSpaces(s1)
    && AllSpaces(s2)
    && '\'' !in name
    && '\n' !in q
    && (tail == "" || tail == "\n")
  }

  lemma SkipSpacesUnique(t: string, i: nat, j: nat)
    requires i <= j <= |t|
    requires forall k :: i <= k < j ==> t[k] == ' '
    requires j < |t| ==> t[j] != ' '
    ensures SkipSpaces(t, i) == j
  {
  }

  lemma PrefixExtend(t: string, x: nat, y: nat)
    requires x <= y <= |t|
    ensures t[..y] == t[..x] + t[x..y]
  {
  }

  lemma AppendParts<T>(a: seq<T>, b: seq<T>)
    ensures (a + b)[..|a|] == a && (a + b)[|a|..] == b
  {
  }

  /** Cutting `t` at the positions of the pattern's literal pieces gives the regex's concatenation. */
  lemma ExportPieces(t: string, k: nat, j0: nat, j1: nat, j2: nat, c: nat, e: nat)
    requires k <= j0 <= j1 && j1 + 2 <= j2 && j2 + 1 <= c && c + 1 <= e <= |t|
    requires t[k..j0] == ExportKey && t[j1..j1 + 2] == "==" && t[j2] == '\'' && t[c] == '\''
    ensures t == t[..k] + ExportKey + t[j0..j1] + "==" + t[j1 + 2..j2] + "'" + t[j2 + 1..c] + "'" + t[c + 1..e] + t[e..]
  {
    var p := t[..k];
    PrefixExtend(t, k, j0);
    assert t[..j0] == p + ExportKey;
    PrefixExtend(t, j0, j1);
    assert t[..j1] == p + ExportKey + t[j0..j1];
    PrefixExtend(t, j1, j1 + 2);
    assert t[..j1 + 2] == p + ExportKey + t[j0..j1] + "==";
    PrefixExtend(t, j1 + 2, j2);
    assert t[..j2] == p + ExportKey + t[j0..j1] + "==" + t[j1 + 2..j2];
    PrefixExtend(t, j2, j2 + 1);
    assert t[j2..j2 + 1] == "'";
    assert t[..j2 + 1] == p + ExportKey + t[j0..j1] + "==" + t[j1 + 2..j2] + "'";
    PrefixExtend(t, j2 + 1, c);
    assert t[..c] == p + ExportKey + t[j0..j1] + "==" + t[j1 + 2..j2] + "'" + t[j2 + 1..c];
    PrefixExtend(t, c, c + 1);
    assert t[c..c + 1] == "'";
    assert t[..c + 1] == p + ExportKey + t[j0..j1] + "==" + t[j1 + 2..j2] + "'" + t[j2 + 1..c] + "'";
    PrefixExtend(t, c + 1, e);
    assert t[..e] == p + ExportKey + t[j0..j1] + "==" + t[j1 + 2..j2] + "'" + t[j2 + 1..c] + "'" + t[c + 1..e];
    PrefixExtend(t, e, |t|);
    assert t == t[..|t|];
  }

  /** A match found by the matcher sits on pieces at these positions. */
  lemma PiecesOfMatch(t: string, k: nat) returns (j0: nat, j1: nat, j2: nat, c: nat)
    requires ExportMatchAt(t, k).Some?
    ensures PiecesAt(t, k, j0, j1, j2, c)
    ensures ExportMatchAt(t, k) == Some(t[j2 + 1..c])
  {
    j0 := k + |ExportKey|;
    j1 := SkipSpaces(t, j0);
    j2 := OpeningQuote(t, j0).value;
    assert j2 == SkipSpaces(t, j1 + 2);
    c := IndexFrom(t, j2 + 1, '\'').value;
    assert ExportMatchAt(t, k) == QuotedName(t, j2) == Some(t[j2 + 1..c]);
    assert t[k..j0] == ExportKey by { assert t[k..][..|ExportKey|] == ExportKey; }
    assert t[j1..][..2] == "==";
    assert t[j1] == '=' && t[j1 + 1] == '=';
  }

  /** Pieces at these positions are the regex's concatenation. */
  lemma ShapeOfPieces(t: string, k: nat, j0: nat, j1: nat, j2: nat, c: nat, name: string)
    requires PiecesAt(t, k, j0, j1, j2, c)
    requires name == t[j2 + 1..c]
    ensures exists s1, s2, q, tail :: ExportShape(t, t[..k], s1, s2, name, q, tail)
  {
    var p, s1, s2 := t[..k], t[j0..j1], t[j1 + 2..j2];
    var rest := t[c + 1..];
    var e := if |rest| > 0 && rest[|rest| - 1] == '\n' then |t| - 1 else |t|;
    var q, tail := t[c + 1..e], t[e..];
    assert '\'' !in name by { assert forall m :: 0 <= m < |name| ==> name[m] == t[j2 + 1 + m]; }
    assert AllSpaces(s1) by { assert forall m :: 0 <= m < |s1| ==> s1[m] == t[j0 + m]; }
    assert AllSpaces(s2) by { assert forall m :: 0 <= m < |s2| ==> s2[m] == t[j1 + 2 + m]; }
    assert '\n' !in q by { assert forall m :: 0 <= m < |q| ==> q[m] == rest[m]; }
    assert tail == "" || tail == "\n";
    assert t[j1..j1 + 2] == "==";
    ExportPieces(t, k, j0, j1, j2, c, e);
    assert ExportShape(t, p, s1, s2, name, q, tail);
  }

  lemma ExportMatchSound(t: string, k: nat)
    requires ExportMatchAt(t, k).Some?
    ensures exists s1, s2, q, tail :: ExportShape(t, t[..k], s1, s2, ExportMatchAt(t, k).value, q, tail)
  {
    var j0, j1, j2, c := PiecesOfMatch(t, k);
    ShapeOfPieces(t, k, j0, j1, j2, c, t[j2 + 1..c]);
  }

  /** Positions of the pieces of a text of the regex's shape. */
  lemma ExportShapePositions(t: string, p: string, s1: string, s2: string, name: string, q: string, tail: string)
    requires ExportShape(t, p, s1, s2, name, q, tail)
    ensures var j0 := |p| + |ExportKey|; var j1 := j0 + |s1|; var j2 := j1 + 2 + |s2|; var c := j2 + 1 + |name|;
      && c < |t|
      && t[..|p|] == p && t[|p|..j0] == ExportKey && t[j0..j1] == s1 && t[j1..j1 + 2] == "=="
      && t[j1 + 2..j2] == s2 && t[j2] == '\'' && t[j2 + 1..c] == name && t[c] == '\'' && t[c + 1..] == q + tail
  {
    var L1 := p + ExportKey;
    var L2 := L1 + s1;
    var L3 := L2 + "==";
    var L4 := L3 + s2;
    var L5 := L4 + "'";
    var L6 := L5 + name;
    var L7 := L6 + "'";
    assert t == L7 + (q + tail);
    AppendParts(L7, q + tail);
    assert t[..|L7|] == L7;
    AppendParts(L6, "'");
    assert t[..|L6|] == L6;
    AppendParts(L5, name);
    assert t[..|L5|] == L5;
    AppendParts(L4, "'");
    assert t[..|L4|] == L4;
    AppendParts(L3, s2);
    assert t[..|L3|] == L3;
    AppendParts(L2, "==");
    assert t[..|L2|] == L2;
    AppendParts(L1, s1);
    assert t[..|L1|] == L1;
    AppendParts(p, ExportKey);
  }

  /** The matcher's view of a match at `k`: the positions of each literal piece. */
  ghost predicate PiecesAt(t: string, k: nat, j0: nat, j1: nat, j2: nat, c: nat) {
    && k <= j0 <= j1 && j1 + 2 <= j2 && j2 < c < |t|
    && j0 == k + |ExportKey|
    && '\n' !in t[..k]
    && t[k..j0] == ExportKey
    && (forall m :: j0 <= m < j1 ==> t[m] == ' ')
    && t[j1] == '=' && t[j1 + 1] == '='
    && (forall m :: j1 + 2 <= m < j2 ==> t[m] == ' ')
    && t[j2] == '\''
    && (forall m :: j2 < m < c ==> t[m] != '\'')
    && t[c] == '\''
    && NewlineOnlyLast(t[c + 1..])
  }

  /** Spaces, `==` and spaces from `j0` lead to the opening quote at `j2`. */
  lemma OpeningQuoteAt(t: string, j0: nat, j1: nat, j2: nat)
    requires j0 <= j1 && j1 + 2 <= j2 < |t|
    requires forall m :: j0 <= m < j1 ==> t[m] == ' '
    requires t[j1] == '=' && t[j1 + 1] == '='
    requires forall m :: j1 + 2 <= m < j2 ==> t[m] == ' '
    requires t[j2] == '\''
    ensures OpeningQuote(t, j0) == Some(j2)
  {
    SkipSpacesUnique(t, j0, j1);
    assert StartsWith(t[j1..], "==") by { assert t[j1..][..2] == [t[j1], t[j1 + 1]]; }
    SkipSpacesUnique(t, j1 + 2, j2);
  }

  /** A closing quote at `c` with only a final newline after it ends the name there. */
  lemma QuotedNameAt(t: string, j2: nat, c: nat)
    requires j2 < c < |t|
    requires forall m :: j2 < m < c ==> t[m] != '\''
    requires t[c] == '\''
    requires NewlineOnlyLast(t[c + 1..])
    ensures QuotedName(t, j2) == Some(t[j2 + 1..c])
  {
    assert IndexFrom(t, j2 + 1, '\'') == Some(c);
  }

  lemma MatchFromPieces(t: string, k: nat, j0: nat, j1: nat, j2: nat, c: nat)
    requires PiecesAt(t, k, j0, j1, j2, c)
    ensures ExportMatchAt(t, k) == Some(t[j2 + 1..c])
  {
    assert StartsWith(t[k..], ExportKey) by { assert t[k..][..|ExportKey|] == t[k..j0]; }
    OpeningQuoteAt(t, j0, j1, j2);
    QuotedNameAt(t, j2, c);
  }

  lemma PiecesOfShape(t: string, p: string, s1: string, s2: string, name: string, q: string, tail: string)
    returns (j0: nat, j1: nat, j2: nat, c: nat)
    requires ExportShape(t, p, s1, s2, name, q, tail)
    ensures PiecesAt(t, |p|, j0, j1, j2, c) && t[j2 + 1..c] == name
  {
    ExportShapePositions(t, p, s1, s2, name, q, tail);
    var k := |p|;
    j0 := k + |ExportKey|;
    j1 := j0 + |s1|;
    j2 := j1 + 2 + |s2|;
    c := j2 + 1 + |name|;
    assert forall m :: j0 <= m < j1 ==> t[m] == s1[m - j0];
    assert t[j1] == '=' && t[j1 + 1] == '=' by { assert t[j1..j1 + 2] == "=="; }
    assert forall m :: j1 + 2 <= m < j2 ==> t[m] == s2[m - j1 - 2];
    assert forall m :: j2 < m < c ==> t[m] == name[m - j2 - 1];
    assert NewlineOnlyLast(t[c + 1..]) by {
      var r := t[c + 1..];
      assert r == q + tail;
      assert forall m :: 0 <= m < |r| - 1 ==> r[m] == q[m];
    }
  }

  lemma ExportMatchComplete(t: string, p: string, s1: string, s2: string, name: string, q: string, tail: string)
    requires ExportShape(t, p, s1, s2, name, q, tail)
    ensures ExportMatchAt(t, |p|) == Some(name)
  {
    var j0, j1, j2, c := PiecesOfShape(t, p, s1, s2, name, q, tail);
    MatchFromPieces(t, |p|, j0, j1, j2, c);
  }

  /** The position-wise matcher captures a name exactly when the text has the regex's shape there. */
  lemma ExportMatchIsRegex(t: string, k: nat, name: string)
    ensures ExportMatchAt(t, k) == Some(name)
        <==> exists s1, s2, q, tail :: k <= |t| && ExportShape(t, t[..k], s1, s2, name, q, tail)
  {
    if ExportMatchAt(t, k) == Some(name) {
      ExportMatchSound(t, k);
    }
    if exists s1, s2, q, tail :: k <= |t| && ExportShape(t, t[..k], s1, s2, name, q, tail) {
      var s1, s2, q, tail :| k <= |t| && ExportShape(t, t[..k], s1, s2, name, q, tail);
      ExportMatchComplete(t, t[..k], s1, s2, name, q, tail);
    }
  }

  /** `r` is the capture at `j` and no later start position matches: the greedy leading `.*` wins. */
  ghost predicate IsLastMatch(t: string, j: nat, r: Option<string>) {
    ExportMatchAt(t, j) == r && forall j': nat :: j < j' ==> ExportMatchAt(t, j').None?
  }

  /** `f(j)` is `r` and `f` is `None` at every position after `j` up to `k`. */
  ghost predicate LastSomeAt<T>(f: nat -> Option<T>, k: nat, j: nat, r: Option<T>) {
    j <= k && f(j) == r && forall j': nat :: j < j' <= k ==> f(j').None?
  }

  /** The value at the greatest position up to `k` where `f` has one, scanning downwards. */
  function LastSome<T>(f: nat -> Option<T>, k: nat): (r: Option<T>)
    ensures r.Some? ==> exists j: nat :: LastSomeAt(f, k, j, r)
    ensures r.None? ==> forall j: nat :: j <= k ==> f(j).None?
    decreases k
  {
    if f(k).Some? then
      assert LastSomeAt(f, k, k, f(k));
      f(k)
    else if k == 0 then None
    else
      var r := LastSome(f, k - 1);
      assert r.Some? ==> exists j: nat :: LastSomeAt(f, k, j, r) by {
        if r.Some? {
          var j: nat :| LastSomeAt(f, k - 1, j, r);
          assert LastSomeAt(f, k, j, r);
        }
      }
      r
  }

  /**
    The file name a checkpoint asks the response to be saved under: the capture
    of the last position where the pattern matches, or nothing.
   */
  function ExportFileName(checkPoint: string): Option<string> {
    LastSome((j: nat) => ExportMatchAt(checkPoint, j), |checkPoint|)
  }

  /** Once nothing lies beyond `k`, the scan finds the greatest position with a value, if any. */
  lemma LastSomeIsLast<T>(f: nat -> Option<T>, k: nat)
    requires forall j: nat :: k < j ==> f(j).None?
    ensures LastSome(f, k).Some? ==>
              exists j: nat :: f(j) == LastSome(f, k) && forall j': nat :: j < j' ==> f(j').None?
    ensures LastSome(f, k).None? <==> forall j: nat :: f(j).None?
  {
    var r := LastSome(f, k);
    if r.Some? {
      var j: nat :| LastSomeAt(f, k, j, r);
      assert forall j': nat :: j < j' ==> f(j').None?;
    }
  }

  /** No match starts past the end of the text. */
  lemma NoMatchPastEnd(t: string)
    ensures forall j: nat :: |t| < j ==> ExportMatchAt(t, j).None?
  {
  }

  /** The extractor returns the capture of the greedy (last) match, and nothing only when no position matches. */
  lemma ExportFileNameIsLastMatch(checkPoint: string)
    ensures ExportFileName(checkPoint).Some? ==> exists j: nat :: IsLastMatch(checkPoint, j, ExportFileName(checkPoint))
    ensures ExportFileName(checkPoint).None? <==> forall j: nat :: ExportMatchAt(checkPoint, j).None?
  {
    var f := (j: nat) => ExportMatchAt(checkPoint, j);
    assert forall j: nat :: f(j) == ExportMatchAt(checkPoint, j);
    NoMatchPastEnd(checkPoint);
    LastSomeIsLast(f, |checkPoint|);
    var r := ExportFileName(checkPoint);
    if r.Some? {
      var j: nat :| f(j) == r && forall j': nat :: j < j' ==> f(j').None?;
      assert IsLastMatch(checkPoint, j, r);
    }
  }
}
