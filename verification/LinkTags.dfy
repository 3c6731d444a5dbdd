/** Which texts `markup_strip_a` (src/markup.c) frees of link tags. */
module LinkTags {
  import opened Strings
  import opened Links

  predicate OpensAt(s: string, i: nat)
    requires i <= |s|
  {
    "<a" <= s[i..]
  }

  predicate ClosesAt(s: string, i: nat)
    requires i <= |s|
  {
    "</a>" <= s[i..]
  }

  /** The '<' at `i` is followed by another before it shows whether it begins a link tag. */
  predicate CutOffAt(s: string, i: nat)
    requires i <= |s|
  {
    "<<" <= s[i..] || "</<" <= s[i..] || "</a<" <= s[i..]
  }

  /** Every '<' shows what it is: a link tag, another tag or a character of its own. */
  predicate NoneCutOff(s: string) {
    forall i | 0 <= i <= |s| :: !CutOffAt(s, i)
  }

  /** The opening tag at `i` is complete when the closing tag at `c` begins. */
  predicate Completed(s: string, i: nat, c: nat)
    requires i <= c <= |s|
  {
    '>' in s[i..c]
  }

  /** No closing tag begins inside an opening one. */
  predicate TagsApart(s: string) {
    forall i, c | 0 <= i < c <= |s| && OpensAt(s, i) && ClosesAt(s, c) :: Completed(s, i, c)
  }

  lemma OpensIs(s: string, i: nat)
    requires i <= |s|
    ensures OpensAt(s, i) <==> i + 1 < |s| && s[i] == '<' && s[i + 1] == 'a'
  {
    if OpensAt(s, i) { assert s[i..][0] == "<a"[0] && s[i..][1] == "<a"[1]; }
    if i + 1 < |s| && s[i] == '<' && s[i + 1] == 'a' { assert s[i..][..2] == "<a"; }
  }

  lemma ClosesIs(s: string, i: nat)
    requires i <= |s|
    ensures ClosesAt(s, i) <==> i + 3 < |s| && s[i] == '<' && s[i + 1] == '/' && s[i + 2] == 'a' && s[i + 3] == '>'
  {
    var c := "</a>";
    if ClosesAt(s, i) { assert forall k | 0 <= k < 4 :: s[i..][k] == c[k]; }
    if i + 3 < |s| && s[i] == '<' && s[i + 1] == '/' && s[i + 2] == 'a' && s[i + 3] == '>' { assert s[i..][..4] == c; }
  }

  lemma CutOffIs(s: string, i: nat)
    requires i <= |s|
    ensures CutOffAt(s, i) <==>
              && i < |s| && s[i] == '<'
              && (|| (i + 1 < |s| && s[i + 1] == '<')
                  || (i + 2 < |s| && s[i + 1] == '/' && s[i + 2] == '<')
                  || (i + 3 < |s| && s[i + 1] == '/' && s[i + 2] == 'a' && s[i + 3] == '<'))
  {
    PrefixIs("<<", s, i);
    PrefixIs("</<", s, i);
    PrefixIs("</a<", s, i);
  }

  lemma PrefixIs(p: string, s: string, i: nat)
    requires i <= |s|
    ensures p <= s[i..] <==> i + |p| <= |s| && forall m | 0 <= m < |p| :: s[i + m] == p[m]
  {
    if p <= s[i..] { assert forall m | 0 <= m < |p| :: s[i..][m] == p[m]; }
  }

  // ---------- one link ----------

  lemma FirstIs(s: string, k: nat, needle: string, m: int)
    requires k <= |s| && needle != "" && m == Find(s[k..], needle)
    ensures m >= 0 ==>
              && k + m + |needle| <= |s| && needle <= s[k + m..]
              && forall i | k <= i < k + m :: !(needle <= s[i..])
    ensures m < 0 ==> forall i | k <= i <= |s| :: !(needle <= s[i..])
  {
    var t := s[k..];
    FindIsFirst(t, needle);
    assert forall j | 0 <= j <= |t| :: t[j..] == s[k + j..];
    forall i | k <= i <= |s| && (m < 0 || i < k + m) ensures !(needle <= s[i..]) {
      assert t[i - k..] == s[i..];
    }
  }

  /** The first opening tag is `s[k..e]`, the text `s[e..c]`, and the closing tag `s[c..n]`,
      or nothing when the link is not closed. */
  ghost predicate Around(s: string, k: nat, e: nat, c: nat, n: nat) {
    && k < e <= c <= n <= |s|
    && OpensAt(s, k)
    && (forall i | 0 <= i < k :: !OpensAt(s, i))
    && (forall i | k <= i < c :: !ClosesAt(s, i))
    && (if ClosesAt(s, c) then n == c + 4 else n == c == |s|)
  }

  function Rest(s: string, k: nat, e: nat, c: nat, n: nat): string
    requires k <= e <= c <= n <= |s|
  {
    s[..k] + s[e..c] + s[n..]
  }

  lemma SliceOfRest(s: string, k: nat, a: nat, b: nat)
    requires k + b <= |s| && a <= b
    ensures s[k..][a..b] == s[k + a..k + b]
  {
  }

  lemma LinkParts(s: string, k: nat, t: string, end: int, close: int)
    requires FindLink(s).Whole? && Find(s, "<a") == k && t == s[k..] && Find(t, ">") == end && Find(t, "</a>") == close
    ensures 0 <= end < |t| && (close >= 0 ==> end < close <= |t| - 4)
    ensures var l := FindLink(s); l.at == k && l.len == if close >= 0 then close + 4 else |t|
    ensures FindLink(s).text == t[end + 1..if close >= 0 then close else |t|]
  {
    ClosersApart(t, end, close);
  }

  /** What one turn of the loop finds, as positions. */
  lemma WholeAt(s: string) returns (k: nat, e: nat, c: nat, n: nat)
    requires FindLink(s).Whole?
    ensures k < e <= c <= n <= |s| && Find(s, "<a") == k
    ensures Find(s[k..], ">") == e - 1 - k
    ensures Find(s[k..], "</a>") == if n == c then -1 else c - k
    ensures if n == c then n == |s| else n == c + 4
    ensures var l := FindLink(s); l.at == k && l.len == n - k && l.text == s[e..c]
  {
    k := Find(s, "<a");
    var end, close := Find(s[k..], ">"), Find(s[k..], "</a>");
    LinkParts(s, k, s[k..], end, close);
    e := k + end + 1;
    c := if close >= 0 then k + close else |s|;
    n := if close >= 0 then c + 4 else |s|;
    SliceOfRest(s, k, end + 1, c - k);
  }

  lemma NothingEarlier(s: string, k: nat)
    requires Find(s, "<a") == k
    ensures k < |s| && OpensAt(s, k) && forall i | 0 <= i < k :: !OpensAt(s, i)
  {
    assert s[0..] == s;
    FirstIs(s, 0, "<a", k);
  }

  lemma FirstCloser(s: string, k: nat, c: nat, n: nat)
    requires k <= c <= n <= |s| && Find(s[k..], "</a>") == (if n == c then -1 else c - k)
    requires if n == c then n == |s| else n == c + 4
    ensures forall i | k <= i < c :: !ClosesAt(s, i)
    ensures if ClosesAt(s, c) then n == c + 4 else n == c == |s|
  {
    FirstIs(s, k, "</a>", Find(s[k..], "</a>"));
    ClosesIs(s, c);
  }

  /** One turn of the loop: it keeps `Rest`. */
  lemma TurnKeepsRest(s: string) returns (k: nat, e: nat, c: nat, n: nat)
    requires FindLink(s).Whole?
    ensures Around(s, k, e, c, n) && s[e - 1] == '>'
    ensures var l := FindLink(s); ReplaceAt(s, l.at, l.len, l.text) == Rest(s, k, e, c, n)
  {
    k, e, c, n := WholeAt(s);
    NothingEarlier(s, k);
    FirstCloser(s, k, c, n);
    FirstIs(s, k, ">", e - 1 - k);
    assert s[e - 1] == s[e - 1..][0];
  }

  // ---------- what a turn preserves ----------

  /** Where a character of the rest comes from. */
  function From(s: string, k: nat, e: nat, c: nat, n: nat, j: nat): nat
    requires k <= e <= c <= n <= |s|
  {
    if j < k then j else if j < k + (c - e) then j + (e - k) else j + (e - k) + (n - c)
  }

  lemma RestFrom(s: string, k: nat, e: nat, c: nat, n: nat, j: nat)
    requires k <= e <= c <= n <= |s|
    ensures |Rest(s, k, e, c, n)| == |s| - (e - k) - (n - c)
    ensures j < |Rest(s, k, e, c, n)| ==>
              From(s, k, e, c, n, j) < |s| && Rest(s, k, e, c, n)[j] == s[From(s, k, e, c, n, j)]
    ensures j == |Rest(s, k, e, c, n)| && n < |s| ==> From(s, k, e, c, n, j) == |s|
  {
  }

  /** A link is taken out between two places where a '<' begins. */
  lemma SeamsAtTags(s: string, k: nat, e: nat, c: nat, n: nat)
    requires Around(s, k, e, c, n)
    ensures s[k] == '<' && (n > c ==> s[c] == '<')
  {
    OpensIs(s, k);
    ClosesIs(s, c);
  }

  /** What follows a '<' of the rest, as far as it decides about a tag, follows it in the text. */
  lemma SameBehind(s: string, k: nat, e: nat, c: nat, n: nat, j: nat)
    requires NoneCutOff(s) && Around(s, k, e, c, n) && j < |Rest(s, k, e, c, n)| && Rest(s, k, e, c, n)[j] == '<'
    ensures var r, i := Rest(s, k, e, c, n), From(s, k, e, c, n, j);
            && i < |s| && s[i] == '<'
            && (j + 1 == |r| <==> i + 1 == |s|)
            && (j + 1 < |r| ==> r[j + 1] == s[i + 1])
            && (j + 1 < |r| && r[j + 1] == '/' ==> (j + 2 == |r| <==> i + 2 == |s|))
            && (j + 2 < |r| && r[j + 1] == '/' ==> r[j + 2] == s[i + 2])
            && (j + 2 < |r| && r[j + 1] == '/' && r[j + 2] == 'a' ==> (j + 3 == |r| <==> i + 3 == |s|))
            && (j + 3 < |r| && r[j + 1] == '/' && r[j + 2] == 'a' ==> r[j + 3] == s[i + 3])
  {
    var i := From(s, k, e, c, n, j);
    SeamsAtTags(s, k, e, c, n);
    CutOffIs(s, i);
    RestFrom(s, k, e, c, n, j);
    RestFrom(s, k, e, c, n, j + 1);
    RestFrom(s, k, e, c, n, j + 2);
    RestFrom(s, k, e, c, n, j + 3);
  }

  /** The tags of the rest are tags of the text. */
  lemma TagsComeAlong(s: string, k: nat, e: nat, c: nat, n: nat, j: nat)
    requires NoneCutOff(s) && Around(s, k, e, c, n) && j < |Rest(s, k, e, c, n)| && Rest(s, k, e, c, n)[j] == '<'
    ensures var r, i := Rest(s, k, e, c, n), From(s, k, e, c, n, j);
            && i < |s| && !CutOffAt(r, j)
            && (OpensAt(r, j) <==> OpensAt(s, i)) && (ClosesAt(r, j) <==> ClosesAt(s, i))
            && (OpensAt(s, i) ==> j >= k) && (ClosesAt(s, i) ==> j < k || j >= k + (c - e))
  {
    var r, i := Rest(s, k, e, c, n), From(s, k, e, c, n, j);
    SameBehind(s, k, e, c, n, j);
    CutOffIs(s, i);
    CutOffIs(r, j);
    OpensIs(s, i);
    ClosesIs(s, i);
    OpensIs(r, j);
    ClosesIs(r, j);
  }

  lemma RestNoneCutOff(s: string, k: nat, e: nat, c: nat, n: nat)
    requires NoneCutOff(s) && Around(s, k, e, c, n)
    ensures NoneCutOff(Rest(s, k, e, c, n))
  {
    var r := Rest(s, k, e, c, n);
    forall j | 0 <= j <= |r| ensures !CutOffAt(r, j) {
      CutOffIs(r, j);
      if j < |r| && r[j] == '<' { TagsComeAlong(s, k, e, c, n, j); }
    }
  }

  /** A '>' between two places of the text is between them in the rest. */
  lemma CompletedComesAlong(s: string, k: nat, e: nat, c: nat, n: nat, j: nat, m: nat)
    requires k <= e <= c <= n <= |s| && k <= j <= m <= |Rest(s, k, e, c, n)|
    requires '>' in (if j < k + (c - e) then s[From(s, k, e, c, n, j)..c]
                     else s[From(s, k, e, c, n, j)..m + (e - k) + (n - c)])
    requires j < k + (c - e) ==> m >= k + (c - e)
    ensures '>' in Rest(s, k, e, c, n)[j..m]
  {
    var r, i := Rest(s, k, e, c, n), From(s, k, e, c, n, j);
    var end := if j < k + (c - e) then c else m + (e - k) + (n - c);
    var x :| i <= x < end && s[x] == '>' by {
      var y :| 0 <= y < |s[i..end]| && s[i..end][y] == '>';
      assert s[i + y] == '>';
    }
    var at := j + (x - i);
    RestFrom(s, k, e, c, n, at);
    assert r[at] == '>' && r[j..m][at - j] == r[at];
  }

  lemma RestTagsApart(s: string, k: nat, e: nat, c: nat, n: nat)
    requires NoneCutOff(s) && TagsApart(s) && Around(s, k, e, c, n)
    ensures TagsApart(Rest(s, k, e, c, n))
  {
    var r := Rest(s, k, e, c, n);
    forall j, m | 0 <= j < m <= |r| && OpensAt(r, j) && ClosesAt(r, m) ensures Completed(r, j, m) {
      OpensIs(r, j);
      ClosesIs(r, m);
      TagsComeAlong(s, k, e, c, n, j);
      TagsComeAlong(s, k, e, c, n, m);
      var i, l := From(s, k, e, c, n, j), From(s, k, e, c, n, m);
      RestFrom(s, k, e, c, n, m);
      if j < k + (c - e) {
        assert ClosesAt(s, c);
        assert Completed(s, i, c);
      } else {
        assert Completed(s, i, l);
      }
      CompletedComesAlong(s, k, e, c, n, j, m);
    }
  }

  // ---------- what comes of the loop ----------

  /** A closing tag that stops the loop begins inside the first opening tag. */
  lemma CutAt(s: string) returns (k: nat, c: nat)
    requires FindLink(s).Crossed?
    ensures Around(s, k, c, c, c + 4) && ClosesAt(s, c) && !Completed(s, k, c)
    ensures var l := FindLink(s); ReplaceAt(s, l.at, l.len, "") == Rest(s, k, c, c, c + 4)
  {
    k := Find(s, "<a");
    var end, close := Find(s[k..], ">"), Find(s[k..], "</a>");
    c := k + close;
    NothingEarlier(s, k);
    FirstIs(s, k, "</a>", close);
    OpensIs(s, k);
    ClosesIs(s, c);
    NoEndBefore(s, k, c, end);
  }

  lemma NoEndBefore(s: string, k: nat, c: nat, end: nat)
    requires k <= c <= |s| && c < k + end && Find(s[k..], ">") == end
    ensures !Completed(s, k, c)
  {
    FirstIs(s, k, ">", end);
    forall x | k <= x < c ensures s[x] != '>' {
      assert s[x..][0] == s[x];
    }
  }

  lemma NotCrossed(s: string)
    requires TagsApart(s)
    ensures !FindLink(s).Crossed?
  {
    if FindLink(s).Crossed? {
      var k, c := CutAt(s);
      assert false;
    }
  }

  lemma {:induction false} NeverStopped(s: string, urls: string)
    requires NoneCutOff(s) && TagsApart(s)
    ensures !StripA(s, urls).2
    decreases |s|
  {
    NotCrossed(s);
    var l := FindLink(s);
    if l.Whole? {
      var k, e, c, n := TurnKeepsRest(s);
      RestNoneCutOff(s, k, e, c, n);
      RestTagsApart(s, k, e, c, n);
      NeverStopped(ReplaceAt(s, l.at, l.len, l.text), AddUrl(urls, l.text, l.url));
    }
  }

  /** In a text in which no '<' is cut off, and no closing tag begins inside an opening link
      tag, no link tag is left: nested, unclosed and unended links included. */
  lemma LinksGoneWhenApart(s: string, urls: string)
    requires NoneCutOff(s) && TagsApart(s)
    ensures Find(StripA(s, urls).0, "<a") < 0
  {
    NeverStopped(s, urls);
    LinksGone(s, urls);
  }

  // ---------- the two conditions ----------

  /** No link inside another. */
  ghost predicate Flat(s: string) {
    forall i, j | 0 <= i < j <= |s| && OpensAt(s, i) && OpensAt(s, j) :: exists c :: i <= c < j && ClosesAt(s, c)
  }

  /** The closing tag at `c` begins inside the opening one at `i`, and a link follows at `j`. */
  ghost predicate CutShort(s: string, i: nat, c: nat, j: nat) {
    i <= c < j <= |s| && OpensAt(s, i) && ClosesAt(s, c) && !Completed(s, i, c) && OpensAt(s, j)
  }

  ghost predicate LinkBehindCut(s: string) {
    exists i, c, j :: CutShort(s, i, c, j)
  }

  ghost predicate HasOpener(s: string, from: nat) {
    exists i :: from <= i <= |s| && OpensAt(s, i)
  }

  lemma OpenerFound(s: string)
    ensures Find(s, "<a") >= 0 <==> HasOpener(s, 0)
  {
    FindIsFirst(s, "<a");
    var k := Find(s, "<a");
    if k >= 0 { assert OpensAt(s, k); }
  }

  lemma NothingClosed(s: string, k: nat)
    requires k <= |s| && Find(s[k..], ">") < 0
    ensures forall c | k <= c <= |s| :: !ClosesAt(s, c)
  {
    FirstIs(s, k, ">", -1);
    forall c | k <= c <= |s| ensures !ClosesAt(s, c) {
      ClosesIs(s, c);
      assert c + 3 < |s| ==> s[c + 3..][0] == s[c + 3];
    }
  }

  lemma UnendedIsLast(s: string)
    requires FindLink(s).Unended?
    ensures !LinkBehindCut(s)
  {
    var k := Find(s, "<a");
    NothingEarlier(s, k);
    NothingClosed(s, k);
    forall i, c, j ensures !CutShort(s, i, c, j) { }
  }

  /** Behind the link the text and the rest are the same. */
  lemma Behind(s: string, k: nat, e: nat, c: nat, n: nat, p: nat)
    requires k <= e <= c <= n <= p <= |s|
    ensures var at := p - (e - k) - (n - c); at <= |Rest(s, k, e, c, n)| && Rest(s, k, e, c, n)[at..] == s[p..]
  {
  }

  lemma BehindCompleted(s: string, k: nat, e: nat, c: nat, n: nat, p: nat, m: nat)
    requires k <= e <= c <= n <= p <= m <= |s|
    ensures var d := (e - k) + (n - c);
            m - d <= |Rest(s, k, e, c, n)| && (Completed(Rest(s, k, e, c, n), p - d, m - d) <==> Completed(s, p, m))
  {
    var d := (e - k) + (n - c);
    assert Rest(s, k, e, c, n)[p - d..m - d] == s[p..m];
  }

  /** Every further link of a flat text is behind the first one. */
  lemma LaterIsBehind(s: string, k: nat, e: nat, c: nat, n: nat, j: nat)
    requires Flat(s) && Around(s, k, e, c, n) && k < j <= |s| && OpensAt(s, j)
    ensures j >= n && ClosesAt(s, c)
  {
    var m :| k <= m < j && ClosesAt(s, m);
    OpensIs(s, j);
    ClosesIs(s, c);
  }

  lemma OpenerOfRest(s: string, k: nat, e: nat, c: nat, n: nat, j: nat)
    requires NoneCutOff(s) && Flat(s) && Around(s, k, e, c, n)
    requires j <= |Rest(s, k, e, c, n)| && OpensAt(Rest(s, k, e, c, n), j)
    ensures j >= k + (c - e) && j + (e - k) + (n - c) <= |s| && OpensAt(s, j + (e - k) + (n - c))
  {
    OpensIs(Rest(s, k, e, c, n), j);
    TagsComeAlong(s, k, e, c, n, j);
    LaterIsBehind(s, k, e, c, n, From(s, k, e, c, n, j));
  }

  /** The rest has a link exactly when the text has one besides the first. */
  lemma LaterOpener(s: string, k: nat, e: nat, c: nat, n: nat)
    requires NoneCutOff(s) && Flat(s) && Around(s, k, e, c, n)
    ensures HasOpener(s, k + 1) <==> HasOpener(Rest(s, k, e, c, n), 0)
  {
    var r, d := Rest(s, k, e, c, n), (e - k) + (n - c);
    if HasOpener(s, k + 1) {
      var j :| k + 1 <= j <= |s| && OpensAt(s, j);
      LaterIsBehind(s, k, e, c, n, j);
      Behind(s, k, e, c, n, j);
      assert OpensAt(r, j - d);
    }
    if HasOpener(r, 0) {
      var j :| 0 <= j <= |r| && OpensAt(r, j);
      OpenerOfRest(s, k, e, c, n, j);
    }
  }

  lemma RestFlat(s: string, k: nat, e: nat, c: nat, n: nat)
    requires NoneCutOff(s) && Flat(s) && Around(s, k, e, c, n)
    ensures Flat(Rest(s, k, e, c, n))
  {
    var r, d := Rest(s, k, e, c, n), (e - k) + (n - c);
    forall i, j | 0 <= i < j <= |r| && OpensAt(r, i) && OpensAt(r, j) ensures exists m :: i <= m < j && ClosesAt(r, m) {
      OpenerOfRest(s, k, e, c, n, i);
      OpenerOfRest(s, k, e, c, n, j);
      var m :| i + d <= m < j + d && ClosesAt(s, m);
      Behind(s, k, e, c, n, m);
      assert ClosesAt(r, m - d);
    }
  }

  lemma CutMoves(s: string, k: nat, e: nat, c: nat, n: nat, i: nat, m: nat, j: nat)
    requires k <= e <= c <= n <= i <= m < j <= |s|
    ensures var d := (e - k) + (n - c); CutShort(s, i, m, j) <==> CutShort(Rest(s, k, e, c, n), i - d, m - d, j - d)
  {
    Behind(s, k, e, c, n, i);
    Behind(s, k, e, c, n, m);
    Behind(s, k, e, c, n, j);
    BehindCompleted(s, k, e, c, n, i, m);
  }

  lemma FirstCompleted(s: string, k: nat, e: nat, c: nat, n: nat, m: nat)
    requires Around(s, k, e, c, n) && s[e - 1] == '>' && k <= m <= |s| && ClosesAt(s, m)
    ensures Completed(s, k, m)
  {
    assert s[k..m][e - 1 - k] == '>';
  }

  lemma CutInRest(s: string, k: nat, e: nat, c: nat, n: nat, i: nat, m: nat, j: nat)
    requires Flat(s) && Around(s, k, e, c, n) && s[e - 1] == '>' && CutShort(s, i, m, j)
    ensures LinkBehindCut(Rest(s, k, e, c, n))
  {
    var d := (e - k) + (n - c);
    FirstCompleted(s, k, e, c, n, m);
    LaterIsBehind(s, k, e, c, n, i);
    CutMoves(s, k, e, c, n, i, m, j);
    assert CutShort(Rest(s, k, e, c, n), i - d, m - d, j - d);
  }

  lemma CutMovesBack(s: string, k: nat, e: nat, c: nat, n: nat, i: nat, m: nat, j: nat)
    requires k <= e <= c <= n <= |s| && k + (c - e) <= i && j + (e - k) + (n - c) <= |s|
    requires CutShort(Rest(s, k, e, c, n), i, m, j)
    ensures LinkBehindCut(s)
  {
    var d := (e - k) + (n - c);
    CutMoves(s, k, e, c, n, i + d, m + d, j + d);
    assert CutShort(s, i + d, m + d, j + d);
  }

  lemma CutFromRest(s: string, k: nat, e: nat, c: nat, n: nat, i: nat, m: nat, j: nat)
    requires NoneCutOff(s) && Flat(s) && Around(s, k, e, c, n) && CutShort(Rest(s, k, e, c, n), i, m, j)
    ensures LinkBehindCut(s)
  {
    OpenerOfRest(s, k, e, c, n, i);
    OpenerOfRest(s, k, e, c, n, j);
    CutMovesBack(s, k, e, c, n, i, m, j);
  }

  lemma TurnKeepsCuts(s: string, k: nat, e: nat, c: nat, n: nat)
    requires NoneCutOff(s) && Flat(s) && Around(s, k, e, c, n) && s[e - 1] == '>'
    ensures LinkBehindCut(s) <==> LinkBehindCut(Rest(s, k, e, c, n))
  {
    var r := Rest(s, k, e, c, n);
    if LinkBehindCut(s) {
      var i, m, j :| CutShort(s, i, m, j);
      CutInRest(s, k, e, c, n, i, m, j);
    }
    if LinkBehindCut(r) {
      var i, m, j :| CutShort(r, i, m, j);
      CutFromRest(s, k, e, c, n, i, m, j);
    }
  }

  lemma CutIffLater(s: string, k: nat, c: nat)
    requires Flat(s) && Around(s, k, c, c, c + 4) && ClosesAt(s, c) && !Completed(s, k, c)
    ensures LinkBehindCut(s) <==> HasOpener(s, k + 1)
  {
    if HasOpener(s, k + 1) {
      var j :| k + 1 <= j <= |s| && OpensAt(s, j);
      LaterIsBehind(s, k, c, c, c + 4, j);
      assert CutShort(s, k, c, j);
    }
    if LinkBehindCut(s) {
      var i: nat, m: nat, j: nat :| CutShort(s, i, m, j);
      assert OpensAt(s, j) && j >= k + 1;
    }
  }

  lemma StoppedIff(s: string, k: nat, c: nat)
    requires NoneCutOff(s) && Flat(s) && Around(s, k, c, c, c + 4) && ClosesAt(s, c) && !Completed(s, k, c)
    ensures Find(Rest(s, k, c, c, c + 4), "<a") < 0 <==> !LinkBehindCut(s)
  {
    LaterOpener(s, k, c, c, c + 4);
    OpenerFound(Rest(s, k, c, c, c + 4));
    CutIffLater(s, k, c);
  }

  /** Where no '<' is cut off and no link is inside another, the result is free of links exactly
      when no link follows a closing tag that begins inside an opening one. */
  lemma {:induction false} LinksGoneIff(s: string, urls: string)
    requires NoneCutOff(s) && Flat(s)
    ensures Find(StripA(s, urls).0, "<a") < 0 <==> !LinkBehindCut(s)
    decreases |s|
  {
    var l := FindLink(s);
    match l
    case NoLink =>
      OpenerFound(s);
    case Unended(at) =>
      CutBeforeFirst(s, "<a");
      UnendedIsLast(s);
    case Crossed(at, len) =>
      var k, c := CutAt(s);
      StoppedIff(s, k, c);
    case Whole(at, len, text, url) =>
      var k, e, c, n := TurnKeepsRest(s);
      RestNoneCutOff(s, k, e, c, n);
      RestFlat(s, k, e, c, n);
      TurnKeepsCuts(s, k, e, c, n);
      LinksGoneIff(ReplaceAt(s, at, len, text), AddUrl(urls, text, url));
  }

  // ---------- neither condition can be left out ----------

  lemma CharStarts(s: string, k: nat, c: char)
    requires k < |s| && s[k] == c && forall i | 0 <= i < k :: s[i] != c
    ensures Find(s, [c]) == k
  {
    assert s[k..][..1] == [c];
    forall j | 0 <= j < k ensures !([c] <= s[j..]) {
      assert s[j..][0] == s[j];
    }
    FindUnique(s, [c], k);
  }

  lemma OpenerStarts(s: string, k: nat)
    requires k + 1 < |s| && s[k] == '<' && s[k + 1] == 'a' && forall i | 0 <= i < k :: s[i] != '<' || s[i + 1] != 'a'
    ensures Find(s, "<a") == k
  {
    OpensIs(s, k);
    forall j | 0 <= j < k ensures !("<a" <= s[j..]) {
      OpensIs(s, j);
    }
    FindUnique(s, "<a", k);
  }

  lemma CloserStarts(s: string, k: nat)
    requires k + 3 < |s| && s[k] == '<' && s[k + 1] == '/' && s[k + 2] == 'a' && s[k + 3] == '>'
    requires forall i | 0 <= i < k :: s[i] != '<' || s[i + 1] != '/'
    ensures Find(s, "</a>") == k
  {
    ClosesIs(s, k);
    forall j | 0 <= j < k ensures !("</a>" <= s[j..]) {
      ClosesIs(s, j);
    }
    FindUnique(s, "</a>", k);
  }

  /** A closing tag inside an opening one stops the loop, and the link behind it stays. */
  lemma LinkStays(urls: string)
    ensures StripA("<a</a><a>x", urls).0 == "<a>x" && Find("<a>x", "<a") == 0
  {
    var s := "<a</a><a>x";
    OpenerStarts(s, 0);
    assert s[0..] == s;
    CharStarts(s, 5, '>');
    CloserStarts(s, 2);
    assert s[..0] + "" + s[6..] == "<a>x";
    OpenerStarts("<a>x", 0);
  }

  lemma WholeWhen(s: string, k: nat, t: string, end: nat, close: nat)
    requires Find(s, "<a") == k && t == s[k..] && Find(t, ">") == end && Find(t, "</a>") == close && end < close
    ensures FindLink(s).Whole?
  {
  }

  /** One turn of the loop, given what its searches find. */
  lemma StripOnce(s: string, urls: string, k: nat, end: nat, close: nat) returns (more: string)
    requires Find(s, "<a") == k && Find(s[k..], ">") == end && Find(s[k..], "</a>") == close && end < close
    ensures k + close + 4 <= |s| && StripA(s, urls) == StripA(Rest(s, k, k + end + 1, k + close, k + close + 4), more)
  {
    WholeWhen(s, k, s[k..], end, close);
    LinkParts(s, k, s[k..], end, close);
    SliceOfRest(s, k, end + 1, close);
    var l := FindLink(s);
    more := AddUrl(urls, l.text, l.url);
  }

  lemma JoinedEnds(t: string)
    requires t == "<a>a</a></a><a>x"
    ensures Find(t, ">") == 2 && Find(t, "</a>") == 4
  {
    CharStarts(t, 2, '>');
    CloserStarts(t, 4);
  }

  lemma JoinedTurn(s: string)
    requires s == "<<a>a</a></a><a>x"
    ensures Find(s, "<a") == 1 && Find(s[1..], ">") == 2 && Find(s[1..], "</a>") == 4
  {
    OpenerStarts(s, 1);
    JoinedEnds(s[1..]);
  }

  lemma JoinedRest(s: string)
    requires s == "<<a>a</a></a><a>x"
    ensures Rest(s, 1, 4, 5, 9) == "<a</a><a>x"
  {
  }

  /** A '<' of its own can join what is left of a link to a new opening tag. */
  lemma JoinedLinkStays(s: string)
    requires s == "<<a>a</a></a><a>x"
    ensures TagsApart(s) && StripA(s, "").0 == "<a>x"
  {
    JoinedTagsApart(s);
    JoinedTurn(s);
    JoinedRest(s);
    var more := StripOnce(s, "", 1, 2, 4);
    LinkStays(more);
  }

  lemma JoinedTagsApart(s: string)
    requires s == "<<a>a</a></a><a>x"
    ensures TagsApart(s)
  {
    forall i, c | 0 <= i < c <= |s| && OpensAt(s, i) && ClosesAt(s, c) ensures Completed(s, i, c) {
      OpensIs(s, i);
      ClosesIs(s, c);
      assert i == 1 && c >= 5;
      assert s[i..c][2] == '>';
    }
  }
}
