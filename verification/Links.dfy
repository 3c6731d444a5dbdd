/** Link and image tags (`markup_strip_a`, `markup_strip_img`) and the choice of passes in
    `markup_transform`. */
module Links {
  import opened Notifications
  import opened Strings
  import opened Markup

  /** `string_append`; the empty text also stands for no text. */
  function Append(a: string, b: string, sep: string): string {
    if a == "" then b else if b == "" then a else a + sep + b
  }

  /** The visible text of a collected URL: brackets dropped, newlines spelled out. */
  function UrlLabel(text: string): string {
    ReplaceAll("\n", "\\n", ReplaceAll("[", "", ReplaceAll("]", "", text)))
  }

  function AddUrl(urls: string, text: string, url: Option<string>): string {
    if url.None? then urls else Append(urls, "[" + UrlLabel(text) + "] " + url.value, "\n")
  }

  // ---------- images ----------

  /** Where the value of an attribute begins in the tag, or -1. */
  function ValueStart(t: string, attribute: string): (k: int)
    ensures -1 <= k <= |t|
  {
    var k := Find(t, attribute); if k < 0 then -1 else k + |attribute|
  }

  /** Where the value that begins at `start` ends, or -1. */
  function ValueEnd(t: string, start: int): (k: int)
    requires -1 <= start <= |t|
    ensures k == -1 || start <= k < |t|
  {
    if start < 0 then -1
    else var k := Find(t[start..], "\""); if k < 0 then -1 else start + k
  }

  /** The texts a tag provides, with the alignment checks of the source; `t` starts at the
      tag and `end` is the position of its '>'. */
  function ImageTexts(t: string, end: nat): (r: (Option<string>, Option<string>))
    requires end < |t|
    ensures r.0.Some? ==> forall c | c in r.0.value :: c in t[..end]
  {
    var altS := ValueStart(t, "alt=\"");
    var srcS := ValueStart(t, "src=\"");
    var altE := ValueEnd(t, altS);
    var srcE := ValueEnd(t, srcS);
    if && altE >= 0 && srcE >= 0
       && (|| (altS < srcS && altE < srcS - 5 && srcE < end)
           || (srcS < altS && srcE < altS - 5 && altE < end)) then
      (Some(t[altS..altE]), Some(t[srcS..srcE]))
    else if altE >= 0 && altE < end && (srcS < 0 || srcS < altS || altE < srcS - 5) then
      (Some(t[altS..altE]), None)
    else if srcE >= 0 && srcE < end && (altS < 0 || altS < srcS || srcE < altS - 5) then
      (None, Some(t[srcS..srcE]))
    else
      (None, None)
  }

  function ImageLabel(alt: Option<string>): string {
    if alt.Some? then alt.value else "[image]"
  }

  function Closers(s: string): nat {
    if s == "" then 0 else (if s[0] == '>' then 1 else 0) + Closers(s[1..])
  }

  lemma {:induction false} ClosersConcat(s: string, t: string)
    ensures Closers(s + t) == Closers(s) + Closers(t)
  {
    if s == "" {
      assert s + t == t;
    } else {
      assert (s + t)[1..] == s[1..] + t;
      ClosersConcat(s[1..], t);
    }
  }

  lemma {:induction false} NoClosers(s: string)
    ensures Closers(s) == 0 <==> '>' !in s
  {
    if s != "" {
      NoClosers(s[1..]);
      assert forall c :: c in s <==> c == s[0] || c in s[1..];
    }
  }

  /** The tag ends at the first '>', so what comes before has none. */
  lemma TagHasNoCloser(t: string, end: nat)
    requires Find(t, ">") == end
    ensures end < |t| && t[end] == '>' && '>' !in t[..end]
  {
    FindIsFirst(t, ">");
    assert t[end..][0] == '>';
    forall i | 0 <= i < end ensures t[i] != '>' {
      assert ">" <= t[i..] <==> t[i] == '>';
    }
  }

  lemma LabelHasNoCloser(t: string, end: nat)
    requires Find(t, ">") == end
    ensures end < |t| && '>' !in ImageLabel(ImageTexts(t, end).0)
  {
    TagHasNoCloser(t, end);
  }

  lemma CutCloses(a: string, b: string, c: string, repl: string)
    requires '>' !in repl && b != "" && b[|b| - 1] == '>'
    ensures Closers(a + repl + c) < Closers(a + b + c)
  {
    var front := b[..|b| - 1];
    assert b == front + ">" && Closers(">") == 1;
    ClosersConcat(front, ">");
    ClosersConcat(a + b, c);
    ClosersConcat(a, b);
    ClosersConcat(a + repl, c);
    ClosersConcat(a, repl);
    NoClosers(repl);
  }

  lemma TagStepCloses(s: string, k: nat, end: nat, repl: string)
    requires k <= |s| && Find(s[k..], ">") == end && '>' !in repl
    ensures k + end + 1 <= |s| && Closers(ReplaceAt(s, k, end + 1, repl)) < Closers(s)
  {
    TagHasNoCloser(s[k..], end);
    CutCloses(s[..k], s[k..k + end + 1], s[k + end + 1..], repl);
    assert s == s[..k] + s[k..k + end + 1] + s[k + end + 1..];
  }

  /** Replacing an image tag can make the text longer, but it always takes one '>' away. */
  lemma ImageStepCloses(s: string, k: nat, end: nat)
    requires Find(s, "<img") == k && Find(s[k..], ">") == end
    ensures Closers(ReplaceAt(s, k, end + 1, ImageLabel(ImageTexts(s[k..], end).0))) < Closers(s)
  {
    LabelHasNoCloser(s[k..], end);
    TagStepCloses(s, k, end, ImageLabel(ImageTexts(s[k..], end).0));
  }

  /** `markup_strip_img`: the text, and the URLs collected so far. The search starts over
      from the beginning each time. */
  function StripImg(s: string, urls: string): (string, string)
    decreases Closers(s)
  {
    var k := Find(s, "<img");
    if k < 0 then (s, urls)
    else
      var t := s[k..];
      var end := Find(t, ">");
      if end < 0 then (s[..k], urls)
      else
        var texts := ImageTexts(t, end);
        ImageStepCloses(s, k, end);
        StripImg(ReplaceAt(s, k, end + 1, ImageLabel(texts.0)), AddUrl(urls, ImageLabel(texts.0), texts.1))
  }

  lemma CutBeforeFirst(s: string, needle: string)
    requires needle != "" && Find(s, needle) >= 0
    ensures Find(s[..Find(s, needle)], needle) < 0
  {
    var k := Find(s, needle);
    FindIsFirst(s, needle);
    forall j | 0 <= j <= k ensures !(needle <= s[..k][j..]) {
      assert s[j..] == s[..k][j..] + s[k..];
    }
    FindIsFirst(s[..k], needle);
  }

  /** No image tag is left, whatever the text: not even one that a replacement text formed. */
  lemma {:induction false} ImagesGone(s: string, urls: string)
    ensures Find(StripImg(s, urls).0, "<img") < 0
    decreases Closers(s)
  {
    var k := Find(s, "<img");
    if k >= 0 {
      var t := s[k..];
      var end := Find(t, ">");
      if end < 0 {
        CutBeforeFirst(s, "<img");
      } else {
        var texts := ImageTexts(t, end);
        ImageStepCloses(s, k, end);
        ImagesGone(ReplaceAt(s, k, end + 1, ImageLabel(texts.0)), AddUrl(urls, ImageLabel(texts.0), texts.1));
      }
    }
  }

  // ---------- links ----------

  /** The value of href, when it lies inside the tag. */
  function LinkUrl(t: string, end: nat): Option<string> {
    var href := Find(t, "href=\"");
    if href >= 0 && href < end then
      var start := href + 6;
      var quote := ValueEnd(t, start);
      if quote >= 0 && quote < end then Some(t[start..quote]) else None
    else None
  }

  /** What one turn of `markup_strip_a` finds: nothing, a tag without end, a closing tag
      inside the tag, or a link with its text. */
  datatype Link = NoLink | Unended(at: nat) | Crossed(at: nat, len: nat)
    | Whole(at: nat, len: nat, text: string, url: Option<string>)

  function FindLink(s: string): (l: Link)
    ensures l.Unended? ==> l.at <= |s|
    ensures l.Crossed? ==> l.at + l.len <= |s|
    ensures l.Whole? ==> l.at + l.len <= |s| && |l.text| < l.len
  {
    var k := Find(s, "<a");
    if k < 0 then NoLink
    else
      var t := s[k..];
      var end := Find(t, ">");
      var close := Find(t, "</a>");
      if end < 0 then Unended(k)
      else if close >= 0 && close < end then Crossed(k, close + 4)
      else
        ClosersApart(t, end, close);
        var textLen := if close >= 0 then close - (end + 1) else |t| - (end + 1);
        Whole(k, textLen + end + 1 + (if close >= 0 then 4 else 0), t[end + 1..end + 1 + textLen], LinkUrl(t, end))
  }

  /** '>' and "</a>" cannot begin at the same place. */
  lemma ClosersApart(t: string, end: int, close: int)
    requires end == Find(t, ">") && close == Find(t, "</a>")
    ensures end >= 0 && close >= 0 ==> end != close
  {
    FindIsFirst(t, ">");
    FindIsFirst(t, "</a>");
    assert end >= 0 ==> t[end..][0] == '>';
    assert close >= 0 ==> t[close..][0] == '<';
  }

  /** `markup_strip_a`: the text, the URLs collected so far, and whether a crossed closing
      tag stopped it early. Every turn shortens the text. */
  function StripA(s: string, urls: string): (string, string, bool)
    decreases |s|
  {
    match FindLink(s)
    case NoLink => (s, urls, false)
    case Unended(at) => (s[..at], urls, false)
    case Crossed(at, len) => (ReplaceAt(s, at, len, ""), urls, true)
    case Whole(at, len, text, url) => StripA(ReplaceAt(s, at, len, text), AddUrl(urls, text, url))
  }

  /** No link tag is left unless a closing tag inside a tag stopped the loop. */
  lemma {:induction false} LinksGone(s: string, urls: string)
    ensures !StripA(s, urls).2 ==> Find(StripA(s, urls).0, "<a") < 0
    ensures |StripA(s, urls).0| <= |s|
    decreases |s|
  {
    match FindLink(s)
    case NoLink =>
    case Unended(at) => CutBeforeFirst(s, "<a");
    case Crossed(at, len) =>
    case Whole(at, len, text, url) => LinksGone(ReplaceAt(s, at, len, text), AddUrl(urls, text, url));
  }

  // ---------- all passes ----------

  datatype Mode = No | StripAll | Full

  /** `markup_transform` */
  function Transform(mode: Mode, ignoreNewline: bool, s: string): string {
    match mode
    case No => NewlinesTo(ignoreNewline, Quote(s))
    case StripAll => TransformStrip(ignoreNewline, s)
    case Full =>
      NewlinesTo(ignoreNewline, StripImg(StripA(Br2Nl(Escape(s)), "").0, "").0)
  }

  lemma {:induction false} NewlinesKeepLength(s: string)
    ensures |ReplaceAll("\n", " ", s)| == |s|
    ensures forall i | 0 <= i < |s| :: ReplaceAll("\n", " ", s)[i] == if s[i] == '\n' then ' ' else s[i]
  {
    if s != "" {
      assert s[0] == '\n' <==> "\n" <= s;
      assert s[|"\n"|..] == s[1..];
      NewlinesKeepLength(s[1..]);
    }
  }

  lemma NewlinesHideNoImage(t: string, r: string, k: nat)
    requires |r| == |t| && k <= |t|
    requires forall i | 0 <= i < |t| :: r[i] == if t[i] == '\n' then ' ' else t[i]
    ensures "<img" <= r[k..] ==> "<img" <= t[k..]
  {
    if "<img" <= r[k..] {
      assert forall i | 0 <= i < 4 :: t[k + i] == r[k + i] == r[k..][i] == "<img"[i];
    }
  }

  /** Turning newlines into spaces cannot form an image tag. */
  lemma NewlinesFormNoImage(t: string)
    requires Find(t, "<img") < 0
    ensures Find(ReplaceAll("\n", " ", t), "<img") < 0
  {
    var r := ReplaceAll("\n", " ", t);
    NewlinesKeepLength(t);
    FindIsFirst(t, "<img");
    forall k | 0 <= k <= |r| ensures !("<img" <= r[k..]) {
      NewlinesHideNoImage(t, r, k);
    }
    FindIsFirst(r, "<img");
  }

  /** In FULL mode no image tag reaches the renderer. */
  lemma FullModeHasNoImages(ignoreNewline: bool, s: string)
    ensures Find(Transform(Full, ignoreNewline, s), "<img") < 0
  {
    var u := StripA(Br2Nl(Escape(s)), "").0;
    ImagesGone(u, "");
    NewlinesFormNoImage(StripImg(u, "").0);
  }
}
