/** src/markup.c on buffers: passes that rewrite the string and move match positions. */
module MarkupBuffer {
  import opened Notifications
  import opened Strings
  import opened StringBuffer
  import opened Markup
  import opened Links

  /** `markup_quote` */
  method MarkupQuote(buf: array<char>, ghost s: string) returns (str: array<char>)
    requires Holds(buf, s)
    modifies buf
    ensures Holds(str, Quote(s)) && (str == buf || fresh(str))
  {
    ghost var s1 := ReplaceAll("&", "&amp;", s);
    ghost var s2 := ReplaceAll("\"", "&quot;", s1);
    ghost var s3 := ReplaceAll("'", "&apos;", s2);
    ghost var s4 := ReplaceAll("<", "&lt;", s3);
    str := StringReplaceAll("&", "&amp;", buf, s);
    str := StringReplaceAll("\"", "&quot;", str, s1);
    str := StringReplaceAll("'", "&apos;", str, s2);
    str := StringReplaceAll("<", "&lt;", str, s3);
    str := StringReplaceAll(">", "&gt;", str, s4);
  }

  /** `markup_unquote` */
  method MarkupUnquote(buf: array<char>, ghost s: string) returns (str: array<char>)
    requires Holds(buf, s)
    modifies buf
    ensures Holds(str, Unquote(s)) && (str == buf || fresh(str))
  {
    ghost var s1 := ReplaceAll("&quot;", "\"", s);
    ghost var s2 := ReplaceAll("&apos;", "'", s1);
    ghost var s3 := ReplaceAll("&lt;", "<", s2);
    ghost var s4 := ReplaceAll("&gt;", ">", s3);
    str := StringReplaceAll("&quot;", "\"", buf, s);
    str := StringReplaceAll("&apos;", "'", str, s1);
    str := StringReplaceAll("&lt;", "<", str, s2);
    str := StringReplaceAll("&gt;", ">", str, s3);
    str := StringReplaceAll("&amp;", "&", str, s4);
  }

  /** `markup_br2nl` */
  method MarkupBr2Nl(buf: array<char>, ghost s: string) returns (str: array<char>)
    requires Holds(buf, s)
    modifies buf
    ensures Holds(str, Br2Nl(s)) && (str == buf || fresh(str))
  {
    ghost var s1 := ReplaceAll("<br>", "\n", s);
    ghost var s2 := ReplaceAll("<br/>", "\n", s1);
    str := StringReplaceAll("<br>", "\n", buf, s);
    str := StringReplaceAll("<br/>", "\n", str, s1);
    str := StringReplaceAll("<br />", "\n", str, s2);
  }

  /** `markup_strip` */
  method MarkupStrip(buf: array<char>, ghost s: string) returns (str: array<char>)
    requires Holds(buf, s)
    modifies buf
    ensures Holds(str, Strip(s)) && (str == buf || fresh(str))
  {
    StringStripDelimited(buf, s, '<', '>');
    str := MarkupUnquote(buf, StripDelimited(s, '<', '>'));
  }

  // ---------- entities ----------

  /** The digits of a numeric entity end exactly at its semicolon. */
  method DigitsReach(buf: array<char>, ghost s: string, from: nat, end: nat, hex: bool) returns (b: bool)
    requires Holds(buf, s) && from <= end < |s|
    ensures b <==> if hex then AllHexDigits(s[from..end]) else AllDigits(s[from..end])
  {
    assert forall i | 0 <= i < |s| :: buf[i] == buf[..|s|][i] == s[i];
    var cur := from;
    while cur < end && (if hex then IsHexDigit(buf[cur]) else IsDigit(buf[cur]))
      invariant from <= cur <= end
      invariant if hex then AllHexDigits(s[from..cur]) else AllDigits(s[from..cur])
    {
      assert s[from..cur + 1] == s[from..cur] + [s[cur]];
      cur := cur + 1;
    }
    assert cur < end ==> s[cur] in s[from..end] by {
      if cur < end { assert s[from..end][cur - from] == s[cur]; }
    }
    return cur == end;
  }

  /** `g_str_has_prefix` at a position */
  method HasPrefixAt(buf: array<char>, ghost s: string, at: nat, prefix: string) returns (b: bool)
    requires Holds(buf, s) && at <= |s|
    ensures b <==> prefix <= s[at..]
  {
    var n := StrLen(buf, s);
    assert buf[..n] == s;
    if at + |prefix| > n { return false; }
    assert buf[at..at + |prefix|] == s[at..][..|prefix|];
    return buf[at..at + |prefix|] == prefix;
  }

  lemma TailHeld(buf: array<char>, s: string, at: nat)
    requires Holds(buf, s) && at <= |s|
    ensures forall i | 0 <= i < |s| - at :: buf[at + i] == s[at..][i]
  {
    assert forall i | 0 <= i < |s| - at :: s[at..][i] == s[at + i] == buf[..|s|][at + i] == buf[at + i];
  }

  lemma SemicolonAt(t: string, end: nat)
    requires Find(t, ";") == end
    ensures end < |t| && t[end] == ';' && forall i | 0 <= i < end :: t[i] != ';'
  {
    FindIsFirst(t, ";");
    assert t[end..][0] == ';';
    forall i | 0 <= i < end ensures t[i] != ';' {
      assert ";" <= t[i..] <==> t[i] == ';';
    }
  }

  /** The digits of a numeric entity that may end at `end`. */
  method NumericEntity(buf: array<char>, ghost s: string, at: nat, end: nat) returns (b: bool)
    requires Holds(buf, s) && at + 1 < end < |s| && s[at] == '&' && s[at + 1] == '#'
    requires Find(s[at..], ";") == end - at
    ensures b <==> IsEntity(s[at..])
  {
    ghost var t := s[at..];
    TailHeld(buf, s, at);
    SemicolonAt(t, end - at);
    if buf[at + 2] == 'x' && at + 2 < end {
      // No digits after the x.
      if buf[at + 3] == ';' {
        assert !IsEntity(t);
        return false;
      }
      b := DigitsReach(buf, s, at + 3, end, true);
      assert s[at + 3..end] == t[3..end - at];
    } else {
      // No digits at all.
      if buf[at + 2] == ';' {
        assert !IsEntity(t);
        return false;
      }
      b := DigitsReach(buf, s, at + 2, end, false);
      assert s[at + 2..end] == t[2..end - at];
    }
  }

  /** The loop over the five named entities. */
  method NamedEntity(buf: array<char>, ghost s: string, at: nat) returns (b: bool)
    requires Holds(buf, s) && at < |s|
    ensures b <==> exists i | 0 <= i < |NAMED| :: NAMED[i] <= s[at..]
  {
    var i := 0;
    while i < |NAMED|
      invariant 0 <= i <= |NAMED|
      invariant forall j | 0 <= j < i :: !(NAMED[j] <= s[at..])
    {
      var has := HasPrefixAt(buf, s, at, NAMED[i]);
      if has { return true; }
      i := i + 1;
    }
    b := false;
  }

  /** `markup_is_entity` on the ampersand at `at` */
  method MarkupIsEntity(buf: array<char>, ghost s: string, at: nat) returns (b: bool)
    requires Holds(buf, s) && at < |s| && s[at] == '&'
    ensures b <==> IsEntity(s[at..])
  {
    ghost var t := s[at..];
    assert forall i | 0 <= i < |t| :: t[i] == s[at + i] == buf[..|s|][at + i] == buf[at + i];
    var end := StrStr(buf, s, at, ";");
    if end < 0 { return false; }
    FindIsFirst(t, ";");
    assert t[end - at..][0] == ';';
    if buf[at + 1] == '#' {
      b := NumericEntity(buf, s, at, end);
    } else {
      b := NamedEntity(buf, s, at);
    }
  }

  /** What the ampersand at `k` turns into. */
  ghost function Escaped(rest: string, k: nat): string
    requires k < |rest| && rest[k] == '&'
  {
    if IsEntity(rest[k..]) then "&" else "&amp;"
  }

  lemma EscapeAt(rest: string, k: nat)
    requires Find(rest, "&") == k
    ensures k < |rest| && rest[k] == '&'
    ensures Escape(rest) == rest[..k] + (Escaped(rest, k) + Escape(rest[k + 1..]))
  {
    FirstAmpersand(rest, k);
    EscapeSkips(rest[..k], rest[k..]);
  }

  lemma FirstAmpersand(rest: string, k: nat)
    requires Find(rest, "&") == k
    ensures k < |rest| && rest[k] == '&' && '&' !in rest[..k]
    ensures rest == rest[..k] + rest[k..] && rest[k..][0] == '&' && rest[k..][1..] == rest[k + 1..]
  {
    FindIsFirst(rest, "&");
    assert rest[k..][0] == '&';
    forall i | 0 <= i < k ensures rest[i] != '&' {
      assert "&" <= rest[i..] <==> rest[i] == '&';
    }
  }

  lemma EscapeRest(rest: string)
    requires Find(rest, "&") < 0
    ensures Escape(rest) == rest
  {
    FindIsFirst(rest, "&");
    assert forall i | 0 <= i < |rest| :: "&" <= rest[i..] <==> rest[i] == '&';
    EscapeSkips(rest, "");
    assert rest + "" == rest;
  }

  lemma EscapedOnce(done: string, rest: string, k: nat, mid: string)
    requires k < |rest|
    ensures var done' := done + rest[..k] + mid;
            && (mid == [rest[k]] ==> done + rest == done' + rest[k + 1..])
            && ReplaceAt(done + rest, |done| + k, 1, mid) == done' + rest[k + 1..]
            && (done' + rest[k + 1..])[|done| + k + |mid|..] == rest[k + 1..]
            && (done + rest)[|done| + k..] == rest[k..]
    ensures forall tail :: done + (rest[..k] + (mid + tail)) == (done + rest[..k] + mid) + tail
  {
    assert (done + rest)[..|done| + k] == done + rest[..k];
    assert (done + rest)[|done| + k + 1..] == rest[k + 1..];
    assert rest == rest[..k] + [rest[k]] + rest[k + 1..];
  }

  /** Decide about the ampersand at `at`, perhaps replace it, and move behind it. */
  method EscapeHere(buf: array<char>, ghost t: string, at: nat)
    returns (str: array<char>, next: nat, isEntity: bool, ghost t': string)
    requires Holds(buf, t) && at < |t| && t[at] == '&'
    modifies buf
    ensures str == buf || fresh(str)
    ensures isEntity == IsEntity(t[at..])
    ensures Holds(str, t') && t' == if isEntity then t else ReplaceAt(t, at, 1, "&amp;")
    ensures next == at + (if isEntity then 1 else 5)
  {
    isEntity := MarkupIsEntity(buf, t, at);
    t' := t;
    if !isEntity {
      t' := ReplaceAt(t, at, 1, "&amp;");
      str := StringReplaceAt(buf, t, at, 1, "&amp;");
      next := at + 5;
    } else {
      str := buf;
      next := at + 1;
    }
  }

  /** What one turn of the escaping loop does to the text. */
  lemma EscapeTurn(done: string, rest: string, k: nat, isEntity: bool) returns (done': string, rest': string)
    requires Find(rest, "&") == k && k < |rest| && rest[k] == '&'
    requires isEntity == IsEntity((done + rest)[|done| + k..])
    ensures (if isEntity then done + rest else ReplaceAt(done + rest, |done| + k, 1, "&amp;")) == done' + rest'
    ensures |done'| == |done| + k + (if isEntity then 1 else 5) && |rest'| < |rest|
    ensures (done' + rest')[|done'|..] == rest'
    ensures done + Escape(rest) == done' + Escape(rest')
  {
    EscapeAt(rest, k);
    EscapedOnce(done, rest, k, Escaped(rest, k));
    done', rest' := done + rest[..k] + Escaped(rest, k), rest[k + 1..];
  }

  method SearchOn(buf: array<char>, ghost done: string, ghost rest: string, from: nat) returns (next: int)
    requires Holds(buf, done + rest) && from == |done|
    ensures next == if Find(rest, "&") < 0 then -1 else from + Find(rest, "&")
  {
    assert (done + rest)[from..] == rest;
    next := StrStr(buf, done + rest, from, "&");
  }

  /** The body of the escaping loop: decide, perhaps replace, and search on. */
  method EscapeNext(buf: array<char>, ghost done: string, ghost rest: string, at: nat)
    returns (str: array<char>, next: int, ghost done': string, ghost rest': string)
    requires Holds(buf, done + rest) && Find(rest, "&") >= 0 && at == |done| + Find(rest, "&")
    modifies buf
    ensures str == buf || fresh(str)
    ensures |rest'| < |rest| && Holds(str, done' + rest')
    ensures done' + Escape(rest') == done + Escape(rest)
    ensures next == if Find(rest', "&") < 0 then -1 else |done'| + Find(rest', "&")
  {
    ghost var k, t' := Find(rest, "&"), "";
    FirstAmpersand(rest, k);
    assert (done + rest)[at] == rest[k];
    var from, isEntity;
    str, from, isEntity, t' := EscapeHere(buf, done + rest, at);
    done', rest' := EscapeTurn(done, rest, k, isEntity);
    assert t' == done' + rest' && from == |done'|;
    next := SearchOn(str, done', rest', from);
  }

  /** `markup_escape_unsupported` */
  method MarkupEscapeUnsupported(buf: array<char>, ghost s: string) returns (str: array<char>)
    requires Holds(buf, s)
    modifies buf
    ensures Holds(str, Escape(s)) && (str == buf || fresh(str))
  {
    str := buf;
    ghost var done, rest, goal := "", s, Escape(s);
    assert done + rest == s && done + goal == goal && s[0..] == s;
    var at := StrStr(str, s, 0, "&");
    while at >= 0
      invariant Holds(str, done + rest) && (str == buf || fresh(str))
      invariant goal == done + Escape(rest)
      invariant at == if Find(rest, "&") < 0 then -1 else |done| + Find(rest, "&")
      decreases |rest|
    {
      str, at, done, rest := EscapeNext(str, done, rest, at);
    }
    EscapeRest(rest);
  }

  // ---------- tags ----------

  /** The texts of the image tag at `start`, read from the buffer. */
  method ReadImage(buf: array<char>, ghost s: string, start: nat, end: nat)
    returns (alt: Option<string>, src: Option<string>)
    requires Holds(buf, s) && start <= end < |s|
    ensures (alt, src) == ImageTexts(s[start..], end - start)
    ensures '\0' !in ImageLabel(alt)
  {
    var n := StrLen(buf, s);
    var t := buf[start..n];
    assert t == s[start..];
    var altS := ValueStart(t, "alt=\"");
    var srcS := ValueStart(t, "src=\"");
    var altE := ValueEnd(t, altS);
    var srcE := ValueEnd(t, srcS);
    alt, src := None, None;
    var close := end - start;
    if && altE >= 0 && srcE >= 0
       && (|| (altS < srcS && altE < srcS - 5 && srcE < close)
           || (srcS < altS && srcE < altS - 5 && altE < close)) {
      alt := Some(t[altS..altE]);
      src := Some(t[srcS..srcE]);
    } else if altE >= 0 && altE < close && (srcS < 0 || srcS < altS || altE < srcS - 5) {
      alt := Some(t[altS..altE]);
    } else if srcE >= 0 && srcE < close && (altS < 0 || altS < srcS || srcE < altS - 5) {
      src := Some(t[srcS..srcE]);
    }
  }

  /** One turn of the loop of `markup_strip_img` on the image tag at `start`; `more` is
      false when the tag has no end and the text is cut there. */
  method StripImgNext(buf: array<char>, ghost t: string, start: nat, urls: string)
    returns (str: array<char>, more: bool, urls': string, ghost t': string)
    requires Holds(buf, t) && start == Find(t, "<img")
    modifies buf
    ensures Holds(str, t') && (str == buf || fresh(str))
    ensures more ==> StripImg(t, urls) == StripImg(t', urls') && Closers(t') < Closers(t)
    ensures !more ==> StripImg(t, urls) == (t', urls')
  {
    urls' := urls;
    var end := StrStr(buf, t, start, ">");
    // A tag without an end is dropped with all that follows it.
    if end < 0 {
      var n := StrLen(buf, t);
      str := StringReplaceAt(buf, t, start, n - start, "");
      t' := t[..start];
      assert ReplaceAt(t, start, |t| - start, "") == t';
      return str, false, urls', t';
    }
    ImageStepCloses(t, start, end - start);
    var alt, src := ReadImage(buf, t, start, end);
    var text := ImageLabel(alt);
    t' := ReplaceAt(t, start, end - start + 1, text);
    urls' := AddUrl(urls, text, src);
    assert StripImg(t, urls) == StripImg(t', urls');
    str := StringReplaceAt(buf, t, start, end - start + 1, text);
    more := true;
  }

  /** `markup_strip_img` */
  method MarkupStripImg(buf: array<char>, ghost s: string) returns (str: array<char>, urls: string)
    requires Holds(buf, s)
    modifies buf
    ensures Holds(str, StripImg(s, "").0) && (str == buf || fresh(str))
    ensures urls == StripImg(s, "").1
  {
    str, urls := buf, "";
    ghost var t, goal := s, StripImg(s, "");
    assert t[0..] == t;
    var start := StrStr(str, t, 0, "<img");
    var more := true;
    while start >= 0 && more
      invariant Holds(str, t) && (str == buf || fresh(str))
      invariant goal == if more then StripImg(t, urls) else (t, urls)
      invariant more ==> start == Find(t, "<img")
      decreases more, Closers(t)
    {
      str, more, urls, t := StripImgNext(str, t, start, urls);
      if more {
        assert t[0..] == t;
        start := StrStr(str, t, 0, "<img");
      }
    }
  }

  lemma SliceHeld(buf: array<char>, s: string, i: nat, j: nat)
    requires Holds(buf, s) && i <= j <= |s|
    ensures buf[i..j] == s[i..j] && '\0' !in s[i..j]
  {
    assert forall k | i <= k < j :: buf[k] == buf[..|s|][k] == s[k];
  }

  /** `FindLink` in positions of the whole text. */
  lemma LinkAt(s: string, tag1: nat, end: int, tag2: int)
    requires Find(s, "<a") == tag1 && end == Find(s[tag1..], ">") && tag2 == Find(s[tag1..], "</a>")
    requires end >= 0 && !(0 <= tag2 < end)
    ensures tag1 + end + 1 <= (if tag2 >= 0 then tag1 + tag2 else |s|) <= |s|
    ensures var text := s[tag1 + end + 1..if tag2 >= 0 then tag1 + tag2 else |s|];
            FindLink(s) == Whole(tag1, |text| + end + 1 + (if tag2 >= 0 then 4 else 0), text, LinkUrl(s[tag1..], end))
  {
    var t := s[tag1..];
    ClosersApart(t, end, tag2);
    var textLen := if tag2 >= 0 then tag2 - (end + 1) else |t| - (end + 1);
    assert t[end + 1..end + 1 + textLen] == s[tag1 + end + 1..if tag2 >= 0 then tag1 + tag2 else |s|];
  }

  /** The link whose text is `s[end + 1..textEnd]`. */
  method ReadWhole(buf: array<char>, ghost s: string, tag1: nat, end: nat, textEnd: nat, closed: bool) returns (l: Link)
    requires Holds(buf, s) && tag1 <= end < textEnd <= |s|
    ensures var text := s[end + 1..textEnd];
            && '\0' !in text
            && l == Whole(tag1, |text| + (end - tag1) + 1 + (if closed then 4 else 0), text,
                          LinkUrl(s[tag1..], end - tag1))
  {
    var n := StrLen(buf, s);
    SliceHeld(buf, s, end + 1, textEnd);
    SliceHeld(buf, s, tag1, n);
    assert s[tag1..n] == s[tag1..];
    var text := buf[end + 1..textEnd];
    l := Whole(tag1, |text| + (end - tag1) + 1 + (if closed then 4 else 0), text, LinkUrl(buf[tag1..n], end - tag1));
  }

  lemma LinkCut(s: string, tag1: nat, end: int, tag2: int)
    requires Find(s, "<a") == tag1 && end == Find(s[tag1..], ">") && tag2 == Find(s[tag1..], "</a>")
    ensures end < 0 ==> FindLink(s) == Unended(tag1)
    ensures 0 <= tag2 < end ==> FindLink(s) == Crossed(tag1, tag2 + 4)
  {
  }

  /** The link that begins at `tag1` and is not cut short. */
  method ReadClosed(buf: array<char>, ghost s: string, tag1: nat, end: nat, tag2: int) returns (l: Link)
    requires Holds(buf, s) && Find(s, "<a") == tag1 <= end
    requires Find(s[tag1..], ">") == end - tag1
    requires Find(s[tag1..], "</a>") == if tag2 >= 0 then tag2 - tag1 else -1
    requires tag2 < 0 || tag1 <= end <= tag2
    ensures l == FindLink(s) && l.Whole? && '\0' !in l.text
  {
    LinkAt(s, tag1, end - tag1, if tag2 >= 0 then tag2 - tag1 else -1);
    var n := StrLen(buf, s);
    l := ReadWhole(buf, s, tag1, end, if tag2 >= 0 then tag2 else n, tag2 >= 0);
  }

  /** The search at the head of the loop of `markup_strip_a`, read from the buffer. */
  method ReadLink(buf: array<char>, ghost s: string) returns (l: Link)
    requires Holds(buf, s)
    ensures l == FindLink(s)
    ensures l.Whole? ==> '\0' !in l.text
  {
    assert s[0..] == s;
    var tag1 := StrStr(buf, s, 0, "<a");
    if tag1 < 0 { return NoLink; }
    var end := StrStr(buf, s, tag1, ">");
    var tag2 := StrStr(buf, s, tag1, "</a>");
    LinkCut(s, tag1, Find(s[tag1..], ">"), Find(s[tag1..], "</a>"));
    if end < 0 { return Unended(tag1); }
    if tag2 >= 0 && tag2 < end { return Crossed(tag1, tag2 - tag1 + 4); }
    l := ReadClosed(buf, s, tag1, end, tag2);
  }

  /** `markup_strip_a` */
  method MarkupStripA(buf: array<char>, ghost s: string) returns (str: array<char>, urls: string)
    requires Holds(buf, s)
    modifies buf
    ensures Holds(str, StripA(s, "").0) && (str == buf || fresh(str))
    ensures urls == StripA(s, "").1
  {
    str, urls := buf, "";
    ghost var t := s;
    while true
      invariant Holds(str, t) && (str == buf || fresh(str))
      invariant StripA(s, "") == StripA(t, urls)
      decreases |t|
    {
      var l := ReadLink(str, t);
      match l {
        case NoLink => return;
        case Unended(at) =>
          var n := StrLen(str, t);
          str := StringReplaceAt(str, t, at, n - at, "");
          assert ReplaceAt(t, at, |t| - at, "") == t[..at];
          return;
        case Crossed(at, len) =>
          str := StringReplaceAt(str, t, at, len, "");
          return;
        case Whole(at, len, text, url) =>
          str := StringReplaceAt(str, t, at, len, text);
          urls := AddUrl(urls, text, url);
          t := ReplaceAt(t, at, len, text);
      }
    }
  }

  /** `markup_transform` */
  method MarkupTransform(buf: array<char>, ghost s: string, mode: Mode, ignoreNewline: bool) returns (str: array<char>)
    requires Holds(buf, s)
    modifies buf
    ensures Holds(str, Transform(mode, ignoreNewline, s)) && (str == buf || fresh(str))
  {
    ghost var t;
    match mode {
      case No =>
        t := Quote(s);
        str := MarkupQuote(buf, s);
      case StripAll =>
        t := Quote(Strip(Br2Nl(s)));
        str := MarkupBr2Nl(buf, s);
        str := MarkupStrip(str, Br2Nl(s));
        str := MarkupQuote(str, Strip(Br2Nl(s)));
      case Full =>
        ghost var u := Br2Nl(Escape(s));
        t := StripImg(StripA(u, "").0, "").0;
        var urls;
        str := MarkupEscapeUnsupported(buf, s);
        str := MarkupBr2Nl(str, Escape(s));
        str, urls := MarkupStripA(str, u);
        str, urls := MarkupStripImg(str, StripA(u, "").0);
    }
    if ignoreNewline {
      str := StringReplaceAll("\n", " ", str, t);
    }
  }
}
