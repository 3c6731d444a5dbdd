/** What FULL and STRIP mode show of a text: what they keep, what a line break and a link turn into,
    and which URLs are collected (markup_strip_a, markup_transform). */
module FullMarkup {
  import opened Notifications
  import opened Strings
  import opened TextSearch
  import opened Markup
  import opened Links
  import opened Specifiers

  // ---------- what is kept ----------

  lemma NoBreaksToTurn(s: string)
    requires Find(s, "<br") < 0
    ensures Br2Nl(s) == s
  {
    assert "<br" + ">" == "<br>" && "<br" + "/>" == "<br/>" && "<br" + " />" == "<br />";
    LongerNotFound(s, "<br", ">");
    LongerNotFound(s, "<br", "/>");
    LongerNotFound(s, "<br", " />");
    ReplaceAllStep("<br>", "\n", s);
    ReplaceAllStep("<br/>", "\n", s);
    ReplaceAllStep("<br />", "\n", s);
  }

  /** Newlines as the setting wants them. */
  function Lines(s: string, ignoreNewline: bool): string {
    if s == "" then ""
    else (if s[0] == '\n' && ignoreNewline then " " else [s[0]]) + Lines(s[1..], ignoreNewline)
  }

  lemma {:induction false} NewlinesAreLines(s: string, ignoreNewline: bool)
    ensures NewlinesTo(ignoreNewline, s) == Lines(s, ignoreNewline)
  {
    if s != "" {
      NewlinesAreLines(s[1..], ignoreNewline);
      assert s[0] == '\n' <==> "\n" <= s;
      assert s[|"\n"|..] == s[1..];
      assert !ignoreNewline ==> [s[0]] + s[1..] == s;
    }
  }

  /** FULL mode shows a text without line breaks, links and images as it is, bold, italic and all,
      when every ampersand in it begins an entity. */
  lemma FullModeKeeps(ignoreNewline: bool, s: string)
    requires Find(s, "<br") < 0 && Find(s, "<a") < 0 && Find(s, "<img") < 0 && OnlyEntities(s)
    ensures Transform(Full, ignoreNewline, s) == Lines(s, ignoreNewline)
  {
    EscapeIdleIff(s);
    NoBreaksToTurn(s);
    NewlinesAreLines(s, ignoreNewline);
  }

  /** Neither tags nor entities. */
  predicate NoMarkup(s: string) {
    '<' !in s && '>' !in s && '&' !in s
  }

  lemma NoMarkupIsKept(s: string)
    requires NoMarkup(s)
    ensures Escape(s) == s && Br2Nl(s) == s && Find(s, "<a") < 0 && Find(s, "<img") < 0
  {
    EscapeSkips(s, "");
    assert s + "" == s;
    CharAbsent(s, "<br");
    NoBreaksToTurn(s);
    CharAbsent(s, "<a");
    CharAbsent(s, "<img");
  }

  /** An ampersand that begins no entity is shown as one. */
  lemma FullModeEscapes(ignoreNewline: bool, x: string, y: string)
    requires NoMarkup(x) && NoMarkup(y) && !IsEntity("&" + y)
    ensures Transform(Full, ignoreNewline, x + ("&" + y)) == Lines(x + ("&amp;" + y), ignoreNewline)
  {
    var r := x + ("&amp;" + y);
    EscapeSkips(x, "&" + y);
    assert ("&" + y)[1..] == y;
    NoMarkupIsKept(y);
    assert Escape(x + ("&" + y)) == r;
    assert '<' !in r;
    CharAbsent(r, "<br");
    CharAbsent(r, "<a");
    CharAbsent(r, "<img");
    NoBreaksToTurn(r);
    NewlinesAreLines(r, ignoreNewline);
  }

  // ---------- entities ----------

  predicate Decimals(d: string) {
    d != "" && forall c | c in d :: '0' <= c <= '9'
  }

  predicate Hexadecimals(d: string) {
    d != "" && forall c | c in d :: '0' <= c <= '9' || 'a' <= c <= 'f' || 'A' <= c <= 'F'
  }

  lemma SemicolonAfter(s: string, front: string)
    requires ';' !in front && front + ";" <= s
    ensures Find(s, ";") == |front| && s[..|front|] == front
  {
    CharAbsent(front, ";");
    FindBehind(front, ";" + s[|front| + 1..], ";");
    assert s == (front + ";") + s[|front| + 1..] == front + (";" + s[|front| + 1..]);
  }

  lemma NumericIff(s: string)
    requires |s| > 1 && s[0] == '&' && s[1] == '#'
    ensures IsEntity(s) <==> || (exists d :: Decimals(d) && "&#" + d + ";" <= s)
                             || (exists h :: Hexadecimals(h) && "&#x" + h + ";" <= s)
  {
    var end := Find(s, ";");
    FindIsFirst(s, ";");
    if IsEntity(s) {
      assert s[end..][0] == ';';
      if s[2] == 'x' {
        assert Hexadecimals(s[3..end]) && "&#x" + s[3..end] + ";" <= s;
      } else {
        assert Decimals(s[2..end]) && "&#" + s[2..end] + ";" <= s;
      }
    }
    forall d | Decimals(d) && "&#" + d + ";" <= s ensures IsEntity(s) {
      assert d[0] in d && ';' !in "&#" + d;
      SemicolonAfter(s, "&#" + d);
      assert s[2..end] == d && s[2] == d[0];
    }
    forall h | Hexadecimals(h) && "&#x" + h + ";" <= s ensures IsEntity(s) {
      assert ';' !in "&#x" + h;
      SemicolonAfter(s, "&#x" + h);
      assert s[3..end] == h && s[2] == 'x';
    }
  }

  /** What counts as an entity: one of five names, or the decimal or hexadecimal number of a
      character. */
  lemma EntityIff(s: string)
    requires s != "" && s[0] == '&'
    ensures IsEntity(s) <==> || "&amp;" <= s || "&lt;" <= s || "&gt;" <= s || "&quot;" <= s || "&apos;" <= s
                             || (exists d :: Decimals(d) && "&#" + d + ";" <= s)
                             || (exists h :: Hexadecimals(h) && "&#x" + h + ";" <= s)
  {
    if |s| > 1 && s[1] == '#' {
      NumericIff(s);
    } else {
      forall d | Decimals(d) ensures !("&#" + d + ";" <= s) { SecondDiffers("&#" + d + ";", s); }
      forall h | Hexadecimals(h) ensures !("&#x" + h + ";" <= s) { SecondDiffers("&#x" + h + ";", s); }
      NamedIff(s);
    }
  }

  lemma SecondDiffers(entity: string, s: string)
    requires |entity| > 1 && entity[1] == '#' && !(|s| > 1 && s[1] == '#')
    ensures !(entity <= s)
  {
  }

  lemma NamedIff(s: string)
    requires s != "" && s[0] == '&' && !(|s| > 1 && s[1] == '#')
    ensures IsEntity(s) <==> "&amp;" <= s || "&lt;" <= s || "&gt;" <= s || "&quot;" <= s || "&apos;" <= s
  {
    assert NAMED[0] == "&amp;" && NAMED[1] == "&lt;" && NAMED[2] == "&gt;" && NAMED[3] == "&quot;";
    assert NAMED[4] == "&apos;";
    forall i | 0 <= i < |NAMED| && NAMED[i] <= s ensures Find(s, ";") >= 0 {
      NamedEndsAtSemicolon(s, i);
    }
  }

  // ---------- line breaks ----------

  lemma ReplaceAllBehind(needle: string, repl: string, x: string, y: string)
    requires needle != "" && needle[0] !in x
    ensures ReplaceAll(needle, repl, x + needle + y) == x + repl + ReplaceAll(needle, repl, y)
  {
    assert x + needle + y == x + (needle + y);
    ReplaceAllSkips(needle, repl, x, needle + y);
    ReplaceAllHit(needle, repl, y);
    assert x + (repl + ReplaceAll(needle, repl, y)) == x + repl + ReplaceAll(needle, repl, y);
  }

  lemma OtherTagSkipped(needle: string, repl: string, x: string, tag: string, y: string)
    requires needle != "" && tag != "" && needle[0] !in x && needle[0] == tag[0]
    requires needle[0] !in tag[1..] && needle[0] !in y && !(needle <= tag + y)
    ensures ReplaceAll(needle, repl, x + tag + y) == x + tag + y
  {
    assert x + tag + y == x + (tag + y);
    ReplaceAllSkips(needle, repl, x, tag + y);
    CodeSkipped(needle, repl, tag, y);
    ReplaceAllIdle(needle, repl, y);
  }

  /** Each of the three spellings of a line break becomes a newline. */
  lemma BreaksBecomeNewlines(x: string, y: string)
    requires NoMarkup(x) && NoMarkup(y)
    ensures Br2Nl(x + "<br>" + y) == x + "\n" + y
    ensures Br2Nl(x + "<br/>" + y) == x + "\n" + y
    ensures Br2Nl(x + "<br />" + y) == x + "\n" + y
  {
    var r := x + "\n" + y;
    ReplaceAllBehind("<br>", "\n", x, y);
    ReplaceAllIdle("<br>", "\n", y);
    ReplaceAllIdle("<br/>", "\n", r);
    ReplaceAllIdle("<br />", "\n", r);
    assert ("<br/>" + y)[3] == '/' && ("<br />" + y)[3] == ' ';
    OtherTagSkipped("<br>", "\n", x, "<br/>", y);
    ReplaceAllBehind("<br/>", "\n", x, y);
    ReplaceAllIdle("<br/>", "\n", y);
    OtherTagSkipped("<br>", "\n", x, "<br />", y);
    OtherTagSkipped("<br/>", "\n", x, "<br />", y);
    ReplaceAllBehind("<br />", "\n", x, y);
    ReplaceAllIdle("<br />", "\n", y);
  }

  lemma FullModeBreaks(ignoreNewline: bool, x: string, y: string, tag: string)
    requires NoMarkup(x) && NoMarkup(y) && tag in {"<br>", "<br/>", "<br />"}
    ensures Transform(Full, ignoreNewline, x + tag + y) == Lines(x + "\n" + y, ignoreNewline)
  {
    var s, r := x + tag + y, x + "\n" + y;
    assert '&' !in s && NoMarkup(r);
    EscapeSkips(s, "");
    assert s + "" == s;
    BreaksBecomeNewlines(x, y);
    NoMarkupIsKept(r);
    NewlinesAreLines(r, ignoreNewline);
  }

  // ---------- links ----------

  /** The text of a link as it is listed with its URL: without brackets, newlines spelled out. */
  function Listed(text: string): string {
    if text == "" then ""
    else (if text[0] == '[' || text[0] == ']' then "" else if text[0] == '\n' then "\\n" else [text[0]])
         + Listed(text[1..])
  }

  function Without(c: char, s: string): string {
    if s == "" then "" else (if s[0] == c then "" else [s[0]]) + Without(c, s[1..])
  }

  lemma {:induction false} DroppedIsWithout(c: char, s: string)
    ensures ReplaceAll([c], "", s) == Without(c, s)
  {
    if s != "" {
      assert s[0] == c <==> [c] <= s;
      assert s[|[c]|..] == s[1..];
      DroppedIsWithout(c, s[1..]);
    }
  }

  lemma WithoutFirst(c: char, first: char, rest: string)
    ensures Without(c, [first] + rest) == (if first == c then "" else [first]) + Without(c, rest)
  {
    assert ([first] + rest)[1..] == rest;
  }

  lemma BracketsGone(s: string)
    requires s != ""
    ensures Without('[', Without(']', s))
            == (if s[0] == '[' || s[0] == ']' then "" else [s[0]]) + Without('[', Without(']', s[1..]))
  {
    var w := Without(']', s[1..]);
    if s[0] == ']' {
      assert Without(']', s) == w;
    } else {
      assert Without(']', s) == [s[0]] + w;
      WithoutFirst('[', s[0], w);
    }
  }

  lemma {:induction false} SpelledOut(s: string)
    ensures ReplaceAll("\n", "\\n", Without('[', Without(']', s))) == Listed(s)
  {
    if s != "" {
      var t := Without('[', Without(']', s[1..]));
      SpelledOut(s[1..]);
      BracketsGone(s);
      if s[0] == '\n' {
        ReplaceAllHit("\n", "\\n", t);
      } else if s[0] != '[' && s[0] != ']' {
        ReplaceAllSkips("\n", "\\n", [s[0]], t);
      } else {
        assert "" + t == t;
      }
    }
  }

  lemma LabelIsListed(text: string)
    ensures UrlLabel(text) == Listed(text)
  {
    DroppedIsWithout(']', text);
    DroppedIsWithout('[', Without(']', text));
    SpelledOut(text);
  }

  lemma Appended(urls: string, line: string)
    requires line != ""
    ensures Append(urls, line, "\n") == (if urls == "" then "" else urls + "\n") + line
  {
  }

  /** A URL is listed on a line of its own, behind the text it belongs to. */
  lemma UrlIsListed(urls: string, text: string, url: string)
    ensures AddUrl(urls, text, Some(url))
            == (if urls == "" then "" else urls + "\n") + ("[" + Listed(text) + "] " + url)
    ensures AddUrl(urls, text, None) == urls
  {
    LabelIsListed(text);
    assert ("[" + Listed(text) + "] " + url)[0] == '[';
    Appended(urls, "[" + Listed(text) + "] " + url);
  }

  /** A whole link: no link tag begins before it, its tag ends at the first '>', and its text at the
      first closing tag. */
  ghost predicate IsLink(x: string, attributes: string, text: string) {
    && Find(x, "<a") < 0
    && '>' !in attributes && Find(attributes + ">", "</a>") < 0
    && Find(text, "</a>") < 0
  }

  function LinkTag(attributes: string, text: string): string {
    "<a" + attributes + ">" + text + "</a>"
  }

  lemma TagEnds(open: string, attributes: string, rest: string)
    requires '>' !in open && '>' !in attributes
    ensures Find(open + attributes + ">" + rest, ">") == |open| + |attributes|
  {
    CharAbsent(open + attributes, ">");
    FindBehind(open + attributes, ">" + rest, ">");
    assert open + attributes + ">" + rest == (open + attributes) + (">" + rest);
  }

  lemma OpenHasNoCloser(attributes: string)
    requires Find(attributes + ">", "</a>") < 0
    ensures Find("<a" + (attributes + ">"), "</a>") < 0
  {
    var rest := attributes + ">";
    var s := "<a" + rest;
    FindIsFirst(rest, "</a>");
    MatchedChar(s, "</a>", 0, 1);
    MatchedChar(s, "</a>", 1, 0);
    forall j | 2 <= j < |s| ensures !("</a>" <= s[j..]) { assert s[j..] == rest[j - 2..]; }
    NotFound(s, "</a>");
  }

  lemma TextCloses(open: string, text: string, y: string)
    requires open != "" && open[|open| - 1] == '>' && Find(open, "</a>") < 0 && Find(text, "</a>") < 0
    ensures Find(open + text + ("</a>" + y), "</a>") == |open| + |text|
  {
    CloserLetters("</a>");
    FindNowhere(open, text, "</a>");
    FindBehind(open + text, "</a>" + y, "</a>");
  }

  lemma CloserLetters(closer: string)
    requires closer == "</a>"
    ensures '>' !in closer[..|closer| - 1] && closer[0] !in closer[1..]
  {
    assert closer[..3] == "</a" && closer[1..] == "/a>";
  }

  lemma LinkShape(attributes: string, text: string, y: string)
    ensures LinkTag(attributes, text) + y == "<a" + (attributes + ">") + text + ("</a>" + y)
    ensures LinkTag(attributes, text) + y == "<a" + attributes + ">" + (text + ("</a>" + y))
  {
    assert "<a" + attributes + ">" == "<a" + (attributes + ">");
  }

  lemma LinkCloses(attributes: string, text: string, y: string)
    requires '>' !in attributes && Find(attributes + ">", "</a>") < 0 && Find(text, "</a>") < 0
    ensures Find(LinkTag(attributes, text) + y, "</a>") == 2 + |attributes| + 1 + |text|
  {
    OpenHasNoCloser(attributes);
    TextCloses("<a" + (attributes + ">"), text, y);
    LinkShape(attributes, text, y);
  }

  lemma TextStands(open: string, text: string, rest: string)
    ensures (open + (text + rest))[|open|..|open| + |text|] == text
  {
  }

  lemma WholeFound(x: string, t: string, end: nat, length: nat, text: string)
    requires Find(x + t, "<a") == |x| && Find(t, ">") == end && Find(t, "</a>") == end + 1 + length
    requires end + 1 + length <= |t| && t[end + 1..end + 1 + length] == text
    ensures FindLink(x + t) == Whole(|x|, end + 1 + length + 4, text, LinkUrl(t, end))
  {
    assert (x + t)[|x|..] == t;
  }

  lemma LinkLength(attributes: string, text: string)
    ensures |LinkTag(attributes, text)| == 2 + |attributes| + 1 + |text| + 4
  {
  }

  lemma LinkParts(attributes: string, text: string, y: string)
    requires '>' !in attributes && Find(attributes + ">", "</a>") < 0 && Find(text, "</a>") < 0
    ensures var t, end := LinkTag(attributes, text) + y, 2 + |attributes|;
            && "<a" <= t && Find(t, ">") == end && Find(t, "</a>") == end + 1 + |text|
            && end + 1 + |text| <= |t| && t[end + 1..end + 1 + |text|] == text
  {
    LinkShape(attributes, text, y);
    TagEnds("<a", attributes, text + ("</a>" + y));
    LinkCloses(attributes, text, y);
    TextStands("<a" + attributes + ">", text, "</a>" + y);
  }

  /** One turn finds the link and its text. */
  lemma LinkIsFound(x: string, attributes: string, text: string, y: string)
    requires IsLink(x, attributes, text)
    ensures var t := LinkTag(attributes, text) + y;
            FindLink(x + t) == Whole(|x|, |LinkTag(attributes, text)|, text, LinkUrl(t, 2 + |attributes|))
  {
    var t := LinkTag(attributes, text) + y;
    LinkParts(attributes, text, y);
    LinkLength(attributes, text);
    FindBehind(x, t, "<a");
    WholeFound(x, t, 2 + |attributes|, |text|, text);
  }

  /** A link is shown as its text, and its URL is collected with it. */
  lemma LinkIsItsText(x: string, attributes: string, text: string, y: string, urls: string)
    requires IsLink(x, attributes, text)
    ensures var url := LinkUrl(LinkTag(attributes, text) + y, 2 + |attributes|);
            StripA(x + LinkTag(attributes, text) + y, urls) == StripA(x + text + y, AddUrl(urls, text, url))
  {
    var link := LinkTag(attributes, text);
    LinkIsFound(x, attributes, text, y);
    assert x + link + y == x + (link + y);
    assert (x + link + y)[|x| + |link|..] == y && (x + link + y)[..|x|] == x;
    assert ReplaceAt(x + link + y, |x|, |link|, text) == x + text + y;
  }

  /** A link tag that does not end takes the rest of the text with it, and no URL. */
  lemma UnendedLink(x: string, rest: string, urls: string)
    requires Find(x, "<a") < 0 && '>' !in rest
    ensures StripA(x + ("<a" + rest), urls) == (x, urls, false)
  {
    var t := "<a" + rest;
    FindBehind(x, t, "<a");
    CharAbsent(t, ">");
    assert (x + t)[|x|..] == t && (x + t)[..|x|] == x;
  }

  lemma NoClosingTag(s: string)
    requires '>' !in s
    ensures Find(s, "</a>") < 0
  {
    forall j | 0 <= j < |s| ensures !("</a>" <= s[j..]) {
      MatchedChar(s, "</a>", j, 3);
    }
    NotFound(s, "</a>");
  }

  lemma CrossedTag(open: string, y: string)
    requires '>' !in open
    ensures var t := open + ("</a>" + y); Find(t, ">") == |open| + 3 && Find(t, "</a>") == |open|
  {
    CharAbsent(open + "</a", ">");
    FindBehind(open + "</a", ">" + y, ">");
    assert open + ("</a>" + y) == (open + "</a") + (">" + y);
    NoClosingTag(open);
    FindBehind(open, "</a>" + y, "</a>");
  }

  lemma CrossedTurn(x: string, t: string, close: nat, urls: string)
    requires Find(x + t, "<a") == |x| && Find(t, ">") > close && Find(t, "</a>") == close
    ensures close + 4 <= |t| && StripA(x + t, urls) == (x + t[close + 4..], urls, true)
  {
    assert (x + t)[|x|..] == t && (x + t)[..|x|] == x && (x + t)[|x| + close + 4..] == t[close + 4..];
    assert FindLink(x + t) == Crossed(|x|, close + 4);
    assert ReplaceAt(x + t, |x|, close + 4, "") == x + t[close + 4..];
  }

  lemma TailStands(front: string, name: string, tail: string)
    ensures (front + (name + tail))[|front| + |name|..] == tail
  {
  }

  lemma OpensLink(attributes: string, rest: string)
    requires '>' !in attributes
    ensures '>' !in "<a" + attributes && "<a" <= ("<a" + attributes) + rest
  {
  }

  /** A link whose closing tag comes before the end of its opening one is dropped as a whole, and no
      further link is looked at. */
  lemma CrossedLink(x: string, attributes: string, y: string, urls: string)
    requires Find(x, "<a") < 0 && '>' !in attributes
    ensures StripA(x + ("<a" + attributes + ("</a>" + y)), urls) == (x + y, urls, true)
  {
    var open := "<a" + attributes;
    var t := open + ("</a>" + y);
    OpensLink(attributes, "</a>" + y);
    FindBehind(x, t, "<a");
    CrossedTag(open, y);
    TailStands(open, "</a>", y);
    CrossedTurn(x, t, |open|, urls);
  }

  lemma NameFound(front: string, name: string, tail: string)
    requires name != "" && name[0] !in name[1..] && Find(front, name) < 0
    ensures Find(front + (name + tail), name) == |front|
  {
    FindBehind(front, name + tail, name);
  }

  lemma QuoteFound(value: string, rest: string)
    requires '"' !in value && rest != "" && rest[0] == '"'
    ensures Find(value + rest, "\"") == |value|
  {
    CharAbsent(value, "\"");
    FindBehind(value, rest, "\"");
  }

  lemma NameAt(t: string, front: string, name: string, tail: string)
    requires t == front + (name + tail) && name != "" && name[0] !in name[1..] && Find(front, name) < 0
    ensures Find(t, name) == |front| && |front| + |name| <= |t| && t[|front| + |name|..] == tail
  {
    NameFound(front, name, tail);
    TailStands(front, name, tail);
  }

  lemma ValueAt(t: string, start: nat, value: string, rest: string)
    requires start <= |t| && t[start..] == value + rest && '"' !in value && rest != "" && rest[0] == '"'
    ensures start + |value| < |t| && ValueEnd(t, start) == start + |value| && t[start..start + |value|] == value
  {
    QuoteFound(value, rest);
    assert t[start..start + |value|] == t[start..][..|value|];
  }

  lemma UrlOfHref(t: string, end: nat, start: nat, quote: nat)
    requires 6 <= start <= quote < end < |t|
    requires Find(t, "href=\"") == start - 6 && ValueEnd(t, start) == quote
    ensures LinkUrl(t, end) == Some(t[start..quote])
  {
  }

  lemma HrefShape(front: string, url: string, after: string, rest: string)
    ensures front + ("href=\"" + url + "\"" + after) + rest == front + ("href=\"" + (url + ("\"" + (after + rest))))
  {
    assert "href=\"" + url + "\"" + after == "href=\"" + (url + ("\"" + after));
    assert (url + ("\"" + after)) + rest == url + ("\"" + (after + rest));
  }

  /** The URL of a link is the value of its first href, closed inside the tag. */
  lemma LinkUrlIsHref(before: string, url: string, after: string, rest: string)
    requires Find("<a" + before, "href=\"") < 0 && '"' !in url
    ensures var tag := "<a" + before + ("href=\"" + url + "\"" + after);
            LinkUrl(tag + (">" + rest), |tag|) == Some(url)
  {
    var front := "<a" + before;
    var tag := front + ("href=\"" + url + "\"" + after);
    var t := tag + (">" + rest);
    var closed := "\"" + (after + (">" + rest));
    HrefShape(front, url, after, ">" + rest);
    NameAt(t, front, "href=\"", url + closed);
    ValueAt(t, |front| + 6, url, closed);
    UrlOfHref(t, |tag|, |front| + 6, |front| + 6 + |url|);
  }

  /** Without href in the tag no URL is collected. */
  lemma NoHrefNoUrl(attributes: string, rest: string)
    requires '>' !in attributes && Find("<a" + attributes + ">", "href=\"") < 0
    ensures LinkUrl("<a" + attributes + ">" + rest, 2 + |attributes|) == None
  {
    var tag := "<a" + attributes + ">";
    var t := tag + rest;
    assert "href=\""[..5] == "href=" && tag[|tag| - 1] == '>';
    NoMatchAcross(tag, rest, "href=\"");
    FindIsFirst(t, "href=\"");
  }

  lemma AmpersandsApart(x: string, y: string)
    requires '&' !in x && '&' !in y
    ensures Escape(x + y) == x + y
  {
    EscapeSkips(x, y);
    EscapeSkips(y, "");
    assert y + "" == y;
  }

  lemma BrIsNoLink(attributes: string, x: string, text: string, y: string)
    requires NoMarkup(x) && NoMarkup(attributes) && NoMarkup(text) && NoMarkup(y)
    ensures Find(x + LinkTag(attributes, text) + y, "<br") < 0
  {
    var s, open := x + LinkTag(attributes, text) + y, |x|;
    var close := |x| + 2 + |attributes| + 1 + |text|;
    assert s[open + 1] == 'a' && s[close + 1] == '/';
    forall j | 0 <= j < |s| ensures !("<br" <= s[j..]) {
      assert s[j] == '<' ==> j == open || j == close;
      MatchedChar(s, "<br", j, 0);
      MatchedChar(s, "<br", j, 1);
    }
    NotFound(s, "<br");
  }

  /** The whole of FULL mode on a text with one link: the link is its text. */
  lemma FullModeLinks(ignoreNewline: bool, x: string, attributes: string, text: string, y: string)
    requires NoMarkup(x) && NoMarkup(attributes) && NoMarkup(text) && NoMarkup(y)
    ensures Transform(Full, ignoreNewline, x + LinkTag(attributes, text) + y) == Lines(x + text + y, ignoreNewline)
  {
    var s, r := x + LinkTag(attributes, text) + y, x + text + y;
    assert '&' !in s && NoMarkup(r);
    AmpersandsApart(s, "");
    assert s + "" == s;
    BrIsNoLink(attributes, x, text, y);
    NoBreaksToTurn(s);
    CharAbsent(x, "<a");
    CharAbsent(attributes + ">", "</a>");
    CharAbsent(text, "</a>");
    LinkIsItsText(x, attributes, text, y, "");
    NoMarkupIsKept(r);
    NewlinesAreLines(r, ignoreNewline);
  }

  // ---------- STRIP mode ----------

  lemma {:induction false} OutsidePlain(s: string, rest: string)
    requires '<' !in s && '>' !in s
    ensures Outside(s + rest, '<', '>', 0) == s + Outside(rest, '<', '>', 0)
    ensures DepthAfter(s + rest, '<', '>', 0) == DepthAfter(rest, '<', '>', 0)
  {
    if s == "" {
      assert s + rest == rest;
    } else {
      assert (s + rest)[0] == s[0] && (s + rest)[1..] == s[1..] + rest;
      OutsidePlain(s[1..], rest);
    }
  }

  lemma {:induction false} InsideTag(s: string, rest: string)
    requires '<' !in s && '>' !in s
    ensures Outside(s + ">" + rest, '<', '>', 1) == Outside(rest, '<', '>', 0)
    ensures DepthAfter(s + ">" + rest, '<', '>', 1) == DepthAfter(rest, '<', '>', 0)
  {
    if s == "" {
      assert s + ">" + rest == ">" + rest && (">" + rest)[1..] == rest;
    } else {
      assert (s + ">" + rest)[0] == s[0] && (s + ">" + rest)[1..] == s[1..] + ">" + rest;
      InsideTag(s[1..], rest);
    }
  }

  /** A tag is dropped, and what is around it stays. */
  lemma TagIsDropped(x: string, tag: string, y: string)
    requires NoMarkup(x) && NoMarkup(tag) && NoMarkup(y)
    ensures StripDelimited(x + ("<" + (tag + ">" + y)), '<', '>') == x + y
  {
    var inner := tag + ">" + y;
    var s := x + ("<" + inner);
    OutsidePlain(x, "<" + inner);
    assert ("<" + inner)[1..] == inner;
    InsideTag(tag, y);
    OutsidePlain(y, "");
    assert y + "" == y;
    StripIsRightIff(s, '<', '>');
  }

  lemma UnquoteIdle(s: string)
    requires '&' !in s
    ensures Unquote(s) == s
  {
    ReplaceAllIdle("&quot;", "\"", s);
    ReplaceAllIdle("&apos;", "'", s);
    ReplaceAllIdle("&lt;", "<", s);
    ReplaceAllIdle("&gt;", ">", s);
    ReplaceAllIdle("&amp;", "&", s);
  }

  /** STRIP mode drops a tag that is no line break, and shows the rest as text without markup. */
  lemma StripModeDropsTags(ignoreNewline: bool, x: string, tag: string, y: string)
    requires NoMarkup(x) && NoMarkup(tag) && NoMarkup(y) && !("br" <= tag)
    ensures Transform(StripAll, ignoreNewline, x + ("<" + (tag + ">" + y))) == ShownAll(x + y, ignoreNewline)
  {
    var s := x + ("<" + (tag + ">" + y));
    forall j | 0 <= j < |s| ensures !("<br" <= s[j..]) {
      assert s[j] == '<' ==> j == |x|;
      MatchedChar(s, "<br", j, 0);
      TagNotBr(x, tag, y);
    }
    NotFound(s, "<br");
    NoBreaksToTurn(s);
    TagIsDropped(x, tag, y);
    UnquoteIdle(x + y);
    NoMarkupIsPerCharacter(ignoreNewline, x + y);
  }

  lemma TagNotBr(x: string, tag: string, y: string)
    requires NoMarkup(tag) && !("br" <= tag)
    ensures var s := x + ("<" + (tag + ">" + y)); !("<br" <= s[|x|..])
  {
    var s := x + ("<" + (tag + ">" + y));
    assert s[|x|..] == "<" + (tag + ">" + y);
    MatchedChar(s, "<br", |x|, 1);
    MatchedChar(s, "<br", |x|, 2);
    assert s[|x| + 1] == (tag + ">")[0];
    assert |tag| > 0 ==> s[|x| + 2] == (tag + ">")[1];
    assert |tag| > 1 && tag[0] == 'b' && tag[1] == 'r' ==> "br" <= tag;
  }

  /** It turns line breaks into newlines. */
  lemma StripModeBreaks(ignoreNewline: bool, x: string, y: string, tag: string)
    requires NoMarkup(x) && NoMarkup(y) && tag in {"<br>", "<br/>", "<br />"}
    ensures Transform(StripAll, ignoreNewline, x + tag + y) == ShownAll(x + "\n" + y, ignoreNewline)
  {
    var r := x + "\n" + y;
    BreaksBecomeNewlines(x, y);
    StripIdle(r, '<', '>');
    UnquoteIdle(r);
    NoMarkupIsPerCharacter(ignoreNewline, r);
  }

  /** What is quoted already is shown as it would be without markup. */
  lemma StripModeKeepsQuoted(ignoreNewline: bool, s: string)
    ensures Transform(StripAll, ignoreNewline, ShownAll(s, false)) == ShownAll(s, ignoreNewline)
  {
    NoMarkupIsPerCharacter(false, s);
    NoMarkupIsPerCharacter(ignoreNewline, s);
    StripKeepsQuoted(s);
  }
}
