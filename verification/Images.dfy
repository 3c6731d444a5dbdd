/** What FULL mode makes of images: which text an image is shown as, and which URL it provides
    (markup_strip_img). */
module Images {
  import opened Notifications
  import opened Strings
  import opened TextSearch
  import opened Markup
  import opened Links
  import opened FullMarkup

  lemma ImageTurn(s: string, k: nat, end: nat, texts: (Option<string>, Option<string>), urls: string)
    requires Find(s, "<img") == k && Find(s[k..], ">") == end && texts == ImageTexts(s[k..], end)
    ensures StripImg(s, urls)
            == StripImg(ReplaceAt(s, k, end + 1, ImageLabel(texts.0)), AddUrl(urls, ImageLabel(texts.0), texts.1))
  {
    ImageStepCloses(s, k, end);
  }

  /** An image tag that does not end takes the rest of the text with it. */
  lemma UnendedImage(x: string, rest: string, urls: string)
    requires Find(x, "<img") < 0 && '>' !in rest
    ensures StripImg(x + ("<img" + rest), urls) == (x, urls)
  {
    var t := "<img" + rest;
    FindBehind(x, t, "<img");
    CharAbsent(t, ">");
    assert (x + t)[|x|..] == t && (x + t)[..|x|] == x;
  }

  lemma Spliced(x: string, tag: string, y: string, shown: string)
    ensures (x + tag + y)[|x|..] == tag + y && x + tag + y == x + (tag + y)
    ensures ReplaceAt(x + tag + y, |x|, |tag|, shown) == x + shown + y
  {
    assert (x + tag + y)[..|x|] == x && (x + tag + y)[|x| + |tag|..] == y;
  }

  /** An image is shown as its label, and its URL is collected with it. */
  lemma ImageIsItsLabel(x: string, attributes: string, y: string, urls: string)
    requires Find(x, "<img") < 0 && '>' !in attributes
    ensures var (alt, src) := ImageTexts("<img" + attributes + ">" + y, 4 + |attributes|);
            var shown := if alt.Some? then alt.value else "[image]";
            StripImg(x + ("<img" + attributes + ">") + y, urls) == StripImg(x + shown + y, AddUrl(urls, shown, src))
  {
    var tag := "<img" + attributes + ">";
    var texts := ImageTexts(tag + y, 4 + |attributes|);
    TagEnds("<img", attributes, y);
    FindBehind(x, tag + y, "<img");
    Spliced(x, tag, y, ImageLabel(texts.0));
    ImageTurn(x + tag + y, |x|, 4 + |attributes|, texts, urls);
  }

  /** `value` stands in the tag as the value of the attribute, at `at`, and closed before its end. */
  ghost predicate IsValueAt(t: string, end: nat, attribute: string, value: string, at: nat) {
    && at + |attribute| + |value| < end <= |t|
    && t[at..at + |attribute|] == attribute
    && t[at + |attribute|..at + |attribute| + |value|] == value
    && t[at + |attribute| + |value|] == '"'
    && '"' !in value
  }

  lemma MatchStands(t: string, needle: string)
    requires needle != "" && Find(t, needle) >= 0
    ensures var k := Find(t, needle); t[k..k + |needle|] == needle
  {
    var k := Find(t, needle);
    FindIsFirst(t, needle);
    assert t[k..][..|needle|] == t[k..k + |needle|];
  }

  lemma QuoteStands(u: string)
    requires Find(u, "\"") >= 0
    ensures var k := Find(u, "\""); u[k] == '"' && '"' !in u[..k]
  {
    var k := Find(u, "\"");
    FindIsFirst(u, "\"");
    MatchedChar(u, "\"", k, 0);
    forall j | 0 <= j < k ensures u[..k][j] != '"' {
      assert "\"" <= u[j..] <==> u[j] == '"';
    }
  }

  lemma ValueIsClosed(t: string, end: nat, attribute: string)
    requires end <= |t| && attribute != ""
    requires var e := ValueEnd(t, ValueStart(t, attribute)); 0 <= e < end
    ensures var s := ValueStart(t, attribute);
            var e := ValueEnd(t, s);
            |attribute| <= s <= e && IsValueAt(t, end, attribute, t[s..e], s - |attribute|)
  {
    var s := ValueStart(t, attribute);
    var e, u := ValueEnd(t, s), t[s..];
    MatchStands(t, attribute);
    QuoteStands(u);
    assert t[s..e] == u[..e - s] && t[e] == u[e - s];
  }

  /** Whatever an image provides is a value inside its tag, and when it provides both, neither value
      reaches into the other attribute. */
  lemma ImageTextsAreValues(t: string, end: nat)
    requires end < |t|
    ensures var (alt, src) := ImageTexts(t, end);
            && (alt.Some? ==> exists a :: IsValueAt(t, end, "alt=\"", alt.value, a))
            && (src.Some? ==> exists s :: IsValueAt(t, end, "src=\"", src.value, s))
            && (alt.Some? && src.Some? ==>
                  exists a: nat, s: nat :: && IsValueAt(t, end, "alt=\"", alt.value, a)
                                           && IsValueAt(t, end, "src=\"", src.value, s)
                                           && (a + 5 + |alt.value| < s || s + 5 + |src.value| < a))
  {
    var altS, srcS := ValueStart(t, "alt=\""), ValueStart(t, "src=\"");
    var altE, srcE := ValueEnd(t, altS), ValueEnd(t, srcS);
    if 0 <= altE < end { ValueIsClosed(t, end, "alt=\""); }
    if 0 <= srcE < end { ValueIsClosed(t, end, "src=\""); }
  }

  /** A name as it stands in front of its value. */
  predicate IsAttribute(name: string) {
    |name| == 5 && name[3] == '=' && name[4] == '"' && name[0] !in name[1..]
  }

  lemma NoQuoteNoAttribute(s: string, name: string)
    requires IsAttribute(name) && '"' !in s
    ensures Find(s, name) < 0
  {
    forall j | 0 <= j < |s| ensures !(name <= s[j..]) {
      MatchedChar(s, name, j, 4);
    }
    NotFound(s, name);
  }

  lemma ValueFound(front: string, name: string, value: string, rest: string)
    requires IsAttribute(name) && Find(front, name) < 0 && '"' !in value && rest != "" && rest[0] == '"'
    ensures var t := front + (name + (value + rest));
            && ValueStart(t, name) == |front| + 5 && ValueEnd(t, |front| + 5) == |front| + 5 + |value|
            && t[|front| + 5..|front| + 5 + |value|] == value
  {
    NameAt(front + (name + (value + rest)), front, name, value + rest);
    ValueAt(front + (name + (value + rest)), |front| + 5, value, rest);
  }

  /** An attribute begins at no quote of `s`: the first is preceded by another name, and the second
      by no equals sign. */
  lemma OtherAttribute(s: string, open: nat, close: nat, other: char, name: string)
    requires IsAttribute(name) && 4 <= open < close < |s| && s[open - 4] == other && other != name[0]
    requires s[close - 1] != '=' && forall j | 0 <= j < |s| && s[j] == '"' :: j == open || j == close
    ensures Find(s, name) < 0
  {
    forall j | 0 <= j < |s| ensures !(name <= s[j..]) {
      MatchedChar(s, name, j, 0);
      MatchedChar(s, name, j, 3);
      MatchedChar(s, name, j, 4);
    }
    NotFound(s, name);
  }

  lemma QuotesOf(front: string, name: string, value: string, between: string)
    requires IsAttribute(name) && '"' !in front && '"' !in value && '"' !in between
    requires '"' !in name[..4] && (value != "" ==> value[|value| - 1] != '=')
    ensures var s, open := front + (name + (value + ("\"" + between))), |front| + 4;
            var close := open + 1 + |value|;
            && 4 <= open < close < |s| && s[open - 4] == name[0] && s[close - 1] != '='
            && forall j | 0 <= j < |s| && s[j] == '"' :: j == open || j == close
  {
    var tail := "\"" + between;
    var rest := value + tail;
    var s := front + (name + rest);
    assert forall j | |front| + 5 <= j < |s| :: s[j] == rest[j - |front| - 5];
    assert forall j | |front| <= j < |front| + 5 :: s[j] == name[j - |front|];
    assert forall j | 0 <= j < 4 :: name[..4][j] == name[j];
  }

  /** The value of an attribute, between its quotes. */
  function Attribute(name: string, value: string): string {
    name + value + "\""
  }

  lemma Regrouped(front: string, name: string, value: string, rest: string)
    ensures front + Attribute(name, value) + rest == front + (name + (value + ("\"" + rest)))
  {
    assert Attribute(name, value) == name + (value + "\"");
  }

  lemma Attached(front: string, first: string, u: string, b: string, more: string)
    ensures front + Attribute(first, u) + (b + more) == front + (first + (u + ("\"" + (b + more))))
    ensures front + Attribute(first, u) + (b + more) == front + (first + (u + ("\"" + b))) + more
  {
    Regrouped(front, first, u, b + more);
    Regrouped(front, first, u, b);
    assert front + Attribute(first, u) + (b + more) == front + Attribute(first, u) + b + more;
  }

  lemma SecondFound(front: string, first: string, u: string, b: string, second: string, v: string, rest: string)
    requires IsAttribute(first) && IsAttribute(second) && first[0] != second[0] && '"' !in first[..4]
    requires '"' !in front && '"' !in b && '"' !in u && '"' !in v && (u != "" ==> u[|u| - 1] != '=')
    ensures var until := front + (first + (u + ("\"" + b)));
            var t, j := until + (second + (v + ("\"" + rest))), |until| + 5;
            |until| == |front| + 6 + |u| + |b|
            && ValueStart(t, second) == j && ValueEnd(t, j) == j + |v| && t[j..j + |v|] == v
  {
    QuotesOf(front, first, u, b);
    OtherAttribute(front + (first + (u + ("\"" + b))), |front| + 4, |front| + 5 + |u|, first[0], second);
    ValueFound(front + (first + (u + ("\"" + b))), second, v, "\"" + rest);
  }

  function TwoAttributes(front: string, first: string, u: string, b: string, second: string, v: string, rest: string)
    : string
  {
    front + Attribute(first, u) + (b + (second + (v + ("\"" + rest))))
  }

  /** The tag has the value `u` at `i` for one attribute and `v` at `j` for the other. */
  ghost predicate Carries(t: string, first: string, i: nat, u: string, second: string, j: nat, v: string) {
    && i + |u| <= |t| && ValueStart(t, first) == i && ValueEnd(t, i) == i + |u| && t[i..i + |u|] == u
    && j + |v| <= |t| && ValueStart(t, second) == j && ValueEnd(t, j) == j + |v| && t[j..j + |v|] == v
  }

  lemma BothFound(front: string, first: string, u: string, b: string, second: string, v: string, rest: string)
    requires IsAttribute(first) && IsAttribute(second) && first[0] != second[0] && '"' !in first[..4]
    requires '"' !in front && '"' !in b && '"' !in u && '"' !in v && (u != "" ==> u[|u| - 1] != '=')
    ensures Carries(TwoAttributes(front, first, u, b, second, v, rest), first, |front| + 5, u, second,
                    |front| + 6 + |u| + |b| + 5, v)
  {
    var more := second + (v + ("\"" + rest));
    Attached(front, first, u, b, more);
    NoQuoteNoAttribute(front, first);
    ValueFound(front, first, u, "\"" + (b + more));
    SecondFound(front, first, u, b, second, v, rest);
  }

  lemma BothProvided(t: string, end: nat, i: nat, iEnd: nat, j: nat, jEnd: nat)
    requires i <= iEnd && iEnd + 6 <= j <= jEnd < end < |t|
    requires ValueEnd(t, i) == iEnd && ValueEnd(t, j) == jEnd
    ensures ValueStart(t, "src=\"") == i && ValueStart(t, "alt=\"") == j ==>
              ImageTexts(t, end) == (Some(t[j..jEnd]), Some(t[i..iEnd]))
    ensures ValueStart(t, "alt=\"") == i && ValueStart(t, "src=\"") == j ==>
              ImageTexts(t, end) == (Some(t[i..iEnd]), Some(t[j..jEnd]))
  {
  }

  lemma CarriesBoth(t: string, end: nat, first: string, i: nat, u: string, second: string, j: nat, v: string)
    requires (first == "src=\"" && second == "alt=\"") || (first == "alt=\"" && second == "src=\"")
    requires Carries(t, first, i, u, second, j, v) && i + |u| + 6 <= j && j + |v| < end < |t|
    ensures ImageTexts(t, end) == if first == "src=\"" then (Some(v), Some(u)) else (Some(u), Some(v))
  {
    BothProvided(t, end, i, i + |u|, j, j + |v|);
  }

  lemma BothLength(front: string, first: string, u: string, b: string, second: string, v: string, rest: string)
    requires |first| == 5 && |second| == 5
    ensures |TwoAttributes(front, first, u, b, second, v, rest)| - |rest| == |front| + 6 + |u| + |b| + 6 + |v|
  {
  }

  lemma NamesFit(first: string, second: string)
    requires (first == "src=\"" && second == "alt=\"") || (first == "alt=\"" && second == "src=\"")
    ensures IsAttribute(first) && IsAttribute(second) && first[0] != second[0] && '"' !in first[..4]
  {
  }

  lemma ImageInOrder(front: string, first: string, u: string, b: string, second: string, v: string, rest: string,
                     end: nat)
    requires (first == "src=\"" && second == "alt=\"") || (first == "alt=\"" && second == "src=\"")
    requires '"' !in front && '"' !in b && '"' !in u && '"' !in v && (u != "" ==> u[|u| - 1] != '=')
    requires |front| + 6 + |u| + |b| + 6 + |v| <= end < |TwoAttributes(front, first, u, b, second, v, rest)|
    ensures ImageTexts(TwoAttributes(front, first, u, b, second, v, rest), end)
            == if first == "src=\"" then (Some(v), Some(u)) else (Some(u), Some(v))
  {
    NamesFit(first, second);
    BothFound(front, first, u, b, second, v, rest);
    CarriesBoth(TwoAttributes(front, first, u, b, second, v, rest), end, first, |front| + 5, u, second,
                |front| + 6 + |u| + |b| + 5, v);
  }

  /** An image tag with a text and a source, in either order, provides both. */
  lemma ImageWithBoth(a: string, url: string, b: string, text: string, rest: string, end: nat)
    requires '"' !in a && '"' !in b && '"' !in url && '"' !in text
    requires (url != "" ==> url[|url| - 1] != '=') && (text != "" ==> text[|text| - 1] != '=')
    ensures var t := TwoAttributes("<img" + a, "src=\"", url, b, "alt=\"", text, rest);
            |t| - |rest| <= end < |t| ==> ImageTexts(t, end) == (Some(text), Some(url))
    ensures var t := TwoAttributes("<img" + a, "alt=\"", text, b, "src=\"", url, rest);
            |t| - |rest| <= end < |t| ==> ImageTexts(t, end) == (Some(text), Some(url))
  {
    var t := TwoAttributes("<img" + a, "src=\"", url, b, "alt=\"", text, rest);
    BothLength("<img" + a, "src=\"", url, b, "alt=\"", text, rest);
    if |t| - |rest| <= end < |t| {
      ImageInOrder("<img" + a, "src=\"", url, b, "alt=\"", text, rest, end);
    }
    var r := TwoAttributes("<img" + a, "alt=\"", text, b, "src=\"", url, rest);
    BothLength("<img" + a, "alt=\"", text, b, "src=\"", url, rest);
    if |r| - |rest| <= end < |r| {
      ImageInOrder("<img" + a, "alt=\"", text, b, "src=\"", url, rest, end);
    }
  }

  lemma OneProvided(t: string, end: nat, start: nat, quote: nat)
    requires 5 <= start <= quote < end < |t| && ValueEnd(t, start) == quote
    ensures ValueStart(t, "src=\"") == start && (Find(t, "alt=\"") < 0 || Find(t, "alt=\"") > end) ==>
              ImageTexts(t, end) == (None, Some(t[start..quote]))
    ensures ValueStart(t, "alt=\"") == start && (Find(t, "src=\"") < 0 || Find(t, "src=\"") > end) ==>
              ImageTexts(t, end) == (Some(t[start..quote]), None)
  {
  }

  function OneAttribute(front: string, first: string, value: string, rest: string): string {
    front + (first + (value + ("\"" + rest)))
  }

  lemma OneFound(front: string, first: string, value: string, rest: string)
    requires IsAttribute(first) && '"' !in front && '"' !in value
    ensures var t, i := OneAttribute(front, first, value, rest), |front| + 5;
            && |t| - |rest| == i + |value| + 1
            && ValueStart(t, first) == i && ValueEnd(t, i) == i + |value| && t[i..i + |value|] == value
  {
    NoQuoteNoAttribute(front, first);
    ValueFound(front, first, value, "\"" + rest);
  }

  /** With one of the two inside the tag it provides that one, whatever images follow; and with
      neither nothing. */
  lemma ImageWithOne(front: string, first: string, value: string, rest: string, other: string, end: nat)
    requires (first == "src=\"" && other == "alt=\"") || (first == "alt=\"" && other == "src=\"")
    requires '"' !in front && '"' !in value
    requires var t := OneAttribute(front, first, value, rest);
             (Find(t, other) < 0 || Find(t, other) > end) && |t| - |rest| <= end < |t|
    ensures ImageTexts(OneAttribute(front, first, value, rest), end)
            == if first == "src=\"" then (None, Some(value)) else (Some(value), None)
  {
    NamesFit(first, other);
    OneFound(front, first, value, rest);
    OneProvided(OneAttribute(front, first, value, rest), end, |front| + 5, |front| + 5 + |value|);
  }

  lemma ImageWithNone(t: string, end: nat)
    requires end < |t|
    requires (Find(t, "alt=\"") < 0 || Find(t, "alt=\"") > end) && (Find(t, "src=\"") < 0 || Find(t, "src=\"") > end)
    ensures ImageTexts(t, end) == (None, None)
  {
  }

  lemma OneTag(x: string, attributes: string, y: string)
    requires NoMarkup(x) && NoMarkup(attributes) && NoMarkup(y)
    ensures var s := x + ("<img" + attributes + ">") + y;
            Find(s, "<br") < 0 && Find(s, "<a") < 0 && '&' !in s
  {
    var s := x + ("<img" + attributes + ">") + y;
    assert s[|x| + 1] == 'i';
    forall j | 0 <= j < |s| ensures !("<br" <= s[j..]) && !("<a" <= s[j..]) {
      assert s[j] == '<' ==> j == |x|;
      MatchedChar(s, "<br", j, 0);
      MatchedChar(s, "<br", j, 1);
      MatchedChar(s, "<a", j, 0);
      MatchedChar(s, "<a", j, 1);
    }
    NotFound(s, "<br");
    NotFound(s, "<a");
  }

  lemma InsideTagChars(attributes: string, y: string, from: nat, to: nat)
    requires 4 <= from <= to <= 4 + |attributes|
    ensures var t := "<img" + attributes + ">" + y; t[from..to] == attributes[from - 4..to - 4]
  {
  }

  lemma ValueInside(t: string, end: nat, attribute: string, value: string, at: nat)
    requires |attribute| == 5 && IsValueAt(t, end, attribute, value, at)
    ensures at + 5 + |value| < end <= |t| && t[at + 5..at + 5 + |value|] == value
  {
  }

  lemma PartIsPlain(s: string, from: nat, to: nat)
    requires NoMarkup(s) && from <= to <= |s|
    ensures NoMarkup(s[from..to])
  {
  }

  lemma AltIsInside(t: string, end: nat, alt: string) returns (from: nat, to: nat)
    requires end < |t| && ImageTexts(t, end).0 == Some(alt)
    ensures 5 <= from <= to < end && t[from..to] == alt
  {
    ImageTextsAreValues(t, end);
    var a: nat :| IsValueAt(t, end, "alt=\"", alt, a);
    ValueInside(t, end, "alt=\"", alt, a);
    from, to := a + 5, a + 5 + |alt|;
  }

  lemma AltIsPlain(attributes: string, y: string, alt: string)
    requires NoMarkup(attributes) && ImageTexts("<img" + attributes + ">" + y, 4 + |attributes|).0 == Some(alt)
    ensures NoMarkup(alt)
  {
    var from, to := AltIsInside("<img" + attributes + ">" + y, 4 + |attributes|, alt);
    InsideTagChars(attributes, y, from, to);
    PartIsPlain(attributes, from - 4, to - 4);
  }

  /** What an image is shown as has no markup, where its tag has none. */
  lemma ImageTextIsPlain(attributes: string, y: string)
    requires NoMarkup(attributes)
    ensures NoMarkup(ImageLabel(ImageTexts("<img" + attributes + ">" + y, 4 + |attributes|).0))
  {
    var alt := ImageTexts("<img" + attributes + ">" + y, 4 + |attributes|).0;
    if alt.Some? { AltIsPlain(attributes, y, alt.value); }
  }

  lemma OnlyImagesLeft(ignoreNewline: bool, s: string)
    requires Find(s, "<br") < 0 && Find(s, "<a") < 0 && '&' !in s
    ensures Transform(Full, ignoreNewline, s) == NewlinesTo(ignoreNewline, StripImg(s, "").0)
  {
    AmpersandsApart(s, "");
    assert s + "" == s;
    NoBreaksToTurn(s);
  }

  lemma PlainAround(x: string, shown: string, y: string)
    requires NoMarkup(x) && NoMarkup(shown) && NoMarkup(y)
    ensures NoMarkup(x + shown + y) && forall urls :: StripImg(x + shown + y, urls) == (x + shown + y, urls)
  {
    NoMarkupIsKept(x + shown + y);
  }

  /** The whole of FULL mode on a text with one image: the image is the text it provides. */
  lemma FullModeImages(ignoreNewline: bool, x: string, attributes: string, y: string)
    requires NoMarkup(x) && NoMarkup(attributes) && NoMarkup(y)
    ensures var alt := ImageTexts("<img" + attributes + ">" + y, 4 + |attributes|).0;
            var shown := if alt.Some? then alt.value else "[image]";
            Transform(Full, ignoreNewline, x + ("<img" + attributes + ">") + y) == Lines(x + shown + y, ignoreNewline)
  {
    var shown := ImageLabel(ImageTexts("<img" + attributes + ">" + y, 4 + |attributes|).0);
    OneTag(x, attributes, y);
    OnlyImagesLeft(ignoreNewline, x + ("<img" + attributes + ">") + y);
    CharAbsent(x, "<img");
    ImageIsItsLabel(x, attributes, y, "");
    ImageTextIsPlain(attributes, y);
    PlainAround(x, shown, y);
    NewlinesAreLines(x + shown + y, ignoreNewline);
  }
}
