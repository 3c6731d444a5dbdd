/** What each specifier of a format string stands for, on the fields themselves
    (notification_format_message), and what text without markup is shown as. */
module Specifiers {
  import opened Strings
  import opened Markup
  import opened Links
  import opened Format

  // ---------- text without markup ----------

  /** A character as a text without markup shows it. */
  function Shown(c: char, ignoreNewline: bool): string {
    match c
    case '&' => "&amp;"
    case '<' => "&lt;"
    case '>' => "&gt;"
    case '"' => "&quot;"
    case '\'' => "&apos;"
    case '\n' => if ignoreNewline then " " else "\n"
    case _ => [c]
  }

  function ShownAll(s: string, ignoreNewline: bool): string {
    if s == "" then "" else Shown(s[0], ignoreNewline) + ShownAll(s[1..], ignoreNewline)
  }

  lemma CodeIsShown(c: char)
    ensures Code(SPECIAL, c) == Shown(c, false)
  {
  }

  lemma {:induction false} EncodedIsShown(s: string)
    ensures Encoded(SPECIAL, s) == ShownAll(s, false)
  {
    if s != "" {
      CodeIsShown(s[0]);
      EncodedIsShown(s[1..]);
    }
  }

  lemma NewlineFirst(c: char, rest: string)
    ensures ReplaceAll("\n", " ", Shown(c, false) + rest) == Shown(c, true) + ReplaceAll("\n", " ", rest)
  {
    if c == '\n' {
      ReplaceAllHit("\n", " ", rest);
    } else {
      ReplaceAllSkips("\n", " ", Shown(c, false), rest);
    }
  }

  lemma {:induction false} NewlinesShown(s: string)
    ensures ReplaceAll("\n", " ", ShownAll(s, false)) == ShownAll(s, true)
  {
    if s != "" {
      NewlinesShown(s[1..]);
      NewlineFirst(s[0], ShownAll(s[1..], false));
    }
  }

  /** Outside the body every character is shown for itself: the five that mean something to the
      renderer by their entities, and a newline as a space where newlines are ignored. */
  lemma NoMarkupIsPerCharacter(ignoreNewline: bool, s: string)
    ensures Transform(Mode.No, ignoreNewline, s) == ShownAll(s, ignoreNewline)
  {
    QuoteIsEncoding(s);
    EncodedIsShown(s);
    NewlinesShown(s);
  }

  /** None of the characters that are shown as something else. */
  predicate IsPlain(s: string) {
    forall c | c in s :: c !in {'&', '<', '>', '"', '\'', '\n'}
  }

  lemma {:induction false} PlainIsShown(s: string, ignoreNewline: bool)
    requires IsPlain(s)
    ensures ShownAll(s, ignoreNewline) == s
  {
    if s != "" {
      assert s[0] in s && forall c | c in s[1..] :: c in s;
      PlainIsShown(s[1..], ignoreNewline);
    }
  }

  lemma PlainIsKept(ignoreNewline: bool, s: string)
    requires IsPlain(s)
    ensures Transform(Mode.No, ignoreNewline, s) == s
  {
    NoMarkupIsPerCharacter(ignoreNewline, s);
    PlainIsShown(s, ignoreNewline);
  }

  // ---------- the text fields ----------

  /** The application name, the summary, the category, the stack tag, and the icon by its base
      name and as given, are shown without markup. */
  lemma TextSpecifiers(x: string, y: string, f: Fields)
    requires NoNul(f) && Complete(x)
    ensures Expand(x + "%a" + y, f) == Expand(x, f) + Transform(Mode.No, f.ignoreNewline, f.appname) + Expand(y, f)
    ensures Expand(x + "%s" + y, f) == Expand(x, f) + Transform(Mode.No, f.ignoreNewline, f.summary) + Expand(y, f)
    ensures Expand(x + "%c" + y, f) == Expand(x, f) + Transform(Mode.No, f.ignoreNewline, f.category) + Expand(y, f)
    ensures Expand(x + "%S" + y, f) == Expand(x, f) + Transform(Mode.No, f.ignoreNewline, f.stackTag) + Expand(y, f)
  {
    FieldStandsForItself(x, 'a', y, f);
    FieldStandsForItself(x, 's', y, f);
    FieldStandsForItself(x, 'c', y, f);
    FieldStandsForItself(x, 'S', y, f);
  }

  lemma IconBaseSpecifier(x: string, y: string, f: Fields)
    requires NoNul(f) && Complete(x)
    ensures Expand(x + "%I" + y, f) == Expand(x, f) + Transform(Mode.No, f.ignoreNewline, f.iconBase) + Expand(y, f)
  {
    FieldStandsForItself(x, 'I', y, f);
  }

  lemma IconNameSpecifier(x: string, y: string, f: Fields)
    requires NoNul(f) && Complete(x)
    ensures Expand(x + "%i" + y, f) == Expand(x, f) + Transform(Mode.No, f.ignoreNewline, f.iconName) + Expand(y, f)
  {
    FieldStandsForItself(x, 'i', y, f);
  }

  /** The body alone follows the markup mode of the notification. */
  lemma BodySpecifier(x: string, y: string, f: Fields)
    requires NoNul(f) && Complete(x)
    ensures Expand(x + "%b" + y, f) == Expand(x, f) + Transform(f.markup, f.ignoreNewline, f.body) + Expand(y, f)
  {
    FieldStandsForItself(x, 'b', y, f);
  }

  // ---------- progress ----------

  /** The value a string of digits has. */
  function ValueOf(d: string): int {
    if d == "" then 0 else 10 * ValueOf(d[..|d| - 1]) + (d[|d| - 1] as int - '0' as int)
  }

  predicate AllDecimal(d: string) {
    forall c | c in d :: '0' <= c <= '9'
  }

  /** `d` is the decimal numeral of `n`, without leading zeros. */
  predicate Writes(d: string, n: int) {
    if n < 0 then d != "" && d[0] == '-' && d[1..] != "" && AllDecimal(d[1..]) && d[1] != '0' && ValueOf(d[1..]) == -n
    else d != "" && AllDecimal(d) && (d[0] == '0' ==> |d| == 1) && ValueOf(d) == n
  }

  lemma DigitOf(n: nat)
    requires n < 10
    ensures '0' <= DIGITS[n] <= '9' && DIGITS[n] as int - '0' as int == n
  {
  }

  lemma {:induction false} DecimalWrites(n: nat)
    ensures Writes(Decimal(n), n) && (n > 0 ==> Decimal(n)[0] != '0')
  {
    if n < 10 {
      DigitOf(n);
      assert [DIGITS[n]][..0] == "";
    } else {
      var front := Decimal(n / 10);
      DecimalWrites(n / 10);
      DigitOf(n % 10);
      assert Decimal(n)[..|front|] == front && Decimal(n)[|front|] == DIGITS[n % 10];
    }
  }

  lemma SignedWrites(n: int)
    ensures Writes(SignedDecimal(n), n)
  {
    if n < 0 {
      DecimalWrites(-n);
      assert SignedDecimal(n)[1..] == Decimal(-n);
    } else {
      DecimalWrites(n);
    }
  }

  lemma NumeralIsPlain(d: string, n: int)
    requires Writes(d, n)
    ensures forall c | c in d :: c == '-' || '0' <= c <= '9'
  {
    if n < 0 { assert forall c | c in d :: c == d[0] || c in d[1..]; }
  }

  /** Blanks up to a width of three. */
  function Padded(d: string): string {
    if |d| >= 3 then d else seq(3 - |d|, i => ' ') + d
  }

  lemma PaddedIsPlain(d: string)
    requires d != "" && forall c | c in d :: c == '-' || '0' <= c <= '9'
    ensures IsPlain(d) && IsPlain("[" + Padded(d) + "%]")
  {
    assert forall c | c in Padded(d) :: c == ' ' || c in d;
    assert forall c | c in "[" + Padded(d) + "%]" :: c in Padded(d) || c == '[' || c == '%' || c == ']';
  }

  lemma PaddedText(d: string)
    requires d != ""
    ensures Padded(d) == (if |d| == 1 then "  " else if |d| == 2 then " " else "") + d
  {
  }

  lemma NumeralIsNotEmpty(d: string, n: int)
    requires Writes(d, n)
    ensures d != ""
  {
  }

  lemma ProgressTextIs(n: int)
    requires SignedDecimal(n) != ""
    ensures ProgressText(n) == "[" + Padded(SignedDecimal(n)) + "%]"
  {
    PaddedText(SignedDecimal(n));
  }

  lemma ProgressIsPlain(d: string, n: int)
    requires d == SignedDecimal(n)
    ensures Writes(d, n) && IsPlain(d) && IsPlain("[" + Padded(d) + "%]")
    ensures ProgressText(n) == "[" + Padded(d) + "%]"
  {
    SignedWrites(n);
    NumeralIsPlain(d, n);
    NumeralIsNotEmpty(d, n);
    PaddedIsPlain(d);
    ProgressTextIs(n);
  }

  /** Progress is shown as a number of at least three places, with a percent sign and in brackets,
      or as the bare number; and as nothing where there is none. */
  lemma ProgressSpecifiers(x: string, y: string, f: Fields, d: string)
    requires NoNul(f) && Complete(x) && d == SignedDecimal(f.progress)
    ensures Writes(d, f.progress)
    ensures Expand(x + "%p" + y, f)
            == Expand(x, f) + (if f.progress == -1 then "" else "[" + Padded(d) + "%]") + Expand(y, f)
    ensures Expand(x + "%n" + y, f) == Expand(x, f) + (if f.progress == -1 then "" else d) + Expand(y, f)
  {
    ProgressIsPlain(d, f.progress);
    FieldStandsForItself(x, 'p', y, f);
    FieldStandsForItself(x, 'n', y, f);
    PlainIsKept(f.ignoreNewline, "[" + Padded(d) + "%]");
    PlainIsKept(f.ignoreNewline, d);
    PlainIsKept(f.ignoreNewline, "");
  }

  // ---------- the rest of the template ----------

  /** Two percent signs stand for one. Any other character after a percent sign, and a percent sign
      at the end, leave it as it is; all other characters stand for themselves. */
  lemma OtherText(x: string, c: char, y: string, f: Fields)
    requires NoNul(f) && Complete(x)
    ensures Expand(x + "%%" + y, f) == Expand(x, f) + "%" + Expand(y, f)
    ensures c !in "asbcSIipn%" ==> Expand(x + "%" + [c] + y, f) == Expand(x, f) + "%" + Expand([c] + y, f)
    ensures c != '%' ==> Expand(x + [c] + y, f) == Expand(x, f) + [c] + Expand(y, f)
    ensures Expand(x + "%", f) == Expand(x, f) + "%"
  {
    PercentSign(x, y, f);
    UnknownStays(x, c, y, f);
    PlainStays(x, c, y, f);
    TrailingPercent(x, f);
  }

  lemma PercentSign(x: string, y: string, f: Fields)
    requires NoNul(f) && Complete(x)
    ensures Expand(x + "%%" + y, f) == Expand(x, f) + "%" + Expand(y, f)
  {
    FieldStandsForItself(x, '%', y, f);
    PercentText(f);
  }

  lemma PercentText(f: Fields)
    requires NoNul(f)
    ensures FieldText(f, '%') == "%"
  {
    PlainIsKept(f.ignoreNewline, "%");
  }

  lemma Associates(a: string, b: string, c: string)
    ensures a + (b + c) == a + b + c
  {
  }

  lemma ExpandBehind(x: string, rest: string, text: string, tail: string, f: Fields)
    requires NoNul(f) && Complete(x) && Expand(rest, f) == text + Expand(tail, f)
    ensures Expand(x + rest, f) == Expand(x, f) + text + Expand(tail, f)
  {
    ParseConcat(x, rest);
    RenderConcat(Parse(x), Parse(rest), f);
    Associates(Expand(x, f), text, Expand(tail, f));
  }

  lemma UnknownStays(x: string, c: char, y: string, f: Fields)
    requires NoNul(f) && Complete(x)
    ensures c !in "asbcSIipn%" ==> Expand(x + "%" + [c] + y, f) == Expand(x, f) + "%" + Expand([c] + y, f)
  {
    if c !in "asbcSIipn%" {
      var rest := "%" + [c] + y;
      assert IsField(c) ==> c in "asbcSIipn%" by { SpecifierLetters(c); }
      FieldTurn(rest, f);
      assert rest[1] == c && rest[1..] == [c] + y;
      ExpandBehind(x, rest, "%", [c] + y, f);
      assert x + "%" + [c] + y == x + rest;
    }
  }

  lemma SpecifierLetters(c: char)
    ensures IsField(c) <==> c in "asbcSIipn%"
  {
    var s := "asbcSIipn%";
    assert s[0] == 'a' && s[1] == 's' && s[2] == 'b' && s[3] == 'c' && s[4] == 'S';
    assert s[5] == 'I' && s[6] == 'i' && s[7] == 'p' && s[8] == 'n' && s[9] == '%';
  }

  lemma PlainFirst(c: char, y: string, f: Fields)
    requires NoNul(f) && c != '%'
    ensures Expand([c] + y, f) == [c] + Expand(y, f)
  {
    PlainPrefix([c] + y, 1, f);
    assert ([c] + y)[..1] == [c] && ([c] + y)[1..] == y;
  }

  lemma PlainStays(x: string, c: char, y: string, f: Fields)
    requires NoNul(f) && Complete(x)
    ensures c != '%' ==> Expand(x + [c] + y, f) == Expand(x, f) + [c] + Expand(y, f)
  {
    if c != '%' {
      PlainFirst(c, y, f);
      ExpandBehind(x, [c] + y, [c], y, f);
      Associates(x, [c], y);
    }
  }

  lemma TrailingPercent(x: string, f: Fields)
    requires NoNul(f) && Complete(x)
    ensures Expand(x + "%", f) == Expand(x, f) + "%"
  {
    FieldTurn("%", f);
    assert "%"[1..] == "";
    ExpandBehind(x, "%", "%", "", f);
    assert Expand("", f) == "";
  }

  /** Where one text may be followed by a specifier, and the specifier by more text. */
  lemma {:induction false} CompleteConcat(x: string, y: string)
    requires Complete(x)
    ensures Complete(x + y) <==> Complete(y)
    decreases |x|
  {
    if x == "" {
      assert x + y == y;
    } else {
      var k := Width(x);
      WidthAhead(x, y);
      ParseStep(x);
      CompleteConcat(x[k..], y);
      assert (x + y)[0] == x[0] && (|x| > 1 ==> (x + y)[1] == x[1]);
    }
  }

  /** Text without percent signs is complete, and so is text that ends in a specifier. */
  lemma CompleteTexts(x: string, c: char)
    ensures '%' !in x ==> Complete(x)
    ensures Complete(x) && c in "asbcSIipn%" ==> Complete(x + "%" + [c])
  {
    var f := Fields("", "", "", "", "", "", "", 0, Mode.No, false);
    if '%' !in x { AllPlain(x, f); }
    if Complete(x) && c in "asbcSIipn%" {
      SpecifierLetters(c);
      assert ("%" + [c])[2..] == "";
      CompleteConcat(x, "%" + [c]);
      assert x + "%" + [c] == x + ("%" + [c]);
    }
  }

  /** What is cut off a message shorter than 50000 characters is blanks, tabs, newlines, carriage
      returns and form feeds at its end, and all of them. */
  lemma MessageLosesOnlyWhiteSpace(format: string, f: Fields)
    requires NoNul(f)
    ensures var m, full := Message(format, f), Expand(ReplaceAll("\\t", "\t", ReplaceAll("\\n", "\n", format)), f);
            && |m| <= 50000 && m <= full
            && (|m| < 50000 ==>
                  && (forall i | |m| <= i < |full| :: full[i] in {' ', '\t', '\n', '\r', '\U{000C}'})
                  && (m != "" ==> m[|m| - 1] !in {' ', '\t', '\n', '\r', '\U{000C}'}))
  {
    MessageIsBounded(format, f);
  }
}
