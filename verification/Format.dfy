/** The format expander of src/notification.c: `notification_format_message` scans its own
    output buffer and substitutes fields in place. */
module Format {
  import opened Strings
  import opened StringBuffer
  import opened Links
  import opened MarkupBuffer

  /** What a format string can refer to. `iconBase` is the base name of the icon path. */
  datatype Fields = Fields(
    appname: string,
    summary: string,
    body: string,
    category: string,
    stackTag: string,
    iconBase: string,
    iconName: string,
    progress: int,
    markup: Mode,
    ignoreNewline: bool
  )

  predicate NoNul(f: Fields) {
    && '\0' !in f.appname && '\0' !in f.summary && '\0' !in f.body && '\0' !in f.category
    && '\0' !in f.stackTag && '\0' !in f.iconBase && '\0' !in f.iconName
  }

  const DIGITS := "0123456789"

  function Decimal(n: nat): (s: string)
    ensures '\0' !in s
  {
    if n < 10 then [DIGITS[n]] else Decimal(n / 10) + [DIGITS[n % 10]]
  }

  function SignedDecimal(n: int): (s: string)
    ensures '\0' !in s
  {
    if n < 0 then "-" + Decimal(-n) else Decimal(n)
  }

  /** `"[%3d%%]"` */
  function ProgressText(n: int): (s: string)
    ensures '\0' !in s
  {
    var d := SignedDecimal(n);
    "[" + (if |d| == 1 then "  " else if |d| == 2 then " " else "") + d + "%]"
  }

  predicate IsField(c: char) {
    || c == 'a' || c == 's' || c == 'b' || c == 'c' || c == 'S'
    || c == 'I' || c == 'i' || c == 'p' || c == 'n' || c == '%'
  }

  /** The raw text of a field, before markup handling. */
  function RawField(f: Fields, c: char): (s: string)
    requires NoNul(f)
    ensures '\0' !in s
  {
    if c == 'a' then f.appname
    else if c == 's' then f.summary
    else if c == 'b' then f.body
    else if c == 'c' then f.category
    else if c == 'S' then f.stackTag
    else if c == 'I' then f.iconBase
    else if c == 'i' then f.iconName
    else if c == 'p' then (if f.progress != -1 then ProgressText(f.progress) else "")
    else if c == 'n' then (if f.progress != -1 then SignedDecimal(f.progress) else "")
    else "%"
  }

  /** Only the body follows the markup mode of the notification. */
  function ModeOf(f: Fields, c: char): Mode {
    if c == 'b' then f.markup else No
  }

  function FieldText(f: Fields, c: char): string
    requires NoNul(f)
  {
    Transform(ModeOf(f, c), f.ignoreNewline, RawField(f, c))
  }

  // ---------- templates ----------

  /** A template read once, from left to right, without looking at any field. */
  datatype Token = Plain(c: char) | Field(c: char)

  function Parse(t: string): seq<Token> {
    if t == "" then []
    else if |t| > 1 && t[0] == '%' && IsField(t[1]) then [Field(t[1])] + Parse(t[2..])
    else [Plain(t[0])] + Parse(t[1..])
  }

  function TokenText(token: Token, f: Fields): string
    requires NoNul(f)
  {
    match token
    case Plain(c) => [c]
    case Field(c) => FieldText(f, c)
  }

  function Render(tokens: seq<Token>, f: Fields): string
    requires NoNul(f)
  {
    if tokens == [] then "" else TokenText(tokens[0], f) + Render(tokens[1..], f)
  }

  /** Simultaneous substitution. */
  function Expand(t: string, f: Fields): string
    requires NoNul(f)
  {
    Render(Parse(t), f)
  }

  /** `g_ascii_isspace` */
  predicate IsSpace(c: char) {
    c == ' ' || c == '\t' || c == '\n' || c == '\r' || c == '\U{000C}'
  }

  /** `g_strchomp` */
  function Chomp(s: string): (r: string)
    ensures r <= s
  {
    if s != "" && IsSpace(s[|s| - 1]) then Chomp(s[..|s| - 1]) else s
  }

  const MAX_CHARS := 50000

  function Truncate(s: string): string {
    if |s| > MAX_CHARS then s[..MAX_CHARS] else s
  }

  /** `notification_format_message` */
  function Message(format: string, f: Fields): string
    requires NoNul(f)
  {
    Truncate(Chomp(Expand(ReplaceAll("\\t", "\t", ReplaceAll("\\n", "\n", format)), f)))
  }

  // ---------- meaning ----------

  /** The text does not end in the middle of a specifier. */
  predicate Complete(t: string) {
    if t == "" then true
    else if t[0] == '%' then |t| > 1 && Complete(if IsField(t[1]) then t[2..] else t[1..])
    else Complete(t[1..])
  }

  /** Reading one token. */
  function Width(t: string): nat
    requires t != ""
  {
    if |t| > 1 && t[0] == '%' && IsField(t[1]) then 2 else 1
  }

  function TokenAt(t: string): Token
    requires t != ""
  {
    if Width(t) == 2 then Field(t[1]) else Plain(t[0])
  }

  lemma ParseStep(t: string)
    requires t != ""
    ensures Width(t) <= |t|
    ensures Parse(t) == [TokenAt(t)] + Parse(t[Width(t)..])
  {
  }

  lemma WidthAhead(x: string, y: string)
    requires x != "" && Complete(x)
    ensures Width(x + y) == Width(x) && TokenAt(x + y) == TokenAt(x)
    ensures Complete(x[Width(x)..]) && (x + y)[Width(x)..] == x[Width(x)..] + y
  {
  }

  lemma PrependToken(token: Token, a: seq<Token>, b: seq<Token>)
    ensures [token] + (a + b) == [token] + a + b
  {
  }

  lemma {:induction false} ParseConcat(x: string, y: string)
    requires Complete(x)
    ensures Parse(x + y) == Parse(x) + Parse(y)
    decreases |x|
  {
    if x == "" {
      assert x + y == y;
    } else {
      var rest := x[Width(x)..];
      WidthAhead(x, y);
      ParseStep(x);
      ParseStep(x + y);
      ParseConcat(rest, y);
      PrependToken(TokenAt(x), Parse(rest), Parse(y));
    }
  }

  lemma {:induction false} RenderConcat(a: seq<Token>, b: seq<Token>, f: Fields)
    requires NoNul(f)
    ensures Render(a + b, f) == Render(a, f) + Render(b, f)
  {
    if a == [] {
      assert a + b == b;
    } else {
      var text := TokenText(a[0], f);
      assert (a + b)[0] == a[0] && (a + b)[1..] == a[1..] + b;
      RenderConcat(a[1..], b, f);
      assert text + (Render(a[1..], f) + Render(b, f)) == text + Render(a[1..], f) + Render(b, f);
    }
  }

  /** A specifier stands for its field and nothing else: whatever the field contains, the
      text around it is expanded as if the field were not there. */
  lemma FieldStandsForItself(x: string, c: char, y: string, f: Fields)
    requires NoNul(f) && Complete(x) && IsField(c)
    ensures Expand(x + ['%', c] + y, f) == Expand(x, f) + FieldText(f, c) + Expand(y, f)
  {
    var mid := ['%', c] + y;
    assert x + ['%', c] + y == x + mid && mid[2..] == y;
    ParseConcat(x, mid);
    RenderConcat(Parse(x), Parse(mid), f);
    ParseStep(mid);
    RenderToken(Field(c), Parse(y), f);
    assert Expand(mid, f) == FieldText(f, c) + Expand(y, f);
    assert Expand(x, f) + (FieldText(f, c) + Expand(y, f)) == Expand(x, f) + FieldText(f, c) + Expand(y, f);
  }

  lemma RenderToken(token: Token, tokens: seq<Token>, f: Fields)
    requires NoNul(f)
    ensures Render([token] + tokens, f) == TokenText(token, f) + Render(tokens, f)
  {
    assert ([token] + tokens)[1..] == tokens;
  }

  lemma {:induction false} ChompDropsSpaces(s: string)
    ensures forall i | |Chomp(s)| <= i < |s| :: IsSpace(s[i])
    ensures Chomp(s) != "" ==> !IsSpace(Chomp(s)[|Chomp(s)| - 1])
  {
    if s != "" && IsSpace(s[|s| - 1]) { ChompDropsSpaces(s[..|s| - 1]); }
  }

  /** The message is at most 50000 characters of the expansion, from its start. What is cut
      off a shorter message is white space only, and it does not end in white space. */
  lemma MessageIsBounded(format: string, f: Fields)
    requires NoNul(f)
    ensures var m, full := Message(format, f), Expand(ReplaceAll("\\t", "\t", ReplaceAll("\\n", "\n", format)), f);
            && |m| <= MAX_CHARS && m <= full
            && (|m| < MAX_CHARS ==>
                  && (forall i | |m| <= i < |full| :: IsSpace(full[i]))
                  && (m != "" ==> !IsSpace(m[|m| - 1])))
  {
    ChompDropsSpaces(Expand(ReplaceAll("\\t", "\t", ReplaceAll("\\n", "\n", format)), f));
  }

  // ---------- the scan in place ----------

  lemma PlainPrefix(t: string, k: nat, f: Fields)
    requires NoNul(f) && k <= |t| && '%' !in t[..k]
    ensures Expand(t, f) == t[..k] + Expand(t[k..], f)
  {
    assert t == t[..k] + t[k..];
    AllPlain(t[..k], f);
    ParseConcat(t[..k], t[k..]);
    RenderConcat(Parse(t[..k]), Parse(t[k..]), f);
  }

  lemma {:induction false} AllPlain(x: string, f: Fields)
    requires NoNul(f) && '%' !in x
    ensures Complete(x) && Expand(x, f) == x
  {
    if x != "" {
      AllPlain(x[1..], f);
      assert ([Plain(x[0])] + Parse(x[1..]))[1..] == Parse(x[1..]);
    }
  }

  /** The scan has made `done` final and has `rest` of the template ahead of it. */
  lemma FieldTurn(t: string, f: Fields)
    requires NoNul(f) && |t| > 0 && t[0] == '%'
    ensures if |t| > 1 && IsField(t[1]) then Expand(t, f) == FieldText(f, t[1]) + Expand(t[2..], f)
            else Expand(t, f) == "%" + Expand(t[1..], f)
  {
    if |t| > 1 && IsField(t[1]) {
      assert ([Field(t[1])] + Parse(t[2..]))[1..] == Parse(t[2..]);
    } else {
      assert ([Plain(t[0])] + Parse(t[1..]))[1..] == Parse(t[1..]);
    }
  }

  /** `notification_replace_single_field`: substitutes the two characters at `needle` and
      returns the position behind the substituted text. */
  method ReplaceSingleField(haystack: array<char>, ghost t: string, needle: nat, replacement: string, mode: Mode,
                            ignoreNewline: bool)
    returns (str: array<char>, next: nat)
    requires Holds(haystack, t) && needle + 1 < |t| && '\0' !in replacement
    modifies haystack
    ensures var input := Transform(mode, ignoreNewline, replacement);
            && Holds(str, ReplaceAt(t, needle, 2, input))
            && next == needle + |input|
    ensures str == haystack || fresh(str)
  {
    ghost var input := Transform(mode, ignoreNewline, replacement);
    var copy := Duplicate(replacement);
    copy := MarkupTransform(copy, replacement, mode, ignoreNewline);
    var n := StrLen(copy, input);
    var text := copy[..n];
    assert text == input;
    str := StringReplaceAt(haystack, t, needle, 2, text);
    next := needle + n;
  }

  /** One turn turns `t` into `t'`, and the specifier at `at` into `text`. */
  ghost predicate Turned(f: Fields, t: string, at: nat, t': string, text: string)
    requires NoNul(f)
  {
    if at + 1 < |t| && IsField(t[at + 1]) then
      text == FieldText(f, t[at + 1]) && t' == ReplaceAt(t, at, 2, text)
    else text == "%" && t' == t
  }

  /** One turn of the loop on the '%' at `substr`: the text it stands for, and where the
      search goes on. */
  method ExpandHere(buf: array<char>, ghost t: string, substr: nat, f: Fields)
    returns (str: array<char>, next: nat, ghost t': string, ghost text: string)
    requires NoNul(f) && Holds(buf, t) && substr < |t| && t[substr] == '%'
    modifies buf
    ensures str == buf || fresh(str)
    ensures Holds(str, t') && next == substr + |text|
    ensures Turned(f, t, substr, t', text)
  {
    var n := StrLen(buf, t);
    assert forall i | 0 <= i < |t| :: buf[i] == buf[..|t|][i] == t[i];
    var c := buf[substr + 1];
    text, t' := "%", t;
    if c == '\0' {
      // The text ends at the '%'.
      return buf, substr + 1, t', text;
    }
    if IsField(c) {
      text := FieldText(f, c);
      t' := ReplaceAt(t, substr, 2, text);
      str, next := ReplaceSingleField(buf, t, substr, RawField(f, c), ModeOf(f, c), f.ignoreNewline);
    } else {
      // No field has this letter.
      return buf, substr + 1, t', text;
    }
  }

  lemma SpliceField(done: string, rest: string, k: nat, text: string)
    requires k + 1 < |rest|
    ensures var done', rest' := done + rest[..k] + text, rest[k + 2..];
            && ReplaceAt(done + rest, |done| + k, 2, text) == done' + rest'
            && (done' + rest')[|done| + k + |text|..] == rest'
  {
    assert (done + rest)[..|done| + k] == done + rest[..k];
    assert (done + rest)[|done| + k + 2..] == rest[k + 2..];
  }

  lemma SplicePercent(done: string, rest: string, k: nat)
    requires k < |rest| && rest[k] == '%'
    ensures var done', rest' := done + rest[..k] + "%", rest[k + 1..];
            && done + rest == done' + rest'
            && (done' + rest')[|done| + k + 1..] == rest'
  {
    assert rest == rest[..k] + "%" + rest[k + 1..];
  }

  lemma FirstPercent(rest: string, k: nat)
    requires Find(rest, "%") == k
    ensures k < |rest| && rest[k] == '%' && '%' !in rest[..k] && rest[k..][0] == '%'
  {
    FindIsFirst(rest, "%");
    assert rest[k..][0] == '%';
    forall i | 0 <= i < k ensures rest[i] != '%' {
      assert "%" <= rest[i..] <==> rest[i] == '%';
    }
  }

  lemma NoPercent(rest: string, f: Fields)
    requires NoNul(f) && Find(rest, "%") < 0
    ensures Expand(rest, f) == rest
  {
    FindIsFirst(rest, "%");
    forall i | 0 <= i < |rest| ensures rest[i] != '%' {
      assert "%" <= rest[i..] <==> rest[i] == '%';
    }
    AllPlain(rest, f);
  }

  /** How the text and the template advance in one turn. */
  ghost function TurnText(f: Fields, rest: string, k: nat): (string, string)
    requires NoNul(f) && k < |rest| && rest[k] == '%'
  {
    if k + 1 < |rest| && IsField(rest[k + 1]) then (FieldText(f, rest[k + 1]), rest[k + 2..])
    else ("%", rest[k + 1..])
  }

  lemma TurnHere(t: string, f: Fields)
    requires NoNul(f) && t != "" && t[0] == '%'
    ensures var (text, tail) := TurnText(f, t, 0);
            Expand(t, f) == text + Expand(tail, f)
  {
    FieldTurn(t, f);
  }

  lemma TurnShift(rest: string, k: nat, f: Fields)
    requires NoNul(f) && k < |rest| && rest[k] == '%'
    ensures TurnText(f, rest[k..], 0) == TurnText(f, rest, k)
  {
    assert rest[k..][1..] == rest[k + 1..];
    assert k + 1 < |rest| ==> rest[k..][2..] == rest[k + 2..] && rest[k..][1] == rest[k + 1];
  }

  lemma Group(done: string, pre: string, text: string, tail: string)
    ensures done + (pre + (text + tail)) == (done + pre + text) + tail
  {
  }

  lemma TurnExpands(done: string, rest: string, k: nat, f: Fields)
    requires NoNul(f) && Find(rest, "%") == k
    ensures k < |rest| && rest[k] == '%'
    ensures var (text, tail) := TurnText(f, rest, k);
            done + Expand(rest, f) == (done + rest[..k] + text) + Expand(tail, f)
  {
    FirstPercent(rest, k);
    PlainPrefix(rest, k, f);
    TurnHere(rest[k..], f);
    TurnShift(rest, k, f);
    var (text, tail) := TurnText(f, rest, k);
    Group(done, rest[..k], text, Expand(tail, f));
  }

  /** The text after one turn, and the position to go on from. */
  lemma TurnSplices(done: string, rest: string, k: nat, f: Fields)
    requires NoNul(f) && k < |rest| && rest[k] == '%'
    ensures var t, at := done + rest, |done| + k;
            var (text, tail) := TurnText(f, rest, k);
            && at < |t| && t[at] == '%'
            && ((at + 1 < |t| && IsField(t[at + 1])) <==> (k + 1 < |rest| && IsField(rest[k + 1])))
            && (at + 1 < |t| ==> t[at + 1] == rest[k + 1])
            && (if at + 1 < |t| && IsField(t[at + 1]) then ReplaceAt(t, at, 2, text) else t)
               == (done + rest[..k] + text) + tail
            && ((done + rest[..k] + text) + tail)[at + |text|..] == tail
  {
    SplicePercent(done, rest, k);
    if k + 1 < |rest| { SpliceField(done, rest, k, TurnText(f, rest, k).0); }
  }

  /** What one turn of the scan does to the text and to what is still to be expanded. */
  lemma ExpandTurn(done: string, rest: string, k: nat, f: Fields, t': string, text: string)
    returns (done': string, rest': string)
    requires NoNul(f) && Find(rest, "%") == k
    requires Turned(f, done + rest, |done| + k, t', text)
    ensures t' == done' + rest' && |rest'| < |rest|
    ensures |done'| == |done| + k + |text| && t'[|done'|..] == rest'
    ensures done' + Expand(rest', f) == done + Expand(rest, f)
  {
    TurnExpands(done, rest, k, f);
    TurnSplices(done, rest, k, f);
    done', rest' := done + rest[..k] + text, TurnText(f, rest, k).1;
  }

  lemma PercentAt(done: string, rest: string, k: nat)
    requires Find(rest, "%") == k
    ensures |done| + k < |done + rest| && (done + rest)[|done| + k] == '%'
  {
    FirstPercent(rest, k);
  }

  /** Expand the '%' at `substr`, and move behind it. */
  method ExpandStep(buf: array<char>, ghost done: string, ghost rest: string, substr: nat, f: Fields)
    returns (str: array<char>, next: nat, ghost done': string, ghost rest': string)
    requires NoNul(f) && Holds(buf, done + rest) && Find(rest, "%") >= 0 && substr == |done| + Find(rest, "%")
    modifies buf
    ensures str == buf || fresh(str)
    ensures |rest'| < |rest| && Holds(str, done' + rest') && next == |done'|
    ensures done' + Expand(rest', f) == done + Expand(rest, f)
  {
    ghost var k, t', text := Find(rest, "%"), "", "";
    PercentAt(done, rest, k);
    str, next, t', text := ExpandHere(buf, done + rest, substr, f);
    done', rest' := ExpandTurn(done, rest, k, f, t', text);
  }

  /** The body of the scanning loop. */
  method ExpandNext(buf: array<char>, ghost done: string, ghost rest: string, substr: nat, f: Fields)
    returns (str: array<char>, next: int, ghost done': string, ghost rest': string)
    requires NoNul(f) && Holds(buf, done + rest) && Find(rest, "%") >= 0 && substr == |done| + Find(rest, "%")
    modifies buf
    ensures str == buf || fresh(str)
    ensures |rest'| < |rest| && Holds(str, done' + rest')
    ensures done' + Expand(rest', f) == done + Expand(rest, f)
    ensures next == if Find(rest', "%") < 0 then -1 else |done'| + Find(rest', "%")
  {
    var from;
    str, from, done', rest' := ExpandStep(buf, done, rest, substr, f);
    assert (done' + rest')[from..] == rest';
    next := StrStr(str, done' + rest', from, "%");
  }

  /** The loop over all formatters: scanning the growing buffer is simultaneous
      substitution, and it ends. */
  method ExpandInPlace(buf: array<char>, ghost t: string, f: Fields) returns (str: array<char>)
    requires NoNul(f) && Holds(buf, t)
    modifies buf
    ensures Holds(str, Expand(t, f)) && (str == buf || fresh(str))
  {
    str := buf;
    ghost var done, rest, goal := "", t, Expand(t, f);
    assert done + rest == t && done + goal == goal && t[0..] == t;
    var substr := StrStr(str, t, 0, "%");
    while substr >= 0
      invariant Holds(str, done + rest) && (str == buf || fresh(str))
      invariant goal == done + Expand(rest, f)
      invariant substr == if Find(rest, "%") < 0 then -1 else |done| + Find(rest, "%")
      decreases |rest|
    {
      str, substr, done, rest := ExpandNext(str, done, rest, substr, f);
    }
    NoPercent(rest, f);
  }

  /** `g_strchomp` */
  method ChompInPlace(buf: array<char>, ghost s: string)
    requires Holds(buf, s)
    modifies buf
    ensures Holds(buf, Chomp(s))
  {
    var n := StrLen(buf, s);
    ghost var t := s;
    while n > 0 && IsSpace(buf[n - 1])
      invariant n == |t| && t <= s && Holds(buf, t) && Chomp(s) == Chomp(t)
    {
      assert buf[n - 1] == buf[..n][n - 1] == t[n - 1];
      n := n - 1;
      buf[n] := '\0';
      t := t[..n];
      assert buf[..n] == t;
    }
    assert n > 0 ==> buf[n - 1] == buf[..n][n - 1] == t[n - 1];
  }

  /** `notification_format_message` */
  method FormatMessage(format: string, f: Fields) returns (msg: array<char>)
    requires NoNul(f) && '\0' !in format
    ensures Holds(msg, Message(format, f))
  {
    ghost var t1 := ReplaceAll("\\n", "\n", format);
    ghost var t2 := ReplaceAll("\\t", "\t", t1);
    msg := Duplicate(format);
    msg := StringReplaceAll("\\n", "\n", msg, format);
    msg := StringReplaceAll("\\t", "\t", msg, t1);
    msg := ExpandInPlace(msg, t2, f);
    ghost var e := Expand(t2, f);
    ChompInPlace(msg, e);
    var n := StrLen(msg, Chomp(e));
    if n > MAX_CHARS {
      var text := msg[..MAX_CHARS];
      assert text == Chomp(e)[..MAX_CHARS];
      msg := Duplicate(text);
    }
  }
}
