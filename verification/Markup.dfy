/** Markup handling of src/markup.c as functions on text, and what the passes achieve. */
module Markup {
  import opened Strings

  // ---------- quoting ----------

  const SPECIAL: set<char> := {'&', '"', '\'', '<', '>'}

  function Entity(c: char): string {
    if c == '&' then "&amp;"
    else if c == '"' then "&quot;"
    else if c == '\'' then "&apos;"
    else if c == '<' then "&lt;"
    else "&gt;"
  }

  /** `markup_quote`: five passes, the ampersand first. */
  function Quote(s: string): string {
    var s1 := ReplaceAll("&", "&amp;", s);
    var s2 := ReplaceAll("\"", "&quot;", s1);
    var s3 := ReplaceAll("'", "&apos;", s2);
    var s4 := ReplaceAll("<", "&lt;", s3);
    ReplaceAll(">", "&gt;", s4)
  }

  /** `markup_unquote`: five passes, the ampersand last. */
  function Unquote(s: string): string {
    var s1 := ReplaceAll("&quot;", "\"", s);
    var s2 := ReplaceAll("&apos;", "'", s1);
    var s3 := ReplaceAll("&lt;", "<", s2);
    var s4 := ReplaceAll("&gt;", ">", s3);
    ReplaceAll("&amp;", "&", s4)
  }

  function Code(chars: set<char>, c: char): string {
    if c in chars then Entity(c) else [c]
  }

  /** The text with exactly the characters of a set encoded: what lies between two passes. */
  function Encoded(chars: set<char>, s: string): string {
    if s == "" then "" else Code(chars, s[0]) + Encoded(chars, s[1..])
  }

  lemma {:induction false} EncodedNothing(s: string)
    ensures Encoded({}, s) == s
  {
    if s != "" { EncodedNothing(s[1..]); }
  }

  lemma EntityShape(c: char)
    requires c in SPECIAL
    ensures var e := Entity(c); e[0] == '&' && '&' !in e[1..] && |e| >= 4
    ensures forall d | d in SPECIAL && d != '&' :: d !in Entity(c)
  {
  }

  /** One pass of quoting encodes one more character. */
  lemma {:induction false} QuotePass(chars: set<char>, c: char, s: string)
    requires chars <= SPECIAL && c in SPECIAL && c !in chars && (c == '&' ==> chars == {})
    ensures ReplaceAll([c], Entity(c), Encoded(chars, s)) == Encoded(chars + {c}, s)
  {
    if s != "" {
      QuotePass(chars, c, s[1..]);
      var rest := Encoded(chars, s[1..]);
      if s[0] == c {
        ReplaceAllHit([c], Entity(c), rest);
      } else {
        if s[0] in chars { EntityShape(s[0]); }
        ReplaceAllSkips([c], Entity(c), Code(chars, s[0]), rest);
      }
    }
  }

  lemma EntitiesDiffer(c: char, d: char, rest: string)
    requires c in SPECIAL && d in SPECIAL && c != d
    ensures !(Entity(c) <= Entity(d) + rest)
  {
    var x, y := Entity(c), Entity(d);
    assert x[1] != y[1] || x[2] != y[2];
    assert (y + rest)[1] == y[1] && (y + rest)[2] == y[2];
  }

  /** Text that has the needle's first character in front only, and is no match, is passed over. */
  lemma CodeSkipped(needle: string, repl: string, code: string, rest: string)
    requires needle != "" && code != "" && code[0] == needle[0] && needle[0] !in code[1..]
    requires !(needle <= code + rest)
    ensures ReplaceAll(needle, repl, code + rest) == code + ReplaceAll(needle, repl, rest)
  {
    assert (code + rest)[1..] == code[1..] + rest;
    ReplaceAllSkips(needle, repl, code[1..], rest);
    assert [code[0]] + (code[1..] + ReplaceAll(needle, repl, rest)) == code + ReplaceAll(needle, repl, rest);
  }

  /** An entity other than the one looked for is passed over as a whole. */
  lemma OtherEntitySkipped(c: char, d: char, repl: string, rest: string)
    requires c in SPECIAL && d in SPECIAL && c != d
    ensures ReplaceAll(Entity(c), repl, Entity(d) + rest) == Entity(d) + ReplaceAll(Entity(c), repl, rest)
  {
    EntitiesDiffer(c, d, rest);
    EntityShape(d);
    EntityShape(c);
    CodeSkipped(Entity(c), repl, Entity(d), rest);
  }

  /** One pass of unquoting decodes one character, as long as ampersands are encoded. */
  lemma {:induction false} UnquotePass(chars: set<char>, c: char, s: string)
    requires chars <= SPECIAL && c in chars && '&' in chars && (c == '&' ==> chars == {'&'})
    ensures ReplaceAll(Entity(c), [c], Encoded(chars, s)) == Encoded(chars - {c}, s)
  {
    if s != "" {
      UnquotePass(chars, c, s[1..]);
      var rest := Encoded(chars, s[1..]);
      if s[0] == c {
        ReplaceAllHit(Entity(c), [c], rest);
      } else if s[0] in chars {
        OtherEntitySkipped(c, s[0], [c], rest);
      } else {
        ReplaceAllSkips(Entity(c), [c], [s[0]], rest);
      }
    }
  }

  /** Quoting replaces every special character by its entity, in one simultaneous step. */
  lemma QuoteIsEncoding(s: string)
    ensures Quote(s) == Encoded(SPECIAL, s)
  {
    EncodedNothing(s);
    QuotePass({}, '&', s);
    QuotePass({} + {'&'}, '"', s);
    QuotePass({} + {'&'} + {'"'}, '\'', s);
    QuotePass({} + {'&'} + {'"'} + {'\''}, '<', s);
    QuotePass({} + {'&'} + {'"'} + {'\''} + {'<'}, '>', s);
    assert {} + {'&'} + {'"'} + {'\''} + {'<'} + {'>'} == SPECIAL;
  }

  /** Unquoting undoes quoting, for every text. */
  lemma UnquoteUndoesQuote(s: string)
    ensures Unquote(Quote(s)) == s
  {
    QuoteIsEncoding(s);
    var a := SPECIAL - {'"'};
    var b := a - {'\''};
    var c := b - {'<'};
    var d := c - {'>'};
    assert d == {'&'} && d - {'&'} == {};
    UnquotePassOf("&quot;", "\"", SPECIAL, '"', s);
    UnquotePassOf("&apos;", "'", a, '\'', s);
    UnquotePassOf("&lt;", "<", b, '<', s);
    UnquotePassOf("&gt;", ">", c, '>', s);
    UnquotePassOf("&amp;", "&", d, '&', s);
    EncodedNothing(s);
  }

  lemma UnquotePassOf(entity: string, plain: string, chars: set<char>, c: char, s: string)
    requires entity == Entity(c) && plain == [c]
    requires chars <= SPECIAL && c in chars && '&' in chars && (c == '&' ==> chars == {'&'})
    ensures ReplaceAll(entity, plain, Encoded(chars, s)) == Encoded(chars - {c}, s)
  {
    UnquotePass(chars, c, s);
  }

  // ---------- the STRIP mode ----------

  /** `markup_br2nl` */
  function Br2Nl(s: string): string {
    ReplaceAll("<br />", "\n", ReplaceAll("<br/>", "\n", ReplaceAll("<br>", "\n", s)))
  }

  /** `markup_strip` */
  function Strip(s: string): string {
    Unquote(StripDelimited(s, '<', '>'))
  }

  function NewlinesTo(ignoreNewline: bool, s: string): string {
    if ignoreNewline then ReplaceAll("\n", " ", s) else s
  }

  lemma {:induction false} EncodedHasNo(chars: set<char>, s: string, c: char)
    requires chars <= SPECIAL && c in chars && c != '&'
    ensures c !in Encoded(chars, s)
  {
    if s != "" {
      EncodedHasNo(chars, s[1..], c);
      if s[0] in chars { EntityShape(s[0]); }
    }
  }

  /** Newlines are not special, so replacing them commutes with quoting. */
  lemma {:induction false} NewlinesCommute(s: string)
    ensures ReplaceAll("\n", " ", Encoded(SPECIAL, s)) == Encoded(SPECIAL, ReplaceAll("\n", " ", s))
  {
    if s != "" {
      NewlinesCommute(s[1..]);
      var rest := Encoded(SPECIAL, s[1..]);
      if s[0] == '\n' {
        ReplaceAllHit("\n", " ", rest);
        assert "\n" <= s && s[|"\n"|..] == s[1..];
        var t := ReplaceAll("\n", " ", s[1..]);
        assert (" " + t)[0] == ' ' && (" " + t)[1..] == t;
      } else {
        if s[0] in SPECIAL { EntityHasNoNewline(s[0]); }
        ReplaceAllSkips("\n", " ", Code(SPECIAL, s[0]), rest);
        var t := ReplaceAll("\n", " ", s[1..]);
        assert !("\n" <= s);
        assert ([s[0]] + t)[1..] == t;
      }
    }
  }

  lemma EntityHasNoNewline(c: char)
    requires c in SPECIAL
    ensures '\n' !in Entity(c)
  {
  }

  function TransformStrip(ignoreNewline: bool, s: string): string {
    NewlinesTo(ignoreNewline, Quote(Strip(Br2Nl(s))))
  }

  /** Quoted text passes through stripping unchanged. */
  lemma StripKeepsQuoted(u: string)
    ensures Quote(Strip(Br2Nl(Quote(u)))) == Quote(u)
  {
    var y := Quote(u);
    QuoteIsEncoding(u);
    EncodedHasNo(SPECIAL, u, '<');
    ReplaceAllIdle("<br>", "\n", y);
    ReplaceAllIdle("<br/>", "\n", y);
    ReplaceAllIdle("<br />", "\n", y);
    StripIdle(y, '<', '>');
    UnquoteUndoesQuote(u);
  }

  /** Transforming text in STRIP mode twice is transforming it once, whether or not
      newlines are ignored. */
  lemma StripModeIsIdempotent(ignoreNewline: bool, s: string)
    ensures TransformStrip(ignoreNewline, TransformStrip(ignoreNewline, s)) == TransformStrip(ignoreNewline, s)
  {
    var u := Strip(Br2Nl(s));
    if ignoreNewline {
      var v := ReplaceAll("\n", " ", u);
      QuoteIsEncoding(u);
      QuoteIsEncoding(v);
      NewlinesCommute(u);
      StripKeepsQuoted(v);
      ReplacedCharIsGone('\n', " ", Quote(u));
      ReplaceAllIdle("\n", " ", Quote(v));
    } else {
      StripKeepsQuoted(u);
    }
  }

  // ---------- entities ----------

  predicate IsDigit(c: char) { '0' <= c <= '9' }

  predicate IsHexDigit(c: char) { IsDigit(c) || 'a' <= c <= 'f' || 'A' <= c <= 'F' }

  predicate AllDigits(s: string) { forall c | c in s :: IsDigit(c) }

  predicate AllHexDigits(s: string) { forall c | c in s :: IsHexDigit(c) }

  const NAMED: seq<string> := ["&amp;", "&lt;", "&gt;", "&quot;", "&apos;"]

  /** `markup_is_entity`: the ampersand in front begins a decimal, hexadecimal or named entity. */
  predicate IsEntity(s: string)
    requires s != "" && s[0] == '&'
  {
    var end := Find(s, ";");
    if end < 0 then false
    else if s[1] == '#' then
      if end > 2 && s[2] == 'x' then end > 3 && AllHexDigits(s[3..end])
      else end > 2 && AllDigits(s[2..end])
    else exists i | 0 <= i < |NAMED| :: NAMED[i] <= s
  }

  /** `markup_escape_unsupported` */
  function Escape(s: string): string {
    if s == "" then ""
    else if s[0] == '&' && !IsEntity(s) then "&amp;" + Escape(s[1..])
    else [s[0]] + Escape(s[1..])
  }

  /** Every ampersand begins an entity. */
  ghost predicate OnlyEntities(s: string) {
    forall i | 0 <= i < |s| && s[i] == '&' :: IsEntity(s[i..])
  }

  lemma NamedEndsAtSemicolon(s: string, i: nat)
    requires i < |NAMED| && NAMED[i] <= s
    ensures Find(s, ";") == |NAMED[i]| - 1
  {
    var n := NAMED[i];
    assert n == "&amp;" || n == "&lt;" || n == "&gt;" || n == "&quot;" || n == "&apos;";
    assert ";" <= s[|n| - 1..];
    forall j | 0 <= j < |n| - 1 ensures !(";" <= s[j..]) { assert s[j..][0] == n[j]; }
    FindUnique(s, ";", |n| - 1);
  }

  lemma NamedIsPlain(s: string, i: nat)
    requires i < |NAMED| && NAMED[i] <= s
    ensures |NAMED[i]| >= 4 && forall k | 1 <= k < |NAMED[i]| :: s[k] != '&'
  {
    var n := NAMED[i];
    assert n == "&amp;" || n == "&lt;" || n == "&gt;" || n == "&quot;" || n == "&apos;";
    assert forall k | 1 <= k < |n| :: n[k] != '&';
    forall k | 1 <= k < |n| ensures s[k] != '&' { assert s[k] == n[k]; }
  }

  lemma NumericIsPlain(s: string)
    requires |s| > 1 && s[0] == '&' && s[1] == '#' && IsEntity(s)
    ensures var end := Find(s, ";"); end > 2 && forall k | 1 <= k < end :: s[k] != '&'
  {
    var end := Find(s, ";");
    NumericDigits(s);
    DigitsArePlain(s, if s[2] == 'x' then 3 else 2, end);
  }

  lemma NumericDigits(s: string)
    requires |s| > 1 && s[0] == '&' && s[1] == '#' && IsEntity(s)
    ensures var end := Find(s, ";");
            end > 2 && var i := if s[2] == 'x' then 3 else 2; i <= end && AllHexDigits(s[i..end])
  {
  }

  lemma DigitsArePlain(s: string, i: nat, j: nat)
    requires i <= j <= |s| && AllHexDigits(s[i..j])
    ensures forall k | i <= k < j :: s[k] != '&'
  {
    forall k | i <= k < j ensures s[k] != '&' {
      assert s[k] == s[i..j][k - i] && s[k] in s[i..j];
    }
  }

  /** An entity has no further ampersand before its semicolon. */
  lemma EntityIsPlain(s: string)
    requires s != "" && s[0] == '&' && IsEntity(s)
    ensures var end := Find(s, ";");
            end > 1 && s[end] == ';' && forall k | 1 <= k <= end :: s[k] != '&'
  {
    var end := Find(s, ";");
    FindIsFirst(s, ";");
    assert s[end] == s[end..][0];
    if s[1] == '#' {
      NumericIsPlain(s);
    } else {
      var i :| 0 <= i < |NAMED| && NAMED[i] <= s;
      NamedEndsAtSemicolon(s, i);
      NamedIsPlain(s, i);
    }
  }

  /** Whether an ampersand begins an entity is decided up to the first semicolon. */
  lemma EntityByPrefix(s: string, t: string)
    requires s != "" && s[0] == '&' && IsEntity(s)
    requires |t| > Find(s, ";") && t[..Find(s, ";") + 1] == s[..Find(s, ";") + 1]
    ensures t[0] == '&' && IsEntity(t)
  {
    var end := Find(s, ";");
    EntityIsPlain(s);
    FindIsFirst(s, ";");
    assert t[0] == t[..end + 1][0] == '&';
    assert forall j | 0 <= j <= end :: t[j] == t[..end + 1][j] == s[j];
    forall j | 0 <= j < end ensures !(";" <= t[j..]) { assert s[j..][0] == t[j..][0]; }
    assert ";" <= t[end..];
    FindUnique(t, ";", end);
    if s[1] != '#' {
      var i :| 0 <= i < |NAMED| && NAMED[i] <= s;
      NamedEndsAtSemicolon(s, i);
      assert NAMED[i] <= t;
    } else {
      assert s[2..end] == t[2..end];
      if s[2] == 'x' { assert s[3..end] == t[3..end]; }
    }
  }

  /** Escaping does not touch text without ampersands. */
  lemma {:induction false} EscapeSkips(x: string, y: string)
    requires '&' !in x
    ensures Escape(x + y) == x + Escape(y)
  {
    if x == "" {
      assert x + y == y;
    } else {
      assert (x + y)[0] == x[0] && (x + y)[1..] == x[1..] + y;
      EscapeSkips(x[1..], y);
    }
  }

  lemma AmpIsEntity(t: string)
    ensures IsEntity("&amp;" + t)
  {
    var s := "&amp;" + t;
    assert NAMED[0] <= s;
    NamedEndsAtSemicolon(s, 0);
  }

  lemma PrependKeepsOnlyEntities(x: string, y: string)
    requires OnlyEntities(y)
    requires forall i | 0 <= i < |x| && x[i] == '&' :: IsEntity((x + y)[i..])
    ensures OnlyEntities(x + y)
  {
    forall i | 0 <= i < |x + y| && (x + y)[i] == '&' ensures IsEntity((x + y)[i..]) {
      if i >= |x| { assert (x + y)[i..] == y[i - |x|..]; }
    }
  }

  /** After escaping, every ampersand begins an entity. */
  lemma {:induction false} EscapeLeavesOnlyEntities(s: string)
    ensures OnlyEntities(Escape(s))
  {
    if s != "" {
      EscapeLeavesOnlyEntities(s[1..]);
      var t := Escape(s[1..]);
      if s[0] == '&' && !IsEntity(s) {
        AmpIsEntity(t);
        assert ("&amp;" + t)[0..] == "&amp;" + t;
        PrependKeepsOnlyEntities("&amp;", t);
      } else {
        if s[0] == '&' {
          var end := Find(s, ";");
          EntityIsPlain(s);
          assert '&' !in s[1..end + 1];
          assert s[1..] == s[1..end + 1] + s[end + 1..];
          EscapeSkips(s[1..end + 1], s[end + 1..]);
          assert ([s[0]] + t)[..end + 1] == s[..end + 1];
          EntityByPrefix(s, [s[0]] + t);
          assert ([s[0]] + t)[0..] == [s[0]] + t;
        }
        PrependKeepsOnlyEntities([s[0]], t);
      }
    }
  }

  /** Text in which every ampersand begins an entity is left alone, and only such text. */
  lemma {:induction false} EscapeIdleIff(s: string)
    ensures Escape(s) == s <==> OnlyEntities(s)
    ensures |Escape(s)| >= |s|
  {
    if s != "" {
      EscapeIdleIff(s[1..]);
      assert s[0..] == s;
      assert forall i | 1 <= i < |s| :: s[1..][i - 1] == s[i] && s[1..][i - 1..] == s[i..];
      assert OnlyEntities(s) <==> (s[0] == '&' ==> IsEntity(s)) && OnlyEntities(s[1..]) by {
        if OnlyEntities(s) {
          forall i | 0 <= i < |s[1..]| && s[1..][i] == '&' ensures IsEntity(s[1..][i..]) {
            assert s[1..][i..] == s[i + 1..];
            assert s[i + 1] == '&';
          }
        }
      }
      if s[0] == '&' && !IsEntity(s) {
        assert |Escape(s)| > |s|;
      } else {
        assert Escape(s) == s <==> Escape(s[1..]) == s[1..] by {
          assert Escape(s)[1..] == Escape(s[1..]);
        }
      }
    }
  }

  lemma EscapeIsIdempotent(s: string)
    ensures Escape(Escape(s)) == Escape(s)
  {
    EscapeLeavesOnlyEntities(s);
    EscapeIdleIff(Escape(s));
  }
}
