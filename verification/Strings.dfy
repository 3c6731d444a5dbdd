/** String functions of src/utils.c as functions on values: searching, replacing, and
    stripping delimited regions. */
module Strings {

  function ReplaceAt(s: string, pos: nat, len: nat, repl: string): string
    requires pos + len <= |s|
  {
    s[..pos] + repl + s[pos + len..]
  }

  /** `strstr`: the position of the first occurrence, or -1. */
  function Find(s: string, needle: string): (k: int)
    ensures -1 <= k && (k >= 0 ==> k + |needle| <= |s|)
  {
    if needle <= s then 0
    else if s == "" then -1
    else var k := Find(s[1..], needle); if k < 0 then -1 else k + 1
  }

  /** Leftmost, non-overlapping replacement; what was inserted is not looked at again. */
  function ReplaceAll(needle: string, repl: string, s: string): string {
    if needle == "" || s == "" then s
    else if needle <= s then repl + ReplaceAll(needle, repl, s[|needle|..])
    else [s[0]] + ReplaceAll(needle, repl, s[1..])
  }

  lemma {:induction false} FindIsFirst(s: string, needle: string)
    ensures var k := Find(s, needle);
            && (k >= 0 ==> needle <= s[k..] && forall j | 0 <= j < k :: !(needle <= s[j..]))
            && (k < 0 ==> forall j | 0 <= j <= |s| :: !(needle <= s[j..]))
  {
    assert s[0..] == s;
    if !(needle <= s) && s != "" {
      FindIsFirst(s[1..], needle);
      forall j | 1 <= j <= |s| ensures s[1..][j - 1..] == s[j..] { }
    }
  }

  lemma {:induction false} FindUnique(s: string, needle: string, k: nat)
    requires k <= |s| && needle <= s[k..]
    requires forall j | 0 <= j < k :: !(needle <= s[j..])
    ensures Find(s, needle) == k
  {
    FindIsFirst(s, needle);
  }

  lemma Regroup(a: string, b: string, c: string, d: string)
    ensures a + (b + c + d) == a + b + c + d
  {
  }

  lemma ReplaceAllLater(needle: string, repl: string, s: string, k: nat)
    requires needle != "" && s != "" && !(needle <= s) && k + |needle| <= |s[1..]|
    requires ReplaceAll(needle, repl, s[1..]) == s[1..][..k] + repl + ReplaceAll(needle, repl, s[1..][k + |needle|..])
    ensures ReplaceAll(needle, repl, s) == s[..k + 1] + repl + ReplaceAll(needle, repl, s[k + 1 + |needle|..])
  {
    assert s[..k + 1] == [s[0]] + s[1..][..k];
    assert s[1..][k + |needle|..] == s[k + 1 + |needle|..];
    Regroup([s[0]], s[1..][..k], repl, ReplaceAll(needle, repl, s[k + 1 + |needle|..]));
  }

  lemma ReplaceAllNow(needle: string, repl: string, s: string)
    requires needle != "" && needle <= s
    ensures ReplaceAll(needle, repl, s) == s[..0] + repl + ReplaceAll(needle, repl, s[0 + |needle|..])
  {
    assert s[..0] + repl == repl;
  }

  /** One step of the replacing loop. */
  lemma {:induction false} ReplaceAllStep(needle: string, repl: string, s: string)
    requires needle != ""
    ensures Find(s, needle) < 0 ==> ReplaceAll(needle, repl, s) == s
    ensures var k := Find(s, needle);
            k >= 0 ==> ReplaceAll(needle, repl, s) == s[..k] + repl + ReplaceAll(needle, repl, s[k + |needle|..])
  {
    if needle <= s {
      ReplaceAllNow(needle, repl, s);
    } else if s != "" {
      var k := Find(s[1..], needle);
      ReplaceAllStep(needle, repl, s[1..]);
      if k < 0 {
        assert [s[0]] + s[1..] == s;
      } else {
        assert Find(s, needle) == k + 1;
        ReplaceAllLater(needle, repl, s, k);
      }
    }
  }

  /** Text without the first character of the needle is left alone and does not hide a match. */
  lemma {:induction false} ReplaceAllSkips(needle: string, repl: string, x: string, y: string)
    requires needle != "" && needle[0] !in x
    ensures ReplaceAll(needle, repl, x + y) == x + ReplaceAll(needle, repl, y)
  {
    if x == "" {
      assert x + y == y;
    } else {
      assert (x + y)[0] == x[0] && (x + y)[1..] == x[1..] + y;
      ReplaceAllSkips(needle, repl, x[1..], y);
    }
  }

  lemma ReplaceAllIdle(needle: string, repl: string, x: string)
    requires needle != "" && needle[0] !in x
    ensures ReplaceAll(needle, repl, x) == x
  {
    ReplaceAllSkips(needle, repl, x, "");
    assert x + "" == x;
  }

  /** A match in front. */
  lemma ReplaceAllHit(needle: string, repl: string, y: string)
    requires needle != ""
    ensures ReplaceAll(needle, repl, needle + y) == repl + ReplaceAll(needle, repl, y)
  {
    assert (needle + y)[|needle|..] == y;
  }

  /** After replacing, the needle is gone where the replacement cannot bring it back. */
  lemma {:induction false} ReplacedCharIsGone(c: char, repl: string, s: string)
    requires c !in repl
    ensures c !in ReplaceAll([c], repl, s)
  {
    if s != "" {
      assert s[0] == c <==> [c] <= s;
      if [c] <= s {
        ReplacedCharIsGone(c, repl, s[|[c]|..]);
      } else {
        ReplacedCharIsGone(c, repl, s[1..]);
      }
    }
  }

  // ---------- stripping delimited regions ----------

  /** The variables of `string_strip_delimited`: what was written, how many delimiters are
      open, and the count used to put an unclosed tail back. */
  datatype Scan = Scan(out: string, open: nat, skip: nat)

  function ScanChar(st: Scan, c: char, a: char, b: char): Scan {
    var st' := if c == a then st.(open := st.open + 1)
               else if c == b && st.open > 0 then st.(open := st.open - 1)
               else if st.open == 0 then st.(out := st.out + [c], skip := 0)
               else st;
    if st'.open > 0 then st'.(skip := st'.skip + 1) else st'
  }

  /** The variables after `i` characters. */
  function ScanTo(s: string, a: char, b: char, i: nat): (st: Scan)
    requires i <= |s|
    ensures |st.out| + st.skip <= i
    ensures st.open > 0 ==> st.skip > 0
  {
    if i == 0 then Scan("", 0, 0) else ScanChar(ScanTo(s, a, b, i - 1), s[i - 1], a, b)
  }

  /** `string_strip_delimited` */
  function StripDelimited(s: string, a: char, b: char): string {
    var st := ScanTo(s, a, b, |s|);
    if st.open > 0 then st.out + s[|s| - st.skip..] else st.out
  }

  /** The text outside all delimiters, without any bookkeeping. */
  function Outside(s: string, a: char, b: char, open: nat): string {
    if s == "" then ""
    else if s[0] == a then Outside(s[1..], a, b, open + 1)
    else if s[0] == b && open > 0 then Outside(s[1..], a, b, open - 1)
    else if open == 0 then [s[0]] + Outside(s[1..], a, b, open)
    else Outside(s[1..], a, b, open)
  }

  function DepthAfter(s: string, a: char, b: char, open: nat): nat {
    if s == "" then open
    else if s[0] == a then DepthAfter(s[1..], a, b, open + 1)
    else if s[0] == b && open > 0 then DepthAfter(s[1..], a, b, open - 1)
    else DepthAfter(s[1..], a, b, open)
  }

  /** Where the region that is open after `i` characters begins. */
  function OpenedAt(s: string, a: char, b: char, i: nat): (p: nat)
    requires i <= |s|
    ensures p <= i
  {
    if i == 0 then 0
    else if s[i - 1] == a && DepthAfter(s[..i - 1], a, b, 0) == 0 then i - 1
    else OpenedAt(s, a, b, i - 1)
  }

  /** What stripping is for: drop what is delimited, keep an unclosed tail as it is. */
  function Stripped(s: string, a: char, b: char): string {
    if DepthAfter(s, a, b, 0) == 0 then Outside(s, a, b, 0)
    else var p := OpenedAt(s, a, b, |s|); Outside(s[..p], a, b, 0) + s[p..]
  }

  /** An unclosed region begins right where a closed one ended. */
  predicate TailTouchesRegion(s: string, a: char, b: char) {
    && DepthAfter(s, a, b, 0) > 0
    && var p := OpenedAt(s, a, b, |s|);
       p > 0 && DepthAfter(s[..p - 1], a, b, 0) > 0
  }

  lemma {:induction false} DepthSnoc(s: string, c: char, a: char, b: char, open: nat)
    ensures var d := DepthAfter(s, a, b, open);
            && DepthAfter(s + [c], a, b, open)
               == (if c == a then d + 1 else if c == b && d > 0 then d - 1 else d)
            && Outside(s + [c], a, b, open)
               == Outside(s, a, b, open) + (if d == 0 && c != a then [c] else "")
  {
    if s == "" {
      assert s + [c] == [c];
      assert [c][1..] == "";
    } else {
      var open' := if s[0] == a then open + 1 else if s[0] == b && open > 0 then open - 1 else open;
      assert (s + [c])[0] == s[0] && (s + [c])[1..] == s[1..] + [c];
      DepthSnoc(s[1..], c, a, b, open');
    }
  }

  /** The scanner writes the outside text, and its count is the length of the open region
      plus whatever was left over when that region began. */
  lemma {:induction false} ScanMeaning(s: string, a: char, b: char, i: nat)
    requires i <= |s|
    ensures var st, p := ScanTo(s, a, b, i), OpenedAt(s, a, b, i);
            && st.open == DepthAfter(s[..i], a, b, 0)
            && st.out == Outside(s[..i], a, b, 0)
            && (st.open > 0 ==>
                  && p < i && ScanTo(s, a, b, p).open == 0
                  && st.skip == i - p + ScanTo(s, a, b, p).skip
                  && st.out == ScanTo(s, a, b, p).out)
  {
    if i > 0 {
      ScanMeaning(s, a, b, i - 1);
      assert s[..i] == s[..i - 1] + [s[i - 1]];
      DepthSnoc(s[..i - 1], s[i - 1], a, b, 0);
    }
  }

  /** The leftover is nothing exactly when the character before was written. */
  lemma LeftoverMeaning(s: string, a: char, b: char, p: nat)
    requires p <= |s| && ScanTo(s, a, b, p).open == 0
    ensures ScanTo(s, a, b, p).skip == 0 <==> p == 0 || ScanTo(s, a, b, p - 1).open == 0
  {
  }

  /** The program strips as intended exactly when no unclosed region directly follows a
      closed one; in that case its tail count is too large. */
  lemma StripIsRightIff(s: string, a: char, b: char)
    ensures StripDelimited(s, a, b) == Stripped(s, a, b) <==> !TailTouchesRegion(s, a, b)
  {
    ScanMeaning(s, a, b, |s|);
    assert s[..|s|] == s;
    var st, p := ScanTo(s, a, b, |s|), OpenedAt(s, a, b, |s|);
    if st.open > 0 {
      ScanMeaning(s, a, b, p);
      LeftoverMeaning(s, a, b, p);
      if p > 0 { ScanMeaning(s, a, b, p - 1); }
      assert |StripDelimited(s, a, b)| == |st.out| + st.skip;
      assert |Stripped(s, a, b)| == |st.out| + |s| - p;
    }
  }

  /** The smallest kind of input on which it goes wrong. */
  lemma StripGoesWrong()
    ensures StripDelimited("<i><b", '<', '>') == "i><b" && Stripped("<i><b", '<', '>') == "<b"
  {
    var s := "<i><b";
    assert ScanTo(s, '<', '>', 1) == Scan("", 1, 1);
    assert ScanTo(s, '<', '>', 2) == Scan("", 1, 2);
    assert ScanTo(s, '<', '>', 3) == Scan("", 0, 2);
    assert ScanTo(s, '<', '>', 4) == Scan("", 1, 3);
    assert ScanTo(s, '<', '>', 5) == Scan("", 1, 4);
    StripIsRightIff(s, '<', '>');
    ScanMeaning(s, '<', '>', 5);
    assert s[..5] == s;
    ScanMeaning(s, '<', '>', 3);
    assert OpenedAt(s, '<', '>', 5) == 3 by {
      assert OpenedAt(s, '<', '>', 5) == OpenedAt(s, '<', '>', 4);
      assert s[..3] == "<i>";
    }
  }

  lemma {:induction false} ScanIdle(s: string, a: char, b: char, i: nat)
    requires a !in s && i <= |s|
    ensures ScanTo(s, a, b, i) == Scan(s[..i], 0, 0)
  {
    if i > 0 {
      ScanIdle(s, a, b, i - 1);
      assert s[..i] == s[..i - 1] + [s[i - 1]];
    }
  }

  /** Text without an opening delimiter is left alone. */
  lemma StripIdle(s: string, a: char, b: char)
    requires a !in s
    ensures StripDelimited(s, a, b) == s
  {
    ScanIdle(s, a, b, |s|);
    assert s[..|s|] == s;
  }
}
