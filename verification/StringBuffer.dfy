/** The same functions as src/utils.c runs them, on NUL-terminated buffers: in place when
    the text does not grow, in a new buffer when it does. */
module StringBuffer {
  import opened Strings

  /** The buffer holds the C string `s`. */
  ghost predicate Holds(a: array<char>, s: string)
    reads a
  {
    '\0' !in s && |s| < a.Length && a[..|s|] == s && a[|s|] == '\0'
  }

  /** `g_strdup` */
  method Duplicate(s: string) returns (a: array<char>)
    requires '\0' !in s
    ensures fresh(a) && Holds(a, s)
  {
    a := new char[|s| + 1](i => '\0');
    forall i | 0 <= i < |s| { a[i] := s[i]; }
    a[|s|] := '\0';
    assert a[..|s|] == s;
  }

  /** `strlen` */
  method StrLen(a: array<char>, ghost s: string) returns (n: nat)
    requires Holds(a, s)
    ensures n == |s|
  {
    assert forall i | 0 <= i < |s| :: a[i] == a[..|s|][i] == s[i];
    n := 0;
    while a[n] != '\0'
      invariant n <= |s|
      decreases |s| - n
    {
      n := n + 1;
    }
  }

  /** `strstr` from a position on: an index into the buffer, or -1. */
  method StrStr(a: array<char>, ghost s: string, from: nat, needle: string) returns (at: int)
    requires Holds(a, s) && from <= |s| && needle != ""
    ensures var k := Find(s[from..], needle); at == if k < 0 then -1 else from + k
  {
    var n := StrLen(a, s);
    assert a[..n] == s;
    var i := from;
    while i + |needle| <= n
      invariant from <= i <= n
      invariant forall j | 0 <= j < i - from :: !(needle <= s[from..][j..])
    {
      assert s[from..][i - from..] == s[i..];
      assert a[i..i + |needle|] == s[i..][..|needle|];
      if a[i..i + |needle|] == needle {
        FindUnique(s[from..], needle, i - from);
        return i;
      }
      i := i + 1;
    }
    FindIsFirst(s[from..], needle);
    return -1;
  }

  lemma HoldsByIndex(a: array<char>, t: string)
    requires '\0' !in t && |t| < a.Length && a[|t|] == '\0'
    requires forall i | 0 <= i < |t| :: a[i] == t[i]
    ensures Holds(a, t)
  {
    assert a[..|t|] == t;
  }

  /** The copying in `string_replace_at`: the replacement, then everything behind the
      replaced part, which may overlap its old place. */
  method CopyParts(buf: array<char>, tmp: array<char>, ghost s: string, pos: nat, len: nat, repl: string, bufLen: nat)
    requires Holds(buf, s) && bufLen == |s| && pos + len <= |s| && '\0' !in repl
    requires |s| - len + |repl| < tmp.Length && forall i | 0 <= i < pos :: tmp[i] == s[i]
    requires tmp == buf ==> |repl| <= len
    modifies tmp
    ensures Holds(tmp, ReplaceAt(s, pos, len, repl))
  {
    assert forall i | pos + len <= i < |s| :: buf[..|s|][i] == s[i];
    var replLen := |repl|;
    forall i | 0 <= i < replLen { tmp[pos + i] := repl[i]; }
    assert forall i | pos + len <= i <= |s| :: buf[i] == if i < |s| then s[i] else '\0';
    // memmove
    forall i | 0 <= i < bufLen - (pos + len) + 1 { tmp[pos + replLen + i] := buf[pos + len + i]; }
    ghost var t := ReplaceAt(s, pos, len, repl);
    assert tmp[pos + replLen + (bufLen - (pos + len))] == '\0';
    forall i | 0 <= i < |t| ensures tmp[i] == t[i] {
      if i >= pos + replLen { assert tmp[pos + replLen + (i - (pos + replLen))] == t[i]; }
    }
    HoldsByIndex(tmp, t);
  }

  /** `string_replace_at` */
  method StringReplaceAt(buf: array<char>, ghost s: string, pos: nat, len: nat, repl: string) returns (tmp: array<char>)
    requires Holds(buf, s) && pos + len <= |s| && '\0' !in repl
    modifies buf
    ensures Holds(tmp, ReplaceAt(s, pos, len, repl))
    ensures if |repl| <= len then tmp == buf else fresh(tmp)
  {
    var bufLen := StrLen(buf, s);
    assert forall i | 0 <= i < pos :: buf[..|s|][i] == s[i];
    if |repl| <= len {
      tmp := buf;
    } else {
      tmp := new char[bufLen - len + |repl| + 1];
      forall i | 0 <= i < pos { tmp[i] := buf[i]; }
    }
    CopyParts(buf, tmp, s, pos, len, repl, bufLen);
  }

  /** What one turn of the replacing loop does to the text: `done` is final, `rest` is
      still to be searched. */
  lemma ReplaceTurn(needle: string, repl: string, done: string, rest: string, k: nat)
    returns (done': string, rest': string)
    requires needle != "" && Find(rest, needle) == k
    ensures ReplaceAt(done + rest, |done| + k, |needle|, repl) == done' + rest'
    ensures done' + ReplaceAll(needle, repl, rest') == done + ReplaceAll(needle, repl, rest)
    ensures |done'| == |done| + k + |repl| && (done' + rest')[|done'|..] == rest' && |rest'| < |rest|
  {
    done', rest' := done + rest[..k] + repl, rest[k + |needle|..];
    ReplaceAllStep(needle, repl, rest);
    Splice(done, rest, k, |needle|, repl);
    Regroup(done, rest[..k], repl, ReplaceAll(needle, repl, rest'));
  }

  lemma Splice(done: string, rest: string, k: nat, len: nat, repl: string)
    requires k + len <= |rest|
    ensures ReplaceAt(done + rest, |done| + k, len, repl) == done + rest[..k] + repl + rest[k + len..]
    ensures (done + rest[..k] + repl + rest[k + len..])[|done + rest[..k] + repl|..] == rest[k + len..]
  {
    assert (done + rest)[..|done| + k] == done + rest[..k];
    assert (done + rest)[|done| + k + len..] == rest[k + len..];
  }

  /** The body of the replacing loop: replace, then search behind what was inserted. */
  method ReplaceNext(needle: string, repl: string, haystack: array<char>, ghost done: string, ghost rest: string,
                     start: nat)
    returns (tmp: array<char>, next: int, ghost done': string, ghost rest': string)
    requires Holds(haystack, done + rest) && needle != "" && '\0' !in repl
    requires start == |done| + Find(rest, needle) && Find(rest, needle) >= 0
    modifies haystack
    ensures tmp == haystack || fresh(tmp)
    ensures |rest'| < |rest| && Holds(tmp, done' + rest')
    ensures done' + ReplaceAll(needle, repl, rest') == done + ReplaceAll(needle, repl, rest)
    ensures next == if Find(rest', needle) < 0 then -1 else |done'| + Find(rest', needle)
  {
    ghost var k := Find(rest, needle);
    done', rest' := ReplaceTurn(needle, repl, done, rest, k);
    tmp := StringReplaceAt(haystack, done + rest, start, |needle|, repl);
    next := StrStr(tmp, done' + rest', start + |repl|, needle);
  }

  /** `string_replace_all` */
  method StringReplaceAll(needle: string, replacement: string, buf: array<char>, ghost s: string)
    returns (haystack: array<char>)
    requires Holds(buf, s) && '\0' !in replacement
    modifies buf
    ensures Holds(haystack, ReplaceAll(needle, replacement, s))
    ensures haystack == buf || fresh(haystack)
  {
    haystack := buf;
    if |needle| == 0 { return; }
    // `done` is final, `rest` is still to be searched.
    ghost var done, rest := "", s;
    ghost var goal := ReplaceAll(needle, replacement, s);
    assert done + rest == s && done + goal == goal && s[0..] == s;
    var start := StrStr(haystack, s, 0, needle);
    while start >= 0
      invariant Holds(haystack, done + rest)
      invariant haystack == buf || fresh(haystack)
      invariant goal == done + ReplaceAll(needle, replacement, rest)
      invariant start == if Find(rest, needle) < 0 then -1 else |done| + Find(rest, needle)
      decreases |rest|
    {
      haystack, start, done, rest := ReplaceNext(needle, replacement, haystack, done, rest, start);
    }
    ReplaceAllStep(needle, replacement, rest);
  }

  /** The reading loop of `string_strip_delimited`; it writes behind its own position. */
  method ScanInPlace(str: array<char>, ghost s: string, a: char, b: char)
    returns (read: nat, write: nat, open: nat, skip: nat)
    requires Holds(str, s)
    modifies str
    ensures read == |s| && write + skip <= read
    ensures ScanTo(s, a, b, |s|) == Scan(str[..write], open, skip)
    ensures forall i | read - skip <= i < |s| :: str[i] == s[i]
  {
    assert forall i | 0 <= i < |s| :: str[i] == str[..|s|][i] == s[i];
    read, write, open, skip := 0, 0, 0, 0;
    while str[read] != '\0'
      invariant read <= |s| && write + skip <= read
      invariant ScanTo(s, a, b, read) == Scan(str[..write], open, skip)
      invariant forall i | read - skip <= i < |s| :: str[i] == s[i]
      invariant str[|s|] == '\0'
      decreases |s| - read
    {
      ghost var out, c := str[..write], s[read];
      if str[read] == a {
        open := open + 1;
      } else if str[read] == b && open > 0 {
        open := open - 1;
      } else if open == 0 {
        skip := 0;
        str[write] := str[read];
        write := write + 1;
        assert str[..write] == out + [c];
      }
      if open > 0 {
        skip := skip + 1;
      }
      read := read + 1;
    }
  }

  /** The second loop puts an unclosed tail back; source and target may overlap. */
  method PutBack(str: array<char>, ghost s: string, from: nat, to: nat, skip: nat)
    requires to <= from && from + skip == |s| < str.Length
    requires forall i | from <= i < |s| :: str[i] == s[i]
    modifies str
    ensures str[..to + skip] == old(str[..to]) + s[from..]
  {
    var read, write, i := from, to, 0;
    while i < skip
      invariant 0 <= i <= skip && read == from + i && write == to + i
      invariant forall j | 0 <= j < to :: str[j] == old(str[j])
      invariant forall j | to <= j < write :: str[j] == s[from + (j - to)]
      invariant forall j | read <= j < |s| :: str[j] == s[j]
    {
      str[write] := str[read];
      write, read := write + 1, read + 1;
      i := i + 1;
    }
  }

  /** `string_strip_delimited` */
  method StringStripDelimited(str: array<char>, ghost s: string, a: char, b: char)
    requires Holds(str, s)
    modifies str
    ensures Holds(str, StripDelimited(s, a, b))
  {
    var read, write, open, skip := ScanInPlace(str, s, a, b);
    if open > 0 {
      PutBack(str, s, read - skip, write, skip);
      write := write + skip;
    }
    NoNewNul(s, a, b);
    Terminate(str, write, StripDelimited(s, a, b));
  }

  method Terminate(str: array<char>, write: nat, ghost r: string)
    requires write < str.Length && str[..write] == r && '\0' !in r
    modifies str
    ensures Holds(str, r)
  {
    str[write] := '\0';
    assert str[..write] == r;
  }

  lemma NoNewNul(s: string, a: char, b: char)
    requires '\0' !in s
    ensures '\0' !in StripDelimited(s, a, b)
  {
    if '\0' in StripDelimited(s, a, b) { OnlyOldChars(s, a, b, '\0'); }
  }

  lemma {:induction false} OnlyScanned(s: string, a: char, b: char, i: nat, c: char)
    requires i <= |s| && c in ScanTo(s, a, b, i).out
    ensures c in s
  {
    if i > 0 && c in ScanTo(s, a, b, i - 1).out {
      OnlyScanned(s, a, b, i - 1, c);
    }
  }

  lemma OnlyOldChars(s: string, a: char, b: char, c: char)
    requires c in StripDelimited(s, a, b)
    ensures c in s
  {
    if c in ScanTo(s, a, b, |s|).out { OnlyScanned(s, a, b, |s|, c); }
  }
}
