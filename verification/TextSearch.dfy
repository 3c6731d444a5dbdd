/** Where a text is found in the concatenation of two. */
module TextSearch {
  import opened Strings

  lemma NotFound(s: string, needle: string)
    requires needle != "" && forall j | 0 <= j < |s| :: !(needle <= s[j..])
    ensures Find(s, needle) < 0
  {
    FindIsFirst(s, needle);
    if Find(s, needle) >= 0 {
      assert needle <= s[Find(s, needle)..];
    }
  }

  /** What a match says about one character. */
  lemma MatchedChar(s: string, needle: string, j: nat, i: nat)
    requires j <= |s| && i < |needle|
    ensures needle <= s[j..] ==> j + i < |s| && s[j + i] == needle[i]
  {
    assert needle <= s[j..] ==> |needle| <= |s[j..]| && s[j..][i] == needle[i];
  }

  lemma CharAbsent(s: string, needle: string)
    requires needle != "" && needle[0] !in s
    ensures Find(s, needle) < 0
  {
    forall j | 0 <= j < |s| ensures !(needle <= s[j..]) {
      MatchedChar(s, needle, j, 0);
    }
    NotFound(s, needle);
  }

  lemma MatchInside(x: string, y: string, needle: string, j: nat)
    requires j + |needle| <= |x|
    ensures needle <= (x + y)[j..] ==> needle <= x[j..]
  {
    assert (x + y)[j..] == x[j..] + y;
    assert (x + y)[j..][..|needle|] == x[j..][..|needle|];
  }

  /** A match can begin in one text and end in the next only with the last character of the one and
      the first of the other inside the needle. */
  lemma NoMatchAcross(x: string, y: string, needle: string)
    requires needle != "" && Find(x, needle) < 0
    requires || (x != "" && x[|x| - 1] !in needle[..|needle| - 1])
             || (y != "" && y[0] !in needle[1..])
    ensures forall j | 0 <= j < |x| :: !(needle <= (x + y)[j..])
  {
    FindIsFirst(x, needle);
    forall j | 0 <= j < |x| ensures !(needle <= (x + y)[j..]) {
      if j + |needle| <= |x| {
        MatchInside(x, y, needle, j);
      } else {
        var k := |x| - 1 - j;
        assert needle[..|needle| - 1][k] == needle[k] && needle[1..][k] == needle[k + 1];
        MatchedChar(x + y, needle, j, k);
        MatchedChar(x + y, needle, j, k + 1);
      }
    }
  }

  lemma FindBehind(x: string, y: string, needle: string)
    requires needle != "" && needle[0] !in needle[1..] && Find(x, needle) < 0 && needle <= y
    ensures Find(x + y, needle) == |x|
  {
    NoMatchAcross(x, y, needle);
    assert (x + y)[|x|..] == y;
    FindUnique(x + y, needle, |x|);
  }

  lemma FindNowhere(x: string, y: string, needle: string)
    requires needle != "" && Find(x, needle) < 0 && Find(y, needle) < 0
    requires || (x != "" && x[|x| - 1] !in needle[..|needle| - 1])
             || (y != "" && y[0] !in needle[1..])
    ensures Find(x + y, needle) < 0
  {
    NoMatchAcross(x, y, needle);
    FindIsFirst(y, needle);
    forall j | |x| <= j < |x + y| ensures !(needle <= (x + y)[j..]) {
      assert (x + y)[j..] == y[j - |x|..];
    }
    NotFound(x + y, needle);
  }

  lemma ShorterMatches(needle: string, more: string, s: string)
    ensures needle + more <= s ==> needle <= s
  {
  }

  lemma LongerNotFound(s: string, needle: string, more: string)
    requires needle != "" && Find(s, needle) < 0
    ensures Find(s, needle + more) < 0
  {
    FindIsFirst(s, needle);
    forall j | 0 <= j < |s| ensures !(needle + more <= s[j..]) {
      ShorterMatches(needle, more, s[j..]);
    }
    NotFound(s, needle + more);
  }
}
