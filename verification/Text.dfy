/** Identifier text: the ASCII case folding behind `str.lower()` / `str.upper()`. */
module Text {

  function LowerChar(c: char): char {
    if 'A' <= c <= 'Z' then (c as int + 32) as char else c
  }

  function UpperChar(c: char): char {
    if 'a' <= c <= 'z' then (c as int - 32) as char else c
  }

  function Lower(s: string): (r: string)
    ensures |r| == |s|
    ensures forall i :: 0 <= i < |s| ==> r[i] == LowerChar(s[i])
  {
    if s == "" then "" else [LowerChar(s[0])] + Lower(s[1..])
  }

  function Upper(s: string): (r: string)
    ensures |r| == |s|
    ensures forall i :: 0 <= i < |s| ==> r[i] == UpperChar(s[i])
  {
    if s == "" then "" else [UpperChar(s[0])] + Upper(s[1..])
  }

  /** `needle in haystack` on strings. */
  predicate Contains(haystack: string, needle: string) {
    |needle| <= |haystack| && (haystack[..|needle|] == needle || (haystack != "" && Contains(haystack[1..], needle)))
  }

  /** Each of the 26 letters has its counterpart; everything else is left alone. */
  lemma {:induction false} CaseExactly(c: char)
    ensures var large, small := "ABCDEFGHIJKLMNOPQRSTUVWXYZ", "abcdefghijklmnopqrstuvwxyz";
      && |large| == |small| == 26
      && (forall i :: 0 <= i < 26 ==> LowerChar(large[i]) == small[i] && UpperChar(small[i]) == large[i])
      && (c !in large ==> LowerChar(c) == c)
      && (c !in small ==> UpperChar(c) == c)
  {
    var large, small := "ABCDEFGHIJKLMNOPQRSTUVWXYZ", "abcdefghijklmnopqrstuvwxyz";
    if 'A' <= c <= 'Z' {
      assert large[c as int - 65] == c;
    }
    if 'a' <= c <= 'z' {
      assert small[c as int - 97] == c;
    }
  }

  lemma {:induction false} LowerAppend(a: string, b: string)
    ensures Lower(a + b) == Lower(a) + Lower(b)
  {
    forall i | 0 <= i < |a + b|
      ensures Lower(a + b)[i] == (Lower(a) + Lower(b))[i]
    {
      assert (a + b)[i] == if i < |a| then a[i] else b[i - |a|];
    }
  }

  lemma {:induction false} LowerTwice(s: string)
    ensures Lower(Lower(s)) == Lower(s)
  {
    assert forall i :: 0 <= i < |s| ==> Lower(Lower(s))[i] == Lower(s)[i];
  }
}
