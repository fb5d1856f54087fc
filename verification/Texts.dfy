/** Replacing one character of a text by a string. */
module Texts {

  function Replace(s: string, from: char, to: string): string {
    if s == "" then "" else (if s[0] == from then to else [s[0]]) + Replace(s[1..], from, to)
  }

  lemma {:induction false} ReplaceJoin(a: string, b: string, from: char, to: string)
    ensures Replace(a + b, from, to) == Replace(a, from, to) + Replace(b, from, to)
  {
    if a == "" {
      assert a + b == b;
    } else {
      assert (a + b)[1..] == a[1..] + b;
      ReplaceJoin(a[1..], b, from, to);
    }
  }

  lemma {:induction false} ReplaceShort(s: string, from: char, to: string)
    ensures |s| == 1 ==> Replace(s, from, to) == if s[0] == from then to else s
    ensures |s| == 2 ==>
              Replace(s, from, to) == (if s[0] == from then to else [s[0]]) + (if s[1] == from then to else [s[1]])
  {
    if |s| == 1 { assert s[1..] == ""; assert s == [s[0]]; }
    if |s| == 2 {
      assert s[1..][1..] == "";
      assert Replace(s[1..], from, to) == if s[1] == from then to else [s[1]];
    }
  }

  lemma {:induction false} ReplaceAbsent(s: string, from: char, to: string)
    requires from !in s
    ensures Replace(s, from, to) == s
  {
    if s != "" {
      ReplaceAbsent(s[1..], from, to);
      assert s == [s[0]] + s[1..];
    }
  }
}
