/** The positions at which text may be dropped: exactly those between two characters of the document. */
module SqlCursor {

  import opened Octets
  import opened Options
  import opened Utf8
  import opened SqlText

  /** The bytes of a character, as in section 3 of RFC 3629. */
  function EncodeChar(c: char): (r: Text)
    ensures |r| == Width(c)
    ensures !(128 <= r[0] < 192) && forall i | 1 <= i < |r| :: 128 <= r[i] < 192
  {
    var n := c as int;
    if n < 0x80 then [n]
    else if n < 0x800 then [0xC0 + n / 64, 0x80 + n % 64]
    else if n < 0x1_0000 then [0xE0 + n / 4096, 0x80 + n / 64 % 64, 0x80 + n % 64]
    else [0xF0 + n / 262144, 0x80 + n / 4096 % 64, 0x80 + n / 64 % 64, 0x80 + n % 64]
  }

  function Encode(s: string): Text {
    if s == [] then [] else Encode(s[..|s| - 1]) + EncodeChar(s[|s| - 1])
  }

  lemma {:induction false} EncodedBytes(s: string)
    ensures |Encode(s)| == Bytes(s)
  {
    if s != [] { EncodedBytes(s[..|s| - 1]); }
  }

  ghost predicate BetweenCharacters(s: string, i: nat) {
    exists k | 0 <= k <= |s| :: |Encode(s[..k])| == i
  }

  /** Positions up to the last character are those of the text before it. */
  lemma {:induction false} BeforeLast(s: string, i: nat)
    requires s != [] && i < |Encode(s)|
    ensures i < |Encode(s[..|s| - 1])| ==> (BetweenCharacters(s, i) <==> BetweenCharacters(s[..|s| - 1], i))
    ensures i >= |Encode(s[..|s| - 1])| ==> (BetweenCharacters(s, i) <==> i == |Encode(s[..|s| - 1])|)
  {
    hide EncodeChar; hide Encode;
    var n := |s| - 1;
    var init := s[..n];
    assert s[..|s|] == s;
    forall k | 0 <= k <= n ensures init[..k] == s[..k] {}
    if BetweenCharacters(s, i) {
      var k :| 0 <= k <= |s| && |Encode(s[..k])| == i;
      assert k <= n;
      PrefixShorter(s, k, n);
      assert |Encode(init[..k])| == i;
    }
    if BetweenCharacters(init, i) {
      var k :| 0 <= k <= n && |Encode(init[..k])| == i;
      assert |Encode(s[..k])| == i;
    }
    if i == |Encode(init)| { assert |Encode(s[..n])| == i; }
  }

  lemma {:induction false} BoundaryIn(s: string, i: nat)
    requires i < |Encode(s)|
    ensures !(128 <= Encode(s)[i] < 192) <==> BetweenCharacters(s, i)
  {
    hide EncodeChar; hide BetweenCharacters;
    var n := |s| - 1;
    BeforeLast(s, i);
    if i < |Encode(s[..n])| {
      BoundaryIn(s[..n], i);
    } else {
      assert Encode(s)[i] == EncodeChar(s[n])[i - |Encode(s[..n])|];
    }
  }

  lemma {:induction false} PrefixShorter(s: string, k: nat, m: nat)
    requires k <= m <= |s|
    ensures |Encode(s[..k])| <= |Encode(s[..m])|
    decreases m
  {
    if k < m {
      assert s[..m][..m - 1] == s[..m - 1];
      PrefixShorter(s, k, m - 1);
    }
  }

  /** In a document of whole characters a cursor is accepted exactly between two of them. */
  lemma {:induction false} CursorBetweenCharacters(s: string, i: nat)
    ensures CharBoundary(Encode(s), i) <==> BetweenCharacters(s, i)
  {
    assert s[..0] == [] && s[..|s|] == s;
    if 0 < i < |Encode(s)| {
      BoundaryIn(s, i);
    } else if i > |Encode(s)| && BetweenCharacters(s, i) {
      var k :| 0 <= k <= |s| && |Encode(s[..k])| == i;
      PrefixShorter(s, k, |s|);
    } else {
      assert i == 0 ==> |Encode(s[..0])| == i;
      assert i == |Encode(s)| ==> |Encode(s[..|s|])| == i;
    }
  }
}
