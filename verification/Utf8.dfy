/** Byte lengths of UTF-8 text and truncation at a character boundary. */
module Utf8 {

  function Width(c: char): (n: nat)
    ensures 1 <= n <= 4
  {
    if c as int < 0x80 then 1 else if c as int < 0x800 then 2 else if c as int < 0x1_0000 then 3 else 4
  }

  function Bytes(s: string): nat {
    if s == [] then 0 else Bytes(s[..|s| - 1]) + Width(s[|s| - 1])
  }

  /** The longest prefix of at most `limit` bytes. */
  function Truncated(s: string, limit: nat): (t: string)
    ensures t <= s && Bytes(t) <= limit
    ensures Bytes(s) <= limit ==> t == s
  {
    if Bytes(s) <= limit then s else Truncated(s[..|s| - 1], limit)
  }

  lemma {:induction false} BytesMonotone(s: string, k: nat, m: nat)
    requires k <= m <= |s|
    ensures Bytes(s[..k]) + (m - k) <= Bytes(s[..m])
    decreases m
  {
    if k < m {
      BytesMonotone(s, k, m - 1);
      assert s[..m][..m - 1] == s[..m - 1];
    }
  }

  /** A truncation never cuts more than a character's worth of bytes below its limit. */
  lemma {:induction false} TruncatedIsLongest(s: string, limit: nat, k: nat)
    requires k <= |s| && Bytes(s[..k]) <= limit
    ensures k <= |Truncated(s, limit)|
  {
    if Bytes(s) > limit {
      assert s[..|s|] == s;
      assert k < |s|;
      assert s[..|s| - 1][..k] == s[..k];
      TruncatedIsLongest(s[..|s| - 1], limit, k);
    }
  }

  lemma {:induction false} TruncatedNotEmpty(s: string, limit: nat)
    requires s != [] && 4 <= limit
    ensures Truncated(s, limit) != []
  {
    assert s[..1][..0] == [];
    TruncatedIsLongest(s, limit, 1);
  }

  // ---------- the byte-index loop of the source ----------

  /** Byte `b` of the encoding of `s` starts a character, or ends the text. */
  predicate IsCharBoundary(s: string, b: nat) {
    exists k | 0 <= k <= |s| :: Bytes(s[..k]) == b
  }

  method FloorCharBoundary(s: string, limit: nat) returns (b: nat)
    ensures b == Bytes(Truncated(s, limit))
  {
    if limit >= Bytes(s) {
      return Bytes(s);
    }
    b := limit;
    ghost var t := Truncated(s, limit);
    assert t == s[..|t|];
    while b > 0 && !IsCharBoundary(s, b)
      invariant Bytes(t) <= b <= limit
    {
      b := b - 1;
    }
    if b > 0 {
      ghost var k :| 0 <= k <= |s| && Bytes(s[..k]) == b;
      TruncatedIsLongest(s, limit, k);
      BytesMonotone(s, k, |t|);
    }
  }
}
