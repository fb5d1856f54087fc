/**
 Strict total orders, the lexicographic order they give on sequences, and sorting by them. The order
 is a parameter because strings, key values and row keys all need it.
 */
module Ordering {

  ghost predicate StrictTotal<T(!new)>(less: (T, T) -> bool) {
    && (forall x :: !less(x, x))
    && (forall x, y, z :: less(x, y) && less(y, z) ==> less(x, z))
    && (forall x, y :: less(x, y) || x == y || less(y, x))
  }

  predicate LexLess<T(==)>(less: (T, T) -> bool, a: seq<T>, b: seq<T>) {
    if b == [] then false
    else if a == [] then true
    else less(a[0], b[0]) || (a[0] == b[0] && LexLess(less, a[1..], b[1..]))
  }

  lemma {:induction false} LexIrreflexive<T(!new)>(less: (T, T) -> bool, a: seq<T>)
    requires StrictTotal(less)
    ensures !LexLess(less, a, a)
  {
    if a != [] { LexIrreflexive(less, a[1..]); }
  }

  lemma {:induction false} LexTransitive<T(!new)>(less: (T, T) -> bool, a: seq<T>, b: seq<T>, c: seq<T>)
    requires StrictTotal(less) && LexLess(less, a, b) && LexLess(less, b, c)
    ensures LexLess(less, a, c)
  {
    if a != [] && a[0] == b[0] && b[0] == c[0] { LexTransitive(less, a[1..], b[1..], c[1..]); }
  }

  lemma {:induction false} LexTotal<T(!new)>(less: (T, T) -> bool, a: seq<T>, b: seq<T>)
    requires StrictTotal(less)
    ensures LexLess(less, a, b) || a == b || LexLess(less, b, a)
  {
    if a != [] && b != [] && a[0] == b[0] {
      LexTotal(less, a[1..], b[1..]);
      assert a == [a[0]] + a[1..] && b == [b[0]] + b[1..];
    }
  }

  /** At the first place where they differ the first is less, or it ends before the second. */
  ghost predicate LessFrom<T>(less: (T, T) -> bool, a: seq<T>, b: seq<T>, k: nat) {
    && k <= |a| && k <= |b| && a[..k] == b[..k]
    && k < |b| && (k == |a| || less(a[k], b[k]))
  }

  lemma {:induction false} LexMeans<T(!new)>(less: (T, T) -> bool, a: seq<T>, b: seq<T>)
    ensures LexLess(less, a, b) <==> exists k: nat :: LessFrom(less, a, b, k)
  {
    if a == [] || b == [] {
      assert b != [] ==> LessFrom(less, a, b, 0);
    } else {
      LexMeans(less, a[1..], b[1..]);
      if less(a[0], b[0]) { assert LessFrom(less, a, b, 0); }
      if a[0] == b[0] && LexLess(less, a[1..], b[1..]) {
        var k: nat :| LessFrom(less, a[1..], b[1..], k);
        assert a[..k + 1] == [a[0]] + a[1..][..k] && b[..k + 1] == [b[0]] + b[1..][..k];
        assert LessFrom(less, a, b, k + 1);
      }
      if k: nat :| LessFrom(less, a, b, k) && k > 0 {
        assert a[..k][0] == a[0] && b[..k][0] == b[0];
        assert a[..k] == [a[0]] + a[1..][..k - 1] && b[..k] == [b[0]] + b[1..][..k - 1];
        assert a[..k][1..] == b[..k][1..];
        assert LessFrom(less, a[1..], b[1..], k - 1);
      }
    }
  }

  // ---------- text ----------

  predicate CharLess(a: char, b: char) { a < b }

  /** Byte-wise order of UTF-8 text, which is the order of its code points. */
  predicate TextLess(a: string, b: string) { LexLess(CharLess, a, b) }

  lemma {:induction false} TextStrictTotal()
    ensures StrictTotal(TextLess)
  {
    forall a ensures !TextLess(a, a) { LexIrreflexive(CharLess, a); }
    forall a, b, c | TextLess(a, b) && TextLess(b, c) ensures TextLess(a, c) { LexTransitive(CharLess, a, b, c); }
    forall a, b ensures TextLess(a, b) || a == b || TextLess(b, a) { LexTotal(CharLess, a, b); }
  }

  // ---------- sorting ----------

  ghost predicate Sorted<T>(less: (T, T) -> bool, s: seq<T>) {
    forall i, j | 0 <= i < j < |s| :: !less(s[j], s[i])
  }

  ghost predicate StrictlySorted<T>(less: (T, T) -> bool, s: seq<T>) {
    forall i, j | 0 <= i < j < |s| :: less(s[i], s[j])
  }

  function Insert<T>(less: (T, T) -> bool, x: T, s: seq<T>): seq<T> {
    if s == [] || less(x, s[0]) then [x] + s else [s[0]] + Insert(less, x, s[1..])
  }

  function Sort<T>(less: (T, T) -> bool, s: seq<T>): seq<T> {
    if s == [] then [] else Insert(less, s[0], Sort(less, s[1..]))
  }

  lemma {:induction false} InsertContents<T>(less: (T, T) -> bool, x: T, s: seq<T>)
    ensures multiset(Insert(less, x, s)) == multiset(s) + multiset{x}
  {
    if s == [] || less(x, s[0]) {
    } else {
      InsertContents(less, x, s[1..]);
      assert s == [s[0]] + s[1..];
    }
  }

  lemma {:induction false} SortContents<T>(less: (T, T) -> bool, s: seq<T>)
    ensures multiset(Sort(less, s)) == multiset(s)
  {
    if s != [] {
      SortContents(less, s[1..]);
      InsertContents(less, s[0], Sort(less, s[1..]));
      assert s == [s[0]] + s[1..];
    }
  }

  lemma {:induction false} InsertSorts<T(!new)>(less: (T, T) -> bool, x: T, s: seq<T>)
    requires StrictTotal(less) && Sorted(less, s)
    ensures Sorted(less, Insert(less, x, s))
  {
    if s == [] || less(x, s[0]) {
      forall j | 0 <= j < |s| ensures !less(s[j], x) {
        assert s != [] && (j == 0 || !less(s[j], s[0]));
      }
    } else {
      InsertSorts(less, x, s[1..]);
      InsertContents(less, x, s[1..]);
      var rest := Insert(less, x, s[1..]);
      forall j | 0 <= j < |rest| ensures !less(rest[j], s[0]) {
        assert rest[j] in multiset(rest);
        assert rest[j] == x || rest[j] in s[1..];
      }
    }
  }

  lemma {:induction false} SortSorts<T(!new)>(less: (T, T) -> bool, s: seq<T>)
    requires StrictTotal(less)
    ensures Sorted(less, Sort(less, s))
  {
    if s != [] {
      SortSorts(less, s[1..]);
      InsertSorts(less, s[0], Sort(less, s[1..]));
    }
  }

  /** Strictly sorted sequences are determined by the set of their elements. */
  lemma {:induction false} StrictlySortedUnique<T(!new)>(less: (T, T) -> bool, a: seq<T>, b: seq<T>)
    requires StrictTotal(less) && StrictlySorted(less, a) && StrictlySorted(less, b)
    requires forall x :: x in a <==> x in b
    ensures a == b
  {
    assert a == [] || a[0] in b;
    assert b == [] || b[0] in a;
    if a != [] {
      assert a[0] in b && b[0] in a;
      assert a[0] == b[0];
      forall x ensures x in a[1..] <==> x in b[1..] {
        assert x in a[1..] ==> x in a && less(a[0], x);
        assert x in b[1..] ==> x in b && less(b[0], x);
      }
      StrictlySortedUnique(less, a[1..], b[1..]);
      assert a == [a[0]] + a[1..] && b == [b[0]] + b[1..];
    }
  }

  /** Sorting a sequence without repetitions gives the one strictly sorted arrangement of it. */
  lemma {:induction false} SortStrict<T(!new)>(less: (T, T) -> bool, s: seq<T>)
    requires StrictTotal(less) && forall i, j | 0 <= i < j < |s| :: s[i] != s[j]
    ensures StrictlySorted(less, Sort(less, s)) && forall x :: x in Sort(less, s) <==> x in s
  {
    SortSorts(less, s);
    SortContents(less, s);
    var t := Sort(less, s);
    forall x ensures x in t <==> x in s { assert x in multiset(t) <==> x in multiset(s); }
    NoRepeats(s, t);
  }

  lemma {:induction false} NoRepeats<T>(s: seq<T>, t: seq<T>)
    requires multiset(s) == multiset(t) && forall i, j | 0 <= i < j < |s| :: s[i] != s[j]
    ensures forall i, j | 0 <= i < j < |t| :: t[i] != t[j]
  {
    forall x ensures multiset(s)[x] <= 1 { CountsOnce(s, x); }
    forall i, j | 0 <= i < j < |t| ensures t[i] != t[j] { Twice(t, i, j); }
  }

  lemma {:induction false} Twice<T>(t: seq<T>, i: nat, j: nat)
    requires i < j < |t|
    ensures t[i] == t[j] ==> multiset(t)[t[i]] >= 2
  {
    assert t == t[..i] + [t[i]] + t[i + 1..j] + [t[j]] + t[j + 1..];
  }

  lemma {:induction false} CountsOnce<T>(s: seq<T>, x: T)
    requires forall i, j | 0 <= i < j < |s| :: s[i] != s[j]
    ensures multiset(s)[x] <= 1
  {
    if s != [] {
      CountsOnce(s[1..], x);
      assert s == [s[0]] + s[1..];
    }
  }

  // ---------- consecutive duplicates ----------

  function Dedup<T(==)>(s: seq<T>): seq<T> {
    if |s| < 2 then s
    else if s[0] == s[1] then Dedup(s[1..])
    else [s[0]] + Dedup(s[1..])
  }

  lemma {:induction false} DedupContents<T>(s: seq<T>)
    ensures forall x :: x in Dedup(s) <==> x in s
    ensures s != [] ==> Dedup(s) != [] && Dedup(s)[0] == s[0]
  {
    if |s| >= 2 {
      DedupContents(s[1..]);
      assert s == [s[0]] + s[1..];
    }
  }

  lemma {:induction false} DedupSorts<T(!new)>(less: (T, T) -> bool, s: seq<T>)
    requires StrictTotal(less) && Sorted(less, s)
    ensures StrictlySorted(less, Dedup(s))
  {
    if |s| >= 2 {
      DedupSorts(less, s[1..]);
      DedupContents(s[1..]);
      var rest := Dedup(s[1..]);
      if s[0] != s[1] {
        forall j | 0 <= j < |rest| ensures less(s[0], rest[j]) {
          assert less(s[0], s[1]);
          assert rest[0] == s[1];
          if j > 0 { assert less(rest[0], rest[j]); }
        }
      }
    }
  }

  /** Sort then drop duplicates: the strictly sorted arrangement of the elements. */
  lemma {:induction false} SortedSet<T(!new)>(less: (T, T) -> bool, s: seq<T>)
    requires StrictTotal(less)
    ensures StrictlySorted(less, Dedup(Sort(less, s))) && forall x :: x in Dedup(Sort(less, s)) <==> x in s
  {
    SortSorts(less, s);
    SortContents(less, s);
    DedupSorts(less, Sort(less, s));
    DedupContents(Sort(less, s));
    forall x ensures x in Sort(less, s) <==> x in s { assert x in multiset(Sort(less, s)) <==> x in multiset(s); }
  }

  lemma {:induction false} SortedSetFixed<T(!new)>(less: (T, T) -> bool, s: seq<T>)
    requires StrictTotal(less) && StrictlySorted(less, s)
    ensures Dedup(Sort(less, s)) == s
  {
    SortedSet(less, s);
    StrictlySortedUnique(less, Dedup(Sort(less, s)), s);
  }

  // ---------- the sorted listing of a set ----------

  ghost predicate Lists<T(!new)>(s: seq<T>, elements: set<T>) { forall x :: x in s <==> x in elements }

  lemma {:induction false} SortedListingExists<T(!new)>(less: (T, T) -> bool, elements: set<T>)
    requires StrictTotal(less)
    ensures exists s :: StrictlySorted(less, s) && Lists(s, elements)
  {
    if elements == {} {
      assert Lists<T>([], elements);
    } else {
      var x :| x in elements;
      SortedListingExists(less, elements - {x});
      var s :| StrictlySorted(less, s) && Lists(s, elements - {x});
      var listed := [x] + s;
      forall i, j | 0 <= i < j < |listed| ensures listed[i] != listed[j] {
        assert listed[j] in s;
        if i > 0 { assert less(s[i - 1], s[j - 1]); }
      }
      SortStrict(less, listed);
      assert Lists(Sort(less, listed), elements);
    }
  }

  /** The one strictly increasing sequence of the elements. */
  ghost function SortedListing<T(!new)>(less: (T, T) -> bool, elements: set<T>): (s: seq<T>)
    requires StrictTotal(less)
    ensures StrictlySorted(less, s) && Lists(s, elements)
  {
    SortedListingExists(less, elements);
    var s :| StrictlySorted(less, s) && Lists(s, elements);
    s
  }

  function Mapped<T, K>(f: T -> K, s: seq<T>): (r: seq<K>)
    ensures |r| == |s| && forall i | 0 <= i < |s| :: r[i] == f(s[i])
  {
    seq(|s|, i requires 0 <= i < |s| => f(s[i]))
  }

  /** Sorting entries by their keys sorts the keys, however the entries came. */
  lemma {:induction false} SortByKey<T(!new), K(!new)>(entryLess: (T, T) -> bool, less: (K, K) -> bool, key: T -> K,
                                                       s: seq<T>)
    requires forall a, b :: entryLess(a, b) == less(key(a), key(b))
    ensures Mapped(key, Sort(entryLess, s)) == Sort(less, Mapped(key, s))
  {
    if s != [] {
      SortByKey(entryLess, less, key, s[1..]);
      InsertByKey(entryLess, less, key, s[0], Sort(entryLess, s[1..]));
      assert Mapped(key, s)[1..] == Mapped(key, s[1..]);
    }
  }

  lemma {:induction false} InsertByKey<T(!new), K(!new)>(entryLess: (T, T) -> bool, less: (K, K) -> bool, key: T -> K,
                                                         x: T, s: seq<T>)
    requires forall a, b :: entryLess(a, b) == less(key(a), key(b))
    ensures Mapped(key, Insert(entryLess, x, s)) == Insert(less, key(x), Mapped(key, s))
  {
    if s == [] || entryLess(x, s[0]) {
      assert Mapped(key, [x] + s) == [key(x)] + Mapped(key, s);
    } else {
      InsertByKey(entryLess, less, key, x, s[1..]);
      assert Mapped(key, s)[1..] == Mapped(key, s[1..]);
      var rest := Insert(entryLess, x, s[1..]);
      assert Mapped(key, [s[0]] + rest) == [key(s[0])] + Mapped(key, rest);
    }
  }

  lemma {:induction false} SortListsOnce<T(!new)>(less: (T, T) -> bool, s: seq<T>, elements: set<T>)
    requires StrictTotal(less) && Lists(s, elements) && forall i, j | 0 <= i < j < |s| :: s[i] != s[j]
    ensures Sort(less, s) == SortedListing(less, elements)
  {
    SortStrict(less, s);
    StrictlySortedUnique(less, Sort(less, s), SortedListing(less, elements));
  }

  /** The keys of a map in whatever order its buckets give. */
  method SomeOrder<K, V>(m: map<K, V>) returns (keys: seq<K>)
    ensures forall i, j | 0 <= i < j < |keys| :: keys[i] != keys[j]
    ensures forall k :: k in keys <==> k in m
    ensures m.Keys == set k | k in keys
  {
    keys := [];
    var rest := m.Keys;
    while rest != {}
      invariant rest <= m.Keys
      invariant forall i, j | 0 <= i < j < |keys| :: keys[i] != keys[j]
      invariant forall k :: k in keys <==> k in m && k !in rest
      decreases |rest|
    {
      var k :| k in rest;
      rest := rest - {k};
      keys := keys + [k];
    }
  }
}
