/** Finite sums over sets and sequences, and the few laws about them the ledger proofs need. */
module Sums {

  ghost function SumOver<K(!new)>(keys: set<K>, f: K -> int): int
  {
    if keys == {} then 0
    else
      var k :| k in keys;
      f(k) + SumOver(keys - {k}, f)
  }

  /** The sum does not depend on which element is taken out first. */
  lemma {:induction false} SumTake<K(!new)>(keys: set<K>, f: K -> int, k: K)
    requires k in keys
    ensures SumOver(keys, f) == f(k) + SumOver(keys - {k}, f)
    decreases |keys|
  {
    var c :| c in keys && SumOver(keys, f) == f(c) + SumOver(keys - {c}, f);
    if c != k {
      SumTake(keys - {c}, f, k);
      SumTake(keys - {k}, f, c);
      assert keys - {c} - {k} == keys - {k} - {c};
    }
  }

  lemma SumAdd<K(!new)>(keys: set<K>, f: K -> int, k: K)
    requires k !in keys
    ensures SumOver(keys + {k}, f) == f(k) + SumOver(keys, f)
  {
    SumTake(keys + {k}, f, k);
    assert keys + {k} - {k} == keys;
  }

  lemma {:induction false} SumSame<K(!new)>(keys: set<K>, f: K -> int, g: K -> int)
    requires forall k :: k in keys ==> f(k) == g(k)
    ensures SumOver(keys, f) == SumOver(keys, g)
    decreases |keys|
  {
    if keys != {} {
      var k :| k in keys;
      SumTake(keys, f, k);
      SumTake(keys, g, k);
      SumSame(keys - {k}, f, g);
    }
  }

  lemma {:induction false} SumConstant<K(!new)>(keys: set<K>, f: K -> int, c: int)
    requires forall k :: k in keys ==> f(k) == c
    ensures SumOver(keys, f) == |keys| * c
    decreases |keys|
  {
    if keys != {} {
      var k :| k in keys;
      SumTake(keys, f, k);
      SumConstant(keys - {k}, f, c);
    }
  }

  /** Replacing the value at one key moves the sum by exactly that key's change. */
  lemma SumUpdate<K(!new)>(keys: set<K>, f: K -> int, g: K -> int, k: K)
    requires forall j :: j in keys && j != k ==> f(j) == g(j)
    ensures SumOver(keys + {k}, g) == SumOver(keys - {k}, f) + g(k)
    ensures k in keys ==> SumOver(keys, f) == SumOver(keys - {k}, f) + f(k)
  {
    SumAdd(keys - {k}, g, k);
    assert keys - {k} + {k} == keys + {k};
    SumSame(keys - {k}, f, g);
    if k in keys {
      SumTake(keys, f, k);
    }
  }

  /** A sum whose terms exceed another's by at most `c` exceeds it by at most `c` per key. */
  lemma {:induction false} SumDrift<K(!new)>(keys: set<K>, f: K -> int, g: K -> int, c: int)
    requires forall k :: k in keys ==> f(k) <= g(k) + c
    ensures SumOver(keys, f) <= SumOver(keys, g) + |keys| * c
    decreases |keys|
  {
    if keys != {} {
      var k :| k in keys;
      SumTake(keys, f, k);
      SumTake(keys, g, k);
      SumDrift(keys - {k}, f, g, c);
      OneMore(|keys - {k}|, |keys|, c);
    }
  }

  /** Terms that exceed another sum's by exactly `c` each. */
  lemma SumShift<K(!new)>(keys: set<K>, f: K -> int, g: K -> int, c: int)
    requires forall k :: k in keys ==> f(k) == g(k) + c
    ensures SumOver(keys, f) == SumOver(keys, g) + |keys| * c
  {
    SumDrift(keys, f, g, c);
    SumDrift(keys, g, f, -c);
    assert |keys| * -c == -(|keys| * c);
  }

  lemma {:induction false} SumMinus<K(!new)>(keys: set<K>, f: K -> int, g: K -> int, h: K -> int)
    requires forall k :: k in keys ==> h(k) == f(k) - g(k)
    ensures SumOver(keys, h) == SumOver(keys, f) - SumOver(keys, g)
    decreases |keys|
  {
    if keys != {} {
      var k :| k in keys;
      SumTake(keys, f, k);
      SumTake(keys, g, k);
      SumTake(keys, h, k);
      SumMinus(keys - {k}, f, g, h);
    }
  }

  lemma {:induction false} SumUnion<K(!new)>(a: set<K>, b: set<K>, f: K -> int)
    requires a !! b
    ensures SumOver(a + b, f) == SumOver(a, f) + SumOver(b, f)
    decreases |b|
  {
    if b == {} {
      assert a + b == a;
    } else {
      var k :| k in b;
      SumUnion(a, b - {k}, f);
      SumTake(b, f, k);
      SumAdd(a + (b - {k}), f, k);
      assert a + (b - {k}) + {k} == a + b;
    }
  }

  lemma OneMore(n: nat, m: nat, c: int)
    requires m == n + 1
    ensures m * c == n * c + c
  {
  }

  ghost function SumSeq<T(!new)>(s: seq<T>, f: T -> int): int
  {
    if s == [] then 0 else SumSeq(s[..|s| - 1], f) + f(s[|s| - 1])
  }

  /** Removing one occurrence from anywhere in a sequence removes its term from the sum. */
  lemma {:induction false} SumSeqRemove<T(!new)>(s: seq<T>, f: T -> int, i: nat)
    requires i < |s|
    ensures SumSeq(s, f) == SumSeq(s[..i] + s[i + 1..], f) + f(s[i])
    decreases |s|
  {
    var n := |s| - 1;
    if i == n {
      assert s[..i] + s[i + 1..] == s[..n];
    } else {
      SumSeqRemove(s[..n], f, i);
      var r := s[..i] + s[i + 1..];
      assert r[..|r| - 1] == s[..n][..i] + s[..n][i + 1..];
      assert r[|r| - 1] == s[n];
    }
  }

  lemma MultisetRemove<T>(s: seq<T>, i: nat)
    requires i < |s|
    ensures multiset(s[..i] + s[i + 1..]) == multiset(s) - multiset{s[i]}
  {
    assert s == s[..i] + [s[i]] + s[i + 1..];
  }

  /** A sum over a sequence depends only on which elements occur and how often. */
  lemma {:induction false} SumSeqPermutation<T(!new)>(s: seq<T>, t: seq<T>, f: T -> int)
    requires multiset(s) == multiset(t)
    ensures SumSeq(s, f) == SumSeq(t, f)
    decreases |s|
  {
    if s == [] {
      assert |multiset(t)| == 0;
    } else {
      var n := |s| - 1;
      assert s[n] in multiset(t);
      var i :| 0 <= i < |t| && t[i] == s[n];
      MultisetRemove(s, n);
      MultisetRemove(t, i);
      assert s[..n] + s[n + 1..] == s[..n];
      SumSeqRemove(t, f, i);
      SumSeqPermutation(s[..n], t[..i] + t[i + 1..], f);
    }
  }
}
