/** Types and sequence facts shared by every module of the model. */
module Common {
  datatype Option<+T> = None | Some(value: T)

  datatype Result<+T, +E> = Ok(value: T) | Err(error: E)

  type byte = x: int | 0 <= x < 256

  const U32: nat := 0x1_0000_0000
  const U64: nat := 0x1_0000_0000_0000_0000

  function Min(a: int, b: int): int {
    if a < b then a else b
  }

  /** Subtraction that stops at zero, as `saturating_sub` and `duration_since` do. */
  function Monus(a: int, b: int): nat {
    if a < b then 0 else a - b
  }

  function Pow256(n: nat): (r: nat)
    ensures r > 0
  {
    if n == 0 then 1 else 256 * Pow256(n - 1)
  }

  lemma MulSplit(a: nat, b: nat, c: nat)
    ensures (a + b) * c == a * c + b * c
  {}

  lemma {:induction false} MulMono(a: nat, b: nat, c: nat)
    requires a <= b
    ensures a * c <= b * c
    decreases b - a
  {
    if a < b {
      MulMono(a + 1, b, c);
      MulSplit(a, 1, c);
    }
  }

  lemma MulScale(q: nat, k: nat, m: nat)
    ensures q * (k * m) == k * (q * m)
  {}

  /** `s` with the bytes from `at` on replaced by `d`. */
  function Splice<T>(s: seq<T>, at: nat, d: seq<T>): (r: seq<T>)
    requires at + |d| <= |s|
  {
    s[..at] + d + s[at + |d|..]
  }

  /** Two writes, the second starting where the first stopped, are one write. */
  lemma SpliceSplice<T>(s: seq<T>, at: nat, d: seq<T>, e: seq<T>)
    requires at + |d| + |e| <= |s|
    ensures Splice(Splice(s, at, d), at + |d|, e) == Splice(s, at, d + e)
  {
    var one := Splice(s, at, d);
    assert one[..at + |d|] == s[..at] + d;
    assert one[at + |d| + |e|..] == s[at + |d| + |e|..];
  }

  lemma SliceOfSlice<T>(s: seq<T>, at: nat, size: nat, begin: nat, length: nat)
    requires at + size <= |s| && begin + length <= size
    ensures s[at..at + size][begin..begin + length] == s[at + begin..at + begin + length]
  {
    var a, b := s[at..at + size][begin..begin + length], s[at + begin..at + begin + length];
    forall k | 0 <= k < length ensures a[k] == b[k] {
      assert s[at..at + size][begin + k] == s[at + begin + k];
    }
    assert a == b;
  }

  /** A write leaves alone what it does not touch. */
  lemma SpliceApart<T>(s: seq<T>, at: nat, d: seq<T>, from: nat, length: nat)
    requires at + |d| <= |s| && from + length <= |s| && (at + |d| <= from || from + length <= at)
    ensures Splice(s, at, d)[from..from + length] == s[from..from + length]
  {
    var after := Splice(s, at, d);
    forall k | from <= k < from + length ensures after[k] == s[k] {}
    var a, b := after[from..from + length], s[from..from + length];
    forall k | 0 <= k < length ensures a[k] == b[k] {
      assert after[from + k] == s[from + k];
    }
    assert a == b;
  }

  predicate NoDup<T(==)>(s: seq<T>) {
    forall i, j :: 0 <= i < j < |s| ==> s[i] != s[j]
  }

  lemma NoDupInit<T>(s: seq<T>)
    requires NoDup(s) && s != []
    ensures NoDup(s[..|s| - 1]) && s[|s| - 1] !in s[..|s| - 1]
  {
    var init := s[..|s| - 1];
    forall i, j | 0 <= i < j < |init| ensures init[i] != init[j] {
      assert init[i] == s[i] && init[j] == s[j];
    }
  }

  lemma {:induction false} NoDupMultiset<T>(s: seq<T>, x: T)
    requires NoDup(s)
    ensures multiset(s)[x] <= 1
  {
    if s != [] {
      var n := |s| - 1;
      NoDupMultiset(s[..n], x);
      assert s == s[..n] + [s[n]];
      if s[n] == x {
        assert x !in s[..n];
        assert x !in multiset(s[..n]);
      }
    }
  }

  lemma MultisetRemoveAt<T>(s: seq<T>, i: nat)
    requires i < |s|
    ensures multiset(s[..i] + s[i + 1..]) + multiset{s[i]} == multiset(s)
  {
    assert s == s[..i] + [s[i]] + s[i + 1..];
  }
}
