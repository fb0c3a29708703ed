/**
 * Sequence helpers that mirror the slice operations the pipelines use:
 * splitting into fixed-size chunks and concatenating pieces back together.
 */
module Slices {

  function Min(a: int, b: int): int
  {
    if a <= b then a else b
  }

  /**
   * Consecutive pieces of `size` elements, the last one possibly shorter,
   * as Rust's `slice::chunks(size)` yields them.
   */
  function Chunks<T>(s: seq<T>, size: nat): (r: seq<seq<T>>)
    requires size > 0
    ensures |r| == 0 <==> |s| == 0
    ensures forall k | 0 <= k < |r| :: 0 < |r[k]| <= size
    decreases |s|
  {
    if |s| == 0 then []
    else if |s| <= size then [s]
    else [s[..size]] + Chunks(s[size..], size)
  }

  /** Concatenation of a sequence of pieces. */
  function Flatten<T>(ss: seq<seq<T>>): seq<T>
  {
    if ss == [] then [] else ss[0] + Flatten(ss[1..])
  }

  /** Euclidean division is determined by quotient and remainder. */
  lemma DivModUnique(n: int, d: int, q: int, r: int)
    requires d > 0 && 0 <= r < d && n == q * d + r
    ensures n / d == q && n % d == r
  {
    var q', r' := n / d, n % d;
    assert n == q' * d + r';
    if q' > q {
      MulGap(q', q, d);
    } else if q' < q {
      MulGap(q, q', d);
    }
  }

  lemma {:induction false} MulGap(a: int, b: int, d: int)
    requires a > b && d > 0
    ensures a * d - b * d >= d
    decreases a - b
  {
    if a > b + 1 {
      MulGap(a - 1, b, d);
      assert a * d == (a - 1) * d + d;
    } else {
      assert a * d == b * d + d;
    }
  }

  lemma DivStep(x: nat, size: nat)
    requires size > 0
    ensures (x + size) / size == x / size + 1
  {
    var q, r := x / size, x % size;
    assert x + size == (q + 1) * size + r;
    DivModUnique(x + size, size, q + 1, r);
  }

  /** There are ceil(|s| / size) chunks, none of them empty. */
  lemma {:induction false} ChunksCount<T>(s: seq<T>, size: nat)
    requires size > 0
    ensures |Chunks(s, size)| == (|s| + size - 1) / size
    ensures |s| > 0 ==> |Chunks(s, size)| > 0
  {
    if |s| == 0 {
    } else if |s| <= size {
      DivModUnique(|s| + size - 1, size, 1, |s| - 1);
    } else {
      ChunksCount(s[size..], size);
      DivStep(|s| - size + size - 1, size);
    }
  }

  /** The k-th chunk is the slice starting at k * size, cut at the end of `s`. */
  lemma {:induction false} ChunkAt<T>(s: seq<T>, size: nat, k: nat)
    requires size > 0
    requires k < |Chunks(s, size)|
    ensures k * size < |s|
    ensures Chunks(s, size)[k] == s[k * size .. Min((k + 1) * size, |s|)]
  {
    if k == 0 {
      assert Chunks(s, size)[0] == if |s| <= size then s else s[..size];
    } else {
      ChunksUnfold(s, size);
      var rest := s[size..];
      ChunkAt(rest, size, k - 1);
      MulSucc(k - 1, size);
      MulSucc(k, size);
      SliceOfSlice(s, size, (k - 1) * size, Min(k * size, |rest|));
    }
  }

  lemma ChunksUnfold<T>(s: seq<T>, size: nat)
    requires size > 0 && |s| > size
    ensures Chunks(s, size) == [s[..size]] + Chunks(s[size..], size)
    ensures forall k | 1 <= k < |Chunks(s, size)| :: Chunks(s, size)[k] == Chunks(s[size..], size)[k - 1]
  {
  }

  lemma SliceOfSlice<T>(s: seq<T>, d: nat, a: nat, b: nat)
    requires d <= |s| && a <= b <= |s| - d
    ensures s[d..][a..b] == s[d + a..d + b]
  {
  }

  lemma MulSucc(k: nat, size: nat)
    ensures k * size + size == (k + 1) * size
  {
  }

  /**
   * Every chunk holds between 1 and `size` elements, every chunk but the last
   * exactly `size`, and together they are `s` again.
   */
  lemma {:induction false} ChunksPartition<T>(s: seq<T>, size: nat)
    requires size > 0
    ensures forall k | 0 <= k < |Chunks(s, size)| :: 0 < |Chunks(s, size)[k]| <= size
    ensures forall k | 0 <= k < |Chunks(s, size)| - 1 :: |Chunks(s, size)[k]| == size
    ensures Flatten(Chunks(s, size)) == s
  {
    if |s| == 0 {
    } else if |s| <= size {
      assert Flatten([s]) == s + Flatten([]);
    } else {
      ChunksPartition(s[size..], size);
      var rest := Chunks(s[size..], size);
      assert Chunks(s, size) == [s[..size]] + rest;
      assert ([s[..size]] + rest)[1..] == rest;
      assert s[..size] + s[size..] == s;
    }
  }
}
