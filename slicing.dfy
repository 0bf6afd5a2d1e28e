/** Python slicing as the pipeline uses it: the consecutive slices
    `xs[i:i+size]` for `i` in `range(0, len(xs), size)` (token chunks and
    rating batches), and a prefix `xs[:limit]` with Python's treatment of
    a negative or oversized bound. */
module Slicing {

  function Min(a: int, b: int): int { if a <= b then a else b }

  function Max(a: int, b: int): int { if a >= b then a else b }

  /** `len(range(0, n, size))` for a positive step. */
  function NumChunks(n: nat, size: nat): nat
    requires size > 0
  {
    (n + size - 1) / size
  }

  /** Chunk number `k` exists exactly when its start `k * size` lies
      inside the sequence. */
  lemma {:induction false} ChunkIndexIff(n: nat, size: nat, k: nat)
    requires size > 0
    ensures k < NumChunks(n, size) <==> k * size < n
  {
    var q := NumChunks(n, size);
    assert q * size <= n + size - 1 < q * size + size;
    if k < q {
      MulMono(k + 1, q, size);
      assert (k + 1) * size == k * size + size;
    } else {
      MulMono(q, k, size);
      assert q * size + size <= k * size + size;
    }
  }

  lemma {:induction false} MulMono(a: nat, b: nat, c: nat)
    requires a <= b
    ensures a * c <= b * c
  {
  }

  /** `xs[k*size : (k+1)*size]`, clamped at the end as Python clamps. */
  function Chunk<T>(xs: seq<T>, size: nat, k: nat): seq<T>
    requires size > 0 && k < NumChunks(|xs|, size)
  {
    ChunkIndexIff(|xs|, size, k);
    xs[k * size..Min(k * size + size, |xs|)]
  }

  /** The list `[xs[i:i+size] for i in range(0, len(xs), size)]`. */
  function Chunks<T>(xs: seq<T>, size: nat): (r: seq<seq<T>>)
    requires size > 0
    ensures |r| == NumChunks(|xs|, size)
    ensures forall k :: 0 <= k < |r| ==> r[k] == Chunk(xs, size, k)
  {
    seq(NumChunks(|xs|, size), k requires 0 <= k < NumChunks(|xs|, size) => Chunk(xs, size, k))
  }

  /** Every chunk is non-empty and holds at most `size` elements; all but
      the last hold exactly `size`. */
  lemma {:induction false} ChunkSizes<T>(xs: seq<T>, size: nat, k: nat)
    requires size > 0 && k < NumChunks(|xs|, size)
    ensures 1 <= |Chunk(xs, size, k)| <= size
    ensures k + 1 < NumChunks(|xs|, size) ==> |Chunk(xs, size, k)| == size
  {
    ChunkIndexIff(|xs|, size, k);
    ChunkIndexIff(|xs|, size, k + 1);
    assert (k + 1) * size == k * size + size;
  }

  function Concat<T>(xss: seq<seq<T>>): seq<T> {
    if xss == [] then [] else Concat(xss[..|xss| - 1]) + xss[|xss| - 1]
  }

  /** The first `m` chunks together are exactly the first
      `min(len(xs), m * size)` elements. */
  lemma {:induction false} ConcatFirstChunks<T>(xs: seq<T>, size: nat, m: nat)
    requires size > 0 && m <= NumChunks(|xs|, size)
    ensures Concat(Chunks(xs, size)[..m]) == xs[..Min(m * size, |xs|)]
  {
    var cs := Chunks(xs, size);
    if m == 0 {
      assert cs[..0] == [];
    } else {
      ConcatFirstChunks(xs, size, m - 1);
      assert cs[..m][..m - 1] == cs[..m - 1];
      ChunkIndexIff(|xs|, size, m - 1);
      assert (m - 1) * size + size == m * size;
      var lo := (m - 1) * size;
      var hi := Min(m * size, |xs|);
      assert Min(lo, |xs|) == lo;
      assert xs[..hi] == xs[..lo] + xs[lo..hi];
    }
  }

  /** The chunks together give back the whole sequence. */
  lemma {:induction false} ConcatChunks<T>(xs: seq<T>, size: nat)
    requires size > 0
    ensures Concat(Chunks(xs, size)) == xs
  {
    var n := NumChunks(|xs|, size);
    ConcatFirstChunks(xs, size, n);
    assert Chunks(xs, size)[..n] == Chunks(xs, size);
    if n > 0 {
      ChunkIndexIff(|xs|, size, n);
      MulMono(n - 1, n, size);
    } else {
      ChunkIndexIff(|xs|, size, 0);
    }
  }

  /** Python's `xs[:limit]`: a negative bound counts from the end. */
  function SliceTo<T>(xs: seq<T>, limit: int): (r: seq<T>)
    ensures |r| == if limit >= 0 then Min(limit, |xs|) else Max(0, |xs| + limit)
    ensures r == xs[..|r|]
  {
    if limit >= 0 then xs[..Min(limit, |xs|)] else xs[..Max(0, |xs| + limit)]
  }
}
