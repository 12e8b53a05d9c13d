/** `batch(iterable, n)`, the slicing generator both engine steps carry:
    consecutive slices of length `n` taken by `range(0, len, n)`, the last one
    possibly shorter. */
module Batching {
  import opened Wrappers

  /** The slices for a positive step. */
  function Chunks<T>(s: seq<T>, n: nat): (r: seq<seq<T>>)
    requires n > 0
    ensures |s| == 0 <==> |r| == 0
    decreases |s|
  {
    if |s| == 0 then []
    else if |s| <= n then [s]
    else [s[..n]] + Chunks(s[n..], n)
  }

  /** `list(batch(s, n))`: `range` with a zero step raises ValueError, and a
      negative step from 0 up to `len(s)` yields nothing. */
  function Batch<T>(s: seq<T>, n: int): (r: Result<seq<seq<T>>>)
    ensures r.Err? <==> n == 0
    ensures n < 0 ==> r == Ok([])
    ensures n > 0 ==> r == Ok(Chunks(s, n))
  {
    if n == 0 then Err(ValueError("range() arg 3 must not be zero"))
    else if n < 0 then Ok([])
    else Ok(Chunks(s, n))
  }

  function Flatten<T>(xss: seq<seq<T>>): seq<T> {
    if |xss| == 0 then [] else xss[0] + Flatten(xss[1..])
  }

  /** The slices put back together give the input. */
  lemma {:induction false} ChunksConcat<T>(s: seq<T>, n: nat)
    requires n > 0
    ensures Flatten(Chunks(s, n)) == s
    decreases |s|
  {
    if |s| > n {
      ChunksConcat(s[n..], n);
      assert s == s[..n] + s[n..];
    }
  }

  /** There are `ceil(len(s) / n)` slices: the fewest slices of `n` that
      hold all of `s`. */
  lemma {:induction false} ChunkCount<T>(s: seq<T>, n: nat)
    requires n > 0
    ensures |s| <= |Chunks(s, n)| * n < |s| + n
    decreases |s|
  {
    if |s| > n {
      ChunkCount(s[n..], n);
      var k := |Chunks(s[n..], n)|;
      assert |Chunks(s, n)| == k + 1;
      assert (k + 1) * n == k * n + n;
    }
  }

  /** Every slice but the last has length `n`; the last one holds between 1
      and `n` elements. */
  lemma {:induction false} ChunkSizes<T>(s: seq<T>, n: nat)
    requires n > 0
    ensures var r := Chunks(s, n);
      && (forall i :: 0 <= i < |r| - 1 ==> |r[i]| == n)
      && (|r| > 0 ==> 1 <= |r[|r| - 1]| <= n)
    decreases |s|
  {
    if |s| > n {
      ChunkSizes(s[n..], n);
      var r, t := Chunks(s, n), Chunks(s[n..], n);
      assert r == [s[..n]] + t;
      forall i | 0 <= i < |r| - 1 ensures |r[i]| == n {
        if i > 0 {
          assert r[i] == t[i - 1];
        }
      }
    }
  }
}
