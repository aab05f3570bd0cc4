/** Splitting a sequence into consecutive pieces of bounded size, the way
    batch writes are cut to the store's per-call limit. */
module Chunking {

  /** Consecutive pieces of `s` holding `n` elements each, except that the
      last one may hold fewer. */
  function Chunks<T>(s: seq<T>, n: nat): (r: seq<seq<T>>)
    requires n > 0
    ensures |r| == 0 <==> |s| == 0
    ensures forall i :: 0 <= i < |r| ==> 0 < |r[i]| <= n
    ensures forall i :: 0 <= i < |r| - 1 ==> |r[i]| == n
    decreases |s|
  {
    if |s| == 0 then []
    else if |s| <= n then [s]
    else [s[..n]] + Chunks(s[n..], n)
  }

  function Flatten<T>(ss: seq<seq<T>>): seq<T> {
    if |ss| == 0 then [] else ss[0] + Flatten(ss[1..])
  }

  /** The pieces concatenate back to the original sequence, in order. */
  lemma {:induction false} FlattenChunks<T>(s: seq<T>, n: nat)
    requires n > 0
    ensures Flatten(Chunks(s, n)) == s
    decreases |s|
  {
    if |s| > n {
      FlattenChunks(s[n..], n);
      assert s == s[..n] + s[n..];
    }
  }

  lemma MulSmall(n: int, k: int)
    requires n > 0 && -n < n * k < n
    ensures k == 0
  {
    if k >= 1 {
      assert n * k == n * (k - 1) + n;
      MulNonNeg(n, k - 1);
    } else if k <= -1 {
      assert n * k == n * (k + 1) - n;
      MulNonNeg(n, -(k + 1));
      assert n * -(k + 1) == -(n * (k + 1));
    }
  }

  lemma MulNonNeg(n: int, k: int)
    requires n >= 0 && k >= 0
    ensures n * k >= 0
  {
  }

  lemma DivStep(a: nat, n: nat)
    requires n > 0
    ensures (a + n) / n == a / n + 1
  {
    var q, r := a / n, a % n;
    var q', r' := (a + n) / n, (a + n) % n;
    assert n * (q' - q - 1) == r - r' by {
      assert a == n * q + r;
      assert a + n == n * q' + r';
      assert n * (q' - q - 1) == n * q' - n * q - n;
    }
    MulSmall(n, q' - q - 1);
  }

  lemma DivSmall(a: nat, n: nat)
    requires a < n
    ensures a / n == 0
  {
    assert n * (a / n) == a - a % n;
    MulSmall(n, a / n);
  }

  /** There are ceil(|s| / n) pieces. */
  lemma {:induction false} ChunksCount<T>(s: seq<T>, n: nat)
    requires n > 0
    ensures |Chunks(s, n)| == (|s| + n - 1) / n
    decreases |s|
  {
    if |s| == 0 {
      DivSmall(n - 1, n);
    } else if |s| <= n {
      DivSmall(|s| - 1, n);
      DivStep(|s| - 1, n);
    } else {
      ChunksCount(s[n..], n);
      DivStep(|s| - 1, n);
    }
  }
}
