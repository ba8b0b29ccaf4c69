/**
 * The batching rule shared by the search-engine loader and the SQL migration batcher: records
 * are buffered, the buffer is flushed as soon as it holds `k` of them, and whatever is left when
 * the input ends is flushed once more if it is not empty.
 */
module Batches {
  import opened Base

  /** The flushes of a stream: batches of exactly k, then the non-empty remainder if there is one. */
  function Chunks<T>(s: seq<T>, k: nat): seq<seq<T>>
    requires k > 0
    decreases |s|
  {
    if |s| <= k then (if s == [] then [] else [s])
    else [s[..k]] + Chunks(s[k..], k)
  }

  lemma MulStep(c: nat, k: nat)
    requires c >= 1
    ensures c * k == (c - 1) * k + k
  {
  }

  lemma {:induction false} MulLess(a: nat, b: nat, k: nat)
    requires a * k < b * k
    ensures a < b
    decreases a
  {
    if a > 0 && b > 0 {
      MulStep(a, k);
      MulStep(b, k);
      MulLess(a - 1, b - 1, k);
    }
  }

  /** c full batches and r < k more records: the quotient is c and the remainder r. */
  lemma DivUnique(n: nat, k: nat, c: nat, r: nat)
    requires k > 0 && r < k && n == c * k + r
    ensures n / k == c && n % k == r
  {
    var q := n / k;
    assert n == q * k + n % k;
    MulStep(c + 1, k);
    MulLess(q, c + 1, k);
    MulStep(q + 1, k);
    MulLess(c, q + 1, k);
  }

  /**
   * Appending one more batch to a stream of c full batches appends it as a flush of its own:
   * the step a batching loop takes when its buffer fills or its input ends.
   */
  lemma {:induction false} ChunksAppend<T>(a: seq<T>, b: seq<T>, k: nat, c: nat)
    requires k > 0 && |a| == Times(c, k) && 0 < |b| <= k
    ensures Chunks(a + b, k) == Chunks(a, k) + [b]
    decreases c
  {
    if c == 0 {
      assert a == [];
      assert a + b == b;
    } else {
      assert |a| >= k;
      assert (a + b)[..k] == a[..k];
      assert (a + b)[k..] == a[k..] + b;
      ChunksAppend(a[k..], b, k, c - 1);
      if |a| == k {
        assert a[k..] == [];
        assert a[k..] + b == b;
        assert a[..k] == a;
      }
    }
  }

  /** Nothing is lost, duplicated or reordered: the flushes concatenate back to the stream. */
  lemma {:induction false} ChunksFlatten<T>(s: seq<T>, k: nat)
    requires k > 0
    ensures Flatten(Chunks(s, k)) == s
    decreases |s|
  {
    if |s| > k {
      ChunksFlatten(s[k..], k);
      assert ([s[..k]] + Chunks(s[k..], k))[1..] == Chunks(s[k..], k);
      assert s == s[..k] + s[k..];
    } else if s != [] {
      assert Flatten([s]) == s + Flatten([s][1..]);
    }
  }

  /**
   * A stream of q * k + r records (r < k) gives q flushes of exactly k, then one flush of r
   * records when r is not zero; no flush is empty.
   */
  lemma {:induction false} ChunksShape<T>(s: seq<T>, k: nat, q: nat, r: nat)
    requires k > 0 && r < k && |s| == Times(q, k) + r
    ensures |Chunks(s, k)| == q + (if r == 0 then 0 else 1)
    ensures forall i :: 0 <= i < q ==> |Chunks(s, k)[i]| == k
    ensures r != 0 ==> |Last(Chunks(s, k))| == r
    ensures forall i :: 0 <= i < |Chunks(s, k)| ==> 0 < |Chunks(s, k)[i]| <= k
    decreases q
  {
    if q == 0 {
      assert |s| == r;
    } else {
      var rest := s[k..];
      if |s| == k {
        assert r == 0 && q == 1;
      } else {
        ChunksShape(rest, k, q - 1, r);
        assert Chunks(s, k) == [s[..k]] + Chunks(rest, k);
        ConsSizes(s[..k], Chunks(rest, k), k, q);
      }
    }
  }

  /** A full batch in front of q - 1 full batches and short ones keeps the sizes in place. */
  lemma ConsSizes<T>(first: seq<T>, rest: seq<seq<T>>, k: nat, q: nat)
    requires |first| == k && k > 0 && 1 <= q <= |rest| + 1
    requires forall i :: 0 <= i < q - 1 ==> |rest[i]| == k
    requires forall i :: 0 <= i < |rest| ==> 0 < |rest[i]| <= k
    ensures forall i :: 0 <= i < q ==> |([first] + rest)[i]| == k
    ensures forall i :: 0 <= i < |[first] + rest| ==> 0 < |([first] + rest)[i]| <= k
  {
    var cs := [first] + rest;
    forall i | 0 <= i < q ensures |cs[i]| == k {
      if i > 0 {
        assert cs[i] == rest[i - 1];
      }
    }
    forall i | 0 <= i < |cs| ensures 0 < |cs[i]| <= k {
      if i > 0 {
        assert cs[i] == rest[i - 1];
      }
    }
  }

  /** q * k, counted out so that proofs about batches need no non-linear arithmetic. */
  function Times(q: nat, k: nat): nat
  {
    if q == 0 then 0 else Times(q - 1, k) + k
  }

  lemma {:induction false} TimesIsProduct(q: nat, k: nat)
    ensures Times(q, k) == q * k
  {
    if q > 0 {
      TimesIsProduct(q - 1, k);
      MulStep(q, k);
    }
  }

  /** How many of n records fill whole batches of k: all but the n % k left over. */
  function FullBatches(n: nat, k: nat): nat
    requires k > 0
    decreases n
  {
    if n < k then 0 else FullBatches(n - k, k) + k
  }

  /** The counted actions are the records less the n % k of the last, short bulk. */
  lemma {:induction false} FullBatchesFloor(n: nat, k: nat)
    requires k > 0
    ensures FullBatches(n, k) == n - n % k
    decreases n
  {
    if n >= k {
      FullBatchesFloor(n - k, k);
      ModStep(n, k);
    }
  }

  lemma ModStep(n: nat, k: nat)
    requires k > 0 && n >= k
    ensures n % k == (n - k) % k
  {
    var q, r := (n - k) / k, (n - k) % k;
    MulStep(q + 1, k);
    DivUnique(n, k, q + 1, r);
  }

  /**
   * n records give n / k flushes of exactly k, then one flush of n % k records when that is not
   * zero.
   */
  lemma ChunksSizes<T>(s: seq<T>, k: nat)
    requires k > 0
    ensures |Chunks(s, k)| == |s| / k + (if |s| % k == 0 then 0 else 1)
    ensures forall i :: 0 <= i < |s| / k ==> |Chunks(s, k)[i]| == k
    ensures |s| % k != 0 ==> |Last(Chunks(s, k))| == |s| % k
  {
    TimesIsProduct(|s| / k, k);
    ChunksShape(s, k, |s| / k, |s| % k);
  }

  /**
   * A batching loop's buffer after some records: `flushed` of the operations (c full batches of k)
   * have been flushed as `bulks`, and the rest, fewer than k, wait in `bulk`.
   */
  ghost predicate Buffered<T>(ops: seq<T>, bulks: seq<seq<T>>, bulk: seq<T>, flushed: nat, c: nat, k: nat)
  {
    k > 0 && flushed == Times(c, k) && flushed <= |ops| && |bulk| < k
    && bulks == Chunks(ops[..flushed], k) && bulk == ops[flushed..]
  }

  /** Adding an operation that fills the buffer flushes it as one more bulk. */
  lemma FlushStep<T>(ops: seq<T>, bulks: seq<seq<T>>, bulk: seq<T>, flushed: nat, c: nat, k: nat, op: T, ops': seq<T>)
    requires Buffered(ops, bulks, bulk, flushed, c, k) && |bulk| + 1 == k && ops' == ops + [op]
    ensures Buffered(ops', bulks + [bulk + [op]], [], flushed + k, c + 1, k)
  {
    assert ops'[..flushed] == ops[..flushed];
    assert ops'[..flushed] + (bulk + [op]) == ops';
    ChunksAppend(ops'[..flushed], bulk + [op], k, c);
    assert ops'[..flushed + k] == ops';
  }

  /** Adding an operation that leaves the buffer short of k keeps it. */
  lemma KeepStep<T>(ops: seq<T>, bulks: seq<seq<T>>, bulk: seq<T>, flushed: nat, c: nat, k: nat, op: T, ops': seq<T>)
    requires Buffered(ops, bulks, bulk, flushed, c, k) && |bulk| + 1 < k && ops' == ops + [op]
    ensures Buffered(ops', bulks, bulk + [op], flushed, c, k)
  {
    assert ops'[..flushed] == ops[..flushed];
  }

  /** When the input ends, the short rest of the buffer, if any, is the last bulk. */
  lemma LastFlush<T>(ops: seq<T>, bulks: seq<seq<T>>, bulk: seq<T>, flushed: nat, c: nat, k: nat)
    requires Buffered(ops, bulks, bulk, flushed, c, k)
    ensures (if bulk == [] then bulks else bulks + [bulk]) == Chunks(ops, k)
    ensures |bulk| == |ops| % k
  {
    TimesIsProduct(c, k);
    DivUnique(|ops|, k, c, |bulk|);
    if bulk == [] {
      assert ops[..flushed] == ops;
    } else {
      assert ops[..flushed] + bulk == ops;
      ChunksAppend(ops[..flushed], bulk, k, c);
    }
  }
}
