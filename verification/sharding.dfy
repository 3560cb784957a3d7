/** Sharding: splitting the subscription list across market-data connections. */
module Sharding {
  import opened Seqs

  /** Consecutive slices of `size` elements; the last one may be shorter. */
  function Chunks<T>(xs: seq<T>, size: nat): (r: seq<seq<T>>)
    requires size >= 1
    ensures Concat(r) == xs
    ensures forall i :: 0 <= i < |r| ==> 1 <= |r[i]| <= size
    ensures forall i :: 0 <= i < |r| - 1 ==> |r[i]| == size
    decreases |xs|
  {
    if |xs| == 0 then []
    else if |xs| <= size then [xs]
    else
      var rest := Chunks(xs[size..], size);
      assert Concat([xs[..size]] + rest) == xs[..size] + Concat(rest) by {
        assert ([xs[..size]] + rest)[1..] == rest;
      }
      assert xs == xs[..size] + xs[size..];
      [xs[..size]] + rest
  }

  lemma MulMonotone(a: int, b: int, s: int)
    requires a >= b && s >= 0
    ensures a * s >= b * s
  {
    assert a * s - b * s == (a - b) * s;
  }

  /** The number of chunks is the length divided by the size, rounded up. */
  lemma {:induction false} ChunkCount<T>(xs: seq<T>, size: nat)
    requires size >= 1
    ensures |xs| <= |Chunks(xs, size)| * size
    ensures |xs| > 0 ==> (|Chunks(xs, size)| - 1) * size < |xs|
    ensures |xs| == 0 <==> |Chunks(xs, size)| == 0
    decreases |xs|
  {
    var n := |Chunks(xs, size)|;
    if |xs| == 0 {
      assert n == 0;
    } else if |xs| <= size {
      assert n == 1;
    } else {
      var tail := xs[size..];
      ChunkCount(tail, size);
      var k := |Chunks(tail, size)|;
      assert n == k + 1;
      MulSucc(k, size);
      MulSucc(k - 1, size);
    }
  }

  lemma MulSucc(k: int, s: int)
    ensures (k + 1) * s == k * s + s
  {
  }

  /** The shard size chosen at startup: a third of the pair count, at least 1. */
  function ShardSize(n: nat): (s: nat)
    ensures s >= 1
    ensures n >= 3 ==> 3 * s <= n < 3 * s + 3
    ensures n < 3 ==> s == 1
  {
    if n / 3 >= 1 then n / 3 else 1
  }

  /** The subscription shards, one market-data connection each. */
  function Shards<T>(pairs: seq<T>): (r: seq<seq<T>>)
    ensures Concat(r) == pairs
    ensures |r| <= 5
    ensures |pairs| >= 3 && |pairs| % 3 == 0 ==> |r| == 3
  {
    ShardCount(pairs);
    Chunks(pairs, ShardSize(|pairs|))
  }

  lemma ShardCount<T>(pairs: seq<T>)
    ensures |Chunks(pairs, ShardSize(|pairs|))| <= 5
    ensures |pairs| >= 3 && |pairs| % 3 == 0 ==> |Chunks(pairs, ShardSize(|pairs|))| == 3
  {
    var s := ShardSize(|pairs|);
    var k := |Chunks(pairs, s)|;
    ChunkCount(pairs, s);
    if k > 5 {
      MulMonotone(k - 1, 5, s);
      assert false;
    }
    if |pairs| >= 3 && |pairs| % 3 == 0 {
      assert 3 * s == |pairs|;
      if k > 3 {
        MulMonotone(k - 1, 3, s);
        assert false;
      }
      if k < 3 {
        MulMonotone(2, k, s);
        assert false;
      }
    }
  }

  /** The "three parts" split yields more than three connections for some
      pair counts: four pairs give four shards of one pair each. */
  lemma ShardsCanExceedThree()
    ensures |Shards(['a', 'b', 'c', 'd'])| == 4
    ensures |Shards(['a', 'b', 'c', 'd', 'e'])| == 5
  {
    ChunkCount(['a', 'b', 'c', 'd'], 1);
    ChunkCount(['a', 'b', 'c', 'd', 'e'], 1);
  }

  /** A shard size rounded up instead of down, at least 1. */
  function BalancedShardSize(n: nat): (s: nat)
    ensures s >= 1
    ensures n <= 3 * s
  {
    if (n + 2) / 3 >= 1 then (n + 2) / 3 else 1
  }

  /** Shards sized so that there are never more than three of them. */
  function BalancedShards<T>(pairs: seq<T>): (r: seq<seq<T>>)
    ensures Concat(r) == pairs
    ensures |r| <= 3
    ensures forall i :: 0 <= i < |r| ==> |r[i]| >= 1
  {
    BalancedShardCount(pairs);
    Chunks(pairs, BalancedShardSize(|pairs|))
  }

  lemma BalancedShardCount<T>(pairs: seq<T>)
    ensures |Chunks(pairs, BalancedShardSize(|pairs|))| <= 3
  {
    var s := BalancedShardSize(|pairs|);
    var k := |Chunks(pairs, s)|;
    ChunkCount(pairs, s);
    if k > 3 {
      MulMonotone(k - 1, 3, s);
      assert false;
    }
  }
}
