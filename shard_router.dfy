/**
 * Shard routing: a pool id is stored in the shard file named after the block
 * of 1000 ids its absolute value falls in, `data/<abs(id) div 1000>.csv`.
 */
module ShardRouter {

  /** Number of consecutive absolute ids that share one shard file. */
  const BlockSize: nat := 1000

  function Abs(x: int): nat {
    if x < 0 then -x else x
  }

  /** The shard number of a pool id: `abs(id) // 1000`. */
  function ShardOf(id: int): (shard: nat)
    ensures shard * BlockSize <= Abs(id) < (shard + 1) * BlockSize
  {
    Abs(id) / BlockSize
  }

  predicate IsDigit(c: char) {
    '0' <= c <= '9'
  }

  /** Decimal text of a natural number, without leading zeros (Python's `str`). */
  function NatToString(n: nat): (s: string)
    ensures |s| > 0
    ensures forall i :: 0 <= i < |s| ==> IsDigit(s[i])
    ensures s[0] == '0' ==> s == "0"
  {
    if n < 10 then [('0' as int + n) as char]
    else NatToString(n / 10) + [('0' as int + n % 10) as char]
  }

  /** Reads decimal digits back into a number; the inverse of `NatToString`. */
  function ParseNat(s: string): nat
    requires forall i :: 0 <= i < |s| ==> IsDigit(s[i])
  {
    if s == [] then 0
    else
      assert IsDigit(s[|s| - 1]);
      ParseNat(s[..|s| - 1]) * 10 + (s[|s| - 1] as int - '0' as int)
  }

  lemma {:induction false} ParseNatToString(n: nat)
    ensures ParseNat(NatToString(n)) == n
  {
    var s := NatToString(n);
    if n >= 10 {
      assert s[..|s| - 1] == NatToString(n / 10);
      ParseNatToString(n / 10);
    }
  }

  const PathPrefix: string := "data/"
  const PathSuffix: string := ".csv"

  /** The shard file path of a pool id, as `get_path_by_id` builds it: the
      shard number, in decimal, between `data/` and `.csv`, from where it can be
      read back, so distinct shards have distinct files. */
  function ShardPath(id: int): (p: string)
    ensures |p| > |PathPrefix| + |PathSuffix|
    ensures p[..|PathPrefix|] == PathPrefix && p[|p| - |PathSuffix|..] == PathSuffix
    ensures forall i :: |PathPrefix| <= i < |p| - |PathSuffix| ==> IsDigit(p[i])
    ensures ParseNat(p[|PathPrefix|..|p| - |PathSuffix|]) == ShardOf(id)
    ensures p[|PathPrefix|] == '0' ==> p == PathPrefix + "0" + PathSuffix
  {
    var digits := NatToString(ShardOf(id));
    var p := PathPrefix + digits + PathSuffix;
    assert p[|PathPrefix|..|p| - |PathSuffix|] == digits;
    ParseNatToString(ShardOf(id));
    p
  }

  /** Two ids share a shard file exactly when they share a shard number. */
  lemma SamePathIffSameShard(a: int, b: int)
    ensures ShardPath(a) == ShardPath(b) <==> ShardOf(a) == ShardOf(b)
  {
  }

  /** An id and its negation are stored in the same shard file. */
  lemma NegationSameShard(id: int)
    ensures ShardPath(id) == ShardPath(-id)
  {
  }

  /** Every id whose absolute value lies in block `k` routes to shard `k`. */
  lemma BlockRoutesToShard(id: int, k: nat)
    requires k * BlockSize <= Abs(id) < (k + 1) * BlockSize
    ensures ShardOf(id) == k
  {
  }

  /** Ids in one shard are less than a block apart in absolute value. */
  lemma SameShardIsClose(a: int, b: int)
    requires ShardOf(a) == ShardOf(b)
    ensures Abs(a) - Abs(b) < BlockSize && Abs(b) - Abs(a) < BlockSize
  {
  }
}
