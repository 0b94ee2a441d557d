/** Merkle roots over audit segments (src/actl/domain/audit/merkle.py).

The program folds a list level by level and promotes a lone trailing node.
Section 2.1 of RFC 6962 defines the tree hash by a different recursion: split at
the largest power of two below the length.  The two agree on every list.
*/
module Merkle {
  import opened Digests

  /******* The definition of RFC 6962, section 2.1 *******/

  ghost predicate IsPowerOfTwo(k: nat)
  {
    k == 1 || (k > 0 && k % 2 == 0 && IsPowerOfTwo(k / 2))
  }

  /** The largest power of two smaller than n. */
  ghost function Split(n: nat): (k: nat)
    requires n >= 2
    ensures IsPowerOfTwo(k) && k < n <= 2 * k
  {
    if n == 2 then 1 else 2 * Split((n + 1) / 2)
  }

  /** The standard's own terms: a zero byte and the entry for a leaf; a one byte, the
      left tree, the right tree for a node. */
  ghost function TreeHash(entries: seq<Digest>): Digest
    requires entries != []
    decreases |entries|
  {
    if |entries| == 1 then Sha256([Octet(0), Bytes32(entries[0])])
    else
      var k := Split(|entries|);
      Sha256([Octet(1), Bytes32(TreeHash(entries[..k])), Bytes32(TreeHash(entries[k..]))])
  }

  /******* The program's hashes *******/

  const LEAF_PREFIX := Octet(0)
  const NODE_PREFIX := Octet(1)

  /** `leaf_hash` */
  function LeafHash(entryHash: Digest): Digest {
    Sha256([LEAF_PREFIX, Bytes32(entryHash)])
  }

  /** `_node_hash` */
  function NodeHash(left: Digest, right: Digest): Digest {
    Sha256([NODE_PREFIX, Bytes32(left), Bytes32(right)])
  }

  /******* One pass of the program's inner loop *******/

  ghost function PairUp(level: seq<Digest>): (next: seq<Digest>)
    ensures |next| == (|level| + 1) / 2
  {
    if |level| < 2 then level
    else [NodeHash(level[0], level[1])] + PairUp(level[2..])
  }

  /** The RFC recursion over a level whose nodes are already hashed. */
  ghost function Join(level: seq<Digest>): Digest
    requires level != []
    decreases |level|
  {
    if |level| == 1 then level[0]
    else
      var k := Split(|level|);
      NodeHash(Join(level[..k]), Join(level[k..]))
  }

  ghost function LeafLevel(entries: seq<Digest>): (level: seq<Digest>)
    ensures |level| == |entries|
    ensures forall i :: 0 <= i < |level| ==> level[i] == LeafHash(entries[i])
  {
    seq(|entries|, i requires 0 <= i < |entries| => LeafHash(entries[i]))
  }

  lemma {:induction false} JoinOfLeaves(entries: seq<Digest>)
    requires entries != []
    ensures Join(LeafLevel(entries)) == TreeHash(entries)
    decreases |entries|
  {
    if |entries| > 1 {
      var k := Split(|entries|);
      JoinOfLeaves(entries[..k]);
      JoinOfLeaves(entries[k..]);
      assert LeafLevel(entries)[..k] == LeafLevel(entries[..k]);
      assert LeafLevel(entries)[k..] == LeafLevel(entries[k..]);
    }
  }

  lemma PairUpStep(level: seq<Digest>, k: nat)
    requires 2 <= k <= |level|
    ensures PairUp(level[..k]) == [NodeHash(level[0], level[1])] + PairUp(level[2..][..k - 2])
  {
    assert level[..k][2..] == level[2..][..k - 2];
  }

  lemma {:induction false} PairUpSplits(level: seq<Digest>, half: nat)
    requires 2 * half <= |level|
    ensures PairUp(level) == PairUp(level[..2 * half]) + PairUp(level[2 * half..])
    decreases half
  {
    var k := 2 * half;
    if half == 0 {
      assert level[..k] == [] && level[k..] == level;
    } else {
      var rest := level[2..];
      PairUpSplits(rest, half - 1);
      assert rest[2 * (half - 1)..] == level[k..];
      PairUpStep(level, k);
      Assoc([NodeHash(level[0], level[1])], PairUp(rest[..k - 2]), PairUp(level[k..]));
    }
  }

  /** Pairing one level up does not change the RFC tree hash. */
  lemma {:induction false} PairUpKeepsJoin(level: seq<Digest>)
    requires level != []
    ensures Join(PairUp(level)) == Join(level)
    decreases |level|
  {
    if |level| == 2 {
      assert Split(2) == 1;
      assert level[..1] == [level[0]] && level[1..] == [level[1]];
      assert level[2..] == [];
      assert PairUp(level) == [NodeHash(level[0], level[1])];
    } else if |level| > 2 {
      var k := Split(|level|);
      var half := Split((|level| + 1) / 2);
      var next := PairUp(level);
      PairUpSplits(level, half);
      assert next[..half] == PairUp(level[..k]);
      assert next[half..] == PairUp(level[k..]);
      PairUpKeepsJoin(level[..k]);
      PairUpKeepsJoin(level[k..]);
    }
  }

  /** The inner loop of `merkle_root`. */
  method NextLevel(level: seq<Digest>) returns (nextLevel: seq<Digest>)
    ensures nextLevel == PairUp(level)
  {
    nextLevel := [];
    var i := 0;
    while i < |level|
      invariant 0 <= i <= |level|
      invariant PairUp(level) == nextLevel + PairUp(level[i..])
    {
      ghost var before, rest := nextLevel, level[i..];
      if i + 1 < |level| {
        nextLevel := nextLevel + [NodeHash(level[i], level[i + 1])];
        assert rest[2..] == level[i + 2..];
        assert before + ([NodeHash(level[i], level[i + 1])] + PairUp(level[i + 2..])) == nextLevel + PairUp(level[i + 2..]);
        i := i + 2;
      } else {
        nextLevel := nextLevel + [level[i]];
        assert rest == [level[i]];
        i := i + 1;
      }
    }
  }

  /** `merkle_root`, for every list. */
  method MerkleRoot(entryHashes: seq<Digest>) returns (root: Result<Digest>)
    ensures root.Err? <==> entryHashes == []
    ensures root.Ok? ==> root.value == TreeHash(entryHashes)
  {
    if entryHashes == [] {
      return Err("ValueError");
    }
    var level := seq(|entryHashes|, i requires 0 <= i < |entryHashes| => LeafHash(entryHashes[i]));
    assert level == LeafLevel(entryHashes);
    JoinOfLeaves(entryHashes);
    while |level| > 1
      invariant level != []
      invariant Join(level) == TreeHash(entryHashes)
      decreases |level|
    {
      PairUpKeepsJoin(level);
      level := NextLevel(level);
    }
    return Ok(level[0]);
  }

  /******* Second-preimage resistance *******/

  /** Leaves and nodes are told apart by their prefix, and each determines its parts. */
  lemma HashesDetermine(a: Digest, b: Digest, c: Digest, d: Digest)
    ensures LeafHash(a) != NodeHash(b, c)
    ensures LeafHash(a) == LeafHash(b) ==> a == b
    ensures NodeHash(a, b) == NodeHash(c, d) ==> a == c && b == d
  {
    assert LeafHash(a).preimage[0] != NodeHash(b, c).preimage[0];
    assert LeafHash(a).preimage[1] == Bytes32(a) && LeafHash(b).preimage[1] == Bytes32(b);
    assert NodeHash(a, b).preimage[1..] == [Bytes32(a), Bytes32(b)];
    assert NodeHash(c, d).preimage[1..] == [Bytes32(c), Bytes32(d)];
  }

  lemma RootTag(entries: seq<Digest>)
    requires entries != []
    ensures TreeHash(entries).Sha256? && TreeHash(entries).preimage != []
    ensures |entries| == 1 <==> TreeHash(entries).preimage[0] == Octet(0)
  {
  }

  /** Equal roots come from equal lists, whatever the two lengths are. */
  lemma {:induction false} RootDeterminesEntries(a: seq<Digest>, b: seq<Digest>)
    requires a != [] && b != []
    requires TreeHash(a) == TreeHash(b)
    ensures a == b
    decreases |a|
  {
    RootTag(a);
    RootTag(b);
    if |a| == 1 {
      HashesDetermine(a[0], b[0], a[0], b[0]);
    } else {
      var j, k := Split(|a|), Split(|b|);
      HashesDetermine(TreeHash(a[..j]), TreeHash(a[j..]), TreeHash(b[..k]), TreeHash(b[k..]));
      RootDeterminesEntries(a[..j], b[..k]);
      RootDeterminesEntries(a[j..], b[k..]);
      assert a == a[..j] + a[j..] && b == b[..k] + b[k..];
    }
  }
}
