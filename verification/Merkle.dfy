/** The Merkle root over chunk identifiers: the level-by-level loop computes the tree hash of
    section 2.1 of RFC 6962 without that RFC's 0x00/0x01 prefixes, and equal roots of equally
    long lists give an explicit hash collision. */
module Merkle {
  import opened Ids
  import opened Chunks

  // ---------- the recursive definition ----------

  /** The largest power of two smaller than n. */
  function SplitPoint(n: nat): (k: nat)
    requires n >= 2
    ensures 0 < k < n <= 2 * k
  {
    if n == 2 then 1 else 2 * SplitPoint((n + 1) / 2)
  }

  lemma {:induction false} SplitPointIsPowerOfTwo(n: nat) returns (e: nat)
    requires n >= 2
    ensures SplitPoint(n) == Pow2(e) < n <= Pow2(e + 1)
  {
    if n == 2 {
      e := 0;
      assert Pow2(1) == 2;
    } else {
      e := SplitPointIsPowerOfTwo((n + 1) / 2);
      e := e + 1;
    }
  }

  lemma ConcatInjective(a: ChunkId, b: ChunkId, c: ChunkId, d: ChunkId)
    requires a[..] + b[..] == c[..] + d[..]
    ensures a == c && b == d
  {
    assert a == (a[..] + b[..])[..CHUNK_ID_BYTES] == (c[..] + d[..])[..CHUNK_ID_BYTES] == c;
    assert b == (a[..] + b[..])[CHUNK_ID_BYTES..] == (c[..] + d[..])[CHUNK_ID_BYTES..] == d;
  }

  /** The tree hash: left part of SplitPoint leaves, right part the rest. */
  function TreeRoot(h: Hash, ids: seq<ChunkId>): ChunkId
    requires ids != []
    decreases |ids|
  {
    if |ids| == 1 then ids[0]
    else
      var k := SplitPoint(|ids|);
      h(TreeRoot(h, ids[..k])[..] + TreeRoot(h, ids[k..])[..])
  }

  lemma {:induction false} PowersApart(e: nat, f: nat)
    requires e < f
    ensures 2 * Pow2(e) <= Pow2(f)
  {
    if e < f - 1 {
      PowersApart(e, f - 1);
    }
  }

  /** The largest power of two below n is found whatever its exponent is called. */
  lemma SplitPointIs(n: nat, e: nat)
    requires Pow2(e) < n <= 2 * Pow2(e)
    ensures n >= 2 && SplitPoint(n) == Pow2(e)
  {
    var f := SplitPointIsPowerOfTwo(n);
    if e < f {
      PowersApart(e, f);
    } else if f < e {
      PowersApart(f, e);
    }
  }

  /** A longer list is split at the power of two below its length; the left root is hashed before the right one. */
  lemma TreeRootSplits(h: Hash, ids: seq<ChunkId>, e: nat)
    requires Pow2(e) < |ids| <= 2 * Pow2(e)
    ensures TreeRoot(h, ids) == h(TreeRoot(h, ids[..Pow2(e)])[..] + TreeRoot(h, ids[Pow2(e)..])[..])
  {
    SplitPointIs(|ids|, e);
  }

  /** A leaf is its own root, and two leaves are hashed left before right. */
  lemma SmallTreeRoots(h: Hash, a: ChunkId, b: ChunkId)
    ensures TreeRoot(h, [a]) == a
    ensures TreeRoot(h, [a, b]) == h(a[..] + b[..])
  {
    assert [a, b][..1] == [a] && [a, b][1..] == [b];
  }

  // ---------- one level of the bottom-up loop ----------

  /** Pairs are hashed, an odd last node is promoted. */
  function LevelUp(h: Hash, s: seq<ChunkId>): (r: seq<ChunkId>)
    ensures |r| == (|s| + 1) / 2
  {
    if |s| <= 1 then s else [h(s[0][..] + s[1][..])] + LevelUp(h, s[2..])
  }

  /** Parent j is the hash of children 2j and 2j + 1, left before right; an odd last node is its own parent. */
  lemma {:induction false} LevelUpAt(h: Hash, s: seq<ChunkId>, j: nat)
    requires 2 * j < |s|
    ensures LevelUp(h, s)[j] == if 2 * j + 1 < |s| then h(s[2 * j][..] + s[2 * j + 1][..]) else s[2 * j]
  {
    if j > 0 {
      LevelUpAt(h, s[2..], j - 1);
    }
  }

  lemma {:induction false} LevelUpSplits(h: Hash, a: seq<ChunkId>, b: seq<ChunkId>)
    requires |a| % 2 == 0
    ensures LevelUp(h, a + b) == LevelUp(h, a) + LevelUp(h, b)
  {
    if a == [] {
      assert a + b == b;
    } else {
      LevelUpSplits(h, a[2..], b);
      assert (a + b)[2..] == a[2..] + b;
    }
  }

  /** The two halves of a list split at an even position go up on their own. */
  lemma LevelUpSlices(h: Hash, a: seq<ChunkId>, b: seq<ChunkId>)
    requires |a| % 2 == 0
    ensures var up := LevelUp(h, a + b);
            |a| / 2 <= |up| && up[..|a| / 2] == LevelUp(h, a) && up[|a| / 2..] == LevelUp(h, b)
  {
    LevelUpSplits(h, a, b);
    assert |LevelUp(h, a)| == |a| / 2;
  }

  /** Hashing one level does not change the tree root. */
  lemma {:induction false} LevelUpKeepsRoot(h: Hash, s: seq<ChunkId>)
    requires |s| >= 2
    ensures TreeRoot(h, LevelUp(h, s)) == TreeRoot(h, s)
    decreases |s|
  {
    if |s| == 2 {
      assert s[..1] == [s[0]] && s[1..] == [s[1]];
      assert LevelUp(h, s) == [h(s[0][..] + s[1][..])];
    } else {
      var up, k := LevelUp(h, s), SplitPoint(|s|);
      assert SplitPoint(|up|) == k / 2;
      assert s == s[..k] + s[k..];
      LevelUpSlices(h, s[..k], s[k..]);
      LevelUpKeepsRoot(h, s[..k]);
      if |s[k..]| >= 2 {
        LevelUpKeepsRoot(h, s[k..]);
      }
    }
  }

  // ---------- the loop ----------

  lemma ConcatAssociative(a: seq<ChunkId>, b: seq<ChunkId>, c: seq<ChunkId>)
    ensures a + (b + c) == (a + b) + c
  {
  }

  lemma LevelUpFrom(h: Hash, s: seq<ChunkId>, i: nat)
    requires i + 1 < |s|
    ensures LevelUp(h, s[i..]) == [h(s[i][..] + s[i + 1][..])] + LevelUp(h, s[i + 2..])
  {
    var rest := s[i..];
    assert rest[2..] == s[i + 2..];
    assert LevelUp(h, rest) == [h(rest[0][..] + rest[1][..])] + LevelUp(h, rest[2..]);
  }

  /** One turn of the pairing loop: two nodes become one, or the odd last one is promoted. */
  lemma LevelUpTurn(h: Hash, s: seq<ChunkId>, level: seq<ChunkId>, next: seq<ChunkId>, i: nat)
    requires i < |s| && level == next + LevelUp(h, s[i..])
    ensures i + 1 < |s| ==> level == (next + [h(s[i][..] + s[i + 1][..])]) + LevelUp(h, s[i + 2..])
    ensures i + 1 == |s| ==> level == next + [s[i]]
  {
    if i + 1 < |s| {
      LevelUpFrom(h, s, i);
      ConcatAssociative(next, [h(s[i][..] + s[i + 1][..])], LevelUp(h, s[i + 2..]));
    } else {
      assert s[i..] == [s[i]];
    }
  }

  /** The inner loop: the nodes of the next level, left to right. */
  method HashLevel(h: Hash, cur: seq<ChunkId>) returns (next: seq<ChunkId>)
    ensures next == LevelUp(h, cur) && |next| == (|cur| + 1) / 2
    ensures forall j :: 0 <= j < |next| ==>
              next[j] == if 2 * j + 1 < |cur| then h(cur[2 * j][..] + cur[2 * j + 1][..]) else cur[2 * j]
  {
    next := [];
    var i := 0;
    ghost var level := LevelUp(h, cur);
    assert cur[0..] == cur;
    while i < |cur|
      invariant 0 <= i <= |cur| + 1
      invariant i < |cur| ==> level == next + LevelUp(h, cur[i..])
      invariant i >= |cur| ==> level == next
    {
      LevelUpTurn(h, cur, level, next, i);
      if i + 1 >= |cur| {
        next := next + [cur[i]];
      } else {
        var buf := cur[i][..] + cur[i + 1][..];
        next := next + [h(buf)];
        assert i + 2 >= |cur| ==> LevelUp(h, cur[i + 2..]) == [];
      }
      i := i + 2;
    }
    forall j | 0 <= j < |next|
      ensures next[j] == if 2 * j + 1 < |cur| then h(cur[2 * j][..] + cur[2 * j + 1][..]) else cur[2 * j]
    {
      LevelUpAt(h, cur, j);
    }
  }

  /** The root of a list, said without the recursive definition's own terms: a leaf, two leaves hashed left before
      right, or a split at the power of two below the length. */
  ghost predicate IsRoot(h: Hash, ids: seq<ChunkId>, root: ChunkId) {
    && (|ids| == 1 ==> root == ids[0])
    && (|ids| == 2 ==> root == h(ids[0][..] + ids[1][..]))
    && forall e: nat :: Pow2(e) < |ids| <= 2 * Pow2(e) ==>
         root == h(TreeRoot(h, ids[..Pow2(e)])[..] + TreeRoot(h, ids[Pow2(e)..])[..])
  }

  lemma TreeRootIsRoot(h: Hash, ids: seq<ChunkId>)
    requires ids != []
    ensures IsRoot(h, ids, TreeRoot(h, ids))
  {
    if |ids| <= 2 {
      SmallTreeRoots(h, ids[0], if |ids| == 2 then ids[1] else ids[0]);
      assert ids == if |ids| == 1 then [ids[0]] else [ids[0], ids[1]];
    }
    forall e: nat | Pow2(e) < |ids| <= 2 * Pow2(e)
      ensures TreeRoot(h, ids) == h(TreeRoot(h, ids[..Pow2(e)])[..] + TreeRoot(h, ids[Pow2(e)..])[..])
    {
      TreeRootSplits(h, ids, e);
    }
  }

  /** MerkleRootForChunks: the loop ends because a level of n > 1 nodes has (n + 1) / 2 < n parents. */
  method MerkleRootForChunks(h: Hash, ids: seq<ChunkId>) returns (r: Result<ChunkId>)
    ensures r.Err? <==> ids == []
    ensures r.Ok? ==> ids != [] && r.value == TreeRoot(h, ids) && IsRoot(h, ids, r.value)
  {
    if ids != [] {
      TreeRootIsRoot(h, ids);
    }
    if |ids| == 0 {
      return Err("no chunks provided");
    }
    if |ids| == 1 {
      return Ok(ids[0]);
    }
    var cur := ids;
    while |cur| > 1
      invariant cur != [] && TreeRoot(h, cur) == TreeRoot(h, ids)
      decreases |cur|
    {
      LevelUpKeepsRoot(h, cur);
      cur := HashLevel(h, cur);
    }
    return Ok(cur[0]);
  }

  // ---------- binding ----------

  /** Walks both trees from the root to the first place where different children hash to the same parent. */
  function FindTreeCollision(h: Hash, a: seq<ChunkId>, b: seq<ChunkId>): (Bytes, Bytes)
    requires |a| == |b| > 0
    decreases |a|
  {
    if |a| == 1 then (a[0], b[0])
    else
      var k := SplitPoint(|a|);
      var la, ra := TreeRoot(h, a[..k]), TreeRoot(h, a[k..]);
      var lb, rb := TreeRoot(h, b[..k]), TreeRoot(h, b[k..]);
      if la[..] + ra[..] != lb[..] + rb[..] then (la[..] + ra[..], lb[..] + rb[..])
      else if a[..k] != b[..k] then FindTreeCollision(h, a[..k], b[..k])
      else FindTreeCollision(h, a[k..], b[k..])
  }

  lemma HalvesDiffer(a: seq<ChunkId>, b: seq<ChunkId>, k: nat)
    requires |a| == |b| && a != b && k <= |a|
    ensures a[..k] != b[..k] || a[k..] != b[k..]
  {
    assert a == a[..k] + a[k..] && b == b[..k] + b[k..];
  }

  /** Equal roots bind: different lists of the same length with equal roots give a hash collision. */
  lemma {:induction false} EqualRootsCollide(h: Hash, a: seq<ChunkId>, b: seq<ChunkId>)
    requires |a| == |b| > 0 && a != b && TreeRoot(h, a) == TreeRoot(h, b)
    ensures var (x, y) := FindTreeCollision(h, a, b); Collision(h, x, y)
    decreases |a|
  {
    assert a == [a[0]] + a[1..] && b == [b[0]] + b[1..];
    if |a| > 1 {
      var k := SplitPoint(|a|);
      var la, ra := TreeRoot(h, a[..k]), TreeRoot(h, a[k..]);
      var lb, rb := TreeRoot(h, b[..k]), TreeRoot(h, b[k..]);
      if la[..] + ra[..] == lb[..] + rb[..] {
        ConcatInjective(la, ra, lb, rb);
        HalvesDiffer(a, b, k);
        if a[..k] != b[..k] {
          EqualRootsCollide(h, a[..k], b[..k]);
        } else {
          EqualRootsCollide(h, a[k..], b[k..]);
        }
      }
    }
  }
}
