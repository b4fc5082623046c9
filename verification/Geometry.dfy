/** What bucket numbers say about distances, and how many contacts a table can hold. */
module Geometry {
  import opened Ids
  import opened Routing
  import opened Recency

  // ---------- bucket numbers decide the order between blocks ----------

  /** The rank of bucket i for a target in bucket p: bucket p first, then all higher buckets together, then p-1, p-2, ... */
  function Block(p: nat, i: nat): nat {
    if i == p then 0 else if i > p then 1 else 1 + (p - i)
  }

  /** The prefix length of the distance between a target and a contact, from their two bucket numbers. */
  lemma DistancePrefix(owner: Id, target: Id, id: Id)
    requires owner != target && owner != id
    ensures var p, i, r := BucketIndex(owner, target), BucketIndex(owner, id), LeadingZeros(Xor(target, id));
            && (i < p ==> r == i)
            && (i > p ==> r == p)
            && (i == p ==> r > p)
  {
    BucketIsPrefixLength(owner, target);
    BucketIsPrefixLength(owner, id);
    assert Xor(target, id) == XorBytes(Xor(owner, target), Xor(owner, id));
    XorPrefix(Xor(owner, target), Xor(owner, id));
  }

  lemma LongerPrefixIsCloser(a: Id, b: Id)
    requires LeadingZeros(a) > LeadingZeros(b)
    ensures Value(a) < Value(b)
  {
    LeadingZerosGiveRange(a);
    LeadingZerosGiveRange(b);
    if LeadingZeros(a) < ID_BITS {
      Pow2Monotone(160 - LeadingZeros(a), 159 - LeadingZeros(b));
    }
  }

  /** A contact of an earlier block is closer to the target, whatever the identifiers are. */
  lemma BlocksDecideDistance(owner: Id, target: Id, a: Id, b: Id)
    requires a != owner && b != owner
    requires var p := BucketIndex(owner, target);
             Block(p, BucketIndex(owner, a)) < Block(p, BucketIndex(owner, b))
    ensures Distance(target, a) < Distance(target, b)
  {
    BucketIsPrefixLength(owner, a);
    BucketIsPrefixLength(owner, b);
    BucketIsPrefixLength(owner, target);
    if target != owner {
      DistancePrefix(owner, target, a);
      DistancePrefix(owner, target, b);
    }
    LongerPrefixIsCloser(Xor(target, a), Xor(target, b));
  }

  /** The result of FindClosest runs through whole blocks in order, and leaves out nothing from an earlier block. */
  lemma ClosestFollowsBlocks(owner: Id, t: Table, target: Id, n: nat, r: seq<Contact>)
    requires WellFormed(owner, t) && IsClosest(target, AllContacts(t), n, r)
    ensures var p := BucketIndex(owner, target);
            && (forall k, l :: 0 <= k < l < |r| ==>
                  Block(p, BucketIndex(owner, r[k].id)) <= Block(p, BucketIndex(owner, r[l].id)))
            && (forall c, d :: c in AllContacts(t) && c !in r && d in r ==>
                  Block(p, BucketIndex(owner, d.id)) <= Block(p, BucketIndex(owner, c.id)))
  {
    var p := BucketIndex(owner, target);
    FlattenDistinct(owner, t, ID_BITS);
    forall k, l | 0 <= k < l < |r|
      ensures Block(p, BucketIndex(owner, r[k].id)) <= Block(p, BucketIndex(owner, r[l].id))
    {
      assert r[k] in r && r[l] in r;
      if Block(p, BucketIndex(owner, r[l].id)) < Block(p, BucketIndex(owner, r[k].id)) {
        BlocksDecideDistance(owner, target, r[l].id, r[k].id);
      }
    }
    forall c, d | c in AllContacts(t) && c !in r && d in r
      ensures Block(p, BucketIndex(owner, d.id)) <= Block(p, BucketIndex(owner, c.id))
    {
      if Block(p, BucketIndex(owner, c.id)) < Block(p, BucketIndex(owner, d.id)) {
        BlocksDecideDistance(owner, target, c.id, d.id);
      }
    }
  }

  // ---------- FindClosest depends only on the set of identifiers ----------

  ghost predicate SameIds(a: seq<Contact>, b: seq<Contact>) {
    forall id :: id in IdsOf(a) <==> id in IdsOf(b)
  }

  /** An identifier of the pool is either listed or farther than everything listed. */
  lemma ListedOrFarther(target: Id, pool: seq<Contact>, n: nat, r: seq<Contact>, id: Id) returns (k: nat)
    requires IsClosest(target, pool, n, r) && id in IdsOf(pool)
    ensures k <= |r|
    ensures k < |r| ==> r[k].id == id
    ensures k == |r| ==> forall d :: d in r ==> Distance(target, d.id) < Distance(target, id)
  {
    var i :| 0 <= i < |pool| && IdsOf(pool)[i] == id;
    assert pool[i] in pool;
    if pool[i] in r {
      k :| 0 <= k < |r| && r[k] == pool[i];
    } else {
      k := |r|;
    }
  }

  lemma NearerIsDistinct(target: Id, s: seq<Contact>)
    requires Nearer(target, s)
    ensures Distinct(IdsOf(s))
  {
    forall i, j | 0 <= i < j < |s|
      ensures s[i].id != s[j].id
    {
      assert Distance(target, s[i].id) < Distance(target, s[j].id);
    }
  }

  /** If both lists agree before position k, the first one is not farther at k. */
  lemma NotFartherAt(target: Id, poolA: seq<Contact>, poolB: seq<Contact>, n: nat, a: seq<Contact>, b: seq<Contact>, k: nat)
    requires SameIds(poolA, poolB) && IsClosest(target, poolA, n, a) && IsClosest(target, poolB, n, b)
    requires k < |a| && k < |b| && forall j :: 0 <= j < k ==> a[j].id == b[j].id
    ensures Distance(target, a[k].id) <= Distance(target, b[k].id)
  {
    var x := b[k].id;
    assert x in IdsOf(poolB) by {
      assert b[k] in b && b[k] in poolB;
      var i :| 0 <= i < |poolB| && poolB[i] == b[k];
      assert IdsOf(poolB)[i] == x;
    }
    NearerIsDistinct(target, b);
    assert forall j :: 0 <= j < k ==> IdsOf(b)[j] != IdsOf(b)[k];
    var m := ListedOrFarther(target, poolA, n, a, x);
    assert a[k] in a;
    assert m >= k;
  }

  lemma {:induction false} SameIdsUpTo(target: Id, poolA: seq<Contact>, poolB: seq<Contact>, n: nat,
                                         a: seq<Contact>, b: seq<Contact>, k: nat)
    requires SameIds(poolA, poolB) && IsClosest(target, poolA, n, a) && IsClosest(target, poolB, n, b)
    requires k <= |a| && k <= |b|
    ensures forall j :: 0 <= j < k ==> a[j].id == b[j].id
  {
    if k > 0 {
      SameIdsUpTo(target, poolA, poolB, n, a, b, k - 1);
      NotFartherAt(target, poolA, poolB, n, a, b, k - 1);
      NotFartherAt(target, poolB, poolA, n, b, a, k - 1);
      DistanceOneToOne(target, a[k - 1].id, b[k - 1].id);
    }
  }

  lemma {:induction false} DistinctCount(ids: seq<Id>)
    requires Distinct(ids)
    ensures |set id | id in ids| == |ids|
  {
    if ids != [] {
      var rest := ids[..|ids| - 1];
      DistinctCount(rest);
      assert (set id | id in ids) == (set id | id in rest) + {ids[|ids| - 1]};
    }
  }

  /** FindClosest is canonical: bucket order and sort stability cannot be seen in the identifiers it returns. */
  lemma ClosestIsCanonical(target: Id, poolA: seq<Contact>, poolB: seq<Contact>, n: nat, a: seq<Contact>, b: seq<Contact>)
    requires Distinct(IdsOf(poolA)) && Distinct(IdsOf(poolB)) && SameIds(poolA, poolB)
    requires IsClosest(target, poolA, n, a) && IsClosest(target, poolB, n, b)
    ensures IdsOf(a) == IdsOf(b)
  {
    DistinctCount(IdsOf(poolA));
    DistinctCount(IdsOf(poolB));
    assert (set id | id in IdsOf(poolA)) == (set id | id in IdsOf(poolB));
    SameIdsUpTo(target, poolA, poolB, n, a, b, |a|);
  }

  // ---------- how much a table can hold ----------

  /** Distinct numbers inside an interval are at most as many as the interval is long. */
  lemma {:induction false} DistinctInInterval(values: seq<nat>, low: nat, size: nat)
    requires forall i, j :: 0 <= i < j < |values| ==> values[i] != values[j]
    requires forall i :: 0 <= i < |values| ==> low <= values[i] < low + size
    ensures |values| <= size
  {
    if values != [] {
      assert low <= values[0] < low + size;
      var top := low + size - 1;
      if top in values {
        var k :| 0 <= k < |values| && values[k] == top;
        DistinctInInterval(values[..k] + values[k + 1..], low, size - 1);
      } else {
        DistinctInInterval(values, low, size - 1);
      }
    }
  }

  /** Bucket i holds at most min(20, 2^(159-i)) contacts. */
  lemma BucketCapacity(owner: Id, i: nat, s: seq<Contact>)
    requires i < ID_BITS && WellFormedBucket(owner, i, s)
    ensures |s| <= Min(K, Pow2(159 - i))
  {
    var values := seq(|s|, k requires 0 <= k < |s| => Distance(owner, s[k].id));
    forall k | 0 <= k < |s|
      ensures Pow2(159 - i) <= values[k] < Pow2(159 - i) + Pow2(159 - i)
    {
      BucketIsPrefixLength(owner, s[k].id);
      PrefixLenIsNumericRange(Xor(owner, s[k].id), i);
    }
    forall k, l | 0 <= k < l < |s|
      ensures values[k] != values[l]
    {
      assert IdsOf(s)[k] != IdsOf(s)[l];
      if values[k] == values[l] {
        DistanceOneToOne(owner, s[k].id, s[l].id);
      }
    }
    DistinctInInterval(values, Pow2(159 - i), Pow2(159 - i));
  }

  lemma {:induction false} FlattenBound(owner: Id, t: Table, n: nat)
    requires n <= ID_BITS && WellFormed(owner, t)
    ensures |FlattenTo(t, n)| <= if n <= 155 then 20 * n else 3100 + 32 - Pow2(160 - n)
  {
    if n > 0 {
      FlattenBound(owner, t, n - 1);
      BucketCapacity(owner, n - 1, t[n - 1]);
      Pow2UpTo8();
    }
  }

  /** No run of AddContact calls ever makes a table hold more than 3131 contacts. */
  lemma TableSizeBound(owner: Id, calls: seq<Call>)
    ensures |AllContacts(TableAfter(owner, calls))| <= 3131
    ensures forall i :: 0 <= i < ID_BITS ==> |TableAfter(owner, calls)[i]| <= Min(K, Pow2(159 - i))
  {
    var t := TableAfter(owner, calls);
    TableAfterWellFormed(owner, calls);
    FlattenBound(owner, t, ID_BITS);
    Pow2UpTo8();
    forall i | 0 <= i < ID_BITS
      ensures |t[i]| <= Min(K, Pow2(159 - i))
    {
      BucketCapacity(owner, i, t[i]);
    }
  }
}
