/** The Kademlia routing table: 160 move-to-front buckets of at most K contacts. */
module Routing {
  import opened Ids

  const K := 20
  const ALPHA := 3

  /** lastSeen is the reading of the local clock. */
  datatype Contact = Contact(id: Id, address: string, lastSeen: int)

  // ---------- one bucket as a value ----------

  function IdsOf(s: seq<Contact>): (ids: seq<Id>)
    ensures |ids| == |s|
    ensures forall i :: 0 <= i < |s| ==> ids[i] == s[i].id
  {
    seq(|s|, i requires 0 <= i < |s| => s[i].id)
  }

  ghost predicate Distinct(s: seq<Id>) {
    forall i, j :: 0 <= i < j < |s| ==> s[i] != s[j]
  }

  /** The position of the first contact with this identifier, or |s|. */
  function Find(s: seq<Contact>, id: Id): (k: nat)
    ensures k <= |s|
    ensures k < |s| ==> s[k].id == id
    ensures forall i :: 0 <= i < k ==> s[i].id != id
  {
    if s == [] then 0 else if s[0].id == id then 0 else 1 + Find(s[1..], id)
  }

  /** The bucket without position k, with c in front. */
  function Reinsert(s: seq<Contact>, k: nat, c: Contact): seq<Contact>
    requires k < |s|
  {
    [c] + (s[..k] + s[k + 1..])
  }

  /** The bucket with position k moved to the front. */
  function MoveToFront(s: seq<Contact>, k: nat): seq<Contact>
    requires k < |s|
  {
    Reinsert(s, k, s[k])
  }

  /** The bucket with c in front, cut to K contacts. */
  function Prepend(s: seq<Contact>, c: Contact): seq<Contact> {
    if |s| + 1 > K then ([c] + s)[..K] else [c] + s
  }

  /** What one AddContact does to the bucket it selects. A known contact keeps its old address. */
  function Refresh(s: seq<Contact>, c: Contact, now: int): seq<Contact> {
    var k := Find(s, c.id);
    if k < |s| then Reinsert(s, k, s[k].(lastSeen := now))
    else Prepend(s, c.(lastSeen := now))
  }

  // ---------- the whole table as a value ----------

  type Table = t: seq<seq<Contact>> | |t| == ID_BITS witness seq(ID_BITS, _ => [])

  function EmptyTable(): Table {
    seq(ID_BITS, _ => [])
  }

  /** The bucket number of an identifier: prefix length of its distance, clamped for the owner itself. */
  function BucketIndex(owner: Id, id: Id): (i: nat)
    ensures i < ID_BITS
  {
    var prefix := LeadingZeros(Xor(owner, id));
    if prefix >= ID_BITS then ID_BITS - 1 else prefix
  }

  /** The clamp only concerns the owner: every other identifier is bucketed by its prefix length. */
  lemma BucketIsPrefixLength(owner: Id, id: Id)
    ensures LeadingZeros(Xor(owner, id)) == ID_BITS <==> owner == id
    ensures owner != id ==> BucketIndex(owner, id) == LeadingZeros(Xor(owner, id))
  {
    LeadingZerosGiveRange(Xor(owner, id));
    DistanceZeroIffEqual(owner, id);
  }

  function AddToTable(owner: Id, t: Table, c: Contact, now: int): Table {
    if c.id == owner then t
    else var i := BucketIndex(owner, c.id); t[i := Refresh(t[i], c, now)]
  }

  ghost predicate WellFormedBucket(owner: Id, i: nat, s: seq<Contact>) {
    && |s| <= K
    && Distinct(IdsOf(s))
    && forall k :: 0 <= k < |s| ==> s[k].id != owner && BucketIndex(owner, s[k].id) == i
  }

  /** Every contact is in its own bucket, no identifier occurs twice, the owner never occurs, buckets stay within K. */
  ghost predicate WellFormed(owner: Id, t: Table) {
    forall i :: 0 <= i < ID_BITS ==> WellFormedBucket(owner, i, t[i])
  }

  /** Which old position the contact at position j of the refreshed bucket comes from (the front one is new). */
  lemma RefreshShape(s: seq<Contact>, c: Contact, now: int)
    ensures var k, r := Find(s, c.id), Refresh(s, c, now);
            && |r| == (if k < |s| then |s| else Min(K, |s| + 1))
            && r[0] == (if k < |s| then s[k] else c).(lastSeen := now)
            && (forall j :: 0 < j < |r| ==> r[j] == s[if j <= k then j - 1 else j])
  {
  }

  lemma RefreshDistinct(s: seq<Contact>, c: Contact, now: int)
    requires Distinct(IdsOf(s))
    ensures Distinct(IdsOf(Refresh(s, c, now)))
  {
    RefreshShape(s, c, now);
    var k, r := Find(s, c.id), Refresh(s, c, now);
    forall i, j | 0 <= i < j < |r|
      ensures r[i].id != r[j].id
    {
      var p := if j <= k then j - 1 else j;
      if i > 0 {
        assert IdsOf(s)[if i <= k then i - 1 else i] != IdsOf(s)[p];
      } else if k < |s| {
        assert if p < k then IdsOf(s)[p] != IdsOf(s)[k] else IdsOf(s)[k] != IdsOf(s)[p];
      }
    }
  }

  lemma RefreshKeepsWellFormed(owner: Id, i: nat, s: seq<Contact>, c: Contact, now: int)
    requires |s| <= K && WellFormedBucket(owner, i, s) && c.id != owner && BucketIndex(owner, c.id) == i
    ensures WellFormedBucket(owner, i, Refresh(s, c, now))
  {
    RefreshShape(s, c, now);
    RefreshDistinct(s, c, now);
  }

  lemma AddKeepsWellFormed(owner: Id, t: Table, c: Contact, now: int)
    requires WellFormed(owner, t)
    ensures WellFormed(owner, AddToTable(owner, t, c, now))
  {
    if c.id != owner {
      var i := BucketIndex(owner, c.id);
      assert WellFormedBucket(owner, i, t[i]);
      RefreshKeepsWellFormed(owner, i, t[i], c, now);
    }
  }

  // ---------- all contacts of a table ----------

  /** The contacts of buckets 0 .. n-1, in bucket order. */
  function FlattenTo(t: Table, n: nat): seq<Contact>
    requires n <= ID_BITS
  {
    if n == 0 then [] else FlattenTo(t, n - 1) + t[n - 1]
  }

  function AllContacts(t: Table): seq<Contact> {
    FlattenTo(t, ID_BITS)
  }

  lemma {:induction false} FlattenMembers(t: Table, n: nat, c: Contact)
    requires n <= ID_BITS
    ensures c in FlattenTo(t, n) <==> exists i :: 0 <= i < n && c in t[i]
  {
    if n > 0 { FlattenMembers(t, n - 1, c); }
  }

  lemma {:induction false} FlattenDistinct(owner: Id, t: Table, n: nat)
    requires n <= ID_BITS && WellFormed(owner, t)
    ensures Distinct(IdsOf(FlattenTo(t, n)))
    ensures forall c :: c in FlattenTo(t, n) ==> c.id != owner && BucketIndex(owner, c.id) < n
  {
    if n > 0 {
      FlattenDistinct(owner, t, n - 1);
      var front, last := FlattenTo(t, n - 1), t[n - 1];
      assert WellFormedBucket(owner, n - 1, last);
      forall i, j | 0 <= i < j < |front + last|
        ensures IdsOf(front + last)[i] != IdsOf(front + last)[j]
      {
        if j < |front| {
          assert IdsOf(front)[i] != IdsOf(front)[j];
        } else if i < |front| {
          assert front[i] in front;
        } else {
          assert IdsOf(last)[i - |front|] != IdsOf(last)[j - |front|];
        }
      }
    }
  }

  /** Distinct identifiers stay distinct under permutation. */
  lemma PermutationDistinct(s: seq<Contact>, p: seq<Contact>)
    requires multiset(s) == multiset(p) && Distinct(IdsOf(s))
    ensures |s| == |p| && Distinct(IdsOf(p))
  {
    assert |s| == |multiset(s)| == |multiset(p)| == |p|;
    forall i, j | 0 <= i < j < |p|
      ensures IdsOf(p)[i] != IdsOf(p)[j]
    {
      if p[i].id == p[j].id {
        assert p[i] in multiset(p) && p[j] in multiset(p);
        assert p[i] in s && p[j] in s;
        var a :| 0 <= a < |s| && s[a] == p[i];
        var b :| 0 <= b < |s| && s[b] == p[j];
        assert IdsOf(s)[a] == IdsOf(s)[b];
        assert a == b;
        CountTwice(p, i, j);
        CountOnce(s, a);
      }
    }
  }

  lemma CountTwice(p: seq<Contact>, i: nat, j: nat)
    requires i < j < |p| && p[i] == p[j]
    ensures multiset(p)[p[i]] >= 2
  {
    assert p == p[..j] + [p[j]] + p[j + 1..];
    assert p[i] in p[..j];
  }

  lemma CountOnce(s: seq<Contact>, a: nat)
    requires a < |s| && Distinct(IdsOf(s))
    ensures multiset(s)[s[a]] == 1
  {
    assert s == s[..a] + [s[a]] + s[a + 1..];
    forall b | 0 <= b < |s| && b != a
      ensures s[b] != s[a]
    {
      assert IdsOf(s)[b] != IdsOf(s)[a];
    }
    assert s[a] !in s[..a] && s[a] !in s[a + 1..];
  }

  // ---------- closest contacts ----------

  ghost predicate Nearer(target: Id, s: seq<Contact>) {
    forall i, j :: 0 <= i < j < |s| ==> Distance(target, s[i].id) < Distance(target, s[j].id)
  }

  /** r lists exactly the n contacts of pool closest to target, nearest first. */
  ghost predicate IsClosest(target: Id, pool: seq<Contact>, n: nat, r: seq<Contact>) {
    && |r| == Min(n, |pool|)
    && (forall c :: c in r ==> c in pool)
    && Nearer(target, r)
    && forall c, d :: c in pool && c !in r && d in r ==> Distance(target, d.id) < Distance(target, c.id)
  }

  lemma CutOfSortedIsClosest(target: Id, pool: seq<Contact>, sorted: seq<Contact>, n: nat)
    requires Distinct(IdsOf(pool)) && multiset(pool) == multiset(sorted)
    requires SortedExcept(Distances(target, sorted), |sorted|, |sorted|)
    ensures |sorted| == |pool| && IsClosest(target, pool, n, sorted[..Min(n, |pool|)])
  {
    PermutationDistinct(pool, sorted);
    forall i, j | 0 <= i < j < |sorted|
      ensures Distance(target, sorted[i].id) < Distance(target, sorted[j].id)
    {
      assert Distances(target, sorted)[i] <= Distances(target, sorted)[j];
      assert IdsOf(sorted)[i] != IdsOf(sorted)[j];
      if Distance(target, sorted[i].id) == Distance(target, sorted[j].id) {
        DistanceOneToOne(target, sorted[i].id, sorted[j].id);
      }
    }
    var r := sorted[..Min(n, |pool|)];
    forall c | c in pool
      ensures c in sorted
    {
      assert c in multiset(pool);
    }
    forall c | c in r
      ensures c in pool
    {
      assert c in multiset(sorted);
    }
  }

  /** The comparison that FindClosest hands to the sort. */
  method Closer(target: Id, a: Contact, b: Contact) returns (closer: bool)
    ensures closer <==> Distance(target, a.id) < Distance(target, b.id)
  {
    var da := XOR(target, a.id);
    var db := XOR(target, b.id);
    closer := Less(da, db);
  }

  function Distances(target: Id, s: seq<Contact>): (d: seq<nat>)
    ensures |d| == |s|
    ensures forall i :: 0 <= i < |s| ==> d[i] == Distance(target, s[i].id)
  {
    seq(|s|, i requires 0 <= i < |s| => Distance(target, s[i].id))
  }

  /** The first n keys are in order when position j is skipped as a right neighbour. */
  ghost predicate SortedExcept(keys: seq<nat>, n: nat, j: int)
    requires n <= |keys|
  {
    forall p, q :: 0 <= p < q < n && q != j ==> keys[p] <= keys[q]
  }

  function Swap<T>(s: seq<T>, j: nat): (r: seq<T>)
    requires 0 < j < |s|
    ensures multiset(r) == multiset(s)
  {
    assert s == s[..j - 1] + [s[j - 1]] + [s[j]] + s[j + 1..];
    assert s[j := s[j - 1]][j - 1 := s[j]] == s[..j - 1] + [s[j]] + [s[j - 1]] + s[j + 1..];
    s[j := s[j - 1]][j - 1 := s[j]]
  }

  lemma SwapStep(target: Id, s: seq<Contact>, n: nat, j: nat)
    requires 0 < j < n <= |s| && SortedExcept(Distances(target, s), n, j)
    requires Distance(target, s[j].id) < Distance(target, s[j - 1].id)
    ensures SortedExcept(Distances(target, Swap(s, j)), n, j - 1)
  {
    assert Distances(target, Swap(s, j)) == Swap(Distances(target, s), j);
  }

  lemma SinkDone(keys: seq<nat>, n: nat, j: nat)
    requires j < n <= |keys| && SortedExcept(keys, n, j)
    requires j == 0 || keys[j - 1] <= keys[j]
    ensures SortedExcept(keys, n, n)
  {
  }

  /** The contract of sort.Slice, met by the insertion sort that it uses on short slices. */
  method SortByDistance(a: array<Contact>, target: Id)
    modifies a
    ensures multiset(a[..]) == multiset(old(a[..]))
    ensures SortedExcept(Distances(target, a[..]), a.Length, a.Length)
  {
    for i := 0 to a.Length
      invariant multiset(a[..]) == multiset(old(a[..]))
      invariant SortedExcept(Distances(target, a[..]), i, i)
    {
      SinkInto(a, i, target);
    }
  }

  method SinkInto(a: array<Contact>, i: nat, target: Id)
    requires i < a.Length && SortedExcept(Distances(target, a[..]), i, i)
    modifies a
    ensures multiset(a[..]) == multiset(old(a[..]))
    ensures SortedExcept(Distances(target, a[..]), i + 1, i + 1)
  {
    var j := i;
    while j > 0
      invariant 0 <= j <= i
      invariant multiset(a[..]) == multiset(old(a[..]))
      invariant SortedExcept(Distances(target, a[..]), i + 1, j)
    {
      var closer := Closer(target, a[j], a[j - 1]);
      if !closer {
        SinkDone(Distances(target, a[..]), i + 1, j);
        return;
      }
      SwapStep(target, a[..], i + 1, j);
      ghost var swapped := Swap(a[..], j);
      a[j], a[j - 1] := a[j - 1], a[j];
      assert a[..] == swapped;
      j := j - 1;
    }
    SinkDone(Distances(target, a[..]), i + 1, 0);
  }

  // ---------- the mutable objects ----------

  class Bucket {
    var contacts: seq<Contact>

    constructor ()
      ensures contacts == []
    {
      contacts := [];
    }

    method Touch(id: Id) returns (found: bool)
      modifies this
      ensures found <==> id in IdsOf(old(contacts))
      ensures found ==> Find(old(contacts), id) < |old(contacts)|
                        && contacts == MoveToFront(old(contacts), Find(old(contacts), id))
      ensures !found ==> contacts == old(contacts)
    {
      for i := 0 to |contacts|
        invariant contacts == old(contacts)
        invariant forall k :: 0 <= k < i ==> contacts[k].id != id
      {
        var c := contacts[i];
        var same := Equals(c.id, id);
        if same {
          assert IdsOf(contacts)[i] == id;
          assert Find(contacts, id) == i;
          if i == 0 {
            assert contacts == MoveToFront(contacts, 0);
            return true;
          }
          contacts := [c] + (contacts[..i] + contacts[i + 1..]);
          assert contacts == MoveToFront(old(contacts), i);
          return true;
        }
      }
      return false;
    }

    /** The new contact is in front, the others follow in their order, and the last one falls out of a full bucket. */
    method Add(c: Contact)
      modifies this
      ensures |contacts| == Min(K, |old(contacts)| + 1) && contacts[0] == c
      ensures forall j :: 0 < j < |contacts| ==> contacts[j] == old(contacts)[j - 1]
    {
      contacts := [c] + contacts;
      if |contacts| > K {
        contacts := contacts[..K];
      }
    }

    method All() returns (out: seq<Contact>)
      ensures out == contacts
    {
      var copy := new Contact[|contacts|](i requires 0 <= i < |contacts| reads this => contacts[i]);
      out := copy[..];
    }
  }

  class RoutingTable {
    const owner: Id
    const buckets: seq<Bucket>

    ghost predicate Valid()
      reads this, buckets
    {
      && |buckets| == ID_BITS
      && (forall i, j :: 0 <= i < j < ID_BITS ==> buckets[i] != buckets[j])
      && WellFormed(owner, Contents())
    }

    ghost function Contents(): (t: Table)
      requires |buckets| == ID_BITS
      reads this, buckets
    {
      seq(ID_BITS, i requires 0 <= i < ID_BITS reads this, buckets => buckets[i].contacts)
    }

    constructor (owner: Id)
      ensures Valid() && this.owner == owner && Contents() == EmptyTable()
      ensures fresh(buckets)
    {
      var bs: seq<Bucket> := [];
      for i := 0 to ID_BITS
        invariant |bs| == i && fresh(bs)
        invariant forall p, q :: 0 <= p < q < i ==> bs[p] != bs[q]
        invariant forall p :: 0 <= p < i ==> bs[p].contacts == []
      {
        var b := new Bucket();
        bs := bs + [b];
      }
      this.owner := owner;
      buckets := bs;
    }

    method BucketNumber(id: Id) returns (i: nat)
      ensures i == BucketIndex(owner, id)
    {
      var dist := XOR(owner, id);
      var prefix := PrefixLen(dist);
      if prefix >= ID_BITS {
        return ID_BITS - 1;
      }
      return prefix;
    }

    /** Adds or refreshes a contact; now is the clock reading. */
    method AddContact(c: Contact, now: int)
      requires Valid()
      modifies buckets
      ensures Valid() && Contents() == AddToTable(owner, old(Contents()), c, now)
    {
      AddKeepsWellFormed(owner, Contents(), c, now);
      var isSelf := Equals(owner, c.id);
      if isSelf {
        return;
      }
      var idx := BucketNumber(c.id);
      var b := buckets[idx];
      ghost var was := b.contacts;
      assert was == Contents()[idx];
      var found := b.Touch(c.id);
      if found {
        TouchedIsRefreshed(was, c, now);
        b.contacts := b.contacts[0 := b.contacts[0].(lastSeen := now)];
      } else {
        b.Add(c.(lastSeen := now));
        assert b.contacts == Prepend(was, c.(lastSeen := now));
      }
      assert b.contacts == Refresh(was, c, now) by {
        FindAbsent(was, c.id);
      }
      assert Contents() == AddToTable(owner, old(Contents()), c, now);
    }

    /** The contacts of all buckets, in bucket order. */
    method Gather() returns (pool: seq<Contact>)
      requires Valid()
      ensures pool == AllContacts(Contents())
    {
      pool := [];
      for i := 0 to ID_BITS
        invariant pool == FlattenTo(Contents(), i)
      {
        var some := buckets[i].All();
        assert some == Contents()[i];
        pool := pool + some;
      }
    }

    /** The n contacts of the table closest to target, nearest first. A negative n is only harmless on an empty table. */
    method FindClosest(target: Id, n: int) returns (closest: seq<Contact>)
      requires Valid()
      requires n >= 0 || AllContacts(Contents()) == []
      ensures n < 0 ==> closest == []
      ensures n >= 0 ==> IsClosest(target, AllContacts(Contents()), n, closest)
    {
      var pool := Gather();
      if |pool| == 0 {
        return [];
      }
      FlattenDistinct(owner, Contents(), ID_BITS);
      closest := NearestOf(pool, target, n);
    }
  }

  /** Sorts a copy of the pool by distance and cuts it. */
  method NearestOf(pool: seq<Contact>, target: Id, n: nat) returns (closest: seq<Contact>)
    requires Distinct(IdsOf(pool))
    ensures IsClosest(target, pool, n, closest)
  {
    var a := new Contact[|pool|](i requires 0 <= i < |pool| => pool[i]);
    assert a[..] == pool;
    SortByDistance(a, target);
    CutOfSortedIsClosest(target, pool, a[..], n);
    var count := if n > a.Length then a.Length else n;
    closest := a[..count];
  }

  /** Touching a known contact and setting its LastSeen is a refresh. */
  lemma TouchedIsRefreshed(s: seq<Contact>, c: Contact, now: int)
    requires Find(s, c.id) < |s|
    ensures var front := MoveToFront(s, Find(s, c.id));
            front != [] && front[0 := front[0].(lastSeen := now)] == Refresh(s, c, now)
  {
    var k := Find(s, c.id);
    NewFront(s[k], s[..k] + s[k + 1..], s[k].(lastSeen := now));
  }

  lemma NewFront(x: Contact, rest: seq<Contact>, y: Contact)
    ensures ([x] + rest)[0] == x && ([x] + rest)[0 := y] == [y] + rest
  {
  }

  lemma FindAbsent(s: seq<Contact>, id: Id)
    ensures Find(s, id) < |s| <==> id in IdsOf(s)
  {
    if Find(s, id) < |s| {
      assert IdsOf(s)[Find(s, id)] == id;
    }
  }
}
