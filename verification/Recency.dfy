/** Runs of AddContact: every bucket is the first K entries of an unbounded recency list. */
module Recency {
  import opened Ids
  import opened Routing

  /** One AddContact call with the clock reading it saw. */
  datatype Call = Call(contact: Contact, now: int)

  /** The table after a run of calls on a new table. */
  function TableAfter(owner: Id, calls: seq<Call>): Table {
    if calls == [] then EmptyTable()
    else
      var last := calls[|calls| - 1];
      AddToTable(owner, TableAfter(owner, calls[..|calls| - 1]), last.contact, last.now)
  }

  lemma {:induction false} TableAfterWellFormed(owner: Id, calls: seq<Call>)
    ensures WellFormed(owner, TableAfter(owner, calls))
  {
    if calls != [] {
      var last := calls[|calls| - 1];
      TableAfterWellFormed(owner, calls[..|calls| - 1]);
      AddKeepsWellFormed(owner, TableAfter(owner, calls[..|calls| - 1]), last.contact, last.now);
    }
  }

  predicate Hits(owner: Id, i: nat, call: Call) {
    call.contact.id != owner && BucketIndex(owner, call.contact.id) == i
  }

  /** The identifiers of the calls that select bucket i, newest first. */
  function NewestFirst(owner: Id, i: nat, calls: seq<Call>): seq<Id> {
    if calls == [] then []
    else
      var last, older := calls[|calls| - 1], NewestFirst(owner, i, calls[..|calls| - 1]);
      if Hits(owner, i, last) then [last.contact.id] + older else older
  }

  /** The first k identifiers of s that are not in seen, each taken once. */
  function FirstDistinct(s: seq<Id>, seen: set<Id>, k: nat): seq<Id> {
    if k == 0 || s == [] then []
    else if s[0] in seen then FirstDistinct(s[1..], seen, k)
    else [s[0]] + FirstDistinct(s[1..], seen + {s[0]}, k - 1)
  }

  function Without(s: seq<Id>, x: Id): seq<Id> {
    if s == [] then [] else if s[0] == x then s[1..] else [s[0]] + Without(s[1..], x)
  }

  /** Marking x as seen removes it from the list of first distinct identifiers, or drops the last of k. */
  lemma {:induction false} SeenRemoves(s: seq<Id>, seen: set<Id>, k: nat, x: Id)
    requires k > 0 && x !in seen
    ensures var all, rest := FirstDistinct(s, seen, k), FirstDistinct(s, seen + {x}, k - 1);
            && |all| <= k
            && rest == if x in all then Without(all, x) else all[..Min(|all|, k - 1)]
  {
    if s == [] {
    } else if s[0] in seen {
      SeenRemoves(s[1..], seen, k, x);
    } else if s[0] == x {
      FirstDistinctLength(s[1..], seen + {x}, k - 1);
    } else if k == 1 {
      assert FirstDistinct(s, seen, 1) == [s[0]];
    } else {
      var y := s[0];
      SeenRemoves(s[1..], seen + {y}, k - 1, x);
      assert (seen + {y}) + {x} == (seen + {x}) + {y};
      var all := FirstDistinct(s[1..], seen + {y}, k - 1);
      assert ([y] + all)[1..] == all;
    }
  }

  lemma {:induction false} FirstDistinctLength(s: seq<Id>, seen: set<Id>, k: nat)
    ensures |FirstDistinct(s, seen, k)| <= k
  {
    if k == 0 || s == [] {
    } else if s[0] in seen {
      FirstDistinctLength(s[1..], seen, k);
    } else {
      FirstDistinctLength(s[1..], seen + {s[0]}, k - 1);
    }
  }

  lemma {:induction false} WithoutIsCut(s: seq<Id>, k: nat)
    requires k < |s| && forall i :: 0 <= i < k ==> s[i] != s[k]
    ensures Without(s, s[k]) == s[..k] + s[k + 1..]
  {
    if k > 0 {
      WithoutIsCut(s[1..], k - 1);
      assert s[..k] == [s[0]] + s[1..][..k - 1];
      assert s[1..][k..] == s[k + 1..];
    }
  }

  lemma ReinsertIds(s: seq<Contact>, k: nat, c: Contact)
    requires k < |s|
    ensures IdsOf(Reinsert(s, k, c)) == [c.id] + (IdsOf(s)[..k] + IdsOf(s)[k + 1..])
  {
  }

  lemma RefreshKnownIds(s: seq<Contact>, c: Contact, now: int)
    requires Find(s, c.id) < |s|
    ensures IdsOf(Refresh(s, c, now)) == [c.id] + Without(IdsOf(s), c.id)
  {
    var k := Find(s, c.id);
    ReinsertIds(s, k, s[k].(lastSeen := now));
    WithoutIsCut(IdsOf(s), k);
  }

  lemma PrependIds(s: seq<Contact>, c: Contact)
    requires |s| <= K
    ensures IdsOf(Prepend(s, c)) == [c.id] + IdsOf(s)[..Min(|s|, K - 1)]
  {
    assert Prepend(s, c) == [c] + s[..Min(|s|, K - 1)];
  }

  lemma RefreshNewIds(s: seq<Contact>, c: Contact, now: int)
    requires |s| <= K && Find(s, c.id) == |s|
    ensures IdsOf(Refresh(s, c, now)) == [c.id] + IdsOf(s)[..Min(|s|, K - 1)]
  {
    PrependIds(s, c.(lastSeen := now));
  }

  lemma RecencyStep(ids: seq<Id>, s: seq<Contact>, c: Contact, now: int)
    requires |s| <= K && IdsOf(s) == FirstDistinct(ids, {}, K)
    ensures IdsOf(Refresh(s, c, now)) == FirstDistinct([c.id] + ids, {}, K)
  {
    FindAbsent(s, c.id);
    if Find(s, c.id) < |s| {
      RefreshKnownIds(s, c, now);
    } else {
      RefreshNewIds(s, c, now);
    }
    NewestComesFirst(ids, c.id);
  }

  /** A newer identifier goes to the front of the first K distinct ones. */
  lemma NewestComesFirst(ids: seq<Id>, x: Id)
    ensures var all := FirstDistinct(ids, {}, K);
            FirstDistinct([x] + ids, {}, K) == [x] + if x in all then Without(all, x) else all[..Min(|all|, K - 1)]
  {
    SeenRemoves(ids, {}, K, x);
    assert ([x] + ids)[1..] == ids;
  }

  /** What the newest call does to bucket i. */
  lemma TableStep(owner: Id, i: nat, calls: seq<Call>)
    requires i < ID_BITS && calls != []
    ensures var last, older := calls[|calls| - 1], calls[..|calls| - 1];
            var s := TableAfter(owner, older)[i];
            && |s| <= K && Distinct(IdsOf(s))
            && TableAfter(owner, calls)[i] == if Hits(owner, i, last) then Refresh(s, last.contact, last.now) else s
  {
    TableAfterWellFormed(owner, calls[..|calls| - 1]);
    assert WellFormedBucket(owner, i, TableAfter(owner, calls[..|calls| - 1])[i]);
  }

  /** LRU refinement: bucket i holds exactly the first K distinct identifiers, newest call first. */
  lemma {:induction false} BucketIsRecencyList(owner: Id, i: nat, calls: seq<Call>)
    requires i < ID_BITS
    ensures IdsOf(TableAfter(owner, calls)[i]) == FirstDistinct(NewestFirst(owner, i, calls), {}, K)
  {
    if calls != [] {
      var last, older := calls[|calls| - 1], calls[..|calls| - 1];
      BucketIsRecencyList(owner, i, older);
      TableStep(owner, i, calls);
      RecencyStep(NewestFirst(owner, i, older), TableAfter(owner, older)[i], last.contact, last.now);
    }
  }

  // ---------- clock readings and addresses ----------

  /** The position of the newest call for this identifier, or -1. */
  function LastCall(calls: seq<Call>, id: Id): (j: int)
    ensures -1 <= j < |calls|
    ensures j >= 0 ==> calls[j].contact.id == id
    ensures forall m :: j < m < |calls| ==> calls[m].contact.id != id
  {
    if calls == [] then -1
    else if calls[|calls| - 1].contact.id == id then |calls| - 1
    else LastCall(calls[..|calls| - 1], id)
  }

  /** LastSeen is the clock reading of the newest call for the contact, and fronts were called later. */
  ghost predicate SeenInOrder(calls: seq<Call>, s: seq<Contact>) {
    && (forall k :: 0 <= k < |s| ==> LastCall(calls, s[k].id) >= 0 && s[k].lastSeen == calls[LastCall(calls, s[k].id)].now)
    && forall a, b :: 0 <= a < b < |s| ==> LastCall(calls, s[a].id) > LastCall(calls, s[b].id)
  }

  lemma LastCallStep(older: seq<Call>, last: Call, id: Id)
    ensures LastCall(older + [last], id) == if last.contact.id == id then |older| else LastCall(older, id)
  {
    assert (older + [last])[..|older|] == older;
  }

  /** Refreshing keeps the newest calls of all but the front contact. */
  lemma RefreshLastCall(older: seq<Call>, last: Call, s: seq<Contact>, j: nat)
    requires Distinct(IdsOf(s)) && j < |Refresh(s, last.contact, last.now)|
    ensures var r, f := Refresh(s, last.contact, last.now), Find(s, last.contact.id);
            && (j == 0 ==> LastCall(older + [last], r[0].id) == |older| && r[0].lastSeen == last.now)
            && (j > 0 ==> var k := if j <= f then j - 1 else j;
                          r[j] == s[k] && LastCall(older + [last], r[j].id) == LastCall(older, s[k].id))
  {
    var r := Refresh(s, last.contact, last.now);
    RefreshShape(s, last.contact, last.now);
    RefreshDistinct(s, last.contact, last.now);
    LastCallStep(older, last, r[j].id);
    if j > 0 {
      assert IdsOf(r)[0] != IdsOf(r)[j];
    }
  }

  lemma RefreshSeenInOrder(older: seq<Call>, last: Call, s: seq<Contact>)
    requires Distinct(IdsOf(s)) && SeenInOrder(older, s)
    ensures SeenInOrder(older + [last], Refresh(s, last.contact, last.now))
  {
    var calls, r, f := older + [last], Refresh(s, last.contact, last.now), Find(s, last.contact.id);
    forall k | 0 <= k < |r|
      ensures LastCall(calls, r[k].id) >= 0 && r[k].lastSeen == calls[LastCall(calls, r[k].id)].now
    {
      RefreshLastCall(older, last, s, k);
    }
    forall a, b | 0 <= a < b < |r|
      ensures LastCall(calls, r[a].id) > LastCall(calls, r[b].id)
    {
      RefreshLastCall(older, last, s, a);
      RefreshLastCall(older, last, s, b);
    }
  }

  /** A call for another bucket changes no newest call of this one. */
  lemma OtherBucketSeenInOrder(owner: Id, i: nat, older: seq<Call>, last: Call, s: seq<Contact>)
    requires WellFormedBucket(owner, i, s) && !Hits(owner, i, last) && SeenInOrder(older, s)
    ensures SeenInOrder(older + [last], s)
  {
    forall k | 0 <= k < |s|
      ensures LastCall(older + [last], s[k].id) == LastCall(older, s[k].id)
    {
      LastCallStep(older, last, s[k].id);
    }
  }

  lemma {:induction false} BucketSeenInOrder(owner: Id, i: nat, calls: seq<Call>)
    requires i < ID_BITS
    ensures SeenInOrder(calls, TableAfter(owner, calls)[i])
  {
    if calls != [] {
      var last, older := calls[|calls| - 1], calls[..|calls| - 1];
      var s := TableAfter(owner, older)[i];
      BucketSeenInOrder(owner, i, older);
      TableStep(owner, i, calls);
      assert calls == older + [last];
      if Hits(owner, i, last) {
        RefreshSeenInOrder(older, last, s);
      } else {
        TableAfterWellFormed(owner, older);
        assert WellFormedBucket(owner, i, s);
        OtherBucketSeenInOrder(owner, i, older, last, s);
      }
    }
  }

  /** With a clock that never goes back, LastSeen never increases from front to back. */
  lemma LastSeenNeverIncreases(owner: Id, i: nat, calls: seq<Call>, a: nat, b: nat)
    requires i < ID_BITS && a < b < |TableAfter(owner, calls)[i]|
    requires forall m, n :: 0 <= m < n < |calls| ==> calls[m].now <= calls[n].now
    ensures TableAfter(owner, calls)[i][a].lastSeen >= TableAfter(owner, calls)[i][b].lastSeen
  {
    BucketSeenInOrder(owner, i, calls);
  }

  /** Call j put this identifier into bucket i, and it has stayed there ever since. */
  ghost predicate InsertedBy(owner: Id, i: nat, calls: seq<Call>, id: Id, j: nat)
    requires i < ID_BITS
  {
    && j < |calls| && calls[j].contact.id == id
    && id !in IdsOf(TableAfter(owner, calls[..j])[i])
    && forall m :: j < m <= |calls| ==> id in IdsOf(TableAfter(owner, calls[..m])[i])
  }

  lemma InsertionSurvives(owner: Id, i: nat, older: seq<Call>, last: Call, id: Id, j: nat)
    requires i < ID_BITS && InsertedBy(owner, i, older, id, j)
    requires id in IdsOf(TableAfter(owner, older + [last])[i])
    ensures InsertedBy(owner, i, older + [last], id, j)
  {
    var calls := older + [last];
    assert calls[..j] == older[..j];
    forall m | j < m <= |calls|
      ensures id in IdsOf(TableAfter(owner, calls[..m])[i])
    {
      assert calls[..m] == if m <= |older| then older[..m] else calls;
    }
  }

  /** Each address is the one given by the call that last inserted the contact; later calls do not change it. */
  lemma {:induction false} AddressFromInsertion(owner: Id, i: nat, calls: seq<Call>, k: nat) returns (j: nat)
    requires i < ID_BITS && k < |TableAfter(owner, calls)[i]|
    ensures InsertedBy(owner, i, calls, TableAfter(owner, calls)[i][k].id, j)
    ensures TableAfter(owner, calls)[i][k].address == calls[j].contact.address
  {
    assert calls != [];
    var last, older := calls[|calls| - 1], calls[..|calls| - 1];
    var s, r := TableAfter(owner, older)[i], TableAfter(owner, calls)[i];
    assert calls == older + [last];
    assert IdsOf(r)[k] == r[k].id;
    if Hits(owner, i, last) {
      RefreshShape(s, last.contact, last.now);
      FindAbsent(s, last.contact.id);
      var f := Find(s, last.contact.id);
      if k == 0 && f == |s| {
        j := |older|;
        assert calls[..|calls|] == calls;
      } else {
        var from := if k == 0 then f else if k <= f then k - 1 else k;
        j := AddressFromInsertion(owner, i, older, from);
        InsertionSurvives(owner, i, older, last, r[k].id, j);
      }
    } else {
      j := AddressFromInsertion(owner, i, older, k);
      InsertionSurvives(owner, i, older, last, r[k].id, j);
    }
  }
}
