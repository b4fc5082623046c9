/** The iterative lookup. The routing table changes while a lookup waits for answers, so each
    FindClosest call of a lookup has its own view of the table. */
module IterativeLookup {
  import opened Ids
  import opened Routing
  import opened Chunks
  import opened Geometry

  const MAX_ROUNDS := 5

  // ---------- lookup ----------

  /** The contacts one round queries: the first k whose address was not queried in an earlier round. */
  function Select(shortlist: seq<Contact>, queried: set<string>, k: nat): seq<Contact> {
    if k == 0 || shortlist == [] then []
    else if shortlist[0].address in queried then Select(shortlist[1..], queried, k)
    else [shortlist[0]] + Select(shortlist[1..], queried, k - 1)
  }

  /** At most k contacts of the shortlist with new addresses, and none only if there is none. */
  lemma {:induction false} SelectionIsNew(shortlist: seq<Contact>, queried: set<string>, k: nat)
    ensures var chosen := Select(shortlist, queried, k);
            && |chosen| <= k
            && (forall c :: c in chosen ==> c in shortlist && c.address !in queried)
            && (chosen == [] <==> k == 0 || forall c :: c in shortlist ==> c.address in queried)
  {
    if k > 0 && shortlist != [] {
      assert shortlist == [shortlist[0]] + shortlist[1..];
      SelectionIsNew(shortlist[1..], queried, if shortlist[0].address in queried then k else k - 1);
    }
  }

  /** The selection takes the nearest contacts with new addresses: one that is passed over is farther than all taken. */
  lemma {:induction false} SelectionIsNearest(target: Id, shortlist: seq<Contact>, queried: set<string>, k: nat, c: Contact)
    requires Nearer(target, shortlist) && c in shortlist && c.address !in queried && c !in Select(shortlist, queried, k)
    ensures var chosen := Select(shortlist, queried, k);
            |chosen| == k && forall d :: d in chosen ==> Distance(target, d.id) < Distance(target, c.id)
  {
    if k > 0 {
      var first, rest := shortlist[0], shortlist[1..];
      assert shortlist == [first] + rest;
      SelectionIsNearest(target, rest, queried, if first.address in queried then k else k - 1, c);
    }
  }

  lemma {:induction false} SelectAppend(shortlist: seq<Contact>, c: Contact, queried: set<string>, k: nat)
    ensures var chosen := Select(shortlist, queried, k);
            Select(shortlist + [c], queried, k)
            == if |chosen| < k && c.address !in queried then chosen + [c] else chosen
  {
    if k == 0 {
    } else if shortlist == [] {
      assert [c][1..] == [];
    } else {
      assert (shortlist + [c])[1..] == shortlist[1..] + [c];
      SelectAppend(shortlist[1..], c, queried, if shortlist[0].address in queried then k else k - 1);
    }
  }

  function Addresses(s: seq<Contact>): set<string> {
    set c | c in s :: c.address
  }

  /** The addresses queried in the first n rounds. */
  function QueriedIn(rounds: seq<seq<Contact>>, n: nat): set<string>
    requires n <= |rounds|
  {
    if n == 0 then {} else QueriedIn(rounds, n - 1) + Addresses(rounds[n - 1])
  }

  lemma {:induction false} QueriedInPrefix(rounds: seq<seq<Contact>>, more: seq<Contact>, n: nat)
    requires n <= |rounds|
    ensures QueriedIn(rounds + [more], n) == QueriedIn(rounds, n)
  {
    if n > 0 {
      QueriedInPrefix(rounds, more, n - 1);
    }
  }

  /** Why a lookup ends before its last round: no contacts, the closest one unchanged, or nobody left to query. */
  ghost predicate Settled(shortlists: seq<seq<Contact>>, rounds: seq<seq<Contact>>)
    requires |rounds| < |shortlists|
  {
    var n := |rounds|;
    || shortlists[n] == []
    || (n > 0 && shortlists[n - 1] != [] && shortlists[n][0].id == shortlists[n - 1][0].id)
    || forall c :: c in shortlists[n] ==> c.address in QueriedIn(rounds, n)
  }

  /** Round r found contacts, and unless it is the first a closest one other than the round before. */
  ghost predicate MovesAt(shortlists: seq<seq<Contact>>, r: nat)
    requires r < |shortlists|
  {
    shortlists[r] != [] && (r > 0 ==> shortlists[r - 1] != [] && shortlists[r][0].id != shortlists[r - 1][0].id)
  }

  ghost predicate ClosestMoves(shortlists: seq<seq<Contact>>, n: nat) {
    n <= |shortlists| && forall r: nat :: r < n ==> MovesAt(shortlists, r)
  }

  lemma MovesOnce(shortlists: seq<seq<Contact>>, shortlist: seq<Contact>)
    requires ClosestMoves(shortlists, |shortlists|) && shortlist != []
    requires shortlists != [] ==> shortlists[|shortlists| - 1] != [] && shortlist[0].id != shortlists[|shortlists| - 1][0].id
    ensures ClosestMoves(shortlists + [shortlist], |shortlists| + 1)
  {
    forall r: nat | r < |shortlists| + 1
      ensures MovesAt(shortlists + [shortlist], r)
    {
      if r < |shortlists| {
        assert MovesAt(shortlists, r);
      }
    }
  }

  lemma MovesStay(shortlists: seq<seq<Contact>>, shortlist: seq<Contact>, n: nat)
    requires ClosestMoves(shortlists, n)
    ensures ClosestMoves(shortlists + [shortlist], n)
  {
    forall r: nat | r < n
      ensures MovesAt(shortlists + [shortlist], r)
    {
      assert MovesAt(shortlists, r);
    }
  }

  lemma SameClosest(target: Id, view: seq<Contact>, a: seq<Contact>, b: seq<Contact>)
    requires Distinct(IdsOf(view)) && IsClosest(target, view, K, a) && IsClosest(target, view, K, b)
    ensures a != [] && b != [] ==> a[0].id == b[0].id
  {
    ClosestIsCanonical(target, view, view, K, a, b);
    assert a != [] && b != [] ==> IdsOf(a)[0] == IdsOf(b)[0];
  }

  /** A lookup over a table that does not change queries one round at most. */
  lemma UnchangedTableOneRound(target: Id, views: seq<seq<Contact>>, shortlists: seq<seq<Contact>>, n: nat)
    requires Shortlisted(target, views, shortlists) && ClosestMoves(shortlists, n)
    requires |views| >= 2 && views[0] == views[1] && Distinct(IdsOf(views[0]))
    ensures n <= 1
  {
    if n > 1 {
      assert MovesAt(shortlists, 0) && MovesAt(shortlists, 1);
      SameClosest(target, views[0], shortlists[0], shortlists[1]);
    }
  }

  /** The selection loop of one round. */
  method PickUnqueried(shortlist: seq<Contact>, queried: set<string>) returns (toQuery: seq<Contact>)
    ensures toQuery == Select(shortlist, queried, ALPHA)
  {
    toQuery := [];
    for i := 0 to |shortlist|
      invariant toQuery == Select(shortlist[..i], queried, ALPHA)
    {
      SelectAppend(shortlist[..i], shortlist[i], queried, ALPHA);
      assert shortlist[..i + 1] == shortlist[..i] + [shortlist[i]];
      if |toQuery| >= ALPHA {
        SelectIsFull(shortlist, i, queried, ALPHA);
        return;
      }
      if shortlist[i].address in queried {
        continue;
      }
      toQuery := toQuery + [shortlist[i]];
    }
    assert shortlist[..|shortlist|] == shortlist;
  }

  lemma {:induction false} SelectIsFull(shortlist: seq<Contact>, i: nat, queried: set<string>, k: nat)
    requires i <= |shortlist| && |Select(shortlist[..i], queried, k)| >= k
    ensures Select(shortlist, queried, k) == Select(shortlist[..i], queried, k)
    decreases |shortlist| - i
  {
    if i == |shortlist| {
      assert shortlist[..i] == shortlist;
    } else {
      SelectAppend(shortlist[..i], shortlist[i], queried, k);
      assert shortlist[..i + 1] == shortlist[..i] + [shortlist[i]];
      SelectIsFull(shortlist, i + 1, queried, k);
    }
  }

  /** Each shortlist holds the K contacts closest to the target in the table at that moment. */
  ghost predicate Shortlisted(target: Id, views: seq<seq<Contact>>, shortlists: seq<seq<Contact>>) {
    |shortlists| <= |views| && forall r :: 0 <= r < |shortlists| ==> IsClosest(target, views[r], K, shortlists[r])
  }

  lemma ShortlistAdded(target: Id, views: seq<seq<Contact>>, shortlists: seq<seq<Contact>>, shortlist: seq<Contact>)
    requires Shortlisted(target, views, shortlists) && |shortlists| < |views|
    requires IsClosest(target, views[|shortlists|], K, shortlist)
    ensures Shortlisted(target, views, shortlists + [shortlist])
  {
    var all := shortlists + [shortlist];
    forall r | 0 <= r < |all|
      ensures IsClosest(target, views[r], K, all[r])
    {
      if r < |shortlists| {
        assert all[r] == shortlists[r];
      }
    }
  }

  /** A bounded, non-empty selection from its shortlist with addresses new to the lookup. */
  ghost predicate GoodRound(shortlists: seq<seq<Contact>>, rounds: seq<seq<Contact>>, r: nat)
    requires r < |rounds| && r < |shortlists|
  {
    rounds[r] != [] && rounds[r] == Select(shortlists[r], QueriedIn(rounds, r), ALPHA)
  }

  ghost predicate GoodRounds(shortlists: seq<seq<Contact>>, rounds: seq<seq<Contact>>) {
    |rounds| <= |shortlists| && forall r: nat :: r < |rounds| ==> GoodRound(shortlists, rounds, r)
  }

  lemma RoundAdded(shortlists: seq<seq<Contact>>, shortlist: seq<Contact>, rounds: seq<seq<Contact>>, chosen: seq<Contact>)
    requires GoodRounds(shortlists, rounds) && |shortlists| == |rounds|
    requires chosen != [] && chosen == Select(shortlist, QueriedIn(rounds, |rounds|), ALPHA)
    ensures GoodRounds(shortlists + [shortlist], rounds + [chosen])
    ensures QueriedIn(rounds + [chosen], |rounds| + 1) == QueriedIn(rounds, |rounds|) + Addresses(chosen)
  {
    var all := rounds + [chosen];
    forall r: nat | r < |all|
      ensures GoodRound(shortlists + [shortlist], all, r)
    {
      QueriedInPrefix(rounds, chosen, r);
      if r < |rounds| {
        assert GoodRound(shortlists, rounds, r);
      }
    }
    QueriedInPrefix(rounds, chosen, |rounds|);
  }

  /** A further shortlist does not change the rounds before it. */
  lemma RoundsStayGood(shortlists: seq<seq<Contact>>, shortlist: seq<Contact>, rounds: seq<seq<Contact>>)
    requires GoodRounds(shortlists, rounds)
    ensures GoodRounds(shortlists + [shortlist], rounds)
  {
    forall r: nat | r < |rounds|
      ensures GoodRound(shortlists + [shortlist], rounds, r)
    {
      assert GoodRound(shortlists, rounds, r);
    }
  }

  /** Within a lookup no address is queried in two different rounds. */
  lemma QueriedOnlyOnce(shortlists: seq<seq<Contact>>, rounds: seq<seq<Contact>>, q: nat, r: nat)
    requires GoodRounds(shortlists, rounds) && q < r < |rounds|
    ensures Addresses(rounds[q]) !! Addresses(rounds[r]) && |rounds[r]| <= ALPHA
  {
    assert GoodRound(shortlists, rounds, r);
    QueriedContains(rounds, q, r);
    SelectionIsNew(shortlists[r], QueriedIn(rounds, r), ALPHA);
  }

  lemma {:induction false} QueriedContains(rounds: seq<seq<Contact>>, q: nat, n: nat)
    requires q < n <= |rounds|
    ensures Addresses(rounds[q]) <= QueriedIn(rounds, n)
  {
    if q < n - 1 {
      QueriedContains(rounds, q, n - 1);
    }
  }

  // ---------- when is an address queried twice? ----------

  ghost predicate SameAddressAt(s: seq<Contact>, a: nat, b: nat) {
    a < b < |s| && s[a].address == s[b].address
  }

  ghost predicate Repeats(s: seq<Contact>) {
    exists a: nat, b: nat :: SameAddressAt(s, a, b)
  }

  /** How many of the first n contacts have new addresses. */
  function NewBefore(shortlist: seq<Contact>, queried: set<string>, n: nat): (count: nat)
    requires n <= |shortlist|
    ensures count <= n
  {
    if n == 0 then 0
    else (if shortlist[0].address in queried then 0 else 1) + NewBefore(shortlist[1..], queried, n - 1)
  }

  lemma {:induction false} NewBeforeGrows(shortlist: seq<Contact>, queried: set<string>, i: nat, j: nat)
    requires i <= j <= |shortlist|
    ensures NewBefore(shortlist, queried, i) <= NewBefore(shortlist, queried, j)
    ensures i < j && shortlist[i].address !in queried ==> NewBefore(shortlist, queried, i) < NewBefore(shortlist, queried, j)
  {
    if i > 0 {
      NewBeforeGrows(shortlist[1..], queried, i - 1, j - 1);
    }
  }

  /** A new contact with fewer than k new ones in front of it is selected, right behind these. */
  lemma {:induction false} NewIsSelected(shortlist: seq<Contact>, queried: set<string>, k: nat, j: nat)
    requires j < |shortlist| && shortlist[j].address !in queried && NewBefore(shortlist, queried, j) < k
    ensures var chosen, n := Select(shortlist, queried, k), NewBefore(shortlist, queried, j);
            n < |chosen| && chosen[n] == shortlist[j]
  {
    if j > 0 {
      NewIsSelected(shortlist[1..], queried, if shortlist[0].address in queried then k else k - 1, j - 1);
    }
  }

  /** Every selected contact is such a contact. */
  lemma {:induction false} SelectedIsNew(shortlist: seq<Contact>, queried: set<string>, k: nat, n: nat) returns (j: nat)
    requires n < |Select(shortlist, queried, k)|
    ensures j < |shortlist| && Select(shortlist, queried, k)[n] == shortlist[j]
    ensures shortlist[j].address !in queried && NewBefore(shortlist, queried, j) == n < k
  {
    if shortlist[0].address in queried {
      j := SelectedIsNew(shortlist[1..], queried, k, n);
      j := j + 1;
    } else if n == 0 {
      j := 0;
    } else {
      j := SelectedIsNew(shortlist[1..], queried, k - 1, n - 1);
      j := j + 1;
    }
  }

  /** These two contacts share a new address, the later one with fewer than k new contacts in front of it. */
  ghost predicate ShareAt(shortlist: seq<Contact>, queried: set<string>, k: nat, i: nat, j: nat) {
    && i < j < |shortlist| && shortlist[i].address == shortlist[j].address
    && shortlist[i].address !in queried && NewBefore(shortlist, queried, j) < k
  }

  ghost predicate SharesAddress(shortlist: seq<Contact>, queried: set<string>, k: nat) {
    exists i: nat, j: nat :: ShareAt(shortlist, queried, k, i, j)
  }

  lemma SharedIsRepeated(shortlist: seq<Contact>, queried: set<string>, k: nat)
    requires SharesAddress(shortlist, queried, k)
    ensures Repeats(Select(shortlist, queried, k))
  {
    var i: nat, j: nat :| ShareAt(shortlist, queried, k, i, j);
    NewBeforeGrows(shortlist, queried, i, j);
    NewIsSelected(shortlist, queried, k, i);
    NewIsSelected(shortlist, queried, k, j);
    assert SameAddressAt(Select(shortlist, queried, k), NewBefore(shortlist, queried, i), NewBefore(shortlist, queried, j));
  }

  lemma RepeatedIsShared(shortlist: seq<Contact>, queried: set<string>, k: nat)
    requires Repeats(Select(shortlist, queried, k))
    ensures SharesAddress(shortlist, queried, k)
  {
    var chosen := Select(shortlist, queried, k);
    var a: nat, b: nat :| SameAddressAt(chosen, a, b);
    var i := SelectedIsNew(shortlist, queried, k, a);
    var j := SelectedIsNew(shortlist, queried, k, b);
    if j <= i {
      NewBeforeGrows(shortlist, queried, j, i);
    }
    assert ShareAt(shortlist, queried, k, i, j);
  }

  /** Addresses are marked only after the selection: one round queries an address twice exactly if two contacts of
      its shortlist share a new address before the selection is full. */
  lemma RoundRepeatsAddress(shortlist: seq<Contact>, queried: set<string>, k: nat)
    ensures Repeats(Select(shortlist, queried, k)) <==> SharesAddress(shortlist, queried, k)
  {
    if SharesAddress(shortlist, queried, k) {
      SharedIsRepeated(shortlist, queried, k);
    }
    if Repeats(Select(shortlist, queried, k)) {
      RepeatedIsShared(shortlist, queried, k);
    }
  }

  /** All queries of the first n rounds, in order. */
  function Queries(rounds: seq<seq<Contact>>, n: nat): seq<Contact>
    requires n <= |rounds|
  {
    if n == 0 then [] else Queries(rounds, n - 1) + rounds[n - 1]
  }

  lemma {:induction false} QueriesAreQueried(rounds: seq<seq<Contact>>, n: nat, c: Contact)
    requires n <= |rounds| && c in Queries(rounds, n)
    ensures c.address in QueriedIn(rounds, n)
  {
    if c in Queries(rounds, n - 1) {
      QueriesAreQueried(rounds, n - 1, c);
    }
  }

  lemma RepeatsInPart(s: seq<Contact>, t: seq<Contact>)
    requires forall c, d :: c in s && d in t ==> c.address != d.address
    ensures Repeats(s + t) <==> Repeats(s) || Repeats(t)
  {
    if Repeats(s) {
      var a: nat, b: nat :| SameAddressAt(s, a, b);
      assert SameAddressAt(s + t, a, b);
    }
    if Repeats(t) {
      var a: nat, b: nat :| SameAddressAt(t, a, b);
      assert SameAddressAt(s + t, |s| + a, |s| + b);
    }
    if Repeats(s + t) {
      var a: nat, b: nat :| SameAddressAt(s + t, a, b);
      if b < |s| {
        assert SameAddressAt(s, a, b);
      } else if a < |s| {
        assert s[a] in s && t[b - |s|] in t;
      } else {
        assert SameAddressAt(t, a - |s|, b - |s|);
      }
    }
  }

  /** In round r two contacts share a new address before the selection is full. */
  ghost predicate RoundShares(shortlists: seq<seq<Contact>>, rounds: seq<seq<Contact>>, r: nat)
    requires r < |rounds| <= |shortlists|
  {
    SharesAddress(shortlists[r], QueriedIn(rounds, r), ALPHA)
  }

  lemma QueriesRepeatStep(shortlists: seq<seq<Contact>>, rounds: seq<seq<Contact>>, n: nat)
    requires GoodRounds(shortlists, rounds) && n < |rounds|
    ensures Repeats(Queries(rounds, n + 1)) <==> Repeats(Queries(rounds, n)) || RoundShares(shortlists, rounds, n)
  {
    var chosen := rounds[n];
    assert GoodRound(shortlists, rounds, n);
    SelectionIsNew(shortlists[n], QueriedIn(rounds, n), ALPHA);
    RoundRepeatsAddress(shortlists[n], QueriedIn(rounds, n), ALPHA);
    forall c, d | c in Queries(rounds, n) && d in chosen
      ensures c.address != d.address
    {
      QueriesAreQueried(rounds, n, c);
    }
    RepeatsInPart(Queries(rounds, n), chosen);
  }

  lemma {:induction false} RepeatHasRound(shortlists: seq<seq<Contact>>, rounds: seq<seq<Contact>>, n: nat) returns (r: nat)
    requires GoodRounds(shortlists, rounds) && n <= |rounds| && Repeats(Queries(rounds, n))
    ensures r < n && RoundShares(shortlists, rounds, r)
  {
    QueriesRepeatStep(shortlists, rounds, n - 1);
    if Repeats(Queries(rounds, n - 1)) {
      r := RepeatHasRound(shortlists, rounds, n - 1);
    } else {
      r := n - 1;
    }
  }

  lemma {:induction false} RoundMakesRepeat(shortlists: seq<seq<Contact>>, rounds: seq<seq<Contact>>, r: nat, n: nat)
    requires GoodRounds(shortlists, rounds) && r < n <= |rounds| && RoundShares(shortlists, rounds, r)
    ensures Repeats(Queries(rounds, n))
  {
    QueriesRepeatStep(shortlists, rounds, n - 1);
    if r < n - 1 {
      RoundMakesRepeat(shortlists, rounds, r, n - 1);
    }
  }

  /** A lookup queries each address at most once, except exactly if in some round two contacts share a new address
      before the selection is full. */
  lemma LookupRepeatsAddress(shortlists: seq<seq<Contact>>, rounds: seq<seq<Contact>>)
    requires GoodRounds(shortlists, rounds)
    ensures Repeats(Queries(rounds, |rounds|))
            <==> exists r: nat :: r < |rounds| && RoundShares(shortlists, rounds, r)
  {
    if Repeats(Queries(rounds, |rounds|)) {
      var r := RepeatHasRound(shortlists, rounds, |rounds|);
    }
    if r: nat :| r < |rounds| && RoundShares(shortlists, rounds, r) {
      RoundMakesRepeat(shortlists, rounds, r, |rounds|);
    }
  }

  /** It happens: a table with two contacts under one address makes a first round that queries this address twice. */
  lemma SameAddressInOneRound(target: Id, a: Id, b: Id, address: string)
    requires Distance(target, a) < Distance(target, b)
    ensures var view := [Contact(b, address, 0), Contact(a, address, 0)];
            var shortlist := [Contact(a, address, 0), Contact(b, address, 0)];
            && Distinct(IdsOf(view)) && Shortlisted(target, [view], [shortlist])
            && GoodRounds([shortlist], [shortlist]) && Repeats(shortlist)
  {
    var ca, cb := Contact(a, address, 0), Contact(b, address, 0);
    var view, shortlist := [cb, ca], [ca, cb];
    assert IdsOf(view) == [b, a];
    assert shortlist[1..] == [cb] && [cb][1..] == [];
    assert Select([cb], {}, 2) == [cb];
    assert Select(shortlist, {}, ALPHA) == shortlist;
    assert QueriedIn([shortlist], 0) == {};
    assert SameAddressAt(shortlist, 0, 1);
    assert ca in view && cb in view;
    assert IsClosest(target, view, K, shortlist);
    assert GoodRound([shortlist], [shortlist], 0);
  }

  /** One FindClosest call of a lookup. */
  method TakeShortlist(target: Id, views: seq<seq<Contact>>, read: nat, ghost before: seq<seq<Contact>>)
    returns (shortlist: seq<Contact>, ghost after: seq<seq<Contact>>)
    requires read == |before| < |views| && Distinct(IdsOf(views[read])) && Shortlisted(target, views, before)
    ensures after == before + [shortlist] && Shortlisted(target, views, after)
  {
    shortlist := NearestOf(views[read], target, K);
    ShortlistAdded(target, views, before, shortlist);
    after := before + [shortlist];
  }

  /** Where the loop stands before a round: as many shortlists as rounds, all in order, none unchanged. */
  ghost predicate Running(target: Id, views: seq<seq<Contact>>, shortlists: seq<seq<Contact>>, rounds: seq<seq<Contact>>,
                          queried: set<string>, prevClosest: Option<Id>) {
    && |shortlists| == |rounds| && Shortlisted(target, views, shortlists) && GoodRounds(shortlists, rounds)
    && ClosestMoves(shortlists, |rounds|) && queried == QueriedIn(rounds, |rounds|)
    && prevClosest == ClosestOf(shortlists)
  }

  /** The closest contact of the latest shortlist. */
  function ClosestOf(shortlists: seq<seq<Contact>>): Option<Id> {
    if shortlists == [] || shortlists[|shortlists| - 1] == [] then None else Some(shortlists[|shortlists| - 1][0].id)
  }

  lemma RoundTaken(target: Id, views: seq<seq<Contact>>, shortlists: seq<seq<Contact>>, rounds: seq<seq<Contact>>,
                   queried: set<string>, prevClosest: Option<Id>, shortlist: seq<Contact>, chosen: seq<Contact>)
    requires Running(target, views, shortlists, rounds, queried, prevClosest)
    requires Shortlisted(target, views, shortlists + [shortlist])
    requires shortlist != [] && prevClosest != Some(shortlist[0].id)
    requires chosen != [] && chosen == Select(shortlist, queried, ALPHA)
    ensures Running(target, views, shortlists + [shortlist], rounds + [chosen], queried + Addresses(chosen), Some(shortlist[0].id))
  {
    RoundAdded(shortlists, shortlist, rounds, chosen);
    if shortlists != [] {
      assert MovesAt(shortlists, |shortlists| - 1);
    }
    MovesOnce(shortlists, shortlist);
  }

  /** What a stop in the middle leaves behind. */
  lemma RunStopped(target: Id, views: seq<seq<Contact>>, shortlists: seq<seq<Contact>>, rounds: seq<seq<Contact>>,
                   queried: set<string>, prevClosest: Option<Id>, shortlist: seq<Contact>)
    requires Running(target, views, shortlists, rounds, queried, prevClosest)
    requires || shortlist == [] || prevClosest == Some(shortlist[0].id)
             || forall c :: c in shortlist ==> c.address in queried
    ensures var all := shortlists + [shortlist];
            GoodRounds(all, rounds) && ClosestMoves(all, |rounds|) && Settled(all, rounds)
  {
    RoundsStayGood(shortlists, shortlist, rounds);
    MovesStay(shortlists, shortlist, |rounds|);
    var all := shortlists + [shortlist];
    assert all[|rounds|] == shortlist;
    if |rounds| > 0 {
      assert MovesAt(shortlists, |rounds| - 1) && all[|rounds| - 1] == shortlists[|rounds| - 1];
    }
  }

  /** The rounds of a lookup. empty says that some FindClosest call found no contacts at all. */
  method QueryRounds(target: Id, views: seq<seq<Contact>>)
    returns (rounds: seq<seq<Contact>>, read: nat, empty: bool, ghost shortlists: seq<seq<Contact>>)
    requires |views| == MAX_ROUNDS + 1 && forall i :: 0 <= i < |views| ==> Distinct(IdsOf(views[i]))
    ensures Shortlisted(target, views, shortlists) && GoodRounds(shortlists, rounds)
    ensures |rounds| <= MAX_ROUNDS && 0 < read == |shortlists| <= MAX_ROUNDS
    ensures |rounds| < MAX_ROUNDS ==> |shortlists| == |rounds| + 1 && Settled(shortlists, rounds)
    ensures ClosestMoves(shortlists, |rounds|)
    ensures empty <==> shortlists[read - 1] == []
  {
    var queried: set<string> := {};
    var prevClosest: Option<Id> := None;
    rounds, shortlists, read, empty := [], [], 0, false;
    for round := 0 to MAX_ROUNDS
      invariant round == read == |rounds| && !empty
      invariant Running(target, views, shortlists, rounds, queried, prevClosest)
      invariant round > 0 ==> prevClosest.Some?
    {
      ghost var before := shortlists;
      var shortlist;
      shortlist, shortlists := TakeShortlist(target, views, read, shortlists);
      read := read + 1;
      if |shortlist| == 0 {
        empty := true;
        RunStopped(target, views, before, rounds, queried, prevClosest, shortlist);
        return;
      }
      if prevClosest == Some(shortlist[0].id) {
        RunStopped(target, views, before, rounds, queried, prevClosest, shortlist);
        return;
      }
      ghost var prev := prevClosest;
      prevClosest := Some(shortlist[0].id);
      var toQuery := PickUnqueried(shortlist, queried);
      if |toQuery| == 0 {
        SelectionIsNew(shortlist, queried, ALPHA);
        RunStopped(target, views, before, rounds, queried, prev, shortlist);
        return;
      }
      RoundTaken(target, views, before, rounds, queried, prev, shortlist, toQuery);
      queried := queried + Addresses(toQuery);
      rounds := rounds + [toQuery];
    }
  }

  /** A whole lookup: its rounds, why it ended, and the FindClosest call that gave the result. */
  ghost predicate IsLookup(target: Id, views: seq<seq<Contact>>, shortlists: seq<seq<Contact>>, rounds: seq<seq<Contact>>,
                           calls: nat, result: seq<Contact>) {
    && Shortlisted(target, views, shortlists) && GoodRounds(shortlists, rounds) && |rounds| <= MAX_ROUNDS
    && (|rounds| < MAX_ROUNDS ==> |shortlists| == |rounds| + 1 && Settled(shortlists, rounds))
    && ClosestMoves(shortlists, |rounds|)
    && (calls == |shortlists| + 1 || (calls == |shortlists| && result == []))
    && 0 < calls <= |views| && IsClosest(target, views[calls - 1], K, result)
  }

  /** Lookup. views[i] holds the contacts of the table at the i-th FindClosest call. At most five rounds query at
      most three contacts each, never an address of an earlier round; failing sends are only logged. The result is
      exactly what the table then holds closest to the target, or nothing when the table was found empty. */
  method Lookup(target: Id, views: seq<seq<Contact>>)
    returns (result: seq<Contact>, rounds: seq<seq<Contact>>, ghost shortlists: seq<seq<Contact>>, ghost calls: nat)
    requires |views| == MAX_ROUNDS + 1 && forall i :: 0 <= i < |views| ==> Distinct(IdsOf(views[i]))
    ensures IsLookup(target, views, shortlists, rounds, calls, result)
    ensures |rounds| <= 5 && |shortlists| >= |rounds| && forall r :: 0 <= r < |rounds| ==> |rounds[r]| <= 3
    ensures forall r :: 0 <= r < |rounds| ==> shortlists[r] != []
    ensures forall r :: 0 < r < |rounds| ==> shortlists[r][0].id != shortlists[r - 1][0].id
    ensures views[0] == views[1] ==> |rounds| <= 1
  {
    var read, empty;
    rounds, read, empty, shortlists := QueryRounds(target, views);
    calls := read;
    if views[0] == views[1] {
      UnchangedTableOneRound(target, views, shortlists, |rounds|);
    }
    forall r | 0 <= r < |rounds|
      ensures |rounds[r]| <= 3 && shortlists[r] != []
    {
      assert MovesAt(shortlists, r);
      assert GoodRound(shortlists, rounds, r);
      SelectionIsNew(shortlists[r], QueriedIn(rounds, r), ALPHA);
    }
    forall r | 0 < r < |rounds|
      ensures shortlists[r][0].id != shortlists[r - 1][0].id
    {
      assert MovesAt(shortlists, r);
    }
    if empty {
      assert IsClosest(target, views[read - 1], K, shortlists[read - 1]);
      return [], rounds, shortlists, calls;
    }
    calls := read + 1;
    result := NearestOf(views[read], target, K);
  }
}
