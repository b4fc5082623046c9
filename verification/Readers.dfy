/** io.Reader and io.ReadFull over a byte stream whose reads may be short, empty, or return their
    last bytes together with EOF. A plan fixes how each coming read behaves, so a statement about
    every plan is a statement about every way to split the reads; buffering only changes the plan. */
module Readers {
  import opened Ids

  datatype Status = Quiet | Eof | Failed

  /** One coming read: how many bytes it wants to deliver, and what it reports.
      Eof is only reported once nothing is left. */
  datatype Planned = Planned(want: nat, report: Status)

  ghost predicate Reliable(plan: seq<Planned>) {
    forall p :: p in plan ==> p.report != Failed
  }

  /** What one read delivers and reports, and the plan after it. */
  function Delivered(rest: Bytes, plan: seq<Planned>, space: nat): (d: (Bytes, Status, seq<Planned>))
    ensures d.0 <= rest && |d.0| <= space
    ensures plan == [] ==> |d.0| == Min(space, |rest|) && (d.1 == Eof <==> rest == []) && d.1 != Failed && d.2 == []
  {
    if plan == [] then (rest[..Min(space, |rest|)], if rest == [] then Eof else Quiet, [])
    else
      var n := Min(plan[0].want, Min(space, |rest|));
      (rest[..n], if plan[0].report == Eof && n < |rest| then Quiet else plan[0].report, plan[1..])
  }

  class Reader {
    var rest: Bytes          // not delivered yet
    var plan: seq<Planned>   // after the plan, reads deliver all they can and then report EOF

    constructor (content: Bytes, plan: seq<Planned>)
      ensures rest == content && this.plan == plan
    {
      rest, this.plan := content, plan;
    }

    method Read(space: nat) returns (data: Bytes, status: Status)
      requires space > 0
      modifies this
      ensures old(rest) == data + rest && |data| <= space
      ensures (data, status, plan) == Delivered(old(rest), old(plan), space)
      ensures status == Eof ==> rest == []
      ensures status == Failed ==> !Reliable(old(plan))
      ensures Reliable(old(plan)) ==> Reliable(plan)
      ensures |plan| < |old(plan)| || (plan == old(plan) && (data != [] || status == Eof))
    {
      var wanted, report := space, if rest == [] then Eof else Quiet;
      if plan != [] {
        wanted, report := plan[0].want, plan[0].report;
        assert plan[0] in plan;
        plan := plan[1..];
      }
      var n := Min(wanted, Min(space, |rest|));
      data, rest := rest[..n], rest[n..];
      status := if report == Eof && rest != [] then Quiet else report;
    }
  }

  /** What reads deliver together until the buffer is full or one of them reports EOF or an error. */
  function FullDelivered(rest: Bytes, plan: seq<Planned>, space: nat): (d: (Bytes, Status, seq<Planned>))
    requires space > 0
    ensures d.0 <= rest && |d.0| <= space
    decreases |plan|, |rest|
  {
    var (data, status, after) := Delivered(rest, plan, space);
    if |data| == space || status != Quiet then (data, status, after)
    else
      var (more, last, end) := FullDelivered(rest[|data|..], after, space - |data|);
      (data + more, last, end)
  }

  datatype FullStatus = Full | NoMore | Partial | Broken

  /** After reading buf with status s, the reads still to come lead to what was expected from the start. */
  ghost predicate Ahead(expected: (Bytes, Status, seq<Planned>), buf: Bytes, s: Status, rest: Bytes, plan: seq<Planned>, size: nat)
    requires |buf| <= size
  {
    if |buf| == size || s != Quiet then expected == (buf, s, plan)
    else var d := FullDelivered(rest, plan, size - |buf|); expected == (buf + d.0, d.1, d.2)
  }

  lemma AheadAtStart(rest: Bytes, plan: seq<Planned>, size: nat)
    requires size > 0
    ensures Ahead(FullDelivered(rest, plan, size), [], Quiet, rest, plan, size)
  {
    assert [] + FullDelivered(rest, plan, size).0 == FullDelivered(rest, plan, size).0;
  }

  lemma ThreeParts(a: Bytes, b: Bytes, c: Bytes)
    ensures a + (b + c) == (a + b) + c
  {
  }

  lemma AheadStep(expected: (Bytes, Status, seq<Planned>), buf: Bytes, rest: Bytes, plan: seq<Planned>, size: nat,
                  data: Bytes, s: Status, left: Bytes, after: seq<Planned>)
    requires |buf| < size && Ahead(expected, buf, Quiet, rest, plan, size)
    requires (data, s, after) == Delivered(rest, plan, size - |buf|) && rest == data + left
    ensures Ahead(expected, buf + data, s, left, after, size)
  {
    assert rest[|data|..] == left;
    if |data| < size - |buf| && s == Quiet {
      ThreeParts(buf, data, FullDelivered(left, after, size - |buf| - |data|).0);
    }
  }

  lemma DeliveredFacts(rest: Bytes, plan: seq<Planned>, space: nat)
    requires space > 0
    ensures var (data, status, after) := Delivered(rest, plan, space);
            && (status == Eof ==> data == rest) && (status == Failed ==> !Reliable(plan))
            && (Reliable(plan) ==> Reliable(after)) && |after| <= |plan|
  {
    if plan != [] {
      assert plan[0] in plan;
    }
  }

  lemma {:induction false} FullDeliveredFacts(rest: Bytes, plan: seq<Planned>, space: nat)
    requires space > 0
    ensures var (data, status, after) := FullDelivered(rest, plan, space);
            && (status == Eof ==> data == rest) && (status == Failed ==> !Reliable(plan))
            && (Reliable(plan) ==> Reliable(after)) && |after| <= |plan|
    decreases |plan|, |rest|
  {
    var (data, status, after) := Delivered(rest, plan, space);
    DeliveredFacts(rest, plan, space);
    if |data| < space && status == Quiet {
      FullDeliveredFacts(rest[|data|..], after, space - |data|);
    }
  }

  /** The reading loop. */
  method FillBuffer(r: Reader, size: nat) returns (buf: Bytes, s: Status)
    requires size > 0
    modifies r
    ensures old(r.rest) == buf + r.rest
    ensures (buf, s, r.plan) == FullDelivered(old(r.rest), old(r.plan), size)
    ensures |buf| < size ==> s != Quiet
  {
    buf, s := [], Quiet;
    ghost var expected := FullDelivered(r.rest, r.plan, size);
    AheadAtStart(r.rest, r.plan, size);
    while |buf| < size && s == Quiet
      invariant old(r.rest) == buf + r.rest && |buf| <= size
      invariant Ahead(expected, buf, s, r.rest, r.plan, size)
      decreases |r.plan|, |r.rest|, if s == Quiet then 1 else 0
    {
      var data;
      ghost var rest, plan := r.rest, r.plan;
      data, s := r.Read(size - |buf|);
      AheadStep(expected, buf, rest, plan, size, data, s, r.rest, r.plan);
      ThreeParts(buf, data, r.rest);
      buf := buf + data;
    }
  }

  /** io.ReadFull: reads until size bytes are there. An error reported with the last byte needed is dropped. */
  method ReadFull(r: Reader, size: nat) returns (buf: Bytes, status: FullStatus)
    requires size > 0
    modifies r
    ensures old(r.rest) == buf + r.rest && |buf| <= size
    ensures var (data, last, after) := FullDelivered(old(r.rest), old(r.plan), size);
            buf == data && r.plan == after && (status == Broken <==> |data| < size && last == Failed)
    ensures status == Full <==> |buf| == size
    ensures status == NoMore ==> buf == [] && r.rest == []
    ensures status == Partial ==> buf != [] && r.rest == []
    ensures status == Broken ==> !Reliable(old(r.plan))
    ensures Reliable(old(r.plan)) ==> Reliable(r.plan)
    ensures |r.plan| <= |old(r.plan)|
  {
    FullDeliveredFacts(r.rest, r.plan, size);
    var s;
    buf, s := FillBuffer(r, size);
    if |buf| == size {
      status := Full;
    } else if s == Eof {
      status := if buf == [] then NoMore else Partial;
    } else {
      status := Broken;
    }
  }
}
