/** Requests and responses of one service as interleaved steps: callers register a one-slot channel
    under a fresh request identifier, send, and wait; the read loop takes the channel of an arriving
    response, sends into it and closes it; callers clean up after failed sends and timeouts. Each
    event below is one critical section or one channel operation, so a run is any interleaving. */
module Correlation {
  import opened Chunks
  import opened Messages

  type Channel = nat

  /** A channel of capacity one. */
  datatype Chan = Chan(buf: seq<Message>, closed: bool)

  /** What a remote call returned with: the response it received, nil from a closed channel, or an error of its own. */
  datatype Outcome = Received(m: Message) | ReceivedNil | GaveUp

  datatype Caller =
    | Registered(ch: Channel)                     // before transport.Send
    | Waiting(ch: Channel)                        // in the select
    | Cleaning(ch: Channel)                       // send failed or timed out, before takePending
    | Closing(ch: Channel, taken: Channel)        // takePending gave a channel to close
    | Returned(ch: Channel, outcome: Outcome)

  datatype ReadLoop = Idle | Holding(m: Message, ch: Channel) | Delivered(m: Message, ch: Channel)

  datatype Fault = NoFault | SendOnClosed | SendBlocks | DoubleClose

  /** Callers are named by their request identifiers. */
  datatype State = State(
    pending: map<string, Channel>,
    chans: map<Channel, Chan>,
    callers: map<string, Caller>,
    loop: ReadLoop,
    fault: Fault)

  datatype Event =
    | Register(req: string, ch: Channel)
    | SendOk(req: string)
    | SendFails(req: string)
    | TimesOut(req: string)
    | TakeOwn(req: string)
    | CloseOwn(req: string)
    | Receive(req: string)
    | Arrive(m: Message)
    | SendIntoChannel
    | CloseDelivered

  function Init(): State {
    State(map[], map[], map[], Idle, NoFault)
  }

  /** close(ch): closing twice panics. */
  function CloseChan(s: State, ch: Channel): State
    requires ch in s.chans
  {
    if s.chans[ch].closed then s.(fault := DoubleClose)
    else s.(chans := s.chans[ch := s.chans[ch].(closed := true)])
  }

  /** ch <- m: sending on a closed channel panics, sending into a full one blocks the read loop. */
  function SendChan(s: State, ch: Channel, m: Message): State
    requires ch in s.chans
  {
    if s.chans[ch].closed then s.(fault := SendOnClosed)
    else if |s.chans[ch].buf| >= 1 then s.(fault := SendBlocks)
    else s.(chans := s.chans[ch := s.chans[ch].(buf := s.chans[ch].buf + [m])])
  }

  function SetCaller(s: State, req: string, c: Caller): State {
    s.(callers := s.callers[req := c])
  }

  predicate Enabled(s: State, e: Event) {
    match e
    case Register(req, ch) => req != "" && req !in s.callers && ch !in s.chans
    case SendOk(req) => req in s.callers && s.callers[req].Registered?
    case SendFails(req) => req in s.callers && s.callers[req].Registered?
    case TimesOut(req) => req in s.callers && s.callers[req].Waiting?
    case TakeOwn(req) => req in s.callers && s.callers[req].Cleaning?
    case CloseOwn(req) => req in s.callers && s.callers[req].Closing? && s.callers[req].taken in s.chans
    case Receive(req) =>
      req in s.callers && s.callers[req].Waiting? && s.callers[req].ch in s.chans
      && (s.chans[s.callers[req].ch].buf != [] || s.chans[s.callers[req].ch].closed)
    case Arrive(_) => s.loop.Idle?
    case SendIntoChannel => s.loop.Holding? && s.loop.ch in s.chans
    case CloseDelivered => s.loop.Delivered? && s.loop.ch in s.chans
  }

  function Step(s: State, e: Event): State
    requires Enabled(s, e)
  {
    match e
    case Register(req, ch) =>
      State(s.pending[req := ch], s.chans[ch := Chan([], false)], s.callers[req := Registered(ch)], s.loop, s.fault)
    case SendOk(req) => SetCaller(s, req, Waiting(s.callers[req].ch))
    case SendFails(req) => SetCaller(s, req, Cleaning(s.callers[req].ch))
    case TimesOut(req) => SetCaller(s, req, Cleaning(s.callers[req].ch))
    case TakeOwn(req) =>
      var ch := s.callers[req].ch;
      if req in s.pending then SetCaller(s, req, Closing(ch, s.pending[req])).(pending := s.pending - {req})
      else SetCaller(s, req, Returned(ch, GaveUp))
    case CloseOwn(req) =>
      SetCaller(CloseChan(s, s.callers[req].taken), req, Returned(s.callers[req].ch, GaveUp))
    case Receive(req) =>
      var ch := s.callers[req].ch;
      var x := s.chans[ch];
      if x.buf != [] then SetCaller(s, req, Returned(ch, Received(x.buf[0]))).(chans := s.chans[ch := x.(buf := x.buf[1..])])
      else SetCaller(s, req, Returned(ch, ReceivedNil))
    case Arrive(m) =>
      if m.requestId != "" && IsResponseType(m.typ) && m.requestId in s.pending then
        s.(loop := Holding(m, s.pending[m.requestId]), pending := s.pending - {m.requestId})
      else s   // the node handles it
    case SendIntoChannel => SendChan(s, s.loop.ch, s.loop.m).(loop := Delivered(s.loop.m, s.loop.ch))
    case CloseDelivered => CloseChan(s, s.loop.ch).(loop := Idle)
  }

  /** The states of a run: any interleaving of enabled events, with any messages arriving. */
  ghost predicate Reaches(s: State, events: seq<Event>, t: State)
    decreases |events|
  {
    if events == [] then s == t else Enabled(s, events[0]) && Reaches(Step(s, events[0]), events[1..], t)
  }

  // ---------- the invariant ----------

  predicate Answers(m: Message, req: string) {
    m.requestId == req && IsResponseType(m.typ)
  }

  /** The channel of one request and who will touch it next. */
  predicate Coherent(s: State, req: string)
    requires req in s.callers
  {
    var c := s.callers[req];
    && c.ch in s.chans
    && var x := s.chans[c.ch];
       if req in s.pending then
         && s.pending[req] == c.ch && x == Chan([], false)
         && !c.Closing? && !c.Returned?
       else if s.loop.Holding? && s.loop.ch == c.ch then
         && x == Chan([], false) && Answers(s.loop.m, req)
         && !c.Closing?
       else if s.loop.Delivered? && s.loop.ch == c.ch then
         && !x.closed && !c.Closing?
         && (x.buf == [s.loop.m] || (x.buf == [] && c.Returned?)) && Answers(s.loop.m, req)
       else
         match c
         case Closing(ch, taken) => taken == ch && x == Chan([], false)
         case Returned(_, _) => true
         case _ => x.closed && |x.buf| == 1 && Answers(x.buf[0], req)
  }

  /** A call never returns with nil, and a response it returns with was sent for its own identifier. */
  predicate GoodOutcome(s: State, req: string)
    requires req in s.callers
  {
    s.callers[req].Returned? ==>
      match s.callers[req].outcome
      case Received(m) => Answers(m, req)
      case ReceivedNil => false
      case GaveUp => true
  }

  ghost predicate Inv(s: State) {
    && s.fault == NoFault
    && (forall req :: req in s.pending ==> req in s.callers)
    && (forall req :: req in s.callers ==> Coherent(s, req) && GoodOutcome(s, req))
    && (forall a, b :: a in s.callers && b in s.callers && s.callers[a].ch == s.callers[b].ch ==> a == b)
    && (!s.loop.Idle? ==> s.loop.m.requestId in s.callers && s.callers[s.loop.m.requestId].ch == s.loop.ch
                          && s.loop.m.requestId !in s.pending)
  }

  /** The request that an event is about; for the read loop's steps, the one whose channel it holds. */
  function Subject(s: State, e: Event): string {
    match e
    case Register(req, _) => req
    case SendOk(req) => req
    case SendFails(req) => req
    case TimesOut(req) => req
    case TakeOwn(req) => req
    case CloseOwn(req) => req
    case Receive(req) => req
    case Arrive(m) => m.requestId
    case _ => if s.loop.Idle? then "" else s.loop.m.requestId
  }

  /** Other requests keep their caller, channel and pending entry. */
  lemma OthersUntouched(s: State, e: Event, req: string)
    requires Inv(s) && Enabled(s, e) && req in s.callers && req != Subject(s, e)
    ensures req in Step(s, e).callers && Coherent(Step(s, e), req) && GoodOutcome(Step(s, e), req)
  {
    assert Coherent(s, req) && GoodOutcome(s, req);
    var sub := Subject(s, e);
    if sub in s.callers {
      assert Coherent(s, sub) && s.callers[sub].ch != s.callers[req].ch;
    }
  }

  lemma CallerStep(s: State, e: Event)
    requires Inv(s) && Enabled(s, e) && !e.Arrive? && !e.SendIntoChannel? && !e.CloseDelivered?
    ensures var req := Subject(s, e);
            && Step(s, e).fault == NoFault && req in Step(s, e).callers
            && Coherent(Step(s, e), req) && GoodOutcome(Step(s, e), req)
  {
    if !e.Register? {
      assert Coherent(s, Subject(s, e));
    }
  }

  lemma LoopStep(s: State, e: Event)
    requires Inv(s) && Enabled(s, e) && (e.Arrive? || e.SendIntoChannel? || e.CloseDelivered?)
    ensures var req := Subject(s, e);
            && Step(s, e).fault == NoFault
            && (req in s.callers ==> Coherent(Step(s, e), req) && GoodOutcome(Step(s, e), req))
  {
    if Subject(s, e) in s.callers {
      assert Coherent(s, Subject(s, e)) && GoodOutcome(s, Subject(s, e));
    }
  }

  lemma ChannelsStayApart(s: State, e: Event)
    requires Inv(s) && Enabled(s, e)
    ensures var t := Step(s, e);
            forall a, b :: a in t.callers && b in t.callers && t.callers[a].ch == t.callers[b].ch ==> a == b
  {
    if e.Register? {
      assert forall req :: req in s.callers ==> Coherent(s, req);
    }
  }

  lemma PendingHaveCallers(s: State, e: Event)
    requires Inv(s) && Enabled(s, e)
    ensures forall req :: req in Step(s, e).pending ==> req in Step(s, e).callers
  {
  }

  lemma LoopKnowsItsCaller(s: State, e: Event)
    requires Inv(s) && Enabled(s, e)
    ensures var t := Step(s, e);
            !t.loop.Idle? ==> && t.loop.m.requestId in t.callers && t.loop.m.requestId !in t.pending
                              && t.callers[t.loop.m.requestId].ch == t.loop.ch
  {
    if e.Arrive? && e.m.requestId in s.pending {
      assert Coherent(s, e.m.requestId);
    }
  }

  lemma StepKeepsInv(s: State, e: Event)
    requires Inv(s) && Enabled(s, e)
    ensures Inv(Step(s, e))
  {
    var t := Step(s, e);
    ChannelsStayApart(s, e);
    PendingHaveCallers(s, e);
    LoopKnowsItsCaller(s, e);
    if e.Arrive? || e.SendIntoChannel? || e.CloseDelivered? {
      LoopStep(s, e);
    } else {
      CallerStep(s, e);
    }
    forall req | req in t.callers
      ensures Coherent(t, req) && GoodOutcome(t, req)
    {
      if req != Subject(s, e) {
        assert req in s.callers;
        OthersUntouched(s, e, req);
      }
    }
  }

  /** Over every interleaving: no channel operation ever fails, and what callers return with is theirs. */
  lemma {:induction false} RunKeepsInv(s: State, events: seq<Event>, t: State)
    requires Inv(s) && Reaches(s, events, t)
    ensures Inv(t)
    decreases |events|
  {
    if events != [] {
      StepKeepsInv(s, events[0]);
      RunKeepsInv(Step(s, events[0]), events[1..], t);
    }
  }

  lemma InitInv()
    ensures Inv(Init())
  {
  }

  /** What callers can rely on in every reachable state. */
  lemma CorrelationIsSafe(events: seq<Event>, s: State)
    requires Reaches(Init(), events, s)
    ensures s.fault == NoFault
    ensures forall req :: req in s.callers && s.callers[req].Returned? ==>
              && req !in s.pending
              && s.callers[req].outcome != ReceivedNil
              && (s.callers[req].outcome.Received? ==> Answers(s.callers[req].outcome.m, req))
    ensures forall req :: req in s.callers && s.callers[req].Waiting? ==>
              s.callers[req].ch in s.chans && s.chans[s.callers[req].ch] != Chan([], true)
  {
    InitInv();
    RunKeepsInv(Init(), events, s);
    forall req | req in s.callers
      ensures Coherent(s, req) && GoodOutcome(s, req)
    {
    }
  }

  /** The read loop always has a step that works: it never waits for a caller. */
  lemma ReadLoopNeverStuck(events: seq<Event>, s: State)
    requires Reaches(Init(), events, s) && !s.loop.Idle?
    ensures var e := if s.loop.Holding? then SendIntoChannel else CloseDelivered;
            Enabled(s, e) && Step(s, e).fault == NoFault && (s.loop.Delivered? ==> Step(s, e).loop.Idle?)
  {
    InitInv();
    RunKeepsInv(Init(), events, s);
    assert Coherent(s, s.loop.m.requestId);
  }

  /** Every caller that has not returned has a step of its own. */
  lemma CallerNeverStuck(events: seq<Event>, s: State, req: string)
    requires Reaches(Init(), events, s) && req in s.callers && !s.callers[req].Returned?
    ensures Enabled(s, SendOk(req)) || Enabled(s, TimesOut(req)) || Enabled(s, TakeOwn(req)) || Enabled(s, CloseOwn(req))
  {
    InitInv();
    RunKeepsInv(Init(), events, s);
    assert Coherent(s, req);
  }

  // ---------- what calls return with ----------

  /** The call has given up or is about to. */
  predicate GivingUp(s: State, req: string) {
    && req in s.callers
    && match s.callers[req]
       case Cleaning(_) => true
       case Closing(_, _) => true
       case Returned(_, outcome) => outcome == GaveUp
       case _ => false
  }

  /** The message is on its way to the caller of req, or the caller returned with it. */
  predicate Carries(s: State, req: string, m: Message) {
    && req in s.callers
    && ((!s.loop.Idle? && s.loop.ch == s.callers[req].ch && s.loop.m == m)
        || (s.callers[req].ch in s.chans && m in s.chans[s.callers[req].ch].buf)
        || (s.callers[req].Returned? && s.callers[req].outcome == Received(m)))
  }

  /** Only a failed send or a timeout starts giving up. */
  lemma GivingUpHasCause(s: State, e: Event, req: string)
    requires Inv(s) && Enabled(s, e) && GivingUp(Step(s, e), req)
    ensures GivingUp(s, req) || e == SendFails(req) || e == TimesOut(req)
  {
    if req in s.callers {
      assert Coherent(s, req);
    }
  }

  /** Only an arrival brings a message. */
  lemma CarriedHasArrived(s: State, e: Event, req: string, m: Message)
    requires Inv(s) && Enabled(s, e) && Carries(Step(s, e), req, m)
    ensures Carries(s, req, m) || e == Arrive(m)
  {
    if req in s.callers {
      assert Coherent(s, req);
    }
    if Subject(s, e) in s.callers {
      assert Coherent(s, Subject(s, e));
    }
  }

  lemma {:induction false} GivingUpHasEvent(s: State, events: seq<Event>, t: State, req: string)
    requires Inv(s) && Reaches(s, events, t) && GivingUp(t, req)
    ensures GivingUp(s, req) || SendFails(req) in events || TimesOut(req) in events
    decreases |events|
  {
    if events != [] {
      var next := Step(s, events[0]);
      StepKeepsInv(s, events[0]);
      GivingUpHasEvent(next, events[1..], t, req);
      if GivingUp(next, req) {
        GivingUpHasCause(s, events[0], req);
      }
    }
  }

  lemma {:induction false} CarriedHasEvent(s: State, events: seq<Event>, t: State, req: string, m: Message)
    requires Inv(s) && Reaches(s, events, t) && Carries(t, req, m)
    ensures Carries(s, req, m) || Arrive(m) in events
    decreases |events|
  {
    if events != [] {
      var next := Step(s, events[0]);
      StepKeepsInv(s, events[0]);
      CarriedHasEvent(next, events[1..], t, req, m);
      if Carries(next, req, m) {
        CarriedHasArrived(s, events[0], req, m);
      }
    }
  }

  /** In every run a call gives up only after its send failed or its timeout fired, and returns only with a response
      that arrived. */
  lemma CallsReturnForAReason(events: seq<Event>, s: State, req: string)
    requires Reaches(Init(), events, s) && req in s.callers && s.callers[req].Returned?
    ensures match s.callers[req].outcome
            case GaveUp => SendFails(req) in events || TimesOut(req) in events
            case Received(m) => Arrive(m) in events && Answers(m, req)
            case ReceivedNil => false
  {
    InitInv();
    CorrelationIsSafe(events, s);
    if s.callers[req].outcome.GaveUp? {
      GivingUpHasEvent(Init(), events, s, req);
    } else {
      CarriedHasEvent(Init(), events, s, req, s.callers[req].outcome.m);
    }
  }

  /** A waiting call whose entry was taken by an arriving response can receive it once the read loop is idle again. */
  lemma TakenIsReceived(s: State, req: string)
    requires Inv(s) && s.loop.Idle? && req in s.callers && s.callers[req].Waiting? && req !in s.pending
    ensures Enabled(s, Receive(req))
    ensures var outcome := Step(s, Receive(req)).callers[req].outcome;
            outcome.Received? && Answers(outcome.m, req) && [outcome.m] == s.chans[s.callers[req].ch].buf
  {
    assert Coherent(s, req);
  }

  // ---------- the service object ----------

  /** The part of a service that calls and read loop share. Each method is an uninterrupted sequence of the
      steps above; callers is the bookkeeping of the calls that use it. */
  class Service {
    var pending: map<string, Channel>
    var chans: map<Channel, Chan>
    ghost var callers: map<string, Caller>

    ghost function StateOf(): State
      reads this
    {
      State(pending, chans, callers, Idle, NoFault)
    }

    constructor ()
      ensures StateOf() == Init() && Inv(StateOf())
    {
      pending, chans, callers := map[], map[], map[];
    }

    /** registerPending: a new one-slot channel under a fresh identifier. */
    method RegisterPending(req: string, ch: Channel)
      requires Inv(StateOf()) && Enabled(StateOf(), Register(req, ch))
      modifies this
      ensures StateOf() == Step(old(StateOf()), Register(req, ch)) && Inv(StateOf())
    {
      StepKeepsInv(StateOf(), Register(req, ch));
      chans := chans[ch := Chan([], false)];
      pending := pending[req := ch];
      callers := callers[req := Registered(ch)];
    }

    /** takePending: whoever takes a channel is the only one to close it. */
    method TakePending(req: string) returns (ch: Option<Channel>)
      modifies this`pending
      ensures ch == if req in old(pending) then Some(old(pending)[req]) else None
      ensures pending == if req in old(pending) then old(pending) - {req} else old(pending)
    {
      if req !in pending {
        return None;
      }
      ch := Some(pending[req]);
      pending := pending - {req};
    }

    /** ch <- m followed by close(ch). */
    method SendAndClose(ch: Channel, m: Message)
      requires ch in chans && chans[ch] == Chan([], false)
      modifies this`chans
      ensures chans == old(chans)[ch := Chan([m], true)]
    {
      assert chans[ch].buf + [m] == [m];
      chans := chans[ch := Chan(chans[ch].buf + [m], chans[ch].closed)];
      chans := chans[ch := chans[ch].(closed := true)];
    }

    /** One round of readLoop: a response somebody waits for is delivered and its channel closed. */
    method ReadMessage(m: Message) returns (delivered: bool)
      requires Inv(StateOf())
      modifies this`pending, this`chans
      ensures Inv(StateOf())
      ensures delivered <==> m.requestId != "" && IsResponseType(m.typ) && m.requestId in old(pending)
      ensures StateOf() == if delivered then DeliveredState(old(StateOf()), m) else old(StateOf())
    {
      if m.requestId == "" || !IsResponseType(m.typ) {
        return false;
      }
      if m.requestId in pending {
        DeliveryWorks(StateOf(), m);
      }
      var ch := TakePending(m.requestId);
      if ch.None? {
        return false;
      }
      SendAndClose(ch.value, m);
      return true;
    }
  }

  /** What taking, sending and closing leave behind when nothing comes between. */
  function DeliveredState(s: State, m: Message): State {
    if m.requestId !in s.pending then s
    else s.(pending := s.pending - {m.requestId}, chans := s.chans[s.pending[m.requestId] := Chan([m], true)])
  }

  lemma DeliveryWorks(s: State, m: Message)
    requires Inv(s) && s.loop.Idle? && Answers(m, m.requestId) && m.requestId != "" && m.requestId in s.pending
    ensures s.pending[m.requestId] in s.chans && s.chans[s.pending[m.requestId]] == Chan([], false)
    ensures Reaches(s, [Arrive(m), SendIntoChannel, CloseDelivered], DeliveredState(s, m))
    ensures Inv(DeliveredState(s, m))
  {
    assert Coherent(s, m.requestId);
    var t := Step(s, Arrive(m));
    var u := Step(t, SendIntoChannel);
    var events := [Arrive(m), SendIntoChannel, CloseDelivered];
    assert [] + [m] == [m];
    assert Step(u, CloseDelivered).chans == DeliveredState(s, m).chans;
    assert events[1..] == [SendIntoChannel, CloseDelivered] && events[1..][1..] == [CloseDelivered];
    assert events[1..][1..][1..] == [];
    assert Reaches(Step(u, CloseDelivered), [], DeliveredState(s, m));
    assert Reaches(u, events[1..][1..], DeliveredState(s, m));
    assert Reaches(t, events[1..], DeliveredState(s, m));
    RunKeepsInv(s, events, DeliveredState(s, m));
  }

  /** A waiting call gets the response: the three steps of the read loop and the receive return exactly this message. */
  lemma DeliveredIsReceived(s: State, m: Message)
    requires Inv(s) && s.loop.Idle? && Answers(m, m.requestId) && m.requestId != "" && m.requestId in s.pending
    requires s.callers[m.requestId].Waiting?
    ensures var t := DeliveredState(s, m);
            && Reaches(s, [Arrive(m), SendIntoChannel, CloseDelivered], t)
            && Enabled(t, Receive(m.requestId))
            && Step(t, Receive(m.requestId)).callers[m.requestId] == Returned(s.callers[m.requestId].ch, Received(m))
  {
    DeliveryWorks(s, m);
    assert Coherent(s, m.requestId);
    TakenIsReceived(DeliveredState(s, m), m.requestId);
  }

  lemma {:induction false} ReachesFurther(s: State, a: seq<Event>, t: State, b: seq<Event>, u: State)
    requires Reaches(s, a, t) && Reaches(t, b, u)
    ensures Reaches(s, a + b, u)
    decreases |a|
  {
    if a == [] {
      assert a + b == b;
    } else {
      ReachesFurther(Step(s, a[0]), a[1..], t, b, u);
      assert (a + b)[1..] == a[1..] + b;
    }
  }

  lemma TwoSteps(s: State, e: Event, f: Event)
    requires Enabled(s, e) && Enabled(Step(s, e), f)
    ensures Reaches(s, [e, f], Step(Step(s, e), f))
  {
    assert [e, f][1..] == [f] && [f][1..] == [];
    assert Reaches(Step(Step(s, e), f), [], Step(Step(s, e), f));
    assert Reaches(Step(s, e), [f], Step(Step(s, e), f));
  }

  /** A fresh call that was sent is waiting, with its entry pending. */
  lemma CallCanWait(s: State, req: string, ch: Channel) returns (t: State)
    requires Inv(s) && s.loop.Idle? && Enabled(s, Register(req, ch))
    ensures Reaches(s, [Register(req, ch), SendOk(req)], t) && Inv(t) && t.loop.Idle?
    ensures req in t.pending && t.callers == s.callers[req := Waiting(ch)]
  {
    var registered := Step(s, Register(req, ch));
    t := Step(registered, SendOk(req));
    TwoSteps(s, Register(req, ch), SendOk(req));
    StepKeepsInv(s, Register(req, ch));
    StepKeepsInv(registered, SendOk(req));
    assert registered.callers == s.callers[req := Registered(ch)];
  }

  lemma WaitingCanReceive(s: State, m: Message) returns (t: State)
    requires Inv(s) && s.loop.Idle? && Answers(m, m.requestId) && m.requestId != "" && m.requestId in s.pending
    requires s.callers[m.requestId].Waiting?
    ensures Reaches(s, [Arrive(m), SendIntoChannel, CloseDelivered] + [Receive(m.requestId)], t)
    ensures t.callers == s.callers[m.requestId := Returned(s.callers[m.requestId].ch, Received(m))]
  {
    DeliveredIsReceived(s, m);
    var delivered, e := DeliveredState(s, m), Receive(m.requestId);
    t := Step(delivered, e);
    assert [e][1..] == [];
    assert Reaches(t, [e][1..], t);
    ReachesFurther(s, [Arrive(m), SendIntoChannel, CloseDelivered], delivered, [e], t);
  }

  /** A call can be made and answered: whenever the read loop is idle, a fresh call that is sent and whose response
      arrives returns with this response. */
  lemma CallCanComplete(s: State, req: string, ch: Channel, m: Message) returns (events: seq<Event>, t: State)
    requires Inv(s) && s.loop.Idle? && Enabled(s, Register(req, ch)) && Answers(m, req)
    ensures Reaches(s, events, t) && t.callers == s.callers[req := Returned(ch, Received(m))]
  {
    var waiting := CallCanWait(s, req, ch);
    t := WaitingCanReceive(waiting, m);
    var answered := [Arrive(m), SendIntoChannel, CloseDelivered] + [Receive(req)];
    ReachesFurther(s, [Register(req, ch), SendOk(req)], waiting, answered, t);
    events := [Register(req, ch), SendOk(req)] + answered;
  }

  /** A call whose send failed or whose timeout fired before a response came can clean up and return. */
  lemma CallCanGiveUp(s: State, req: string, e: Event)
    requires Inv(s) && req in s.pending && Enabled(s, e) && (e == SendFails(req) || e == TimesOut(req))
    ensures var t := Step(s, e);
            && Enabled(t, TakeOwn(req)) && Enabled(Step(t, TakeOwn(req)), CloseOwn(req))
            && var u := Step(Step(t, TakeOwn(req)), CloseOwn(req));
               u.callers[req] == Returned(s.callers[req].ch, GaveUp) && u.pending == s.pending - {req} && u.fault == NoFault
  {
    assert Coherent(s, req);
  }
}
