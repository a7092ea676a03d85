/** Matching of replies to requests over the websocket (go-backend/pkg/ws.go). Any number of callers and readers
    interleave; each operation on the shared map and on a reply channel is one step. */
module Matching {
  import opened Text

  datatype Reply = Reply(requestId: string, body: string)

  datatype Answer = Offline | Got(reply: Reply) | TimedOut

  /** A call of SendMsg: waiting in the select, past its timer but not yet removed, or returned. */
  datatype Call = Waiting(ch: int) | Expired(ch: int) | Returned(answer: Answer)

  /** A reader between taking a channel out of the map and sending into it. */
  datatype Reader = Idle | Holding(ch: int, reply: Reply)

  datatype Channel = Channel(owner: string, slot: Option<Reply>, sends: nat)

  datatype State = State(
    pending: map<string, int>,
    channels: map<int, Channel>,
    calls: map<string, Call>,
    readers: map<int, Reader>)

  datatype Step =
    | Refuse(id: string)
    | Begin(id: string, ch: int)
    | Take(reader: int, reply: Reply)
    | Send(reader: int)
    | Receive(id: string)
    | Expire(id: string)
    | Forget(id: string)

  function ReaderOf(s: State, r: int): Reader { if r in s.readers then s.readers[r] else Idle }

  /** Request ids and channels are new when they are made; every other step waits until it can be made. */
  predicate Enabled(s: State, step: Step) {
    match step
    case Refuse(id) => id !in s.calls
    case Begin(id, ch) => id !in s.calls && ch !in s.channels
    case Take(r, _) => ReaderOf(s, r) == Idle
    case Send(r) => ReaderOf(s, r).Holding? && ReaderOf(s, r).ch in s.channels
        && s.channels[ReaderOf(s, r).ch].slot == None
    case Receive(id) => id in s.calls && s.calls[id].Waiting? && s.calls[id].ch in s.channels
        && s.channels[s.calls[id].ch].slot.Some?
    case Expire(id) => id in s.calls && s.calls[id].Waiting?
    case Forget(id) => id in s.calls && s.calls[id].Expired?
  }

  function Do(s: State, step: Step): State
    requires Enabled(s, step)
  {
    match step
    case Refuse(id) => s.(calls := s.calls[id := Returned(Offline)])
    case Begin(id, ch) =>
      s.(pending := s.pending[id := ch], channels := s.channels[ch := Channel(id, None, 0)],
          calls := s.calls[id := Waiting(ch)])
    case Take(r, reply) =>
      if reply.requestId in s.pending
      then s.(pending := s.pending - {reply.requestId},
          readers := s.readers[r := Holding(s.pending[reply.requestId], reply)])
      else s
    case Send(r) =>
      var h := s.readers[r];
      var c := s.channels[h.ch];
      s.(channels := s.channels[h.ch := c.(slot := Some(h.reply), sends := c.sends + 1)],
          readers := s.readers[r := Idle])
    case Receive(id) =>
      var ch := s.calls[id].ch;
      s.(channels := s.channels[ch := s.channels[ch].(slot := None)],
          calls := s.calls[id := Returned(Got(s.channels[ch].slot.value))])
    case Expire(id) => s.(calls := s.calls[id := Expired(s.calls[id].ch)])
    case Forget(id) => s.(pending := s.pending - {id}, calls := s.calls[id := Returned(TimedOut)])
  }

  const Start: State := State(map[], map[], map[], map[])

  /** The state after the steps, when every one of them could be made. */
  function Run(steps: seq<Step>): Option<State> {
    if steps == [] then Some(Start)
    else
      var before := Run(steps[..|steps| - 1]);
      var step := steps[|steps| - 1];
      if before.Some? && Enabled(before.value, step) then Some(Do(before.value, step)) else None
  }

  /** What the callers are promised. */
  ghost predicate Promised(s: State) {
    && (forall ch :: ch in s.channels ==> s.channels[ch].sends <= 1)
    && (forall r :: r in s.readers && s.readers[r].Holding? ==> Enabled(s, Send(r)))
    && (forall id :: id in s.calls && s.calls[id].Returned? ==> id !in s.pending)
    && (forall id :: id in s.calls && s.calls[id].Returned? && s.calls[id].answer.Got? ==>
          s.calls[id].answer.reply.requestId == id)
  }

  /** An open call's channel is its own. */
  ghost predicate Owned(s: State) {
    && (forall id :: id in s.calls && !s.calls[id].Returned? ==>
          s.calls[id].ch in s.channels && s.channels[s.calls[id].ch].owner == id)
    && (forall ch :: ch in s.channels && s.channels[ch].slot.Some? ==>
          s.channels[ch].slot.value.requestId == s.channels[ch].owner)
    && (forall r :: r in s.readers && s.readers[r].Holding? ==>
          s.readers[r].ch in s.channels && s.channels[s.readers[r].ch].owner == s.readers[r].reply.requestId)
    && (forall ch :: ch in s.channels ==> s.channels[ch].owner in s.calls)
  }

  /** A channel is in the map, in one reader's hand, or sent to: one of the three. */
  ghost predicate Once(s: State) {
    && (forall id :: id in s.pending ==>
          id in s.calls && !s.calls[id].Returned? && s.calls[id].ch == s.pending[id])
    && (forall id :: id in s.pending && s.pending[id] in s.channels ==> Unsent(s.channels[s.pending[id]]))
    && (forall r :: r in s.readers && s.readers[r].Holding? ==>
          && s.readers[r].reply.requestId !in s.pending
          && (s.readers[r].ch in s.channels ==> Unsent(s.channels[s.readers[r].ch])))
    && (forall r, q ::
          r in s.readers && q in s.readers && s.readers[r].Holding? && s.readers[q].Holding? ==>
            s.readers[r].ch == s.readers[q].ch ==> r == q)
  }

  predicate Unsent(c: Channel) { c.slot == None && c.sends == 0 }

  ghost predicate Inv(s: State) { Promised(s) && Owned(s) && Once(s) }

  lemma BeginKeeps(s: State, id: string, ch: int)
    requires Inv(s) && Enabled(s, Begin(id, ch))
    ensures Inv(Do(s, Begin(id, ch)))
  {
    assert id !in s.pending;
    assert Owned(Do(s, Begin(id, ch))) by { BeginOwned(s, id, ch); }
    assert Once(Do(s, Begin(id, ch))) by { BeginOnce(s, id, ch); }
    hide Owned, Once;
  }

  lemma BeginOwned(s: State, id: string, ch: int)
    requires Owned(s) && Enabled(s, Begin(id, ch))
    ensures Owned(Do(s, Begin(id, ch)))
  {
  }

  lemma BeginOnce(s: State, id: string, ch: int)
    requires Owned(s) && Once(s) && Enabled(s, Begin(id, ch))
    ensures Once(Do(s, Begin(id, ch)))
  {
  }

  lemma TakeKeeps(s: State, r: int, reply: Reply)
    requires Inv(s) && Enabled(s, Take(r, reply))
    ensures Inv(Do(s, Take(r, reply)))
  {
    var s' := Do(s, Take(r, reply));
    var id := reply.requestId;
    if id in s.pending {
      var ch := s.pending[id];
      assert s.channels[ch].owner == id;
      forall q | q in s.readers && s.readers[q].Holding? ensures s.readers[q].ch != ch {
        assert s.channels[s.readers[q].ch].owner == s.readers[q].reply.requestId;
      }
    }
  }

  lemma SendKeeps(s: State, r: int)
    requires Inv(s) && Enabled(s, Send(r))
    ensures Inv(Do(s, Send(r)))
  {
    var h := s.readers[r];
    forall id | id in s.pending ensures s.pending[id] != h.ch {
      assert s.channels[s.pending[id]].owner == id;
    }
  }

  lemma ReceiveKeeps(s: State, id: string)
    requires Inv(s) && Enabled(s, Receive(id))
    ensures Inv(Do(s, Receive(id)))
  {
    var ch := s.calls[id].ch;
    assert s.channels[ch].owner == id;
    forall i | i in s.pending ensures s.pending[i] != ch {
      assert s.channels[s.pending[i]].owner == i;
    }
  }

  lemma ExpireKeeps(s: State, id: string)
    requires Inv(s) && Enabled(s, Expire(id))
    ensures Inv(Do(s, Expire(id)))
  {
  }

  lemma ForgetKeeps(s: State, id: string)
    requires Inv(s) && Enabled(s, Forget(id))
    ensures Inv(Do(s, Forget(id)))
  {
  }

  lemma RefuseKeeps(s: State, id: string)
    requires Inv(s) && Enabled(s, Refuse(id))
    ensures Inv(Do(s, Refuse(id)))
  {
  }

  lemma StepKeeps(s: State, step: Step)
    requires Inv(s)
    ensures Enabled(s, step) ==> Inv(Do(s, step)) && Promised(Do(s, step))
  {
    hide Inv, Do, Enabled;
    if Enabled(s, step) {
      match step {
        case Begin(id, ch) => BeginKeeps(s, id, ch);
        case Take(r, reply) => TakeKeeps(s, r, reply);
        case Send(r) => SendKeeps(s, r);
        case Receive(id) => ReceiveKeeps(s, id);
        case Expire(id) => ExpireKeeps(s, id);
        case Forget(id) => ForgetKeeps(s, id);
        case Refuse(id) => RefuseKeeps(s, id);
      }
      InvPromises(Do(s, step));
    }
  }

  /** Under every interleaving of callers, readers, repeated or unknown replies and timers: no channel is sent to
      twice, so a reader's send never waits; a call returns its own reply, a timeout or "offline"; and the id of a
      returned call is not pending. */
  lemma {:induction false} RunKeepsPromises(steps: seq<Step>)
    requires Run(steps).Some?
    ensures Inv(Run(steps).value) && Promised(Run(steps).value)
  {
    hide Inv, Do, Enabled;
    if steps == [] {
      StartKeeps();
    } else {
      var before, step := steps[..|steps| - 1], steps[|steps| - 1];
      RunKeepsPromises(before);
      StepKeeps(Run(before).value, step);
    }
    InvPromises(Run(steps).value);
  }

  lemma StartKeeps()
    ensures Inv(Start)
  {
  }

  lemma InvPromises(s: State)
    requires Inv(s)
    ensures Promised(s)
  {
  }

  /** A second reply to the same request finds nothing. */
  lemma DuplicateIsDropped(steps: seq<Step>, r: int, q: int, first: Reply, second: Reply)
    requires Run(steps).Some? && first.requestId == second.requestId
    requires Enabled(Run(steps).value, Take(r, first)) && Enabled(Do(Run(steps).value, Take(r, first)), Take(q, second))
    ensures Do(Do(Run(steps).value, Take(r, first)), Take(q, second)) == Do(Run(steps).value, Take(r, first))
  {
  }

  lemma RunMore(steps: seq<Step>, step: Step)
    requires Run(steps).Some? && Enabled(Run(steps).value, step)
    ensures Run(steps + [step]) == Some(Do(Run(steps).value, step))
  {
    assert (steps + [step])[..|steps|] == steps;
  }

  /** Nothing stands in the way of a reply: as long as a call waits for one, a free reader can take a reply to it, send
      it and have the call return just that. */
  lemma ReplyIsDelivered(steps: seq<Step>, id: string, r: int, reply: Reply)
    requires Run(steps).Some? && id in Run(steps).value.pending && reply.requestId == id
    requires id in Run(steps).value.calls && Run(steps).value.calls[id].Waiting?
    requires ReaderOf(Run(steps).value, r) == Idle
    ensures var s := Run(steps + [Take(r, reply)] + [Send(r)] + [Receive(id)]);
            && s.Some? && id in s.value.calls && s.value.calls[id] == Returned(Got(reply)) && id !in s.value.pending
            && ReaderOf(s.value, r) == Idle
  {
    hide Run, Inv;
    RunKeepsPromises(steps);
    RunMore(steps, Take(r, reply));
    PendingIsOpen(Run(steps).value, id);
    RunMore(steps + [Take(r, reply)], Send(r));
    RunMore(steps + [Take(r, reply)] + [Send(r)], Receive(id));
  }

  lemma PendingIsOpen(s: State, id: string)
    requires Inv(s) && id in s.pending
    ensures id in s.calls && !s.calls[id].Returned? && s.calls[id].ch == s.pending[id] && s.pending[id] in s.channels
    ensures s.channels[s.pending[id]].slot == None
  {
  }

  /** And a call can always give up: past its timer it returns a timeout. */
  lemma CallTimesOut(steps: seq<Step>, id: string)
    requires Run(steps).Some? && id in Run(steps).value.calls && Run(steps).value.calls[id].Waiting?
    ensures var s := Run(steps + [Expire(id)] + [Forget(id)]);
            s.Some? && id in s.value.calls && s.value.calls[id] == Returned(TimedOut) && id !in s.value.pending
  {
    hide Run;
    RunMore(steps, Expire(id));
    RunMore(steps + [Expire(id)], Forget(id));
  }

  // ---------------------------------------------------------------- in place

  /** Every step keeps the invariant, and so every promise. */
  class Manager {
    var pendingRequests: map<string, int>
    var channels: map<int, Channel>
    var calls: map<string, Call>
    var readers: map<int, Reader>

    function Now(): State reads this { State(pendingRequests, channels, calls, readers) }

    constructor ()
      ensures Now() == Start && Inv(Now())
    {
      pendingRequests, channels, calls, readers := map[], map[], map[], map[];
    }

    /** SendMsgWithTimeout up to its select. */
    method SendMsg(id: string, online: bool, ch: int)
      requires Inv(Now()) && Enabled(Now(), Begin(id, ch))
      modifies this
      ensures Now() == Do(old(Now()), if online then Begin(id, ch) else Refuse(id))
      ensures Inv(Now()) && Promised(Now()) && (id in pendingRequests <==> online)
    {
      StepKeeps(Now(), Begin(id, ch));
      StepKeeps(Now(), Refuse(id));
      hide Inv;
      if !online {
        calls := calls[id := Returned(Offline)];
        return;
      }
      channels := channels[ch := Channel(id, None, 0)];
      pendingRequests := pendingRequests[id := ch];
      calls := calls[id := Waiting(ch)];
    }

    /** The select's first branch. */
    method ReceiveReply(id: string) returns (answer: Answer)
      requires Inv(Now()) && Enabled(Now(), Receive(id))
      modifies this`channels, this`calls
      ensures Now() == Do(old(Now()), Receive(id)) && calls[id] == Returned(answer)
      ensures Inv(Now()) && Promised(Now()) && answer.Got? && answer.reply.requestId == id && id !in pendingRequests
    {
      StepKeeps(Now(), Receive(id));
      hide Inv;
      var ch := calls[id].ch;
      answer := Got(channels[ch].slot.value);
      channels := channels[ch := channels[ch].(slot := None)];
      calls := calls[id := Returned(answer)];
    }

    /** The select's second branch is chosen. */
    method ExpireTimer(id: string)
      requires Inv(Now()) && Enabled(Now(), Expire(id))
      modifies this`calls
      ensures Now() == Do(old(Now()), Expire(id))
      ensures Inv(Now()) && Promised(Now())
    {
      StepKeeps(Now(), Expire(id));
      hide Inv;
      calls := calls[id := Expired(calls[id].ch)];
    }

    /** The second branch's removal from the map, after which the call returns. */
    method ForgetRequest(id: string) returns (answer: Answer)
      requires Inv(Now()) && Enabled(Now(), Forget(id))
      modifies this`pendingRequests, this`calls
      ensures Now() == Do(old(Now()), Forget(id)) && calls[id] == Returned(answer)
      ensures Inv(Now()) && Promised(Now()) && answer == TimedOut && id !in pendingRequests
    {
      StepKeeps(Now(), Forget(id));
      hide Inv;
      pendingRequests := pendingRequests - {id};
      answer := TimedOut;
      calls := calls[id := Returned(answer)];
    }

    /** A reader looks a reply up and takes it out of the map. */
    method LoadAndDelete(r: int, reply: Reply)
      requires Inv(Now()) && Enabled(Now(), Take(r, reply))
      modifies this`pendingRequests, this`readers
      ensures Now() == Do(old(Now()), Take(r, reply))
      ensures Inv(Now()) && Promised(Now()) && reply.requestId !in pendingRequests
    {
      StepKeeps(Now(), Take(r, reply));
      hide Inv;
      if reply.requestId in pendingRequests {
        readers := readers[r := Holding(pendingRequests[reply.requestId], reply)];
        pendingRequests := pendingRequests - {reply.requestId};
      }
    }

    /** And sends it into the channel it took; the invariant is all that the send needs. */
    method SendReply(r: int)
      requires Inv(Now()) && r in readers && readers[r].Holding?
      modifies this`channels, this`readers
      ensures Enabled(old(Now()), Send(r)) && Now() == Do(old(Now()), Send(r))
      ensures Inv(Now()) && Promised(Now())
    {
      assert Enabled(Now(), Send(r));
      StepKeeps(Now(), Send(r));
      hide Inv;
      var h := readers[r];
      var c := channels[h.ch];
      channels := channels[h.ch := c.(slot := Some(h.reply), sends := c.sends + 1)];
      readers := readers[r := Idle];
    }
  }
}
