/** The multiplexor as the source runs it: one object whose methods update the shared flow
    table, the streams, the outgoing queue and the dropped-ports queue in place. Every
    method is proved against the side functions of `Peer`: it does to its flow id what
    they say, and leaves every other flow id as it was. */
module Multiplexor {
  import opened Frames
  import opened Peer
  import opened Links
  import opened Lanes

  datatype FlowSlot = RequestedSlot | EstablishedSlot | BindRequestedSlot

  datatype Outcome = Done | Closed | ConnAckGone | SendStreamToClient

  /** What `poll_fill_buf` and `poll_write` report. */
  datatype Poll<T> = Pending | Ready(value: T) | BrokenPipe

  function SlotOf(slot: FlowSlot): Slot {
    match slot
    case RequestedSlot => Requested
    case EstablishedSlot => Established
    case BindRequestedSlot => BindRequested
  }

  /** A side with this entry in the flow table. */
  function WithSlot(s: Side, slot: FlowSlot): Side {
    s.(slot := SlotOf(slot))
  }

  /** A side after a step whose frames a closed queue refused: nothing of it was said. */
  function Unheard(s: Side, o: Out): Side {
    o.side.(hist := o.side.hist.(log := s.hist.log, written := s.hist.written,
                                 replies := s.hist.replies, dropResets := s.hist.dropResets))
  }

  /** `con_recv_new_stream`: a new stream that cannot be handed over is dropped at once. */
  function Offered(s: Side, peerRwnd: U32, dest: Ask, handedOver: bool): Out {
    var o := ReceiveConnect(s, peerRwnd, dest);
    if s.slot == Absent && !handedOver then o.(side := DropOn(o.side)) else o
  }

  /** A `Bind` is ignored while winding down, and rejected if nobody can take it. */
  function BindOffered(s: Side, ask: Ask, ignoreBind: bool, userGone: bool): Out {
    if !s.cfg.acceptsBind || (userGone && !ignoreBind) then ReplyOn(s, false)
    else if ignoreBind then Quiet(s)
    else ReceiveBind(s, ask)
  }

  /** What processing a frame does to its side. With the user there and the queue open it
      is what `Peer.Receive` says. */
  function Processed(s: Side, x: Payload, ignoreBind: bool, userGone: bool, txClosed: bool): (o: Out)
    ensures !ignoreBind && !userGone && !txClosed ==> o == Receive(s, x)
  {
    match x
    case Connect(rwnd, port, host) => Offered(s, rwnd, StreamTo(port, host), !userGone && !txClosed)
    case Bind(kind, port, host) => BindOffered(s, BindTo(kind, port, host), ignoreBind, userGone)
    case _ => Receive(s, x)
  }

  /** What processing a frame reports. It is never `ConnAckGone`. */
  function Verdict(s: Side, x: Payload, userGone: bool, txClosed: bool): (r: Outcome)
    ensures r != ConnAckGone
    ensures r == Done <==>
      !(x.Connect? && s.slot == Absent && (txClosed || userGone)) && !(x.Datagram? && userGone)
  {
    if x.Connect? && s.slot == Absent && txClosed then Closed
    else if x.Connect? && s.slot == Absent && userGone then SendStreamToClient
    else if x.Datagram? && userGone then Closed
    else Done
  }

  class Mux {
    const cfg: Config
    var flows: map<U32, FlowSlot>
    var streams: map<U32, Stream>     // what a slot shares with its `MuxStream`, and its own fields
    var unsents: map<U32, Option<Ask>>
    var requests: map<U32, seq<Ask>>
    var tx: seq<Frame>
    var txClosed: bool
    var userGone: bool                // the `Multiplexor` and its receivers are dropped
    var droppedPorts: seq<U32>
    var hist: map<U32, History>       // what users and the wire have seen of an id

    constructor (cfg: Config)
      ensures this.cfg == cfg && tx == [] && !txClosed && !userGone && droppedPorts == []
      ensures forall id: U32 :: SideAt(id) == Fresh(cfg)
    {
      this.cfg := cfg;
      flows, streams, unsents, requests, hist := map[], map[], map[], map[], map[];
      tx, txClosed, userGone, droppedPorts := [], false, false, [];
    }

    function SlotAt(id: U32): Slot
      reads this
    {
      if id in flows then SlotOf(flows[id]) else Absent
    }

    function StreamAt(id: U32): Stream
      reads this
    {
      if id in streams then streams[id] else NO_STREAM
    }

    function HistAt(id: U32): History
      reads this
    {
      if id in hist then hist[id] else NO_HISTORY
    }

    function UnsentAt(id: U32): Option<Ask>
      reads this
    {
      if id in unsents then unsents[id] else None
    }

    function RequestsAt(id: U32): seq<Ask>
      reads this
    {
      if id in requests then requests[id] else []
    }

    /** This peer's side of a flow id, gathered from the fields. */
    function SideAt(id: U32): Side
      reads this
    {
      Side(cfg, SlotAt(id), UnsentAt(id), Count(droppedPorts, id), RequestsAt(id), StreamAt(id), HistAt(id))
    }

    /** Flow id `id` changed as `o` says, no other id changed, and the frames of `o` are
        queued, unless the queue is closed and refuses them. */
    twostate predicate Effect(id: U32, o: Out)
      reads this
    {
      && SideAt(id) == (if txClosed then Unheard(old(SideAt(id)), o) else o.side)
      && (forall j: U32 :: j != id ==> SideAt(j) == old(SideAt(j)))
      && txClosed == old(txClosed)
      && tx == old(tx) + (if txClosed then [] else Tag(id, o.emit))
    }

    /** `frame_tx.send`, which fails on a closed queue. */
    method SendFrame(id: U32, x: Payload) returns (sent: bool)
      modifies this`tx, this`hist
      ensures sent == !txClosed
      ensures tx == old(tx) + (if txClosed then [] else Tag(id, [x]))
      ensures hist == if txClosed then old(hist)
                      else old(hist)[id := old(HistAt(id)).(log := old(HistAt(id)).log + [x])]
      ensures SideAt(id) == if txClosed then old(SideAt(id)) else Send(old(SideAt(id)), x).side
      ensures forall j: U32 :: j != id ==> SideAt(j) == old(SideAt(j))
    {
      assert Tag(id, [x]) == [Frame(id, x)];
      assert tx + [] == tx;
      if txClosed { return false; }
      tx := tx + [Frame(id, x)];
      hist := hist[id := HistAt(id).(log := HistAt(id).log + [x])];
      return true;
    }

    /** Store new values of the shared cells and of the stream's own fields. */
    method SetStream(id: U32, m: Stream)
      modifies this`streams
      ensures streams == old(streams)[id := m]
      ensures SideAt(id) == old(SideAt(id)).(stream := m)
      ensures forall j: U32 :: j != id ==> SideAt(j) == old(SideAt(j))
    {
      streams := streams[id := m];
    }

    method Answer(id: U32, answer: Answer)
      modifies this`hist
      ensures hist == old(hist)[id := old(HistAt(id)).(answers := old(HistAt(id)).answers + [answer])]
    {
      hist := hist[id := HistAt(id).(answers := HistAt(id).answers + [answer])];
    }

    method AnswerBind(id: U32, accepted: bool)
      modifies this`hist
      ensures hist == old(hist)[id := old(HistAt(id)).(bindAnswers := old(HistAt(id)).bindAnswers + [accepted])]
    {
      hist := hist[id := HistAt(id).(bindAnswers := HistAt(id).bindAnswers + [accepted])];
    }

    /** `close_port_local`, for a slot already taken out of the table. */
    method ClosePortLocal(removed: FlowSlot, id: U32, inhibitReset: bool)
      requires id !in flows
      modifies this`streams, this`tx, this`hist
      ensures Effect(id, Peer.ClosePort(WithSlot(old(SideAt(id)), removed), inhibitReset))
    {
      assert tx + [] == tx;
      match removed {
        case EstablishedSlot =>
          var finishSent := StreamAt(id).finishSent;
          SetStream(id, StreamAt(id).(finishSent := true, readOpen := false));
          if !finishSent && !inhibitReset { var _ := SendFrame(id, Reset); }
        case RequestedSlot => Answer(id, Rejected);
        case BindRequestedSlot => AnswerBind(id, false);
      }
    }

    method RemoveSlot(id: U32) returns (removed: FlowSlot)
      requires id in flows
      modifies this`flows
      ensures removed == old(flows)[id] && flows == old(flows) - {id}
      ensures WithSlot(SideAt(id), removed) == old(SideAt(id))
      ensures SideAt(id).hist == old(SideAt(id)).hist
      ensures forall j: U32 :: j != id ==> SideAt(j) == old(SideAt(j))
    {
      removed := flows[id];
      flows := flows - {id};
    }

    method ClosePort(id: U32, inhibitReset: bool)
      modifies this`flows, this`streams, this`tx, this`hist
      ensures Effect(id, Peer.ClosePort(old(SideAt(id)), inhibitReset))
      ensures flows == old(flows) - {id}
    {
      if id in flows {
        var removed := RemoveSlot(id);
        ClosePortLocal(removed, id, inhibitReset);
      } else {
        assert tx + [] == tx;
      }
    }

    /** `new_stream_shared`, and the table entry its callers make of the result: the flow id
        gets the new stream of `Peer.NewStream`, and no frame is queued. */
    method NewStreamShared(id: U32, peerRwnd: U32, dest: Ask)
      modifies this`flows, this`streams, this`hist
      ensures Effect(id, Quiet(NewStream(old(SideAt(id)), peerRwnd, dest)))
    {
      flows := flows[id := EstablishedSlot];
      streams := streams[id := Stream(Waiting, false, peerRwnd, true, [], 0, Min(cfg.threshold, peerRwnd), [], None, dest)];
      hist := hist[id := HistAt(id).(use := ForStream)];
      assert tx + [] == tx;
    }

    method NoteAccepted(id: U32)
      modifies this`hist
      ensures SideAt(id) == old(SideAt(id)).(hist := old(HistAt(id)).(accepted := true))
      ensures forall j: U32 :: j != id ==> SideAt(j) == old(SideAt(j))
    {
      hist := hist[id := HistAt(id).(accepted := true)];
    }

    /** A `MuxStream` goes away: the mux task is told, the receive queue is gone. */
    method LoseStream(id: U32)
      modifies this`streams, this`droppedPorts
      ensures SideAt(id) == DropOn(old(SideAt(id))) && droppedPorts == old(droppedPorts) + [id]
      ensures forall j: U32 :: j != id ==> SideAt(j) == old(SideAt(j))
    {
      forall j: U32 ensures Count(droppedPorts + [id], j) == Count(droppedPorts, j) + (if id == j then 1 else 0) {
        CountAppend(droppedPorts, id, j);
      }
      droppedPorts := droppedPorts + [id];
      streams := streams[id := StreamAt(id).(owner := Dropped, queue := [], buf := [])];
    }

    /** Establish a free id. The `Acknowledge` is queued before the user can have the stream. */
    method AcceptNewStream(id: U32, peerRwnd: U32, dest: Ask) returns (r: Outcome)
      requires id !in flows
      modifies this`flows, this`streams, this`tx, this`hist, this`droppedPorts
      ensures Effect(id, Offered(old(SideAt(id)), peerRwnd, dest, !userGone && !txClosed))
      ensures r == if txClosed then Closed else if userGone then SendStreamToClient else Done
      ensures r != Done ==> StreamAt(id).owner == Dropped && droppedPorts == old(droppedPorts) + [id]
      ensures r == Done ==> droppedPorts == old(droppedPorts)
    {
      NewStreamShared(id, peerRwnd, dest);
      NoteAccepted(id);
      var sent := SendFrame(id, Acknowledge(cfg.rwnd));
      if sent && !userGone { return Done; }
      LoseStream(id);
      return if sent then SendStreamToClient else Closed;
    }

    method ConRecvNewStream(id: U32, peerRwnd: U32, dest: Ask) returns (r: Outcome)
      modifies this`flows, this`streams, this`tx, this`hist, this`droppedPorts
      ensures Effect(id, Offered(old(SideAt(id)), peerRwnd, dest, !userGone && !txClosed))
      ensures r == if old(SlotAt(id)) != Absent then Done
                   else if txClosed then Closed else if userGone then SendStreamToClient else Done
      ensures r != Done ==> StreamAt(id).owner == Dropped && droppedPorts == old(droppedPorts) + [id]
      ensures r == Done ==> droppedPorts == old(droppedPorts)
    {
      if id in flows {
        var _ := SendFrame(id, Reset);
        return Done;
      }
      r := AcceptNewStream(id, peerRwnd, dest);
    }

    /** Fails only on a slot that is not waiting for this `Acknowledge`. */
    method AckRecvNewStream(id: U32, peerRwnd: U32) returns (r: Outcome)
      modifies this`flows, this`streams, this`hist
      ensures r == if old(SlotAt(id)) == Requested then Done else ConnAckGone
      ensures r == Done ==> Effect(id, Quiet(FinishHandshake(old(SideAt(id)), peerRwnd)))
      ensures r != Done ==> flows == old(flows) && streams == old(streams) && hist == old(hist)
    {
      if id !in flows { return ConnAckGone; }
      if !flows[id].RequestedSlot? { return ConnAckGone; }
      NewStreamShared(id, peerRwnd, NOWHERE);
      Answer(id, GotStream);
      assert tx + [] == tx;
      return Done;
    }

    method ProcessAcknowledge(id: U32, count: U32) returns (r: Outcome)
      modifies this`flows, this`streams, this`tx, this`hist
      ensures r == Done && Effect(id, ReceiveAcknowledge(old(SideAt(id)), count))
    {
      var newStream, sendReset := false, false;
      if id in flows {
        match flows[id] {
          case EstablishedSlot =>
            streams := streams[id := StreamAt(id).(credit := (StreamAt(id).credit + count) % TWO_32)];
          case RequestedSlot => newStream := true;
          case BindRequestedSlot => sendReset := true;
        }
      } else {
        sendReset := true;
      }
      r := Done;
      assert tx + [] == tx;
      if newStream {
        r := AckRecvNewStream(id, count);
      } else if sendReset {
        var _ := SendFrame(id, Reset);
      }
    }

    /** `Finish` is no answer to a `Connect`. */
    method RefuseFinish(id: U32)
      requires SlotAt(id) == Requested
      modifies this`flows, this`tx, this`hist
      ensures Effect(id, ReceiveFinish(old(SideAt(id))))
    {
      flows := flows - {id};
      Answer(id, Hangup);
      var _ := SendFrame(id, Reset);
    }

    method ProcessFinish(id: U32)
      modifies this`flows, this`streams, this`tx, this`hist
      ensures Effect(id, ReceiveFinish(old(SideAt(id))))
    {
      assert tx + [] == tx;
      if id !in flows {
        var _ := SendFrame(id, Reset);
        return;
      }
      match flows[id] {
        case BindRequestedSlot =>
          flows := flows - {id};
          AnswerBind(id, true);
        case RequestedSlot => RefuseFinish(id);
        case EstablishedSlot =>
          streams := streams[id := StreamAt(id).(readOpen := false)];
      }
    }

    method ProcessPush(id: U32, data: Bytes)
      modifies this`flows, this`streams, this`tx, this`hist
      ensures Effect(id, ReceivePush(old(SideAt(id)), data))
    {
      assert tx + [] == tx;
      if id !in flows || flows[id] != EstablishedSlot || !StreamAt(id).readOpen {
        var _ := SendFrame(id, Reset);
        return;
      }
      var m := StreamAt(id);
      if m.owner == Dropped {
        // the receiver is gone, the slot not yet
      } else if |m.queue| >= cfg.rwnd {
        ClosePort(id, false);
      } else {
        streams := streams[id := m.(queue := m.queue + [data])];
      }
    }

    method ProcessBind(id: U32, ask: Ask, ignoreBind: bool)
      modifies this`requests, this`tx, this`hist
      ensures Effect(id, BindOffered(old(SideAt(id)), ask, ignoreBind, userGone))
    {
      assert tx + [] == tx;
      if !cfg.acceptsBind || (userGone && !ignoreBind) {
        var _ := SendReply(id, false);
      } else if !ignoreBind {
        requests := requests[id := RequestsAt(id) + [ask]];
      }
    }

    /** Tell the peer what became of its `Bind`. */
    method SendReply(id: U32, accept: bool) returns (sent: bool)
      modifies this`tx, this`hist
      ensures sent == !txClosed && Effect(id, ReplyOn(old(SideAt(id)), accept))
      ensures sent ==> tx == old(tx) + [Frame(id, if accept then Finish else Reset)]
    {
      sent := SendFrame(id, if accept then Finish else Reset);
      assert Tag(id, [if accept then Finish else Reset]) == [Frame(id, if accept then Finish else Reset)];
      if sent { hist := hist[id := HistAt(id).(replies := HistAt(id).replies + [accept])]; }
    }

    /** `process_frame`. It never reports `ConnAckGone`, whatever the state and the frame,
        and fails only for a new stream that cannot be acknowledged or handed over, and
        for a datagram nobody can receive. */
    method ProcessFrame(f: Frame, ignoreBind: bool) returns (r: Outcome)
      modifies this`flows, this`streams, this`requests, this`tx, this`hist, this`droppedPorts
      ensures Effect(f.id, Processed(old(SideAt(f.id)), f.payload, ignoreBind, userGone, txClosed))
      ensures r == Verdict(old(SideAt(f.id)), f.payload, userGone, txClosed)
      ensures r == Done ==> droppedPorts == old(droppedPorts)
    {
      r := Done;
      match f.payload {
        case Connect(rwnd, port, host) => r := ConRecvNewStream(f.id, rwnd, StreamTo(port, host));
        case Acknowledge(count) => r := ProcessAcknowledge(f.id, count);
        case Finish => ProcessFinish(f.id);
        case Reset => ClosePort(f.id, true);
        case Push(data) => ProcessPush(f.id, data);
        case Bind(kind, port, host) => ProcessBind(f.id, BindTo(kind, port, host), ignoreBind);
        case Datagram(_, _, _) =>
          assert tx + [] == tx;
          if userGone { r := Closed; }
      }
    }

    // ---- Requests ----

    /** First half of `new_stream_channel`: under the lock, a free id gets its slot. */
    method InsertRequested(id: U32, port: U16, host: Bytes)
      requires id != 0 && id !in flows && HistAt(id).use == Unused
      modifies this`flows, this`unsents, this`hist
      ensures Effect(id, Perform(old(SideAt(id)), Insert(port, host)))
      ensures SlotAt(id) == Requested && UnsentAt(id) == HistAt(id).asked == Some(StreamTo(port, host))
    {
      flows := flows[id := RequestedSlot];
      unsents := unsents[id := Some(StreamTo(port, host))];
      hist := hist[id := HistAt(id).(use := ForStream, asked := Some(StreamTo(port, host)))];
      assert tx + [] == tx;
    }

    /** Second half, after the lock is released: the `Connect` names our window and the port
        and host the call was made with. */
    method SendConnectFrame(id: U32) returns (sent: bool)
      requires UnsentAt(id).Some? && UnsentAt(id).value.StreamTo?
      modifies this`unsents, this`tx, this`hist
      ensures sent == !txClosed && Effect(id, Perform(old(SideAt(id)), SendConnect))
      ensures var ask := old(UnsentAt(id)).value;
        sent ==> tx == old(tx) + [Frame(id, Connect(cfg.rwnd, ask.port, ask.host))]
    {
      var ask := UnsentAt(id).value;
      unsents := unsents[id := None];
      sent := SendFrame(id, Connect(cfg.rwnd, ask.port, ask.host));
      assert Tag(id, [Connect(cfg.rwnd, ask.port, ask.host)]) == [Frame(id, Connect(cfg.rwnd, ask.port, ask.host))];
    }

    method InsertBindRequested(id: U32, kind: BindType, port: U16, host: Bytes)
      requires id != 0 && id !in flows && HistAt(id).use == Unused
      modifies this`flows, this`unsents, this`hist
      ensures Effect(id, Perform(old(SideAt(id)), InsertBind(kind, port, host)))
      ensures SlotAt(id) == BindRequested && UnsentAt(id) == HistAt(id).asked == Some(BindTo(kind, port, host))
    {
      flows := flows[id := BindRequestedSlot];
      unsents := unsents[id := Some(BindTo(kind, port, host))];
      hist := hist[id := HistAt(id).(use := ForBind, asked := Some(BindTo(kind, port, host)))];
      assert tx + [] == tx;
    }

    method SendBindFrame(id: U32) returns (sent: bool)
      requires UnsentAt(id).Some? && UnsentAt(id).value.BindTo?
      modifies this`unsents, this`tx, this`hist
      ensures sent == !txClosed && Effect(id, Perform(old(SideAt(id)), SendBind))
      ensures var ask := old(UnsentAt(id)).value;
        sent ==> tx == old(tx) + [Frame(id, Bind(ask.kind, ask.port, ask.host))]
    {
      var ask := UnsentAt(id).value;
      unsents := unsents[id := None];
      sent := SendFrame(id, Bind(ask.kind, ask.port, ask.host));
      assert Tag(id, [Bind(ask.kind, ask.port, ask.host)]) == [Frame(id, Bind(ask.kind, ask.port, ask.host))];
    }

    /** `BindRequest::reply`: `Finish` accepts, `Reset` rejects. */
    method ReplyBind(id: U32, accept: bool) returns (sent: bool)
      requires RequestsAt(id) != []
      modifies this`tx, this`hist
      ensures sent == !txClosed && Effect(id, Perform(old(SideAt(id)), Reply(accept)))
      ensures sent ==> tx == old(tx) + [Frame(id, if accept then Finish else Reset)]
    {
      sent := SendReply(id, accept);
    }

    /** Dropping a `BindRequest` rejects it once more. */
    method DropBindRequest(id: U32, which: nat)
      requires which < |RequestsAt(id)|
      modifies this`requests, this`tx, this`hist
      ensures Effect(id, Perform(old(SideAt(id)), DropRequest(which)))
      ensures !txClosed ==> tx == old(tx) + [Frame(id, Reset)]
    {
      var held := RequestsAt(id);
      requests := requests[id := held[..which] + held[which + 1..]];
      var _ := SendReply(id, false);
    }

    // ---- Winding down ----

    /** `disallow_write` on one established slot. */
    method DisallowWrite(id: U32)
      requires id in flows && flows[id].EstablishedSlot?
      modifies this`streams
      ensures Effect(id, Quiet(Disallowed(old(SideAt(id)))))
    {
      streams := streams[id := StreamAt(id).(finishSent := true)];
      assert tx + [] == tx;
    }

    /** The receiver of the outgoing queue is closed; what is queued stays. */
    method CloseTx()
      modifies this`txClosed
      ensures txClosed
      ensures forall id: U32 :: SideAt(id) == old(SideAt(id))
    {
      txClosed := true;
    }

    method TakeQueued() returns (frames: seq<Frame>)
      modifies this`tx
      ensures frames == old(tx) && tx == []
      ensures forall id: U32 :: SideAt(id) == old(SideAt(id))
    {
      frames := tx;
      tx := [];
    }

    // ---- The stream a user holds ----

    method TakeStream(id: U32)
      requires StreamAt(id).owner == Waiting
      modifies this`streams
      ensures Effect(id, Perform(old(SideAt(id)), Take))
    {
      streams := streams[id := StreamAt(id).(owner := User)];
      assert tx + [] == tx;
    }

    /** `poll_obtain_write_permission`. */
    method PollObtainWritePermission(id: U32, data: Bytes) returns (p: Poll<()>)
      requires HandleFree(SideAt(id))
      modifies this`streams
      ensures Effect(id, Perform(old(SideAt(id)), BeginWrite(data)))
      ensures p == if old(StreamAt(id)).finishSent then BrokenPipe
                   else if old(StreamAt(id)).credit == 0 then Pending
                   else Ready(())
      ensures p == Ready(()) ==>
        StreamAt(id).credit == old(StreamAt(id)).credit - 1 && StreamAt(id).pending == Some(Push(data))
    {
      assert tx + [] == tx;
      var m := StreamAt(id);
      if m.finishSent { return BrokenPipe; }
      if m.credit == 0 { return Pending; }
      streams := streams[id := m.(credit := m.credit - 1, pending := Some(Push(data)))];
      return Ready(());
    }

    /** The `frame_tx.send` that follows a permission or a swap of the finish flag. A frame
        the closed queue refuses is a broken pipe and counts as nothing written. */
    method QueuePending(id: U32) returns (sent: bool)
      requires StreamAt(id).pending != None
      modifies this`streams, this`tx, this`hist
      ensures sent == !txClosed && Effect(id, Perform(old(SideAt(id)), EmitPending))
      ensures var x := old(StreamAt(id)).pending.value;
        && (sent ==> tx == old(tx) + [Frame(id, x)])
        && HistAt(id).written == old(HistAt(id)).written + (if sent && x.Push? then [x.data] else [])
    {
      var x := StreamAt(id).pending.value;
      SetStream(id, StreamAt(id).(pending := None));
      sent := SendFrame(id, x);
      assert Tag(id, [x]) == [Frame(id, x)];
      if sent && x.Push? { hist := hist[id := HistAt(id).(written := HistAt(id).written + [x.data])]; }
    }

    /** `shutdown_inner` up to the swap; `Finish` is queued only by the first. */
    method SwapFinishSent(id: U32) returns (first: bool)
      requires HandleFree(SideAt(id))
      modifies this`streams
      ensures Effect(id, Perform(old(SideAt(id)), BeginShutdown))
      ensures first == !old(StreamAt(id)).finishSent && StreamAt(id).finishSent
      ensures StreamAt(id).pending == if first then Some(Finish) else None
    {
      assert tx + [] == tx;
      first := !StreamAt(id).finishSent;
      if first { streams := streams[id := StreamAt(id).(finishSent := true, pending := Some(Finish))]; }
    }

    method IncrementPshRecvdSince(id: U32)
      modifies this`streams, this`tx, this`hist
      ensures Effect(id, CountTaken(old(SideAt(id))))
    {
      assert tx + [] == tx;
      var n := StreamAt(id).recvdSince + 1;
      if n >= StreamAt(id).threshold {
        SetStream(id, StreamAt(id).(recvdSince := 0));
        var _ := SendFrame(id, Acknowledge(n % TWO_32));
      } else {
        SetStream(id, StreamAt(id).(recvdSince := n));
      }
    }

    /** `poll_fill_buf`: pending while the queue is empty and its sender is there. */
    method PollFillBuf(id: U32) returns (p: Poll<Bytes>)
      requires HandleFree(SideAt(id))
      modifies this`streams, this`tx, this`hist
      ensures Effect(id, Perform(old(SideAt(id)), FillBuf))
      ensures p == var s := old(SideAt(id)).stream;
        if s.buf == [] && s.queue == [] && s.readOpen then Pending else Ready(StreamAt(id).buf)
    {
      assert tx + [] == tx;
      var m := StreamAt(id);
      if m.buf == [] {
        if m.queue == [] {
          return if m.readOpen then Pending else Ready([]);
        }
        TakeChunk(id);
      }
      return Ready(StreamAt(id).buf);
    }

    method TakeChunk(id: U32)
      requires StreamAt(id).buf == [] && StreamAt(id).queue != []
      modifies this`streams, this`tx, this`hist
      ensures Effect(id, FillOn(old(SideAt(id))))
      ensures StreamAt(id).buf == old(StreamAt(id)).queue[0]
    {
      var m := StreamAt(id);
      SetStream(id, m.(queue := m.queue[1..], buf := m.queue[0]));
      hist := hist[id := HistAt(id).(taken := HistAt(id).taken + [m.queue[0]])];
      IncrementPshRecvdSince(id);
    }

    method ConsumeBytes(id: U32, amount: nat)
      requires HandleFree(SideAt(id)) && amount <= |StreamAt(id).buf|
      modifies this`streams, this`hist
      ensures Effect(id, Perform(old(SideAt(id)), Consume(amount)))
    {
      assert tx + [] == tx;
      var m := StreamAt(id);
      hist := hist[id := HistAt(id).(read := HistAt(id).read + m.buf[..amount])];
      streams := streams[id := m.(buf := m.buf[amount..])];
    }

    /** `Drop for MuxStream`. */
    method DropMuxStream(id: U32)
      requires HandleFree(SideAt(id))
      modifies this`streams, this`droppedPorts
      ensures Effect(id, Perform(old(SideAt(id)), DropStream))
      ensures droppedPorts == old(droppedPorts) + [id]
    {
      assert tx + [] == tx;
      LoseStream(id);
    }

    /** `Drop for Multiplexor`: id 0 tells the mux task to stop. */
    method DropMultiplexor()
      modifies this`droppedPorts, this`userGone
      ensures userGone && droppedPorts == old(droppedPorts) + [0]
      ensures forall j: U32 :: j != 0 ==> SideAt(j) == old(SideAt(j))
    {
      forall j: U32 ensures Count(droppedPorts + [0], j) == Count(droppedPorts, j) + (if 0 == j then 1 else 0) {
        CountAppend(droppedPorts, 0, j);
      }
      droppedPorts := droppedPorts + [0];
      userGone := true;
    }

    /** Any of the above that a user can do to a flow id. */
    method DoAction(id: U32, a: Action)
      requires Enabled(SideAt(id), a) && !a.ProcessDrop? && Allocates(id, a)
      modifies this`flows, this`streams, this`unsents, this`requests, this`tx, this`hist, this`droppedPorts
      ensures Effect(id, Perform(old(SideAt(id)), a))
      ensures droppedPorts == if a.DropStream? then old(droppedPorts) + [id] else old(droppedPorts)
    {
      match a {
        case Insert(port, host) => InsertRequested(id, port, host);
        case SendConnect => var _ := SendConnectFrame(id);
        case Take => TakeStream(id);
        case BeginWrite(data) => var _ := PollObtainWritePermission(id, data);
        case BeginShutdown => var _ := SwapFinishSent(id);
        case EmitPending => var _ := QueuePending(id);
        case FillBuf => var _ := PollFillBuf(id);
        case Consume(amount) => ConsumeBytes(id, amount);
        case DropStream => DropMuxStream(id);
        case InsertBind(kind, port, host) => InsertBindRequested(id, kind, port, host);
        case SendBind => var _ := SendBindFrame(id);
        case Reply(accept) => var _ := ReplyBind(id, accept);
        case DropRequest(which) => DropBindRequest(id, which);
      }
    }

    // ---- The wire ----

    /** The oldest queued frame leaves for the peer. */
    method PopFrame() returns (f: Frame)
      requires tx != []
      modifies this`tx
      ensures f == old(tx)[0] && tx == old(tx)[1..]
      ensures forall id: U32 :: SideAt(id) == old(SideAt(id))
    {
      f := tx[0];
      tx := tx[1..];
    }

    method QueueDatagram(id: U32, port: U16, host: Bytes, data: Bytes)
      requires !txClosed
      modifies this`tx
      ensures tx == old(tx) + [Frame(id, Datagram(port, host, data))]
      ensures forall j: U32 :: SideAt(j) == old(SideAt(j))
    {
      tx := tx + [Frame(id, Datagram(port, host, data))];
    }

    /** Nothing of the last use of the id is left, so its history can go. */
    method Forget(id: U32)
      requires SideIdle(SideAt(id))
      modifies this`streams, this`unsents, this`requests, this`hist
      ensures SideAt(id) == Fresh(cfg)
      ensures forall j: U32 :: j != id ==> SideAt(j) == old(SideAt(j))
    {
      streams, unsents, requests, hist := streams - {id}, unsents - {id}, requests - {id}, hist - {id};
    }

    // ---- The dropped-ports loop ----

    /** One round of `process_dropped_ports_task`. Id 0 stands for the multiplexor itself:
        it ends the loop and closes nothing. */
    method ProcessNextDrop() returns (muxDropped: bool)
      requires droppedPorts != [] && !txClosed
      modifies this`flows, this`streams, this`tx, this`hist, this`droppedPorts
      ensures droppedPorts == old(droppedPorts)[1..]
      ensures muxDropped == (old(droppedPorts)[0] == 0)
      ensures muxDropped ==>
        flows == old(flows) && tx == old(tx) && forall j: U32 :: j != 0 ==> SideAt(j) == old(SideAt(j))
      ensures !muxDropped ==>
        && old(SideAt(droppedPorts[0])).drops > 0
        && Effect(old(droppedPorts[0]), ProcessDropOn(old(SideAt(droppedPorts[0]))))
    {
      var id := droppedPorts[0];
      CountDrop(id);
      if id == 0 { return true; }
      CloseDropped(id);
      return false;
    }

    /** Take the head off the dropped-ports queue. */
    method CountDrop(id: U32)
      requires droppedPorts != [] && id == droppedPorts[0]
      modifies this`droppedPorts
      ensures droppedPorts == old(droppedPorts)[1..] && old(SideAt(id)).drops > 0
      ensures SideAt(id) == old(SideAt(id)).(drops := old(SideAt(id)).drops - 1)
      ensures forall j: U32 :: j != id ==> SideAt(j) == old(SideAt(j))
    {
      droppedPorts := droppedPorts[1..];
    }

    /** Close a dropped port, and note the `Reset` if that takes one. */
    method CloseDropped(id: U32)
      requires !txClosed
      modifies this`flows, this`streams, this`tx, this`hist
      ensures Effect(id, Noted(Peer.ClosePort(old(SideAt(id)), false)))
    {
      var resets := id in flows && flows[id].EstablishedSlot? && !StreamAt(id).finishSent;
      ClosePort(id, false);
      if resets { hist := hist[id := HistAt(id).(dropResets := HistAt(id).dropResets + 1)]; }
    }
  }

  /** The frames of an outcome were sent for a dropped stream. */
  function Noted(o: Out): Out {
    o.(side := o.side.(hist := o.side.hist.(dropResets := o.side.hist.dropResets + |o.emit|)))
  }

  /** A stream that may no longer write. */
  function Disallowed(s: Side): Side {
    if s.slot == Established then s.(stream := s.stream.(finishSent := true)) else s
  }
}
