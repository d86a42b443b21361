/** Every step of either peer keeps the invariant. */
module Preservation {
  import opened Frames
  import opened Peer
  import opened Lanes
  import opened Invariant

  // ---- Open streams: the left side acts ----

  lemma OpenedTake(l: Lane)
    requires Opened(l) && CanAdvance(l, Do(Take))
    ensures Opened(Advance(l, Do(Take)))
  {
    assert l.lr + [] == l.lr;
  }

  /** Permission to write moves one unit of credit to the frame about to be queued. */
  lemma CreditSpent(s: Side, s': Side, t: Side, c: seq<Payload>, d: seq<Payload>, data: Bytes)
    requires Direction(s, t, c, d) && Direction(t, s, d, c) && StreamOk(s)
    requires HandleFree(s) && !s.stream.finishSent && s.stream.credit > 0
    requires s' == s.(stream := s.stream.(credit := s.stream.credit - 1, pending := Some(Push(data))))
    ensures Direction(s', t, c, d) && Direction(t, s', d, c)
  {
  }

  lemma OpenedBeginWrite(l: Lane, data: Bytes)
    requires Opened(l) && CanAdvance(l, Do(BeginWrite(data)))
    ensures Opened(Advance(l, Do(BeginWrite(data))))
  {
    assert l.lr + [] == l.lr;
    if !l.left.stream.finishSent && l.left.stream.credit > 0 {
      CreditSpent(l.left, BeginWriteOn(l.left, data), l.right, l.lr, l.rl, data);
    }
  }

  lemma OpenedBeginShutdown(l: Lane)
    requires Opened(l) && CanAdvance(l, Do(BeginShutdown))
    ensures Opened(Advance(l, Do(BeginShutdown)))
  {
    assert l.lr + [] == l.lr;
  }

  lemma EmitKeepsStream(s: Side)
    requires StreamOk(s) && Enabled(s, EmitPending)
    ensures StreamOk(EmitOn(s).side)
  {
    Appended(s.hist.log, s.stream.pending.value);
    FinishEndsAppend(s.hist.log, s.stream.pending.value);
  }

  lemma PushLeaves(s: Side, s': Side, t: Side, c: seq<Payload>, d: seq<Payload>, x: Payload)
    requires Direction(s, t, c, d) && Direction(t, s, d, c) && StreamOk(s) && StreamOk(t)
    requires s.stream.pending == Some(x)
    requires s'.cfg == s.cfg && s'.slot == s.slot && s'.stream == s.stream.(pending := None)
    requires s'.hist.accepted == s.hist.accepted && s'.hist.asked == s.hist.asked && s'.hist.taken == s.hist.taken
    requires s'.hist.written == s.hist.written + (if x.Push? then [x.data] else [])
    ensures Direction(s', t, c + [x], d) && Direction(t, s', d, c + [x])
  {
    Appended(c, x);
    OrderedAppend(c, x);
  }

  lemma OpenedEmit(l: Lane)
    requires Opened(l) && CanAdvance(l, Do(EmitPending))
    ensures Opened(Advance(l, Do(EmitPending)))
  {
    EmitKeepsStream(l.left);
    PushLeaves(l.left, EmitOn(l.left).side, l.right, l.lr, l.rl, l.left.stream.pending.value);
  }

  /** Taking a chunk moves one unit of the peer's credit from the queue to the counter. */
  lemma ChunkTaken(s: Side, s': Side, t: Side, c: seq<Payload>, d: seq<Payload>)
    requires Direction(s, t, c, d) && Direction(t, s, d, c) && Alive(s) && s.stream.queue != []
    requires s' == Took(s)
    ensures Direction(s', t, c, d) && Direction(t, s', d, c)
  {
    assert s.hist.taken + s.stream.queue == s'.hist.taken + s'.stream.queue;
    assert t.hist.written == s'.hist.taken + s'.stream.queue + Data(d);
    assert s'.hist.taken <= t.hist.written;
  }

  /** At the threshold the counter turns into a credit `Acknowledge`. */
  lemma CounterTurns(s: Side, s': Side, t: Side, c: seq<Payload>, d: seq<Payload>)
    requires Direction(s, t, c, d) && Direction(t, s, d, c) && Alive(s)
    requires s.stream.recvdSince < TWO_32
    requires s'.cfg == s.cfg && s'.slot == s.slot && s'.stream == s.stream.(recvdSince := 0)
    requires s'.hist == s.hist.(log := s'.hist.log)
    ensures var x := Acknowledge(s.stream.recvdSince); Direction(s', t, c + [x], d) && Direction(t, s', d, c + [x])
  {
    Appended(c, Acknowledge(s.stream.recvdSince));
    OrderedAppend(c, Acknowledge(s.stream.recvdSince));
  }

  /** The side after a chunk is taken and before it is counted towards the threshold. */
  function Took(s: Side): Side
    requires s.stream.queue != []
  {
    s.(stream := s.stream.(queue := s.stream.queue[1..], buf := s.stream.queue[0],
                           recvdSince := s.stream.recvdSince + 1),
       hist := s.hist.(taken := s.hist.taken + [s.stream.queue[0]]))
  }

  lemma FillShape(s: Side)
    requires s.stream.buf == [] && s.stream.queue != []
    requires s.stream.recvdSince < s.stream.threshold < TWO_32
    ensures var n := s.stream.recvdSince + 1; var s1 := Took(s);
      FillOn(s) == if n < s.stream.threshold then Quiet(s1)
                   else Send(s1.(stream := s1.stream.(recvdSince := 0)), Acknowledge(n))
  {
    assert (s.stream.recvdSince + 1) % TWO_32 == s.stream.recvdSince + 1;
  }

  lemma FillReads(s: Side)
    requires ReadingOk(s) && Alive(s) && s.stream.buf == [] && s.stream.queue != []
    ensures ReadingOk(Took(s))
  {
    var next := s.stream.queue[0];
    FlatConcat(s.hist.taken, [next]);
    assert Flat([next]) == next;
    assert s.hist.read + [] == s.hist.read;
  }

  lemma AcknowledgeKeepsLog(s: Side, n: U32)
    requires LogOk(s) && Alive(s)
    ensures LogOk(Send(s, Acknowledge(n)).side)
  {
    Appended(s.hist.log, Acknowledge(n));
    FinishEndsAppend(s.hist.log, Acknowledge(n));
  }

  lemma FillKeepsStream(s: Side)
    requires StreamOk(s) && Alive(s) && s.stream.threshold < TWO_32
    ensures StreamOk(FillOn(s).side)
  {
    if s.stream.buf == [] && s.stream.queue != [] {
      FillShape(s);
      FillReads(s);
      var s1 := Took(s);
      AcknowledgeKeepsLog(s1.(stream := s1.stream.(recvdSince := 0)), s1.stream.recvdSince);
    }
  }

  lemma OpenedFillCounts(l: Lane)
    requires Opened(l) && Alive(l.left) && l.left.stream.buf == [] && l.left.stream.queue != []
    requires l.left.stream.recvdSince + 1 < l.left.stream.threshold
    ensures Opened(Lane(FillOn(l.left).side, l.right, l.lr + FillOn(l.left).emit, l.rl))
  {
    FillKeepsStream(l.left);
    FillShape(l.left);
    ChunkTaken(l.left, Took(l.left), l.right, l.lr, l.rl);
    assert l.lr + [] == l.lr;
  }

  lemma OpenedFillAcknowledges(l: Lane)
    requires Opened(l) && Alive(l.left) && l.left.stream.buf == [] && l.left.stream.queue != []
    requires l.left.stream.recvdSince + 1 >= l.left.stream.threshold
    ensures Opened(Lane(FillOn(l.left).side, l.right, l.lr + FillOn(l.left).emit, l.rl))
  {
    FillKeepsStream(l.left);
    FillShape(l.left);
    var s1 := Took(l.left);
    ChunkTaken(l.left, s1, l.right, l.lr, l.rl);
    CounterTurns(s1, Send(s1.(stream := s1.stream.(recvdSince := 0)), Acknowledge(s1.stream.recvdSince)).side,
                 l.right, l.lr, l.rl);
  }

  lemma OpenedFill(l: Lane)
    requires Opened(l) && CanAdvance(l, Do(FillBuf))
    ensures Opened(Advance(l, Do(FillBuf)))
  {
    if l.left.stream.buf != [] || l.left.stream.queue == [] {
      assert l.lr + [] == l.lr;
    } else if l.left.stream.recvdSince + 1 < l.left.stream.threshold {
      OpenedFillCounts(l);
    } else {
      OpenedFillAcknowledges(l);
    }
  }

  lemma OpenedConsume(l: Lane, amount: nat)
    requires Opened(l) && CanAdvance(l, Do(Consume(amount)))
    ensures Opened(Advance(l, Do(Consume(amount))))
  {
    assert l.lr + [] == l.lr;
    var s := l.left;
    assert s.stream.buf == s.stream.buf[..amount] + s.stream.buf[amount..];
    assert s.hist.read + s.stream.buf == s.hist.read + s.stream.buf[..amount] + s.stream.buf[amount..];
  }

  lemma OpenedDrop(l: Lane)
    requires Opened(l) && CanAdvance(l, Do(DropStream))
    ensures Opened(Advance(l, Do(DropStream)))
  {
    assert l.lr + [] == l.lr;
  }

  lemma ResetKeepsStream(s: Side)
    requires StreamOk(s) && s.slot == Absent
    ensures StreamOk(Send(s, Reset).side)
  {
    Appended(s.hist.log, Reset);
    FinishEndsAppend(s.hist.log, Reset);
  }

  lemma ProcessDropKeepsStream(s: Side)
    requires StreamOk(s) && s.drops > 0
    ensures StreamOk(ProcessDropOn(s).side)
  {
    Appended(s.hist.log, Reset);
    FinishEndsAppend(s.hist.log, Reset);
  }

  /** A dropped stream that was shut down gives up its slot without a word. */
  lemma DropSilent(s: Side, s': Side, t: Side, c: seq<Payload>, d: seq<Payload>)
    requires Direction(s, t, c, d) && Direction(t, s, d, c) && StreamOk(s) && StreamOk(t)
    requires s.slot == Established && s.stream.owner == Dropped && s.stream.finishSent
    requires s'.cfg == s.cfg && s'.slot == Absent && s'.stream == s.stream.(readOpen := false)
    requires s'.hist.accepted == s.hist.accepted && s'.hist.asked == s.hist.asked
    requires s'.hist.taken == s.hist.taken && s'.hist.written == s.hist.written
    ensures Direction(s', t, c, d) && Direction(t, s', d, c)
  {
  }

  /** Otherwise a `Reset` tells the peer. */
  lemma DropResets(s: Side, s': Side, t: Side, c: seq<Payload>, d: seq<Payload>)
    requires Direction(s, t, c, d) && Direction(t, s, d, c) && StreamOk(s) && StreamOk(t)
    requires s.slot == Established && s.stream.owner == Dropped && !s.stream.finishSent
    requires s'.cfg == s.cfg && s'.slot == Absent && s'.stream == s.stream.(finishSent := true, readOpen := false)
    requires s'.hist.accepted == s.hist.accepted && s'.hist.asked == s.hist.asked
    requires s'.hist.taken == s.hist.taken && s'.hist.written == s.hist.written
    ensures Direction(s', t, c + [Reset], d) && Direction(t, s', d, c + [Reset])
  {
    Appended(c, Reset);
    OrderedAppend(c, Reset);
  }

  /** A drop of a stream that has lost its slot already. */
  lemma DropStale(s: Side, s': Side, t: Side, c: seq<Payload>, d: seq<Payload>)
    requires Direction(s, t, c, d) && Direction(t, s, d, c)
    requires s' == s.(drops := s'.drops, hist := s.hist.(dropResets := s'.hist.dropResets))
    ensures Direction(s', t, c, d) && Direction(t, s', d, c)
  {
  }

  lemma OpenedProcessDrop(l: Lane)
    requires Opened(l) && CanAdvance(l, Do(ProcessDrop))
    ensures Opened(Advance(l, Do(ProcessDrop)))
  {
    ProcessDropKeepsStream(l.left);
    var o := ProcessDropOn(l.left);
    if l.left.slot == Absent {
      DropStale(l.left, o.side, l.right, l.lr, l.rl);
    } else if l.left.stream.finishSent {
      DropSilent(l.left, o.side, l.right, l.lr, l.rl);
    } else {
      DropResets(l.left, o.side, l.right, l.lr, l.rl);
    }
    assert l.lr + [] == l.lr;
    assert Advance(l, Do(ProcessDrop)) == Lane(o.side, l.right, l.lr + o.emit, l.rl);
  }

  lemma OpenedDo(l: Lane, a: Action)
    requires Opened(l) && CanAdvance(l, Do(a))
    ensures Opened(Advance(l, Do(a)))
  {
    match a
    case Take => OpenedTake(l);
    case BeginWrite(data) => OpenedBeginWrite(l, data);
    case BeginShutdown => OpenedBeginShutdown(l);
    case EmitPending => OpenedEmit(l);
    case FillBuf => OpenedFill(l);
    case Consume(amount) => OpenedConsume(l, amount);
    case DropStream => OpenedDrop(l);
    case ProcessDrop => OpenedProcessDrop(l);
    case _ => assert false;
  }

  // ---- Open streams: the left side receives ----

  /** Replying `Reset` to a frame that finds no slot. */
  lemma BogusAnswered(s: Side, s': Side, t: Side, c: seq<Payload>, d: seq<Payload>)
    requires Direction(s, t, c, d) && Direction(t, s, d, c) && StreamOk(s) && StreamOk(t)
    requires s.slot == Absent && d != [] && !d[0].Reset?
    requires s' == Send(s, Reset).side
    ensures Direction(s', t, c + [Reset], d[1..]) && Direction(t, s', d[1..], c + [Reset])
  {
    Appended(c, Reset);
    OrderedAppend(c, Reset);
  }

  lemma OpenedBogus(l: Lane)
    requires Opened(l) && l.rl != [] && l.left.slot == Absent && !l.rl[0].Reset?
    ensures Opened(Advance(l, Deliver))
  {
    ResetKeepsStream(l.left);
    BogusAnswered(l.left, Send(l.left, Reset).side, l.right, l.lr, l.rl);
    assert Advance(l, Deliver) == Lane(Send(l.left, Reset).side, l.right, l.lr + [Reset], l.rl[1..]);
  }

  /** The credit that `Push` spent keeps a place for it in the queue. */
  lemma PushFits(l: Lane)
    requires Opened(l) && l.rl != [] && l.rl[0].Push?
    ensures !QueueFull(l.left)
  {
    assert Data(l.rl) == [l.rl[0].data] + Data(l.rl[1..]);
  }

  lemma PushDelivers(s: Side, s': Side, t: Side, d: seq<Payload>)
    requires DeliveryOk(t, s, d) && Alive(s) && d != [] && d[0].Push?
    requires s' == s.(stream := s.stream.(queue := s.stream.queue + [d[0].data]))
    ensures DeliveryOk(t, s', d[1..])
  {
    assert Data(d) == [d[0].data] + Data(d[1..]);
    assert s.hist.taken + s.stream.queue + Data(d) == s'.hist.taken + s'.stream.queue + Data(d[1..]);
  }

  lemma PushArrives(s: Side, s': Side, t: Side, c: seq<Payload>, d: seq<Payload>)
    requires Direction(s, t, c, d) && Direction(t, s, d, c) && Alive(s)
    requires d != [] && d[0].Push?
    requires s' == s.(stream := s.stream.(queue := s.stream.queue + [d[0].data]))
    ensures Direction(s', t, c, d[1..]) && Direction(t, s', d[1..], c)
  {
    PushDelivers(s, s', t, d);
    assert |Data(d)| == 1 + |Data(d[1..])|;
  }

  /** Data for a stream that was dropped is passed over. */
  lemma PushIgnored(s: Side, t: Side, c: seq<Payload>, d: seq<Payload>)
    requires Direction(s, t, c, d) && Direction(t, s, d, c) && StreamOk(s) && !Alive(s)
    requires d != [] && d[0].Push?
    ensures Direction(s, t, c, d[1..]) && Direction(t, s, d[1..], c)
  {
    assert Data(d) == [d[0].data] + Data(d[1..]);
  }

  lemma OpenedReceivePush(l: Lane)
    requires Opened(l) && l.rl != [] && l.rl[0].Push? && l.left.slot == Established
    ensures Opened(Advance(l, Deliver))
  {
    PushFits(l);
    assert l.lr + [] == l.lr;
    if Alive(l.left) {
      PushArrives(l.left, Receive(l.left, l.rl[0]).side, l.right, l.lr, l.rl);
    } else {
      PushIgnored(l.left, l.right, l.lr, l.rl);
    }
  }

  lemma AcknowledgeFits(l: Lane)
    requires Opened(l) && l.rl != [] && l.rl[0].Acknowledge? && l.left.slot == Established
    ensures l.left.stream.credit + l.rl[0].count == (l.left.stream.credit + l.rl[0].count) % TWO_32
    ensures AckSum(l.rl) == l.rl[0].count + AckSum(l.rl[1..])
  {
  }

  lemma OpenedReceiveAcknowledge(l: Lane)
    requires Opened(l) && l.rl != [] && l.rl[0].Acknowledge? && l.left.slot == Established
    ensures Opened(Advance(l, Deliver))
  {
    AcknowledgeFits(l);
    assert l.lr + [] == l.lr;
    CreditMoves(l.left, ReceiveAcknowledge(l.left, l.rl[0].count).side, l.right, l.lr, l.rl);
  }

  /** An `Acknowledge` moves its count from the wire into the writer's credit. */
  lemma CreditMoves(s: Side, s': Side, t: Side, c: seq<Payload>, d: seq<Payload>)
    requires Direction(s, t, c, d) && Direction(t, s, d, c) && StreamOk(s)
    requires d != [] && d[0].Acknowledge? && s.slot == Established
    requires s' == s.(stream := s.stream.(credit := s.stream.credit + d[0].count))
    ensures Direction(s', t, c, d[1..]) && Direction(t, s', d[1..], c) && StreamOk(s')
  {
    CreditMovesHere(s, s', t, c, d);
    CreditMovesThere(s, s', t, c, d);
  }

  /** What remains when an `Acknowledge` is taken off the front. */
  lemma WithoutAck(d: seq<Payload>)
    requires d != [] && d[0].Acknowledge?
    ensures AckSum(d) == d[0].count + AckSum(d[1..]) && Data(d) == Data(d[1..])
    ensures Resets(d) == Resets(d[1..]) && Finishes(d) == Finishes(d[1..]) && Ordered(d) == Ordered(d[1..])
    ensures !OnlyResets(d)
  {
    assert [] + Data(d[1..]) == Data(d[1..]);
  }

  lemma CreditMovesHere(s: Side, s': Side, t: Side, c: seq<Payload>, d: seq<Payload>)
    requires Direction(s, t, c, d) && StreamOk(s)
    requires d != [] && d[0].Acknowledge? && s.slot == Established
    requires s' == s.(stream := s.stream.(credit := s.stream.credit + d[0].count))
    ensures Direction(s', t, c, d[1..]) && StreamOk(s')
  {
    WithoutAck(d);
  }

  lemma CreditMovesThere(s: Side, s': Side, t: Side, c: seq<Payload>, d: seq<Payload>)
    requires Direction(t, s, d, c)
    requires d != [] && d[0].Acknowledge? && s.slot == Established
    requires s' == s.(stream := s.stream.(credit := s.stream.credit + d[0].count))
    ensures Direction(t, s', d[1..], c)
  {
    WithoutAck(d);
    assert CreditOk(t, s', d[1..], c);
    assert DeliveryOk(t, s', d[1..]);
  }

  /** What remains when a `Finish` is taken off the front. */
  lemma WithoutFinish(d: seq<Payload>)
    requires d != [] && d[0].Finish?
    ensures AckSum(d) == AckSum(d[1..]) && Data(d) == Data(d[1..]) && Resets(d) == Resets(d[1..])
    ensures Finishes(d) == 1 + Finishes(d[1..]) && !OnlyResets(d)
    ensures Ordered(d) ==> Data(d[1..]) == [] && Finishes(d[1..]) == 0 && Ordered(d[1..])
  {
    assert [] + Data(d[1..]) == Data(d[1..]);
  }

  /** A `Finish` ends reading and nothing else. */
  lemma FinishCloses(s: Side, s': Side, t: Side, c: seq<Payload>, d: seq<Payload>)
    requires Direction(s, t, c, d) && Direction(t, s, d, c) && StreamOk(s)
    requires d != [] && d[0].Finish? && s.slot == Established
    requires s' == s.(stream := s.stream.(readOpen := false))
    ensures Direction(s', t, c, d[1..]) && Direction(t, s', d[1..], c) && StreamOk(s')
  {
    WithoutFinish(d);
  }

  lemma OpenedReceiveFinish(l: Lane)
    requires Opened(l) && l.rl != [] && l.rl[0].Finish? && l.left.slot == Established
    ensures Opened(Advance(l, Deliver))
  {
    assert l.lr + [] == l.lr;
    FinishCloses(l.left, ReceiveFinish(l.left).side, l.right, l.lr, l.rl);
  }

  /** A `Reset` ends the stream without an answer. */
  lemma ResetCloses(s: Side, s': Side, t: Side, c: seq<Payload>, d: seq<Payload>)
    requires Direction(s, t, c, d) && Direction(t, s, d, c) && StreamOk(s) && StreamOk(t)
    requires d != [] && d[0].Reset? && s.slot == Established
    requires s' == s.(slot := Absent, stream := s.stream.(finishSent := true, readOpen := false))
    ensures Direction(s', t, c, d[1..]) && Direction(t, s', d[1..], c)
  {
    OnlyResetsOrdered(d[1..]);
  }

  /** A second `Reset` means nothing. */
  lemma ResetIgnored(s: Side, t: Side, c: seq<Payload>, d: seq<Payload>)
    requires Direction(s, t, c, d) && Direction(t, s, d, c) && StreamOk(s) && StreamOk(t)
    requires d != [] && d[0].Reset? && s.slot == Absent
    ensures Direction(s, t, c, d[1..]) && Direction(t, s, d[1..], c)
  {
    OnlyResetsOrdered(d[1..]);
  }

  lemma OpenedReceiveReset(l: Lane)
    requires Opened(l) && l.rl != [] && l.rl[0].Reset?
    ensures Opened(Advance(l, Deliver))
  {
    assert l.lr + [] == l.lr;
    if l.left.slot == Absent {
      ResetIgnored(l.left, l.right, l.lr, l.rl);
    } else {
      ResetCloses(l.left, Receive(l.left, l.rl[0]).side, l.right, l.lr, l.rl);
    }
  }

  lemma OpenedDeliver(l: Lane)
    requires Opened(l) && l.rl != []
    ensures Opened(Advance(l, Deliver))
  {
    if l.rl[0].Reset? { OpenedReceiveReset(l); }
    else if l.left.slot == Absent { OpenedBogus(l); }
    else if l.rl[0].Push? { OpenedReceivePush(l); }
    else if l.rl[0].Acknowledge? { OpenedReceiveAcknowledge(l); }
    else { OpenedReceiveFinish(l); }
  }

  // ---- Handshake ----

  lemma SendKeepsBlank(s: Side, x: Payload)
    requires Blank(s) && (x.Connect? || x.Reset?)
    ensures Blank(Send(s, x).side)
  {
    Appended(s.hist.log, x);
    FinishEndsAppend(s.hist.log, x);
  }

  /** A side without a stream can only request one, or a bind. */
  lemma BlankRequests(s: Side, a: Action)
    requires Blank(s) && Enabled(s, a)
    ensures a.Insert? || a.InsertBind? || a.SendConnect? || a.SendBind?
  {
  }

  lemma QuietAdvances(l: Lane, a: Action)
    requires HandshakeQuiet(l) && CanAdvance(l, Do(a))
    ensures var l' := Advance(l, Do(a)); HalfHandshake(l') || HalfHandshake(Swap(l')) || BindLane(l')
  {
    BlankRequests(l.left, a);
    if a.SendConnect? { QuietConnects(l); } else { QuietInserts(l, a); }
  }

  lemma QuietConnects(l: Lane)
    requires (HandshakeQuiet(l) || HandshakeQuiet(Swap(l))) && CanAdvance(l, Do(SendConnect))
    ensures HandshakeOffer(Advance(l, Do(SendConnect)))
  {
    var ask := l.left.unsent.value;
    SendKeepsBlank(l.left.(unsent := None), Connect(l.left.cfg.rwnd, ask.port, ask.host));
  }

  lemma QuietInserts(l: Lane, a: Action)
    requires (HandshakeQuiet(l) || HandshakeQuiet(Swap(l))) && CanAdvance(l, Do(a)) && !a.SendConnect?
    ensures var l' := Advance(l, Do(a)); HandshakeQuiet(l') || HandshakeQuiet(Swap(l')) || BindLane(l')
  {
    BlankRequests(l.left, a);
    assert l.lr + [] == l.lr;
  }

  /** As above, when the left side is the second one of the pair. */
  lemma QuietAdvancesSwapped(l: Lane, a: Action)
    requires HandshakeQuiet(Swap(l)) && CanAdvance(l, Do(a))
    ensures var l' := Advance(l, Do(a)); HalfHandshake(l') || HalfHandshake(Swap(l')) || BindLane(l')
  {
    BlankRequests(l.left, a);
    if a.SendConnect? { QuietConnects(l); } else { QuietInserts(l, a); }
  }

  /** The side that waits for an answer has nothing to do but receive. */
  lemma AskingOnlyReceives(s: Side, a: Action)
    requires Asking(s)
    ensures !Enabled(s, a)
  {
  }

  lemma PendingOfferAdvances(l: Lane, a: Action)
    requires (HandshakeOffer(Swap(l)) || HandshakeRefusal(Swap(l))) && CanAdvance(l, Do(a))
    ensures HalfHandshake(Swap(Advance(l, Do(a))))
  {
    if a.SendConnect? {
      SendKeepsBlank(l.left.(unsent := None), Connect(l.left.cfg.rwnd, l.left.unsent.value.port, l.left.unsent.value.host));
    }
  }

  lemma RejectOffer(l: Lane)
    requires l.rl != [] && l.rl[0].Connect? && Inserted(l.left) && HandshakeOffer(Swap(l))
    ensures HalfHandshake(Swap(Advance(l, Deliver)))
  {
    SendKeepsBlank(l.left, Reset);
  }

  lemma RejectCrossed(l: Lane)
    requires l.rl != [] && l.rl[0].Connect? && HandshakeCrossed(l)
    ensures HalfHandshake(Advance(l, Deliver)) || HalfHandshake(Swap(Advance(l, Deliver)))
  {
    SendKeepsBlank(l.left, Reset);
  }

  lemma RejectCrossedSwapped(l: Lane)
    requires l.rl != [] && l.rl[0].Connect? && HandshakeCrossed(Swap(l))
    ensures HalfHandshake(Advance(l, Deliver)) || HalfHandshake(Swap(Advance(l, Deliver)))
  {
    SendKeepsBlank(l.left, Reset);
  }

  /** Our `Connect` crossed the peer's: reject it and wait for our own answer. */
  lemma RejectConnect(l: Lane)
    requires l.rl != [] && l.rl[0].Connect? && (Inserted(l.left) || Asking(l.left))
    requires HandshakeOffer(Swap(l)) || HandshakeCrossed(l) || HandshakeCrossed(Swap(l))
    ensures HalfHandshake(Advance(l, Deliver)) || HalfHandshake(Swap(Advance(l, Deliver)))
  {
    if HandshakeOffer(Swap(l)) { RejectOffer(l); }
    else if HandshakeCrossed(l) { RejectCrossed(l); }
    else { RejectCrossedSwapped(l); }
  }

  lemma RefusalArrives(l: Lane)
    requires l.rl != [] && l.rl[0].Reset?
    requires HandshakeRefusal(l) || HandshakeCrossed(l) || HandshakeCrossed(Swap(l))
    ensures HalfHandshake(Advance(l, Deliver)) || HalfHandshake(Swap(Advance(l, Deliver)))
  {
  }

  lemma AcceptorMakesStream(s: Side, rwnd: U32, dest: Ask)
    requires (New(s) || Refused(s)) && rwnd > 0
    ensures StreamOk(ReceiveConnect(s, rwnd, dest).side)
  {
    Appended(s.hist.log, Acknowledge(s.cfg.rwnd));
    FinishEndsAppend(s.hist.log, Acknowledge(s.cfg.rwnd));
  }

  lemma OpenerMakesStream(t: Side, rwnd: U32)
    requires Asking(t) && rwnd > 0
    ensures StreamOk(FinishHandshake(t, rwnd))
  {
  }

  /** A `Connect` that finds its id free: the accepting side is open at once. */
  lemma AcceptConnect(l: Lane)
    requires HandshakeOffer(Swap(l)) && (New(l.left) || Refused(l.left))
    ensures Accepted(Swap(Advance(l, Deliver)))
  {
    var s, t := l.left, l.right;
    var dest := StreamTo(l.rl[0].targetPort, l.rl[0].targetHost);
    var o := ReceiveConnect(s, t.cfg.rwnd, dest);
    AcceptorMakesStream(s, t.cfg.rwnd, dest);
    OpenerMakesStream(t, s.cfg.rwnd);
    assert Advance(l, Deliver) == Lane(o.side, t, [Acknowledge(s.cfg.rwnd)], []);
    FreshlyOpened(o.side, FinishHandshake(t, s.cfg.rwnd));
  }

  /** Two new streams, each made with the other's window, are an open stream: neither side
      can overrun the other, and both acknowledge in time for the other's window. */
  lemma FreshlyOpened(acceptor: Side, opener: Side)
    requires acceptor.cfg.Valid() && opener.cfg.Valid()
    requires acceptor.stream == NewStream(acceptor, opener.cfg.rwnd, acceptor.stream.dest).stream
    requires opener.stream == NewStream(opener, acceptor.cfg.rwnd, NOWHERE).stream
    requires acceptor.stream.dest.StreamTo? && opener.hist.asked == Some(acceptor.stream.dest)
    requires StreamOk(acceptor) && StreamOk(opener)
    requires acceptor.slot == Established && opener.slot == Established
    requires acceptor.hist.accepted && !opener.hist.accepted
    requires acceptor.hist.written == [] == acceptor.hist.taken && opener.hist.written == [] == opener.hist.taken
    ensures Opened(Lane(opener, acceptor, [], [])) && Opened(Lane(acceptor, opener, [], []))
  {
  }

  lemma HandshakeDelivers(l: Lane)
    requires Handshaking(l) && l.rl != []
    ensures Inv(Advance(l, Deliver))
  {
    if l.rl[0].Reset? {
      RefusalArrives(l);
    } else if Inserted(l.left) || Asking(l.left) {
      RejectConnect(l);
    } else {
      AcceptConnect(l);
    }
  }

  lemma HandshakeDoes(l: Lane, a: Action)
    requires Handshaking(l) && CanAdvance(l, Do(a))
    ensures Handshaking(Advance(l, Do(a))) || BindLane(Advance(l, Do(a)))
  {
    if HandshakeQuiet(l) { QuietAdvances(l, a); }
    else if HandshakeQuiet(Swap(l)) { QuietAdvancesSwapped(l, a); }
    else if Asking(l.left) { AskingOnlyReceives(l.left, a); }
    else { PendingOfferAdvances(l, a); }
  }

  // ---- The `Acknowledge` of the handshake is in flight ----

  lemma AnswerArrives(l: Lane)
    requires Accepted(l)
    ensures Advance(l, Deliver) == Answered(l)
  {
    assert l.lr + [] == l.lr;
  }

  /** What the acceptor does before its `Acknowledge` arrives, it could do after. */
  lemma ActingCommutes(l: Lane, a: Action)
    requires l.lr != [] && CanAdvance(l, Do(a))
    requires CanAdvance(Swap(Answered(Swap(l))), Do(a))
    ensures Answered(Swap(Advance(l, Do(a)))) == Swap(Advance(Swap(Answered(Swap(l))), Do(a)))
    ensures Advance(l, Do(a)).lr[0] == l.lr[0]
  {
    var o := Perform(l.left, a);
    assert (l.lr + o.emit)[1..] == l.lr[1..] + o.emit;
    ConfigKept(l.left, a);
  }

  lemma ConfigKept(s: Side, a: Action)
    requires Enabled(s, a)
    ensures Perform(s, a).side.cfg == s.cfg
  {
  }

  lemma AcceptorActs(l: Lane, a: Action)
    requires Accepted(Swap(l)) && CanAdvance(l, Do(a))
    ensures Accepted(Swap(Advance(l, Do(a))))
  {
    var v := Swap(Answered(Swap(l)));
    OpenedSwap(Answered(Swap(l)));
    assert CanAdvance(v, Do(a));
    OpenedDo(v, a);
    OpenedSwap(Advance(v, Do(a)));
    ActingCommutes(l, a);
    ConfigKept(l.left, a);
  }

  lemma OpenedSwap(l: Lane)
    requires Opened(l)
    ensures Opened(Swap(l))
  {
  }

  // ---- `Bind` ----

  lemma {:induction false} VerdictsAppend(c: seq<Payload>, x: Payload)
    ensures Verdicts(c + [x]) == Verdicts(c) + [x.Finish?]
  {
    if c == [] {
    } else {
      assert (c + [x])[1..] == c[1..] + [x];
      VerdictsAppend(c[1..], x);
    }
  }

  /** The requester acts: it queues its `Bind`, and nothing else. */
  lemma BindRequesterActs(l: Lane, a: Action)
    requires BindLane(l) && CanAdvance(l, Do(a))
    ensures BindLane(Advance(l, Do(a)))
  {
  }

  /** The first reply to arrive is the answer. */
  lemma FirstReplyArrives(l: Lane)
    requires BindLane(l) && l.rl != [] && l.left.slot == BindRequested
    ensures BindLane(Advance(l, Deliver))
  {
    assert l.lr + [] == l.lr;
    assert l.rl[0] in l.rl;
    assert RepliesOnly(l.rl[1..]);
  }

  /** Later ones find no slot. */
  lemma LaterReplyArrives(l: Lane)
    requires BindLane(l) && l.rl != [] && l.left.slot != BindRequested
    ensures BindLane(Advance(l, Deliver))
    ensures l.rl[0].Reset? ==> Advance(l, Deliver) == l.(rl := l.rl[1..])
  {
    assert l.lr + [] == l.lr;
    assert l.rl[0] in l.rl;
    assert RepliesOnly(l.rl[1..]);
    Appended(l.lr, Reset);
  }

  lemma BindReplyArrives(l: Lane)
    requires BindLane(l) && l.rl != []
    ensures BindLane(Advance(l, Deliver))
    ensures l.rl[0].Reset? && l.left.slot == Absent ==>
      Advance(l, Deliver) == l.(rl := l.rl[1..])
  {
    if l.left.slot == BindRequested { FirstReplyArrives(l); } else { LaterReplyArrives(l); }
  }

  lemma BindReceiverActs(l: Lane, a: Action)
    requires BindLane(Swap(l)) && CanAdvance(l, Do(a))
    ensures BindLane(Swap(Advance(l, Do(a))))
  {
    var x := if a.Reply? && a.accept then Finish else Reset;
    VerdictsAppend(l.lr, x);
    assert RepliesOnly(l.lr) ==> RepliesOnly(l.lr + [x]);
  }

  lemma BindReceiverReceives(l: Lane)
    requires BindLane(Swap(l)) && l.rl != []
    ensures BindLane(Swap(Advance(l, Deliver)))
  {
    assert l.lr + [] == l.lr;
    var l' := Advance(l, Deliver);
    if l.rl[0].Bind? {
      assert l'.rl == [] && l'.lr == (if l.left.cfg.acceptsBind then [] else [Reset]);
      assert BindArrived(Swap(l'));
    } else {
      assert l' == l.(rl := l.rl[1..]);
    }
  }

  // ---- Any step, any run ----

  lemma StartHolds(left: Config, right: Config)
    requires left.Valid() && right.Valid()
    ensures Inv(Start(left, right))
  {
    assert HandshakeQuiet(Start(left, right));
  }

  lemma ConfigsValid(l: Lane)
    requires Inv(l)
    ensures l.left.cfg.Valid() && l.right.cfg.Valid()
  {
  }

  lemma DeliverKeeps(l: Lane)
    requires Inv(l) && l.rl != []
    ensures Inv(Advance(l, Deliver))
  {
    if Handshaking(l) { HandshakeDelivers(l); }
    else if Accepted(l) { AnswerArrives(l); }
    else if Accepted(Swap(l)) { assert false; }
    else if Opened(l) { OpenedDeliver(l); }
    else if BindLane(l) { BindReplyArrives(l); }
    else { BindReceiverReceives(l); }
  }

  lemma DoKeeps(l: Lane, a: Action)
    requires Inv(l) && CanAdvance(l, Do(a))
    ensures Inv(Advance(l, Do(a)))
  {
    if Handshaking(l) { HandshakeDoes(l, a); }
    else if Accepted(l) { AskingOnlyReceives(l.left, a); }
    else if Accepted(Swap(l)) { AcceptorActs(l, a); }
    else if Opened(l) { OpenedDo(l, a); }
    else if BindLane(l) { BindRequesterActs(l, a); }
    else { BindReceiverActs(l, a); }
  }

  lemma AdvanceKeeps(l: Lane, m: Move)
    requires Inv(l) && CanAdvance(l, m)
    ensures Inv(Advance(l, m))
  {
    match m
    case Do(a) => DoKeeps(l, a);
    case Deliver => DeliverKeeps(l);
    case Recycle =>
      ConfigsValid(l);
      StartHolds(l.left.cfg, l.right.cfg);
  }

  lemma InvSwap(l: Lane)
    requires Inv(l)
    ensures Inv(Swap(l))
  {
    if Opened(l) { OpenedSwap(l); }
  }

  lemma StepKeeps(l: Lane, l': Lane)
    requires Inv(l) && Step(l, l')
    ensures Inv(l')
  {
    if m: Move :| CanAdvance(l, m) && l' == Advance(l, m) {
      AdvanceKeeps(l, m);
    } else {
      var m: Move :| CanAdvance(Swap(l), m) && l' == Swap(Advance(Swap(l), m));
      InvSwap(l);
      AdvanceKeeps(Swap(l), m);
      InvSwap(Advance(Swap(l), m));
    }
  }
}
