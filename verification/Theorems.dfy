/** What two conforming peers guarantee in every reachable state, for every flow id.

    Statements name the left peer as the writer or requester; `ReachableSwap` gives
    the same for the right peer. */
module Theorems {
  import opened Frames
  import opened Peer
  import opened Lanes
  import opened Invariant
  import opened Links

  lemma StepSwap(k: Link, k': Link)
    requires LinkStep(k, k')
    ensures LinkStep(SwapLink(k), SwapLink(k'))
  {
    assert SwapLink(SwapLink(k)) == k;
    if m: LinkMove :| CanMove(k, m) && k' == MoveLink(k, m) {
      assert CanMove(SwapLink(SwapLink(k)), m) && SwapLink(k') == SwapLink(MoveLink(SwapLink(SwapLink(k)), m));
    } else {
      var m: LinkMove :| CanMove(SwapLink(k), m) && k' == SwapLink(MoveLink(SwapLink(k), m));
      assert SwapLink(k') == MoveLink(SwapLink(k), m);
    }
  }

  lemma ReachableSwap(k: Link)
    requires Reachable(k)
    ensures Reachable(SwapLink(k))
  {
    var tr: seq<Link> :| LinkRun(tr) && tr[|tr| - 1] == k;
    var tr' := seq(|tr|, i requires 0 <= i < |tr| => SwapLink(tr[i]));
    var left: Config, right: Config :| left.Valid() && right.Valid() && tr[0] == StartLink(left, right);
    assert tr'[0] == StartLink(right, left);
    forall i | 0 <= i < |tr'| - 1 ensures LinkStep(tr'[i], tr'[i + 1]) {
      StepSwap(tr[i], tr[i + 1]);
    }
    assert LinkRun(tr') && tr'[|tr'| - 1] == SwapLink(k);
  }

  // ---- Flow control ----

  lemma {:induction false} ControlCarriesNothing(c: seq<Payload>)
    requires forall x :: x in c ==> !x.Push? && !x.Acknowledge?
    ensures Data(c) == [] && AckSum(c) == 0
  {
    if c != [] {
      assert c[0] in c;
      ControlCarriesNothing(c[1..]);
    }
  }

  lemma HandshakeCarriesNothing(l: Lane)
    requires HalfHandshake(l)
    ensures Data(l.lr) == [] && AckSum(l.lr) == 0 && Data(l.rl) == [] && AckSum(l.rl) == 0
  {
    ControlCarriesNothing(l.lr);
    ControlCarriesNothing(l.rl);
  }

  lemma BlankBefore(l: Lane)
    requires Handshaking(l) || BindLane(l) || BindLane(Swap(l))
    ensures l.left.stream == NO_STREAM && l.right.stream == NO_STREAM && NoData(l.left) && NoData(l.right)
  {
  }

  /** Before a stream is made nothing in flight carries data or credit. */
  lemma NothingBefore(l: Lane)
    requires Handshaking(l) || BindLane(l) || BindLane(Swap(l))
    ensures Data(l.lr) == [] && AckSum(l.lr) == 0 && Data(l.rl) == [] && AckSum(l.rl) == 0
    ensures l.left.stream == NO_STREAM && l.right.stream == NO_STREAM && NoData(l.left) && NoData(l.right)
  {
    BlankBefore(l);
    if HalfHandshake(l) { HandshakeCarriesNothing(l); }
    else if HalfHandshake(Swap(l)) { HandshakeCarriesNothing(Swap(l)); }
    else if BindLane(l) { BindCarriesNothing(l); }
    else { BindCarriesNothing(Swap(l)); }
  }

  lemma BindCarriesNothing(l: Lane)
    requires BindLane(l)
    ensures Data(l.lr) == [] && AckSum(l.lr) == 0 && Data(l.rl) == [] && AckSum(l.rl) == 0
  {
    ControlCarriesNothing(l.rl);
    if BindAsked(l) { ControlCarriesNothing(l.lr); } else { OnlyResetsOrdered(l.lr); }
  }

  lemma CreditBoundLane(l: Lane)
    requires Inv(l)
    ensures Window(l.left, l.right, l.lr, l.rl) <= l.right.cfg.rwnd
    ensures l.left.slot == Established && Alive(l.right) ==>
      Window(l.left, l.right, l.lr, l.rl) == l.right.cfg.rwnd
  {
    if Accepted(l) {
      assert Window(l.left, l.right, l.lr, l.rl) == Window(Answered(l).left, l.right, l.lr, l.rl[1..]);
    } else if Accepted(Swap(l)) {
      assert Window(l.left, l.right, l.lr, l.rl) == Window(l.left, Answered(Swap(l)).left, l.lr[1..], l.rl);
    } else if !Opened(l) {
      NothingBefore(l);
    }
  }

  /** Credit conservation. What the writer may still send, what is on its way, what the
      reader has queued, what it has taken and not acknowledged, and the acknowledgements
      on their way back are together the reader's window; never more, in any state. */
  lemma CreditConserved(k: Link, id: U32)
    requires Reachable(k)
    ensures var l := View(k, id);
      && Window(l.left, l.right, l.lr, l.rl) <= l.right.cfg.rwnd
      && (l.left.slot == Established && Alive(l.right) ==>
            Window(l.left, l.right, l.lr, l.rl) == l.right.cfg.rwnd)
  {
    ReachableInv(k);
    CreditBoundLane(View(k, id));
  }

  /** A `Push` at the head of the line always finds room: the branch that resets a peer
      for overrunning its window is never taken. */
  lemma QueueNeverOverruns(k: Link)
    requires Reachable(k) && k.rl != [] && k.rl[0].payload.Push?
    ensures !QueueFull(SideOf(k.left, k.rl[0].id))
  {
    ReachableInv(k);
    ReachableSwap(k);
    var id := k.rl[0].id;
    CreditConserved(SwapLink(k), id);
    SwapView(k, id);
    var c := Only(k.rl, id);
    assert Data(c) == [k.rl[0].payload.data] + Data(c[1..]);
  }

  /** The atomic addition of an acknowledged count never wraps. */
  lemma CreditNeverWraps(k: Link)
    requires Reachable(k) && k.rl != [] && k.rl[0].payload.Acknowledge?
    requires SideOf(k.left, k.rl[0].id).slot == Established
    ensures SideOf(k.left, k.rl[0].id).stream.credit + k.rl[0].payload.count < TWO_32
  {
    var id := k.rl[0].id;
    CreditConserved(k, id);
    var c := Only(k.rl, id);
    assert AckSum(c) == c[0].count + AckSum(c[1..]);
  }

  // ---- Delivery ----

  lemma {:induction false} FlatPrefix(a: seq<Bytes>, b: seq<Bytes>)
    requires a <= b
    ensures Flat(a) <= Flat(b)
  {
    FlatConcat(a, b[|a|..]);
    assert b == a + b[|a|..];
  }

  lemma DeliveryLane(l: Lane)
    requires Inv(l)
    ensures l.right.hist.taken <= l.left.hist.written
    ensures l.right.hist.read <= Flat(l.right.hist.taken)
    ensures Alive(l.right) ==>
      && l.left.hist.written == l.right.hist.taken + l.right.stream.queue + Data(l.lr)
      && Flat(l.right.hist.taken) == l.right.hist.read + l.right.stream.buf
    ensures Alive(l.right) && !l.right.stream.readOpen ==>
      Data(l.lr) == [] && l.left.stream.finishSent && l.left.stream.pending == None
  {
    if Opened(l) {
      if Alive(l.right) && l.right.slot == Absent { OnlyResetsOrdered(l.lr); }
    } else if Accepted(l) {
      DeliveryAfterAnswer(l);
    } else if Handshaking(l) || BindLane(l) || BindLane(Swap(l)) {
      NothingBefore(l);
    }
  }

  /** The reader accepted and the writer has not heard of it: nothing was written. */
  lemma DeliveryAfterAnswer(l: Lane)
    requires Accepted(l)
    ensures l.right.hist.taken == l.left.hist.written == [] && l.right.stream.queue == []
    ensures Alive(l.right) ==> l.right.slot == Established && l.right.stream.readOpen
  {
  }

  /** Over every run the bytes read are a prefix of the bytes written. */
  lemma ReadsArePrefix(k: Link, id: U32)
    requires Reachable(k)
    ensures var l := View(k, id); l.right.hist.read <= Flat(l.left.hist.written)
  {
    ReachableInv(k);
    var l := View(k, id);
    DeliveryLane(l);
    FlatPrefix(l.right.hist.taken, l.left.hist.written);
  }

  /** `poll_fill_buf` is ready, with no bytes. */
  predicate ReadsEmpty(s: Side) {
    s.stream.buf == [] && if s.stream.queue == [] then !s.stream.readOpen else s.stream.queue[0] == []
  }

  /** The receiving end is gone and everything queued has been consumed. */
  predicate AtEnd(s: Side) { s.stream.buf == [] && s.stream.queue == [] && !s.stream.readOpen }

  /** The next chunk the writer wrote and the reader has not taken is there, and empty. */
  predicate EmptyChunkNext(writer: Side, reader: Side) {
    && reader.stream.buf == [] && reader.stream.queue != []
    && |reader.hist.taken| < |writer.hist.written| && writer.hist.written[|reader.hist.taken|] == []
  }

  /** End of stream is exact: a reader that reaches it has read every byte the peer's
      writes accepted, and the peer cannot write any more. An empty read says just that,
      except exactly when the reader has come to an empty chunk the peer wrote. */
  lemma EndIsExact(k: Link, id: U32)
    requires Reachable(k) && Alive(SideOf(k.right, id))
    ensures var l := View(k, id);
      && (AtEnd(l.right) ==>
            && l.right.hist.read == Flat(l.left.hist.written)
            && l.left.stream.finishSent && l.left.stream.pending == None)
      && (ReadsEmpty(l.right) && !AtEnd(l.right) <==> EmptyChunkNext(l.left, l.right))
  {
    ReachableInv(k);
    var l := View(k, id);
    DeliveryLane(l);
    if AtEnd(l.right) {
      assert l.left.hist.written == l.right.hist.taken;
      assert l.right.hist.read + [] == l.right.hist.read;
    } else if l.right.stream.queue != [] {
      assert l.left.hist.written[|l.right.hist.taken|] == l.right.stream.queue[0];
    }
  }

  lemma EndLane(l: Lane)
    requires Inv(l) && Alive(l.right) && l.lr == [] && l.right.stream.queue == [] && l.right.stream.buf == []
    requires l.left.stream.finishSent && l.left.stream.pending == None
    ensures !l.right.stream.readOpen
  {
  }

  /** End of stream comes: once everything in between is delivered and consumed, the reader
      is at the end if and only if the writer has finished, by `Finish` or by its drop. */
  lemma EndComesExactly(k: Link, id: U32)
    requires Reachable(k)
    requires var l := View(k, id);
      Alive(l.right) && l.lr == [] && l.right.stream.queue == [] && l.right.stream.buf == []
    ensures var l := View(k, id);
      AtEnd(l.right) <==> l.left.stream.finishSent && l.left.stream.pending == None
  {
    ReachableInv(k);
    var l := View(k, id);
    if l.left.stream.finishSent && l.left.stream.pending == None { EndLane(l); } else { DeliveryLane(l); }
  }

  // ---- Opening a stream ----

  /** What opening a stream guarantees the left side, in one lane. */
  predicate OpeningOk(l: Lane) {
    && |l.left.hist.answers| <= 1 && Hangup !in l.left.hist.answers
    && !(GotStream in l.left.hist.answers && GotStream in l.right.hist.answers)
    && (GotStream in l.left.hist.answers ==>
          l.left.stream.owner != Nobody && l.right.stream.owner != Nobody && l.right.hist.accepted)
    && (l.left.slot == Requested ==>
          l.left.hist.answers == [] && (l.left.unsent == None ==> l.lr != [] || l.rl != []))
    && (l.left.hist.use == ForStream && l.left.slot != Requested && !l.left.hist.accepted ==>
          |l.left.hist.answers| == 1)
    && (l.right.hist.accepted && GotStream !in l.left.hist.answers ==>
          l.left.slot == Requested && l.rl != [] && l.rl[0] == Acknowledge(l.right.cfg.rwnd))
  }

  lemma OpeningOpened(l: Lane)
    requires Opened(l) || Accepted(l) || Accepted(Swap(l))
    ensures OpeningOk(l)
  {
  }

  lemma OpeningBefore(l: Lane)
    requires Handshaking(l) || BindLane(l) || BindLane(Swap(l))
    ensures OpeningOk(l)
  {
  }

  /** Simultaneous open. Whatever the interleaving, a request gets one answer and no
      second one, while it has none its answer is on the way, at most one of two requests
      for the same id becomes a stream, and a stream that is made exists at both ends. */
  lemma RequestsAreAnsweredOnce(k: Link, id: U32)
    requires Reachable(k)
    ensures OpeningOk(View(k, id))
  {
    ReachableInv(k);
    var l := View(k, id);
    if Opened(l) || Accepted(l) || Accepted(Swap(l)) { OpeningOpened(l); } else { OpeningBefore(l); }
  }

  // ---- What was asked for ----

  /** The right side has from the left side's request what the left side's user asked for. */
  predicate AsAsked(l: Lane) {
    && (l.right.hist.accepted ==> l.right.stream.dest.StreamTo? && l.left.hist.asked == Some(l.right.stream.dest))
    && (forall ask :: ask in l.right.requests ==> ask.BindTo? && l.left.hist.asked == Some(ask))
  }

  lemma AskedLane(l: Lane)
    requires Inv(l)
    ensures AsAsked(l)
  {
    if Handshaking(l) { NothingBefore(l); }
  }

  /** A stream accepted from a `Connect` is to go to the port and host the requester named,
      and a bind request names the type, port and host the requester named, in every
      reachable state. */
  lemma RequestsArriveAsAsked(k: Link, id: U32)
    requires Reachable(k)
    ensures AsAsked(View(k, id))
  {
    ReachableInv(k);
    AskedLane(View(k, id));
  }

  // ---- Agreement and leaks ----

  /** Nothing of this id is on its way, waits for a drop, or waits for a user's verdict. */
  predicate Settled(l: Lane) {
    && l.lr == [] && l.rl == [] && l.left.drops == 0 && l.right.drops == 0
    && l.left.unsent == None && l.right.unsent == None
    && l.left.requests == [] && l.right.requests == []
  }

  lemma AgreementLane(l: Lane)
    requires Inv(l) && Settled(l)
    ensures
      || (l.left.slot == Absent && l.right.slot == Absent)
      || (l.left.slot == Established && l.right.slot == Established)
      || (l.left.slot == Established && l.right.slot == Absent && !l.left.stream.readOpen)
      || (l.left.slot == Absent && l.right.slot == Established && !l.right.stream.readOpen)
  {
  }

  /** When a flow id is settled, both peers hold it, neither does, or one does and has
      taken the other's `Finish`. No request is left waiting. */
  lemma SettledPeersAgree(k: Link, id: U32)
    requires Reachable(k) && Settled(View(k, id))
    ensures var l := View(k, id);
      || (l.left.slot == Absent && l.right.slot == Absent)
      || (l.left.slot == Established && l.right.slot == Established)
      || (l.left.slot == Established && l.right.slot == Absent && !l.left.stream.readOpen)
      || (l.left.slot == Absent && l.right.slot == Established && !l.right.stream.readOpen)
  {
    ReachableInv(k);
    AgreementLane(View(k, id));
  }

  lemma {:induction false} CountMember(q: seq<U32>, id: U32)
    requires Count(q, id) > 0
    ensures id in q
  {
    if q[0] != id { CountMember(q[1..], id); }
  }

  lemma EstablishedHasStream(l: Lane)
    requires Inv(l) && l.left.slot == Established
    ensures StreamOk(l.left)
  {
  }

  /** An established slot has its stream with the user or on the way to the user, or its
      id waits in the dropped-ports queue: no slot is leaked. */
  lemma NoSlotLeaks(k: Link, id: U32)
    requires Reachable(k) && SideOf(k.left, id).slot == Established
    ensures Alive(SideOf(k.left, id)) || id in k.left.drops
  {
    ReachableInv(k);
    EstablishedHasStream(View(k, id));
    if !Alive(SideOf(k.left, id)) { CountMember(k.left.drops, id); }
  }

  // ---- The id of the multiplexor itself ----

  lemma {:induction false} NotCounted(q: seq<U32>, id: U32)
    requires Count(q, id) == 0
    ensures id !in q
  {
    if q != [] { NotCounted(q[1..], id); }
  }

  lemma {:induction false} NotCarried(c: seq<Frame>, id: U32)
    requires Only(c, id) == []
    ensures forall f :: f in c && f.id == id ==> f.payload.Datagram?
  {
    if c != [] { NotCarried(c[1..], id); }
  }

  /** Between conforming peers no slot, no stream, no pending drop and no frame of a flow
      ever has id 0, so a 0 in a dropped-ports queue is the multiplexor's own notice. */
  lemma ZeroIsNeverAFlow(k: Link)
    requires Reachable(k)
    ensures SideOf(k.left, 0) == Fresh(k.left.cfg) && 0 !in k.left.drops
    ensures forall f :: f in k.lr && f.id == 0 ==> f.payload.Datagram?
  {
    ReachableInv(k);
    NotCounted(k.left.drops, 0);
    NotCarried(k.lr, 0);
  }

  // ---- What each frame is answered with ----

  /** A frame that finds nothing it could be for. */
  predicate Bogus(s: Side, x: Payload) {
    match x
    case Push(_) => s.slot != Established || !s.stream.readOpen
    case Acknowledge(_) => s.slot == Absent || s.slot == BindRequested
    case Finish => s.slot == Absent || s.slot == Requested
    case Connect(_, _, _) => s.slot != Absent
    case Bind(_, _, _) => !s.cfg.acceptsBind
    case Reset => false
    case Datagram(_, _, _) => false
  }

  /** A window that the peer has overrun, on a stream we have not finished. */
  predicate Overrun(s: Side, x: Payload) {
    && x.Push? && s.slot == Established && s.stream.readOpen && s.stream.owner != Dropped
    && |s.stream.queue| >= s.cfg.rwnd && !s.stream.finishSent
  }

  /** Every frame in every state: a bogus frame or an overrun is answered with `Reset`, a
      `Connect` for a free id with our window, and nothing else is answered. */
  lemma AnsweredExactly(s: Side, x: Payload)
    ensures Receive(s, x).emit ==
      if Bogus(s, x) || Overrun(s, x) then [Reset]
      else if x.Connect? then [Acknowledge(s.cfg.rwnd)]
      else []
  {
  }

  /** What a frame does that is neither bogus nor an overrun, cell by cell. */
  lemma TakenExactly(s: Side, x: Payload)
    requires s.slot == Established && !Bogus(s, x)
    ensures var s' := Receive(s, x).side;
      && (x.Push? && s.stream.owner != Dropped && |s.stream.queue| < s.cfg.rwnd ==>
            s' == s.(stream := s.stream.(queue := s.stream.queue + [x.data])))
      && (x.Push? && s.stream.owner == Dropped ==> s' == s)
      && (x.Acknowledge? && s.stream.credit + x.count < TWO_32 ==>
            s' == s.(stream := s.stream.(credit := s.stream.credit + x.count)))
      && (x.Finish? ==> s' == s.(stream := s.stream.(readOpen := false)))
      && (x.Reset? ==> s' == s.(slot := Absent, stream := s.stream.(readOpen := false, finishSent := true)))
  {
  }

  lemma PushIsForAStream(l: Lane)
    requires Inv(l) && l.rl != [] && l.rl[0].Push?
    ensures Opened(l) && (l.left.slot == Absent || l.left.stream.readOpen)
  {
    if Handshaking(l) || BindLane(l) || BindLane(Swap(l)) {
      NothingBefore(l);
    }
  }

  /** On a reachable link data always finds its receiving end or no slot at all; without a
      slot it draws a `Reset`. */
  lemma LateDataIsReset(k: Link)
    requires Reachable(k) && k.rl != [] && k.rl[0].payload.Push?
    ensures var s := SideOf(k.left, k.rl[0].id);
      && (s.slot == Absent || (s.slot == Established && s.stream.readOpen))
      && (s.slot == Absent ==> MoveLink(k, NextFrame).lr == k.lr + [Frame(k.rl[0].id, Reset)])
  {
    ReachableInv(k);
    var id := k.rl[0].id;
    PushIsForAStream(View(k, id));
    AnsweredExactly(SideOf(k.left, id), k.rl[0].payload);
    assert Tag(id, [Reset]) == [Frame(id, Reset)];
  }

  // ---- Frame order ----

  /** What is in flight is the end of what was sent. */
  predicate EndsWith(log: seq<Payload>, c: seq<Payload>) {
    |c| <= |log| && log[|log| - |c|..] == c
  }

  predicate Tracks(l: Lane) { EndsWith(l.left.hist.log, l.lr) && EndsWith(l.right.hist.log, l.rl) }

  lemma EndGrows(log: seq<Payload>, c: seq<Payload>, emit: seq<Payload>)
    requires EndsWith(log, c)
    ensures EndsWith(log + emit, c + emit)
  {
  }

  lemma EndShrinks(log: seq<Payload>, c: seq<Payload>)
    requires EndsWith(log, c) && c != []
    ensures EndsWith(log, c[1..])
  {
    assert log[|log| - |c| + 1..] == log[|log| - |c|..][1..];
  }

  lemma EmitIsLogged(s: Side, a: Action)
    requires Enabled(s, a)
    ensures Perform(s, a).side.hist.log == s.hist.log + Perform(s, a).emit
  {
  }

  lemma ReplyIsLogged(s: Side, x: Payload)
    ensures Receive(s, x).side.hist.log == s.hist.log + Receive(s, x).emit
  {
  }

  lemma AdvanceTracks(l: Lane, m: Move)
    requires Tracks(l) && CanAdvance(l, m)
    ensures Tracks(Advance(l, m))
  {
    match m
    case Do(a) =>
      EmitIsLogged(l.left, a);
      EndGrows(l.left.hist.log, l.lr, Perform(l.left, a).emit);
    case Deliver =>
      ReplyIsLogged(l.left, l.rl[0]);
      EndGrows(l.left.hist.log, l.lr, Receive(l.left, l.rl[0]).emit);
      EndShrinks(l.right.hist.log, l.rl);
    case Recycle =>
  }

  lemma StepTracks(l: Lane, l': Lane)
    requires Tracks(l) && Step(l, l')
    ensures Tracks(l')
  {
    if m: Move :| CanAdvance(l, m) && l' == Advance(l, m) {
      AdvanceTracks(l, m);
    } else {
      var m: Move :| CanAdvance(Swap(l), m) && l' == Swap(Advance(Swap(l), m));
      AdvanceTracks(Swap(l), m);
    }
  }

  lemma LinkStepTracks(k: Link, k': Link, id: U32)
    requires LinkInv(k) && LinkStep(k, k') && Tracks(View(k, id))
    ensures Tracks(View(k', id))
  {
    LinkStepView(k, k', id);
    if View(k', id) != View(k, id) { StepTracks(View(k, id), View(k', id)); }
  }

  lemma {:induction false} RunTracks(tr: seq<Link>, i: nat, id: U32)
    requires LinkRun(tr) && i < |tr|
    ensures Tracks(View(tr[i], id))
  {
    if i == 0 {
      assert View(tr[0], id).lr == [] && View(tr[0], id).rl == [];
    } else {
      RunTracks(tr, i - 1, id);
      RunKeeps(tr, i - 1);
      assert LinkStep(tr[i - 1], tr[(i - 1) + 1]);
      LinkStepTracks(tr[i - 1], tr[i], id);
    }
  }

  /** What a sequence of frames puts after each `Finish`: no `Push`, no second `Finish`. */
  lemma {:induction false} FinishIsLast(c: seq<Payload>, i: nat, j: nat)
    requires FinishEnds(c) && i < j < |c| && c[i].Finish?
    ensures !c[j].Push? && !c[j].Finish?
  {
    if i > 0 {
      FinishIsLast(c[1..], i - 1, j - 1);
    } else {
      NoneLater(c[1..], j - 1);
    }
  }

  lemma {:induction false} NoneLater(c: seq<Payload>, j: nat)
    requires Data(c) == [] && Finishes(c) == 0 && j < |c|
    ensures !c[j].Push? && !c[j].Finish?
  {
    if j > 0 { NoneLater(c[1..], j - 1); }
  }

  predicate NothingAfterFinish(c: seq<Payload>) {
    forall i, j :: 0 <= i < j < |c| && c[i].Finish? ==> !c[j].Push? && !c[j].Finish?
  }

  lemma FinishEndsMeans(c: seq<Payload>)
    requires FinishEnds(c)
    ensures NothingAfterFinish(c)
  {
    forall i, j | 0 <= i < j < |c| && c[i].Finish? ensures !c[j].Push? && !c[j].Finish? {
      FinishIsLast(c, i, j);
    }
  }

  lemma ReachableTracks(k: Link, id: U32)
    requires Reachable(k)
    ensures Tracks(View(k, id))
  {
    var tr: seq<Link> :| LinkRun(tr) && tr[|tr| - 1] == k;
    RunTracks(tr, |tr| - 1, id);
  }

  /** Order on the wire, over a whole run: the log is what was sent, oldest first, and what
      is in flight is its end. No `Push` and no second `Finish` follows a `Finish`; a
      stream is finished by one `Finish` or one `Reset` for its drop, not both; and the
      first thing an acceptor says on its stream is the `Acknowledge` of the handshake. */
  lemma FramesKeepOrder(k: Link, id: U32)
    requires Reachable(k)
    ensures Tracks(View(k, id))
    ensures var s := View(k, id).left;
      && (s.hist.use == ForStream ==>
            NothingAfterFinish(s.hist.log) && Finishes(s.hist.log) + s.hist.dropResets <= 1)
      && (s.hist.accepted ==> Body(s.hist.log) != [] && Body(s.hist.log)[0] == Acknowledge(s.cfg.rwnd))
  {
    ReachableTracks(k, id);
    ReachableInv(k);
    LogLane(View(k, id));
  }

  lemma LogLane(l: Lane)
    requires Inv(l)
    ensures var s := l.left;
      && (s.hist.use == ForStream ==>
            NothingAfterFinish(s.hist.log) && Finishes(s.hist.log) + s.hist.dropResets <= 1)
      && (s.hist.accepted ==> Body(s.hist.log) != [] && Body(s.hist.log)[0] == Acknowledge(s.cfg.rwnd))
  {
    if l.left.hist.use == ForStream { FinishEndsMeans(l.left.hist.log); }
  }

  // ---- Bind ----

  lemma BoundLane(l: Lane)
    requires Inv(l) && l.left.hist.use == ForBind
    ensures BindLane(l)
  {
  }

  /** A `Bind` gets one result, and it is the acceptor's first reply, however many replies
      follow (dropping the request always sends one more). */
  lemma BindGetsFirstReply(k: Link, id: U32)
    requires Reachable(k) && SideOf(k.left, id).hist.use == ForBind
    ensures var l := View(k, id);
      if l.left.slot == BindRequested then l.left.hist.bindAnswers == []
      else l.right.hist.replies != [] && l.left.hist.bindAnswers == [l.right.hist.replies[0]]
  {
    ReachableInv(k);
    BoundLane(View(k, id));
  }

  lemma ConsentLane(l: Lane)
    requires Inv(l) && !l.right.cfg.acceptsBind
    ensures l.right.requests == [] && (l.right.hist.replies == [] || l.right.hist.replies == [false])
  {
    if Handshaking(l) { NothingBefore(l); }
  }

  /** A peer that does not accept binds never has a request with its user, answers no, and
      so the requester hears no. */
  lemma BindNeedsConsent(k: Link, id: U32)
    requires Reachable(k) && !k.right.cfg.acceptsBind
    ensures var l := View(k, id);
      && l.right.requests == [] && (l.right.hist.replies == [] || l.right.hist.replies == [false])
      && (l.left.hist.use == ForBind && l.left.slot != BindRequested ==> l.left.hist.bindAnswers == [false])
  {
    ReachableInv(k);
    ConsentLane(View(k, id));
    if SideOf(k.left, id).hist.use == ForBind { BindGetsFirstReply(k, id); }
  }

  /** Replies after the first change no slot and no answer at the requester, and the
      `Reset` that dropping the request sends makes it say nothing. */
  lemma LaterRepliesAreInert(k: Link)
    requires Reachable(k) && k.rl != [] && !k.rl[0].payload.Datagram?
    requires var s := SideOf(k.left, k.rl[0].id); s.hist.use == ForBind && s.slot == Absent
    ensures var k' := MoveLink(k, NextFrame); var id := k.rl[0].id;
      && SideOf(k'.left, id) == SideOf(k.left, id).(hist := SideOf(k'.left, id).hist)
      && SideOf(k'.left, id).hist.bindAnswers == SideOf(k.left, id).hist.bindAnswers
      && SideOf(k'.right, id) == SideOf(k.right, id)
      && (k.rl[0].payload.Reset? ==> k'.lr == k.lr && SideOf(k'.left, id) == SideOf(k.left, id))
  {
    ReachableInv(k);
    var l := View(k, k.rl[0].id);
    BoundLane(l);
    assert l.rl[0] in l.rl;
    assert k.lr + Tag(k.rl[0].id, []) == k.lr;
  }
}
