/** A writer whose peer has given up its slot. Data for a slot that is gone draws a `Reset`,
    and the `Reset` ends the writer; but a peer that shut down before it dropped its stream
    goes without one, and then the writer learns of it only if it has something to send. */
module Parting {
  import opened Frames
  import opened Peer
  import opened Lanes
  import opened Invariant
  import opened Preservation
  import opened Links
  import opened Theorems
  import opened Progress
  import opened Ledger

  // ---- A `Reset` on its way arrives ----

  /** The left side has lost its slot, or a `Reset` for it is in flight. */
  predicate Doomed(l: Lane) { l.left.slot == Absent || Resets(l.rl) > 0 }

  lemma ServiceKeepsOpened(l: Lane, m: Move)
    requires Opened(l) && Service(l.left, m) && CanAdvance(l, m)
    ensures Opened(Advance(l, m))
  {
    if m.Deliver? { OpenedDeliver(l); } else { OpenedDo(l, m.action); }
  }

  /** What serving a side can do to its slot, and the frames it puts on the wire. */
  lemma ServiceKeepsGone(s: Side, a: Action)
    requires Enabled(s, a) && Service(s, Do(a)) && s.slot == Absent
    ensures Perform(s, a).side.slot == Absent
  {
  }

  lemma ReceiveKeepsGone(s: Side, x: Payload)
    requires s.slot == Absent && !x.Connect?
    ensures Receive(s, x).side.slot == Absent
  {
  }

  lemma DoomedByLeft(l: Lane, m: Move)
    requires Opened(l) && Doomed(l) && Service(l.left, m) && CanAdvance(l, m)
    ensures Opened(Advance(l, m)) && Doomed(Advance(l, m))
  {
    ServiceKeepsOpened(l, m);
    if m.Deliver? {
      HeadIsOrdinary(l);
      if l.left.slot == Absent { ReceiveKeepsGone(l.left, l.rl[0]); }
    } else if l.left.slot == Absent {
      ServiceKeepsGone(l.left, m.action);
    }
  }

  lemma DoomedByRight(l: Lane, m: Move)
    requires Opened(l) && Doomed(l) && Service(l.right, m) && CanAdvance(Swap(l), m)
    ensures var l' := Swap(Advance(Swap(l), m)); Opened(l') && Doomed(l')
  {
    OpenedSwap(l);
    ServiceKeepsOpened(Swap(l), m);
    OpenedSwap(Advance(Swap(l), m));
    ResetsGrow(l.rl, if m.Deliver? then Receive(l.right, l.lr[0]).emit else Perform(l.right, m.action).emit);
  }

  lemma DoomedStep(l: Lane, l': Lane)
    requires Opened(l) && Doomed(l) && ServiceStep(l, l')
    ensures Opened(l') && Doomed(l')
  {
    if m: Move :| Service(l.left, m) && CanAdvance(l, m) && l' == Advance(l, m) {
      DoomedByLeft(l, m);
    } else {
      var m: Move :| Service(l.right, m) && CanAdvance(Swap(l), m) && l' == Swap(Advance(Swap(l), m));
      DoomedByRight(l, m);
    }
  }

  lemma {:induction false} ResetsGrow(c: seq<Payload>, d: seq<Payload>)
    ensures Resets(c + d) == Resets(c) + Resets(d)
  {
    if c == [] {
      assert c + d == d;
    } else {
      assert (c + d)[1..] == c[1..] + d;
      ResetsGrow(c[1..], d);
    }
  }

  lemma {:induction false} DoomedRun(tr: seq<Lane>, i: nat)
    requires ServiceRun(tr) && Opened(tr[0]) && Doomed(tr[0]) && i < |tr|
    ensures Opened(tr[i]) && Doomed(tr[i])
  {
    if i > 0 {
      DoomedRun(tr, i - 1);
      assert ServiceStep(tr[i - 1], tr[(i - 1) + 1]);
      DoomedStep(tr[i - 1], tr[i]);
    }
  }

  /** A writer has lost its slot, and its writes fail. */
  predicate Ended(s: Side) { s.slot == Absent && s.stream.finishSent && !s.stream.readOpen }

  /** Whoever a `Reset` is in flight for is ended by the time everything is served. */
  lemma ResetEndsWriter(tr: seq<Lane>)
    requires ServiceRun(tr) && Opened(tr[0]) && Doomed(tr[0]) && Exhausted(tr[|tr| - 1])
    ensures Ended(tr[|tr| - 1].left)
  {
    DoomedRun(tr, |tr| - 1);
    ExhaustedIsServed(tr[|tr| - 1]);
  }

  /** Data that finds no slot ends its writer: deliver it, serve the flow in any order until
      nothing is left, and the writer's slot is gone and its writes are broken pipes. */
  lemma LateDataEndsWriter(k: Link, tr: seq<Lane>)
    requires Reachable(k) && k.lr != [] && k.lr[0].payload.Push?
    requires SideOf(k.right, k.lr[0].id).slot == Absent
    requires var k' := SwapLink(MoveLink(SwapLink(k), NextFrame));
      ServiceRun(tr) && tr[0] == View(k', k.lr[0].id) && Exhausted(tr[|tr| - 1])
    ensures Ended(tr[|tr| - 1].left)
  {
    var id := k.lr[0].id;
    var l := View(k, id);
    ReachableInv(k);
    LinkInvSwap(k);
    SwapView(k, id);
    PushIsForAStream(Swap(l));
    FrameView(SwapLink(k), id);
    SwapView(MoveLink(SwapLink(k), NextFrame), id);
    OpenedDeliver(Swap(l));
    OpenedSwap(Advance(Swap(l), Deliver));
    AnsweredExactly(l.right, l.lr[0]);
    ResetsGrow(l.rl, [Reset]);
    ResetEndsWriter(tr);
  }

  // ---- Who is told, exactly ----

  /** The right side's slot is gone, the left side's user has its stream. */
  predicate PeerGone(l: Lane) { Opened(l) && HandleFree(l.left) && l.right.slot == Absent }

  /** The left side is told sooner or later: it has been, a `Reset` is in flight, it has sent
      something that draws one, or it has enough to read to send an `Acknowledge`. */
  predicate Told(l: Lane) {
    || Doomed(l)
    || Resets(l.lr) < |l.lr|
    || Readable(l) >= l.left.stream.threshold
  }

  /** The peer of a live stream that has lost its slot has dropped its stream. */
  lemma GoneIsDropped(l: Lane)
    requires PeerGone(l)
    ensures l.right.stream.owner == Dropped && l.left.drops == 0
    ensures l.right.stream.queue == [] && l.right.stream.buf == []
  {
  }

  /** The chunks the left side can still read before its counter is reset. */
  function Readable(l: Lane): nat {
    l.left.stream.recvdSince + |l.left.stream.queue| + |Data(l.rl)|
  }

  /** A `Push` for a live stream that has its slot moves from the wire to the queue. */
  lemma ReadableByDelivery(l: Lane)
    requires PeerGone(l) && l.rl != [] && l.left.slot == Established && !l.rl[0].Reset?
    ensures var o := Receive(l.left, l.rl[0]);
      && o.emit == [] && o.side.slot == Established && HandleFree(o.side)
      && o.side.stream.threshold == l.left.stream.threshold
      && o.side.stream.recvdSince + |o.side.stream.queue| + |Data(l.rl[1..])| == Readable(l)
  {
    HeadIsOrdinary(l);
    if l.rl[0].Push? {
      PushFits(l);
      assert Data(l.rl) == [l.rl[0].data] + Data(l.rl[1..]);
    }
  }

  lemma HandleStays(s: Side, x: Payload)
    requires HandleFree(s) && !x.Connect? && s.slot != Requested
    ensures HandleFree(Receive(s, x).side)
  {
  }

  /** Whoever is told stays so, and nobody else becomes so, when a frame arrives. */
  lemma ToldAfterDelivery(l: Lane)
    requires l.rl != [] && !l.rl[0].Connect?
    requires l.left.slot == Established && !l.rl[0].Reset? ==>
      var o := Receive(l.left, l.rl[0]);
      && o.emit == [] && o.side.slot == Established && o.side.stream.threshold == l.left.stream.threshold
      && o.side.stream.recvdSince + |o.side.stream.queue| + |Data(l.rl[1..])| == Readable(l)
    requires l.left.slot == Absent || l.left.slot == Established
    ensures Told(Advance(l, Deliver)) <==> Told(l)
  {
    assert l.lr + [] == l.lr;
    if l.left.slot == Absent { ReceiveKeepsGone(l.left, l.rl[0]); }
  }

  lemma ToldByDelivery(l: Lane)
    requires PeerGone(l) && l.rl != []
    ensures PeerGone(Advance(l, Deliver)) && (Told(Advance(l, Deliver)) <==> Told(l))
  {
    GoneAfterDelivery(l);
    HeadIsOrdinary(l);
    if l.left.slot == Established && !l.rl[0].Reset? { ReadableByDelivery(l); }
    ToldAfterDelivery(l);
  }

  lemma GoneAfterDelivery(l: Lane)
    requires PeerGone(l) && l.rl != []
    ensures PeerGone(Advance(l, Deliver))
  {
    OpenedDeliver(l);
    HeadIsOrdinary(l);
    HandleStays(l.left, l.rl[0]);
  }

  /** Taking a chunk counts it, or sends the `Acknowledge` it completes. */
  lemma FillCounts(s: Side)
    requires HandleFree(s) && s.stream.buf == [] && s.stream.queue != []
    requires s.stream.recvdSince < s.stream.threshold < TWO_32
    ensures var o := FillOn(s);
      && HandleFree(o.side) && o.side.slot == s.slot && o.side.stream.threshold == s.stream.threshold
      && if s.stream.recvdSince + 1 >= s.stream.threshold
         then |o.emit| == 1 && o.emit == [o.emit[0]] && o.emit[0].Acknowledge?
         else o.emit == [] && o.side.stream.recvdSince + |o.side.stream.queue| == s.stream.recvdSince + |s.stream.queue|
  {
    FillShape(s);
  }

  lemma ToldAfterFill(l: Lane)
    requires HandleFree(l.left) && l.left.stream.buf == [] && l.left.stream.queue != []
    requires l.left.stream.recvdSince < l.left.stream.threshold < TWO_32
    ensures Told(Advance(l, Do(FillBuf))) <==> Told(l)
  {
    FillCounts(l.left);
    var emit := FillOn(l.left).emit;
    if emit != [] { Appended(l.lr, emit[0]); } else { assert l.lr + [] == l.lr; }
  }

  lemma GoneAfterFill(l: Lane)
    requires PeerGone(l) && l.left.stream.buf == [] && l.left.stream.queue != []
    ensures PeerGone(Advance(l, Do(FillBuf)))
  {
    OpenedFill(l);
    FillCounts(l.left);
  }

  lemma ToldByFill(l: Lane)
    requires PeerGone(l) && l.left.stream.buf == [] && l.left.stream.queue != []
    ensures PeerGone(Advance(l, Do(FillBuf))) && (Told(Advance(l, Do(FillBuf))) <==> Told(l))
  {
    GoneAfterFill(l);
    ToldAfterFill(l);
  }

  lemma ConsumeShape(s: Side, amount: nat)
    requires HandleFree(s) && amount <= |s.stream.buf|
    ensures var s' := ConsumeOn(s, amount);
      && HandleFree(s') && s'.slot == s.slot && s'.stream.threshold == s.stream.threshold
      && s'.stream.recvdSince == s.stream.recvdSince && s'.stream.queue == s.stream.queue
  {
  }

  lemma ToldByConsume(l: Lane, amount: nat)
    requires PeerGone(l) && CanAdvance(l, Do(Consume(amount)))
    ensures var l' := Advance(l, Do(Consume(amount))); PeerGone(l') && (Told(l') <==> Told(l))
  {
    OpenedConsume(l, amount);
    ConsumeShape(l.left, amount);
    assert Advance(l, Do(Consume(amount))) == Lane(ConsumeOn(l.left, amount), l.right, l.lr, l.rl);
  }

  lemma ToldByLeft(l: Lane, m: Move)
    requires PeerGone(l) && Service(l.left, m) && CanAdvance(l, m)
    ensures PeerGone(Advance(l, m)) && (Told(Advance(l, m)) <==> Told(l))
  {
    GoneIsDropped(l);
    if m.Deliver? {
      ToldByDelivery(l);
    } else if m.action.FillBuf? {
      ToldByFill(l);
    } else {
      ToldByConsume(l, m.action.amount);
    }
  }

  /** Whatever a side without a slot receives, it answers with a `Reset` unless it is one. */
  lemma GoneAnswers(l: Lane)
    requires Opened(l) && l.left.slot == Absent && l.rl != []
    ensures Receive(l.left, l.rl[0]).emit == if l.rl[0].Reset? then [] else [Reset]
    ensures Receive(l.left, l.rl[0]).side.slot == Absent
  {
    HeadIsOrdinary(l);
    AnsweredExactly(l.left, l.rl[0]);
    ReceiveKeepsGone(l.left, l.rl[0]);
  }

  lemma ToldByRightDelivery(l: Lane)
    requires PeerGone(l) && l.lr != []
    ensures var l' := Swap(Advance(Swap(l), Deliver)); PeerGone(l') && (Told(l') <==> Told(l))
  {
    OpenedSwap(l);
    OpenedDeliver(Swap(l));
    OpenedSwap(Advance(Swap(l), Deliver));
    GoneAnswers(Swap(l));
    Appended(l.rl, Reset);
    assert l.rl + [] == l.rl;
  }

  /** A side that has dropped its stream and lost its slot can only process a stale drop. */
  lemma GoneCanOnlyProcess(l: Lane, a: Action)
    requires PeerGone(l) && Enabled(l.right, a)
    ensures a.ProcessDrop?
    ensures Perform(l.right, a).emit == [] && Perform(l.right, a).side.slot == Absent
  {
    GoneIsDropped(l);
  }

  lemma ToldByRight(l: Lane, m: Move)
    requires PeerGone(l) && Service(l.right, m) && CanAdvance(Swap(l), m)
    ensures var l' := Swap(Advance(Swap(l), m)); PeerGone(l') && (Told(l') <==> Told(l))
  {
    if m.Deliver? { ToldByRightDelivery(l); } else { ToldByRightDrop(l, m.action); }
  }

  lemma ToldByRightDrop(l: Lane, a: Action)
    requires PeerGone(l) && CanAdvance(Swap(l), Do(a))
    ensures var l' := Swap(Advance(Swap(l), Do(a)));
      PeerGone(l') && (Told(l') <==> Told(l)) && l'.left == l.left && l'.lr == l.lr && l'.rl == l.rl
  {
    GoneCanOnlyProcess(l, a);
    OpenedSwap(l);
    OpenedDo(Swap(l), a);
    OpenedSwap(Advance(Swap(l), Do(a)));
    assert l.rl + [] == l.rl;
  }

  lemma ToldStep(l: Lane, l': Lane)
    requires PeerGone(l) && ServiceStep(l, l')
    ensures PeerGone(l') && (Told(l') <==> Told(l))
  {
    if m: Move :| Service(l.left, m) && CanAdvance(l, m) && l' == Advance(l, m) {
      ToldByLeft(l, m);
    } else {
      var m: Move :| Service(l.right, m) && CanAdvance(Swap(l), m) && l' == Swap(Advance(Swap(l), m));
      ToldByRight(l, m);
    }
  }

  lemma {:induction false} ToldRun(tr: seq<Lane>, i: nat)
    requires ServiceRun(tr) && PeerGone(tr[0]) && i < |tr|
    ensures PeerGone(tr[i]) && (Told(tr[i]) <==> Told(tr[0]))
  {
    if i > 0 {
      ToldRun(tr, i - 1);
      assert ServiceStep(tr[i - 1], tr[(i - 1) + 1]);
      ToldStep(tr[i - 1], tr[i]);
    }
  }

  /** Serve a flow whose peer slot is gone, in any order, until nothing is left. The side that
      still has its stream has lost its slot by then if and only if it was to be told. */
  lemma ToldExactly(tr: seq<Lane>)
    requires ServiceRun(tr) && PeerGone(tr[0]) && Exhausted(tr[|tr| - 1])
    ensures Ended(tr[|tr| - 1].left) <==> Told(tr[0])
  {
    var l := tr[|tr| - 1];
    ToldRun(tr, |tr| - 1);
    ExhaustedIsServed(l);
  }

  // ---- Writers left for ever ----

  /** Nothing in flight, and the writer has not heard that its reader is gone. */
  predicate Abandoned(l: Lane) {
    PeerGone(l) && l.left.slot == Established && !l.left.stream.finishSent && l.lr == [] && l.rl == []
  }

  /** The writer has no credit, and not enough to read for an `Acknowledge`. */
  predicate Stranded(l: Lane) {
    Abandoned(l) && l.left.stream.credit == 0 && !Told(l)
  }

  /** An abandoned writer has no credit if and only if the chunks its reader left unread and
      those it had not acknowledged are the reader's whole window. With credit its next
      write draws a `Reset`; without, only reading can tell it. */
  lemma AbandonedExactly(k: Link, id: U32)
    requires Reachable(k) && Abandoned(View(k, id))
    ensures var l := View(k, id);
      && l.right.hist.taken <= l.left.hist.written
      && (Stranded(l) <==>
            && |l.left.hist.written| - |l.right.hist.taken| + l.right.stream.recvdSince == l.right.cfg.rwnd
            && l.left.stream.recvdSince + |l.left.stream.queue| < l.left.stream.threshold)
  {
    BooksBalance(k, id);
    ReachableInv(k);
    DeliveryLane(View(k, id));
  }

  lemma NextWriteTells(l: Lane, data: Bytes)
    requires Abandoned(l) && l.left.stream.credit > 0
    ensures var l1 := Advance(l, Do(BeginWrite(data)));
      && CanAdvance(l1, Do(EmitPending))
      && var l2 := Advance(l1, Do(EmitPending)); PeerGone(l2) && Told(l2) && l2.lr == [Push(data)]
  {
    var l1 := Advance(l, Do(BeginWrite(data)));
    OpenedBeginWrite(l, data);
    assert l1.lr == [];
    OpenedEmit(l1);
  }

  /** A stranded writer stays so, whatever the peer does and whatever its own user does short
      of giving up the stream. */
  lemma StrandedForever(l: Lane, m: Move)
    requires Stranded(l) && CanAdvance(l, m) && m != Do(BeginShutdown) && m != Do(DropStream)
    ensures Stranded(Advance(l, m))
  {
    GoneIsDropped(l);
    if m.Do? {
      StrandedActs(l.left, m.action);
      if m.action.BeginWrite? {
        assert Advance(l, m) == l;
      } else if m.action.FillBuf? {
        if l.left.stream.buf == [] && l.left.stream.queue != [] {
          ToldByFill(l);
          FillCounts(l.left);
        } else {
          assert Advance(l, m) == l;
        }
      } else {
        ToldByConsume(l, m.action.amount);
      }
    }
  }

  /** What the user of an open stream can do short of giving it up. */
  lemma StrandedActs(s: Side, a: Action)
    requires StreamOk(s) && HandleFree(s) && Enabled(s, a) && !a.BeginShutdown? && !a.DropStream?
    ensures a.BeginWrite? || a.FillBuf? || a.Consume?
  {
  }

  lemma StrandedByPeer(l: Lane, m: Move)
    requires Stranded(l) && CanAdvance(Swap(l), m)
    ensures Stranded(Swap(Advance(Swap(l), m)))
  {
    if m.Do? { ToldByRightDrop(l, m.action); }
  }

  // ---- It happens ----

  /** `n` chunks written and delivered, none read. */
  predicate Unread(l: Lane, n: nat) {
    && n <= l.right.cfg.rwnd
    && l.left.slot == Established
    && l.left.stream == NewStream(l.left, l.right.cfg.rwnd, NOWHERE).stream.(owner := User, credit := l.right.cfg.rwnd - n)
    && l.right.slot == Established && HandleFree(l.right) && l.right.stream.readOpen && !l.right.stream.finishSent
    && |l.right.stream.queue| == n && l.right.stream.recvdSince == 0
    && l.lr == [] && l.rl == []
  }

  lemma Opened0(left: Config, right: Config, id: U32) returns (k: Link)
    requires left.Valid() && right.Valid() && id != 0
    ensures Reachable(k) && Solo(k, id) && k.left.cfg == left && k.right.cfg == right && Unread(View(k, id), 0)
  {
    k := Offering(left, right, id);
    k := Lift(k, id, Deliver);
    k := Lift(k, id, Do(Take));
  }

  lemma UnreadMore(k: Link, id: U32, n: nat) returns (k': Link)
    requires Reachable(k) && Solo(k, id) && Unread(View(k, id), n) && n < View(k, id).right.cfg.rwnd
    ensures Reachable(k') && Solo(k', id) && k'.left.cfg == k.left.cfg && k'.right.cfg == k.right.cfg
    ensures Unread(View(k', id), n + 1)
  {
    k' := WriteOne(k, id, [0]);
    k' := LiftRight(k', id, Deliver);
  }

  lemma {:induction false} UnreadWindow(left: Config, right: Config, id: U32, n: nat) returns (k: Link)
    requires left.Valid() && right.Valid() && id != 0 && n <= right.rwnd
    ensures Reachable(k) && Solo(k, id) && k.left.cfg == left && k.right.cfg == right && Unread(View(k, id), n)
  {
    if n == 0 {
      k := Opened0(left, right, id);
    } else {
      k := UnreadWindow(left, right, id, n - 1);
      ReachableInv(k);
      k := UnreadMore(k, id, n - 1);
    }
  }

  lemma FinishShape(s: Side)
    requires HandleFree(s) && !s.stream.finishSent
    ensures var s1 := BeginShutdownOn(s);
      && Enabled(s1, EmitPending)
      && var o := Perform(s1, EmitPending);
         && o.emit == [Finish] && o.side.slot == s.slot && o.side.cfg == s.cfg
         && HandleFree(o.side) && o.side.stream.finishSent
  {
  }

  /** The right side shuts down. */
  lemma RightFinishes(k: Link, id: U32) returns (k': Link)
    requires Reachable(k) && Solo(k, id)
    requires var s := View(k, id).right; HandleFree(s) && !s.stream.finishSent
    ensures Reachable(k') && Solo(k', id) && k'.left.cfg == k.left.cfg && k'.right.cfg == k.right.cfg
    ensures var l, l' := View(k, id), View(k', id);
      && l'.left == l.left && l'.lr == l.lr && l'.rl == l.rl + [Finish]
      && l'.right.slot == l.right.slot && HandleFree(l'.right) && l'.right.stream.finishSent
  {
    var s := View(k, id).right;
    FinishShape(s);
    k' := LiftRight(k, id, Do(BeginShutdown));
    assert View(k', id).rl == View(k, id).rl && View(k', id).right == BeginShutdownOn(s);
    k' := LiftRight(k', id, Do(EmitPending));
  }

  /** The reader shuts down, and its `Finish` arrives. */
  lemma ReaderFinishes(k: Link, id: U32, n: nat) returns (k': Link)
    requires Reachable(k) && Solo(k, id) && Unread(View(k, id), n)
    ensures Reachable(k') && Solo(k', id) && k'.left.cfg == k.left.cfg && k'.right.cfg == k.right.cfg
    ensures var l, l' := View(k, id), View(k', id);
      && l'.left == l.left.(stream := l.left.stream.(readOpen := false))
      && l'.right.slot == Established && HandleFree(l'.right) && l'.right.stream.finishSent
      && l'.lr == [] && l'.rl == []
  {
    k' := RightFinishes(k, id);
    assert View(k', id).rl == [Finish];
    k' := Lift(k', id, Deliver);
  }

  /** The left side's user drops the only stream. */
  lemma LeftDrops(k: Link, id: U32) returns (k': Link)
    requires Reachable(k) && CanMove(k, Act(id, DropStream)) && k.left.drops == []
    ensures Reachable(k') && k'.left.cfg == k.left.cfg && k'.right.cfg == k.right.cfg
    ensures k'.left.drops == [id] && View(k', id) == Advance(View(k, id), Do(DropStream))
  {
    k' := MoveLink(k, Act(id, DropStream));
    ReachableStep(k, k');
    InvAt(k, id);
    ActView(k, id, DropStream, id);
  }

  lemma InvAt(k: Link, id: U32)
    requires Reachable(k)
    ensures Inv(View(k, id))
  {
    ReachableInv(k);
  }

  lemma LeftProcessesDrop(k: Link, id: U32) returns (k': Link)
    requires Reachable(k) && id != 0 && k.left.drops == [id]
    ensures Reachable(k') && k'.left.cfg == k.left.cfg && k'.right.cfg == k.right.cfg
    ensures CanAdvance(View(k, id), Do(ProcessDrop)) && View(k', id) == Advance(View(k, id), Do(ProcessDrop))
  {
    DropView(k, id);
    k' := MoveLink(k, NextDrop);
    ReachableStep(k, k');
  }

  /** A stream that was shut down leaves without a word. */
  lemma LeavesSilently(l: Lane)
    requires l.left.slot == Established && HandleFree(l.left) && l.left.stream.finishSent
    ensures CanAdvance(l, Do(DropStream))
    ensures var l1 := Advance(l, Do(DropStream));
      && CanAdvance(l1, Do(ProcessDrop))
      && var l2 := Advance(l1, Do(ProcessDrop));
         && l2.right == l.right && l2.left.slot == Absent && l2.left.stream.owner == Dropped
         && l2.lr == l.lr && l2.rl == l.rl
  {
    assert l.lr + [] == l.lr;
  }

  lemma LeftLeaves(k: Link, id: U32) returns (k': Link)
    requires Reachable(k) && Solo(k, id)
    requires var s := View(k, id).left; s.slot == Established && HandleFree(s) && s.stream.finishSent
    ensures Reachable(k') && k'.left.cfg == k.left.cfg && k'.right.cfg == k.right.cfg
    ensures var l, l' := View(k, id), View(k', id);
      && l'.right == l.right && l'.left.slot == Absent && l'.left.stream.owner == Dropped
      && l'.lr == l.lr && l'.rl == l.rl
  {
    LeavesSilently(View(k, id));
    k' := LeftDrops(k, id);
    k' := LeftProcessesDrop(k', id);
  }

  lemma RightLeaves(k: Link, id: U32) returns (k': Link)
    requires Reachable(k) && Solo(k, id)
    requires var s := View(k, id).right; s.slot == Established && HandleFree(s) && s.stream.finishSent
    ensures Reachable(k') && k'.left.cfg == k.left.cfg && k'.right.cfg == k.right.cfg
    ensures var l, l' := View(k, id), View(k', id);
      && l'.left == l.left && l'.right.slot == Absent && l'.right.stream.owner == Dropped
      && l'.lr == l.lr && l'.rl == l.rl
  {
    ReachableSwap(k);
    SwapView(k, id);
    var r := LeftLeaves(SwapLink(k), id);
    ReachableSwap(r);
    SwapView(r, id);
    k' := SwapLink(r);
  }

  /** With any configurations, a writer can be stranded: its reader shuts down and drops the
      stream with its whole window unread. */
  lemma UnreadWindowStrands(left: Config, right: Config, id: U32) returns (k: Link)
    requires left.Valid() && right.Valid() && id != 0
    ensures Reachable(k) && k.left.cfg == left && k.right.cfg == right && Stranded(View(k, id))
  {
    k := UnreadWindow(left, right, id, right.rwnd);
    ReachableInv(k);
    k := ReaderFinishes(k, id, right.rwnd);
    k := RightLeaves(k, id);
    ReachableInv(k);
    BothMade(View(k, id));
  }
}
