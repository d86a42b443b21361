/** The writer's books. While a writer has its slot, the credit it was ever given is its
    peer's window and what the peer has acknowledged since, and every unit of it is unspent,
    about to be spent, or the price of a chunk written. This is exact even after the reader
    has dropped its stream, where the sum of what is under way says nothing any more. */
module Ledger {
  import opened Frames
  import opened Peer
  import opened Lanes
  import opened Invariant
  import opened Preservation
  import opened Links
  import opened Theorems

  /** What a side has acknowledged, not counting the `Acknowledge` of the handshake. */
  function Acknowledged(s: Side): int {
    AckSum(s.hist.log) - (if s.hist.accepted then s.cfg.rwnd else 0)
  }

  /** Credit a side has, holds for a frame about to be queued, or has spent. */
  function Granted(s: Side): nat { s.stream.credit + PendingPush(s) + |s.hist.written| }

  /** The writer `s` has been granted what the reader `t` gave, but for what is in flight. */
  predicate GrantOk(s: Side, t: Side, d: seq<Payload>) {
    s.slot == Established ==> Granted(s) + AckSum(d) == t.cfg.rwnd + Acknowledged(t)
  }

  /** A reader has acknowledged each chunk it took, or counts it. */
  predicate CountOk(s: Side) { |s.hist.taken| == Acknowledged(s) + s.stream.recvdSince }

  predicate Balanced(l: Lane) {
    GrantOk(l.left, l.right, l.rl) && GrantOk(l.right, l.left, l.lr) && CountOk(l.left) && CountOk(l.right)
  }

  /** The books are balanced once a stream exists at both ends, or will when the `Acknowledge`
      of the handshake arrives. */
  predicate Books(l: Lane) {
    && (Opened(l) ==> Balanced(l))
    && (Accepted(l) ==> Balanced(Answered(l)))
    && (Accepted(Swap(l)) ==> Balanced(Answered(Swap(l))))
  }

  // ---- One step of one side ----

  /** The books of a side after an action. */
  ghost predicate ActKeepsBooks(s: Side, o: Out) {
    && |o.emit| <= 1 && (o.side.slot == Established ==> s.slot == Established)
    && o.side.cfg == s.cfg && o.side.hist.accepted == s.hist.accepted
    && Granted(o.side) == Granted(s)
    && Acknowledged(o.side) == Acknowledged(s) + AckSum(o.emit)
    && |o.side.hist.taken| - o.side.stream.recvdSince == |s.hist.taken| - s.stream.recvdSince + AckSum(o.emit)
  }

  lemma CountBalances(s: Side)
    requires s.stream.recvdSince < TWO_32
    ensures var ack := Acknowledge(s.stream.recvdSince);
      Acknowledged(Send(s.(stream := s.stream.(recvdSince := 0)), ack).side) == Acknowledged(s) + ack.count
  {
    Appended(s.hist.log, Acknowledge(s.stream.recvdSince));
  }

  lemma FillBalances(s: Side)
    requires StreamOk(s) && s.stream.threshold < TWO_32
    ensures ActKeepsBooks(s, FillOn(s))
  {
    if s.stream.buf == [] && s.stream.queue != [] {
      FillShape(s);
      CountBalances(Took(s));
    }
  }

  lemma EmitBalances(s: Side)
    requires StreamOk(s) && s.stream.pending != None
    ensures ActKeepsBooks(s, EmitOn(s))
  {
    Appended(s.hist.log, s.stream.pending.value);
  }

  lemma DropBalances(s: Side)
    requires StreamOk(s) && s.drops > 0
    ensures ActKeepsBooks(s, ProcessDropOn(s))
  {
    Appended(s.hist.log, Reset);
  }

  /** Everything else a stream's user can do leaves the books alone or moves a unit of
      credit to the frame about to be queued. */
  lemma OtherActBalances(s: Side, a: Action)
    requires Enabled(s, a) && StreamOk(s) && !a.FillBuf? && !a.EmitPending? && !a.ProcessDrop?
    ensures ActKeepsBooks(s, Perform(s, a))
  {
    var o := Perform(s, a);
    assert o.emit == [] && o.side.hist.log == s.hist.log && o.side.hist.taken == s.hist.taken;
    assert o.side.hist.written == s.hist.written && o.side.stream.recvdSince == s.stream.recvdSince;
  }

  lemma ActBalances(s: Side, a: Action)
    requires Enabled(s, a) && StreamOk(s) && s.stream.threshold < TWO_32
    ensures ActKeepsBooks(s, Perform(s, a))
  {
    match a
    case FillBuf => FillBalances(s);
    case EmitPending => EmitBalances(s);
    case ProcessDrop => DropBalances(s);
    case _ => OtherActBalances(s, a);
  }

  lemma AckSumGrows(c: seq<Payload>, emit: seq<Payload>)
    requires |emit| <= 1
    ensures AckSum(c + emit) == AckSum(c) + AckSum(emit)
  {
    if emit == [] { assert c + emit == c; } else {
      assert emit == [emit[0]];
      Appended(c, emit[0]);
    }
  }

  lemma OpenedDoBalances(l: Lane, a: Action)
    requires Opened(l) && Balanced(l) && CanAdvance(l, Do(a))
    ensures Balanced(Advance(l, Do(a)))
  {
    ActBalances(l.left, a);
    AckSumGrows(l.lr, Perform(l.left, a).emit);
  }

  /** Receiving moves credit from the wire to the writer and changes nothing else. */
  lemma ReceiveBalances(s: Side, x: Payload)
    requires StreamOk(s) && (x.Push? || x.Acknowledge? || x.Finish? || x.Reset?)
    requires x.Acknowledge? && s.slot == Established ==> s.stream.credit + x.count < TWO_32
    requires x.Push? ==> !QueueFull(s)
    ensures var o := Receive(s, x);
      && |o.emit| <= 1 && AckSum(o.emit) == 0 && (o.side.slot == Established ==> s.slot == Established)
      && o.side.cfg == s.cfg && o.side.hist.accepted == s.hist.accepted
      && (o.side.slot == Established ==> Granted(o.side) == Granted(s) + (if x.Acknowledge? then x.count else 0))
      && Acknowledged(o.side) == Acknowledged(s)
      && o.side.hist.taken == s.hist.taken && o.side.stream.recvdSince == s.stream.recvdSince
  {
    Appended(s.hist.log, Reset);
  }

  lemma HeadIsOrdinary(l: Lane)
    requires Opened(l) && l.rl != []
    ensures var x := l.rl[0]; x.Push? || x.Acknowledge? || x.Finish? || x.Reset?
    ensures AckSum(l.rl) == (if l.rl[0].Acknowledge? then l.rl[0].count else 0) + AckSum(l.rl[1..])
  {
  }

  lemma OpenedDeliverBalances(l: Lane)
    requires Opened(l) && Balanced(l) && l.rl != []
    ensures Balanced(Advance(l, Deliver))
  {
    HeadIsOrdinary(l);
    if l.rl[0].Push? { PushFits(l); }
    if l.rl[0].Acknowledge? && l.left.slot == Established { AcknowledgeFits(l); }
    ReceiveBalances(l.left, l.rl[0]);
    AckSumGrows(l.lr, Receive(l.left, l.rl[0]).emit);
  }

  // ---- The handshake ----

  lemma {:induction false} NoBodyNoAcks(c: seq<Payload>)
    requires Body(c) == []
    ensures AckSum(c) == 0
  {
    if c != [] { NoBodyNoAcks(c[1..]); }
  }

  /** No stream yet at either side is no stream open or accepted. */
  lemma NotYet(l: Lane)
    requires Handshaking(l) || BindLane(l) || BindLane(Swap(l))
    ensures !Opened(l) && !Accepted(l) && !Accepted(Swap(l))
  {
    NothingBefore(l);
  }

  lemma AcceptBalances(l: Lane)
    requires HandshakeOffer(Swap(l)) && (New(l.left) || Refused(l.left))
    ensures Balanced(Answered(Swap(Advance(l, Deliver))))
  {
    var s, t := l.left, l.right;
    NoBodyNoAcks(s.hist.log);
    NoBodyNoAcks(t.hist.log);
    Appended(s.hist.log, Acknowledge(s.cfg.rwnd));
    assert Advance(l, Deliver).lr == [Acknowledge(s.cfg.rwnd)];
    assert Advance(l, Deliver).lr[1..] == [];
  }

  // ---- Any step, any run ----

  /** The stages of a flow exclude each other. */
  lemma OneStage(l: Lane)
    ensures Opened(l) ==> !Accepted(l) && !Accepted(Swap(l))
    ensures Accepted(l) ==> !Accepted(Swap(l))
  {
  }

  lemma BalancedSwap(l: Lane)
    requires Balanced(l)
    ensures Balanced(Swap(l))
  {
  }

  lemma AcceptorBalances(l: Lane, a: Action)
    requires Accepted(Swap(l)) && Balanced(Answered(Swap(l))) && CanAdvance(l, Do(a))
    ensures Balanced(Answered(Swap(Advance(l, Do(a)))))
  {
    var v := Swap(Answered(Swap(l)));
    OpenedSwap(Answered(Swap(l)));
    BalancedSwap(Answered(Swap(l)));
    assert CanAdvance(v, Do(a));
    OpenedDoBalances(v, a);
    ActingCommutes(l, a);
    BalancedSwap(Advance(v, Do(a)));
  }

  lemma DoKeepsBooks(l: Lane, a: Action)
    requires Inv(l) && Books(l) && CanAdvance(l, Do(a))
    ensures Books(Advance(l, Do(a)))
  {
    var l' := Advance(l, Do(a));
    OneStage(l');
    if Handshaking(l) {
      HandshakeDoes(l, a);
      NotYet(l');
    } else if Accepted(l) {
      AskingOnlyReceives(l.left, a);
    } else if Accepted(Swap(l)) {
      AcceptorActs(l, a);
      AcceptorBalances(l, a);
      OneStage(Swap(l'));
    } else if Opened(l) {
      OpenedDo(l, a);
      OpenedDoBalances(l, a);
    } else if BindLane(l) {
      BindRequesterActs(l, a);
      NotYet(l');
    } else {
      BindReceiverActs(l, a);
      NotYet(l');
    }
  }

  lemma HandshakeKeepsBooks(l: Lane)
    requires Handshaking(l) && l.rl != []
    ensures Books(Advance(l, Deliver))
  {
    var l' := Advance(l, Deliver);
    if l.rl[0].Reset? {
      RefusalArrives(l);
      NotYet(l');
    } else if Inserted(l.left) || Asking(l.left) {
      RejectConnect(l);
      NotYet(l');
    } else {
      AcceptConnect(l);
      AcceptBalances(l);
      OneStage(Swap(l'));
      OneStage(l');
    }
  }

  lemma DeliverKeepsBooks(l: Lane)
    requires Inv(l) && Books(l) && l.rl != []
    ensures Books(Advance(l, Deliver))
  {
    var l' := Advance(l, Deliver);
    if Handshaking(l) {
      HandshakeKeepsBooks(l);
    } else if Accepted(l) {
      AnswerArrives(l);
      OneStage(l');
    } else if Accepted(Swap(l)) {
      assert false;
    } else if Opened(l) {
      OpenedDeliver(l);
      OpenedDeliverBalances(l);
      OneStage(l');
    } else if BindLane(l) {
      BindReplyArrives(l);
      NotYet(l');
    } else {
      BindReceiverReceives(l);
      NotYet(l');
    }
  }

  lemma AdvanceKeepsBooks(l: Lane, m: Move)
    requires Inv(l) && Books(l) && CanAdvance(l, m)
    ensures Books(Advance(l, m))
  {
    match m
    case Do(a) => DoKeepsBooks(l, a);
    case Deliver => DeliverKeepsBooks(l);
    case Recycle =>
      ConfigsValid(l);
      StartHolds(l.left.cfg, l.right.cfg);
      assert HandshakeQuiet(Start(l.left.cfg, l.right.cfg));
      NotYet(Start(l.left.cfg, l.right.cfg));
  }

  lemma BooksSwap(l: Lane)
    requires Books(l)
    ensures Books(Swap(l))
  {
    assert Swap(Swap(l)) == l;
    if Opened(Swap(l)) { OpenedSwap(Swap(l)); }
  }

  lemma StepKeepsBooks(l: Lane, l': Lane)
    requires Inv(l) && Books(l) && Step(l, l')
    ensures Books(l')
  {
    if m: Move :| CanAdvance(l, m) && l' == Advance(l, m) {
      AdvanceKeepsBooks(l, m);
    } else {
      var m: Move :| CanAdvance(Swap(l), m) && l' == Swap(Advance(Swap(l), m));
      InvSwap(l);
      BooksSwap(l);
      AdvanceKeepsBooks(Swap(l), m);
      BooksSwap(Advance(Swap(l), m));
    }
  }

  lemma LinkStepKeepsBooks(k: Link, k': Link, id: U32)
    requires LinkInv(k) && LinkStep(k, k') && Books(View(k, id))
    ensures Books(View(k', id))
  {
    LinkStepView(k, k', id);
    if View(k', id) != View(k, id) { StepKeepsBooks(View(k, id), View(k', id)); }
  }

  lemma StartBooks(left: Config, right: Config, id: U32)
    requires left.Valid() && right.Valid()
    ensures Books(View(StartLink(left, right), id))
  {
    assert View(StartLink(left, right), id) == Start(left, right);
    assert HandshakeQuiet(Start(left, right));
    NotYet(Start(left, right));
  }

  /** The books of one flow along a run. */
  ghost predicate BooksAt(tr: seq<Link>, i: nat, id: U32) { i < |tr| && Books(View(tr[i], id)) }

  lemma FirstBooks(tr: seq<Link>, id: U32)
    requires LinkRun(tr)
    ensures BooksAt(tr, 0, id)
  {
    var left: Config, right: Config :| left.Valid() && right.Valid() && tr[0] == StartLink(left, right);
    StartBooks(left, right, id);
  }

  lemma NextBooks(tr: seq<Link>, i: nat, id: U32)
    requires LinkRun(tr) && i + 1 < |tr| && BooksAt(tr, i, id)
    ensures BooksAt(tr, i + 1, id)
  {
    RunKeeps(tr, i);
    LinkStepKeepsBooks(tr[i], tr[i + 1], id);
  }

  lemma {:induction false} RunKeepsBooks(tr: seq<Link>, i: nat, id: U32)
    requires LinkRun(tr) && i < |tr|
    ensures BooksAt(tr, i, id)
  {
    if i == 0 {
      FirstBooks(tr, id);
    } else {
      var j := i - 1;
      RunKeepsBooks(tr, j, id);
      NextBooks(tr, j, id);
    }
  }

  lemma ReachableBooks(k: Link, id: U32)
    requires Reachable(k)
    ensures Books(View(k, id))
  {
    var tr: seq<Link> :| LinkRun(tr) && tr[|tr| - 1] == k;
    RunKeepsBooks(tr, |tr| - 1, id);
  }

  /** A lane with a stream at both ends is open. */
  lemma BothMade(l: Lane)
    requires Inv(l) && l.left.stream.owner != Nobody && l.right.stream.owner != Nobody
    ensures Opened(l)
  {
    if Handshaking(l) || BindLane(l) || BindLane(Swap(l)) { NothingBefore(l); }
  }

  /** The writer's books balance in every reachable state in which it has its slot, whatever
      has become of the reader: credit, permission and chunks written together are the
      reader's window, the chunks the reader has taken, less those it has not acknowledged
      yet and the acknowledgements in flight. */
  lemma BooksBalance(k: Link, id: U32)
    requires Reachable(k)
    ensures var l := View(k, id);
      l.left.slot == Established && l.left.stream.owner != Nobody && l.right.stream.owner != Nobody ==>
        l.left.stream.credit + PendingPush(l.left) + |l.left.hist.written| + AckSum(l.rl)
        == l.right.cfg.rwnd + |l.right.hist.taken| - l.right.stream.recvdSince
  {
    ReachableInv(k);
    ReachableBooks(k, id);
    var l := View(k, id);
    if l.left.stream.owner != Nobody && l.right.stream.owner != Nobody { BothMade(l); }
  }
}
