/** What happens without further requests: deliveries and drops die out, and a writer
    without credit gets some, exactly when the windows and thresholds fit. */
module Progress {
  import opened Frames
  import opened Peer
  import opened Lanes
  import opened Invariant
  import opened Preservation
  import opened Links
  import opened Theorems

  // ---- No reset storm: any state, any well-formed frames ----

  /** Enough to pay for whatever answering the frame can cause. */
  function Weight(x: Payload): nat {
    match x
    case Connect(_, _, _) => 3
    case Bind(_, _, _) => 2
    case Acknowledge(_) => 2
    case Finish => 2
    case Push(_) => 2
    case Reset => 1
    case Datagram(_, _, _) => 1
  }

  function Weights(c: seq<Frame>): nat {
    if c == [] then 0 else Weight(c[0].payload) + Weights(c[1..])
  }

  function Load(k: Link): nat {
    Weights(k.lr) + Weights(k.rl) + 2 * |k.left.drops| + 2 * |k.right.drops|
  }

  lemma {:induction false} WeightsConcat(a: seq<Frame>, b: seq<Frame>)
    ensures Weights(a + b) == Weights(a) + Weights(b)
  {
    if a == [] {
      assert a + b == b;
    } else {
      assert (a + b)[1..] == a[1..] + b;
      WeightsConcat(a[1..], b);
    }
  }

  /** A frame is answered with less than its own weight, a drop with less than two. */
  lemma AnswersWeighLess(s: Side, x: Payload, id: U32)
    ensures Weights(Tag(id, Receive(s, x).emit)) < Weight(x)
  {
    var t := Tag(id, Receive(s, x).emit);
    assert |t| <= 1;
    assert t != [] ==> t[1..] == [];
  }

  lemma DropsWeighLess(s: Side, id: U32)
    requires s.drops > 0
    ensures Weights(Tag(id, Perform(s, ProcessDrop).emit)) <= 1
  {
    var t := Tag(id, Perform(s, ProcessDrop).emit);
    assert |t| <= 1;
    assert t != [] ==> t[1..] == [] && t[0].payload == Reset;
  }

  /** The moves of the mux task itself. */
  predicate Housekeeping(m: LinkMove) { m == NextDrop || m == NextFrame }

  lemma HousekeepingSheds(k: Link, m: LinkMove)
    requires Housekeeping(m) && CanMove(k, m)
    ensures Load(MoveLink(k, m)) < Load(k)
  {
    if m == NextDrop {
      var id := k.left.drops[0];
      DropHead(k);
      DropsWeighLess(SideOf(k.left, id), id);
      WeightsConcat(k.lr, Tag(id, Perform(SideOf(k.left, id), ProcessDrop).emit));
    } else {
      var f := k.rl[0];
      AnswersWeighLess(SideOf(k.left, f.id), f.payload, f.id);
      WeightsConcat(k.lr, Tag(f.id, Receive(SideOf(k.left, f.id), f.payload).emit));
    }
  }

  ghost predicate HousekeepingStep(k: Link, k': Link) {
    || (exists m: LinkMove :: Housekeeping(m) && CanMove(k, m) && k' == MoveLink(k, m))
    || (exists m: LinkMove :: Housekeeping(m) && CanMove(SwapLink(k), m) && k' == SwapLink(MoveLink(SwapLink(k), m)))
  }

  /** No reset storm. From any two peers in any state with any frames between them, even
      bogus ones, deliveries and drops alone come to an end. */
  lemma {:induction false} NoResetStorm(tr: seq<Link>)
    requires tr != [] && forall i :: 0 <= i < |tr| - 1 ==> HousekeepingStep(tr[i], tr[i + 1])
    ensures |tr| - 1 <= Load(tr[0])
  {
    if |tr| > 1 {
      assert HousekeepingStep(tr[0], tr[0 + 1]);
      if m: LinkMove :| Housekeeping(m) && CanMove(tr[0], m) && tr[1] == MoveLink(tr[0], m) {
        HousekeepingSheds(tr[0], m);
      } else {
        var m: LinkMove :| Housekeeping(m) && CanMove(SwapLink(tr[0]), m) && tr[1] == SwapLink(MoveLink(SwapLink(tr[0]), m));
        HousekeepingSheds(SwapLink(tr[0]), m);
      }
      var rest := tr[1..];
      forall i | 0 <= i < |rest| - 1 ensures HousekeepingStep(rest[i], rest[i + 1]) {
        assert HousekeepingStep(tr[i + 1], tr[(i + 1) + 1]);
      }
      NoResetStorm(rest);
    }
  }

  // ---- A writer out of credit ----

  /** The writer waits for credit, the reader has read everything, nothing is in flight. */
  predicate Stuck(l: Lane) {
    && l.left.slot == Established && HandleFree(l.left) && !l.left.stream.finishSent && l.left.stream.credit == 0
    && l.right.slot == Established && HandleFree(l.right) && l.right.stream.queue == [] && l.right.stream.buf == []
    && l.lr == [] && l.rl == []
  }

  /** Reading and writing on do not help: nothing changes, and nothing can arrive. */
  lemma StuckStays(l: Lane, data: Bytes)
    requires Stuck(l)
    ensures Advance(l, Do(BeginWrite(data))) == l
    ensures Advance(Swap(l), Do(FillBuf)) == Swap(l)
    ensures !CanAdvance(l, Deliver) && !CanAdvance(Swap(l), Deliver)
    ensures !CanAdvance(l, Do(EmitPending)) && !CanAdvance(Swap(l), Do(EmitPending))
  {
  }

  /** If the reader's threshold fits its own window, no reachable state is stuck. */
  lemma FittingThresholdNeverStuck(k: Link, id: U32)
    requires Reachable(k) && Stuck(View(k, id))
    ensures Min(k.right.cfg.threshold, k.left.cfg.rwnd) > k.right.cfg.rwnd
  {
    ReachableInv(k);
    var l := View(k, id);
    CreditConserved(k, id);
    assert Opened(l);
  }

  // ---- A stuck state is reachable otherwise ----

  /** Only this flow id is in use. */
  predicate Solo(k: Link, id: U32) {
    && id != 0
    && (forall f :: f in k.lr ==> f.id == id && !f.payload.Datagram?)
    && (forall f :: f in k.rl ==> f.id == id && !f.payload.Datagram?)
    && k.left.drops == [] && k.right.drops == []
  }

  predicate Plain(m: Move) {
    m.Deliver? || (m.Do? && !m.action.ProcessDrop? && !m.action.DropStream?)
  }

  lemma {:induction false} OnlySolo(c: seq<Frame>, id: U32)
    requires forall f :: f in c ==> f.id == id && !f.payload.Datagram?
    ensures |Only(c, id)| == |c|
  {
    if c != [] {
      assert c[0] in c;
      OnlySolo(c[1..], id);
    }
  }

  lemma LiftDeliver(k: Link, id: U32) returns (k': Link)
    requires Reachable(k) && Solo(k, id) && CanAdvance(View(k, id), Deliver)
    ensures Reachable(k') && Solo(k', id) && View(k', id) == Advance(View(k, id), Deliver)
    ensures k'.left.cfg == k.left.cfg && k'.right.cfg == k.right.cfg
  {
    OnlySolo(k.rl, id);
    assert k.rl[0] in k.rl;
    FrameView(k, id);
    k' := MoveLink(k, NextFrame);
    AnswerOf(SideOf(k.left, id), k.rl[0].payload);
    assert CanMove(k, NextFrame);
    ReachableStep(k, k');
  }

  lemma LiftDo(k: Link, id: U32, a: Action) returns (k': Link)
    requires Reachable(k) && Solo(k, id) && Plain(Do(a)) && CanAdvance(View(k, id), Do(a))
    ensures Reachable(k') && Solo(k', id) && View(k', id) == Advance(View(k, id), Do(a))
    ensures k'.left.cfg == k.left.cfg && k'.right.cfg == k.right.cfg
  {
    ReachableInv(k);
    ActView(k, id, a, id);
    k' := MoveLink(k, Act(id, a));
    PendingFrames(View(k, id));
    EmitsNoDatagram(SideOf(k.left, id), a);
    assert CanMove(k, Act(id, a));
    ReachableStep(k, k');
  }

  /** A step of the lane is a step of the link that carries only this lane. */
  lemma Lift(k: Link, id: U32, m: Move) returns (k': Link)
    requires Reachable(k) && Solo(k, id) && Plain(m) && CanAdvance(View(k, id), m)
    ensures Reachable(k') && Solo(k', id) && View(k', id) == Advance(View(k, id), m)
    ensures k'.left.cfg == k.left.cfg && k'.right.cfg == k.right.cfg
  {
    if m.Deliver? { k' := LiftDeliver(k, id); } else { k' := LiftDo(k, id, m.action); }
  }

  lemma LiftRight(k: Link, id: U32, m: Move) returns (k': Link)
    requires Reachable(k) && Solo(k, id) && Plain(m) && CanAdvance(Swap(View(k, id)), m)
    ensures Reachable(k') && Solo(k', id) && View(k', id) == Swap(Advance(Swap(View(k, id)), m))
    ensures k'.left.cfg == k.left.cfg && k'.right.cfg == k.right.cfg
  {
    ReachableSwap(k);
    SwapView(k, id);
    var r := Lift(SwapLink(k), id, m);
    ReachableSwap(r);
    SwapView(r, id);
    k' := SwapLink(r);
  }

  /** `n` chunks written, delivered and read, none of them acknowledged. */
  predicate AfterRounds(l: Lane, n: nat) {
    && l.left.slot == Established && HandleFree(l.left) && !l.left.stream.finishSent
    && l.left.stream.credit == l.right.cfg.rwnd - n
    && l.right.slot == Established && HandleFree(l.right) && l.right.stream.readOpen
    && l.right.stream.queue == [] && l.right.stream.buf == []
    && l.right.stream.recvdSince == n && l.right.stream.threshold == Min(l.right.cfg.threshold, l.left.cfg.rwnd)
    && l.lr == [] && l.rl == []
  }

  /** The left side's `Connect` is in flight. */
  lemma Requesting(left: Config, right: Config, id: U32) returns (k: Link)
    requires left.Valid() && right.Valid() && id != 0
    ensures Reachable(k) && Solo(k, id) && k.left.cfg == left && k.right.cfg == right
    ensures var l := View(k, id);
      && l.left.slot == Requested && l.left.cfg == left && l.rl == []
      && l.lr == [Connect(left.rwnd, 0, [])] && l.right == Fresh(right)
  {
    k := StartLink(left, right);
    assert LinkRun([k]) && [k][|[k]| - 1] == k;
    assert View(k, id) == Start(left, right);
    k := Lift(k, id, Do(Insert(0, [])));
    k := Lift(k, id, Do(SendConnect));
  }

  /** The right side has accepted it. */
  lemma Offering(left: Config, right: Config, id: U32) returns (k: Link)
    requires left.Valid() && right.Valid() && id != 0
    ensures Reachable(k) && Solo(k, id) && k.left.cfg == left && k.right.cfg == right
    ensures var l := View(k, id);
      && l.left.slot == Requested && l.left.cfg == left && l.lr == [] && l.rl == [Acknowledge(right.rwnd)]
      && l.right.cfg == right && l.right.slot == Established
      && l.right.stream == NewStream(Fresh(right), left.rwnd, StreamTo(0, [])).stream.(owner := User)
  {
    k := Requesting(left, right, id);
    k := LiftRight(k, id, Deliver);
    k := LiftRight(k, id, Do(Take));
  }

  lemma Opening(left: Config, right: Config, id: U32) returns (k: Link)
    requires left.Valid() && right.Valid() && id != 0
    ensures Reachable(k) && Solo(k, id) && k.left.cfg == left && k.right.cfg == right
    ensures AfterRounds(View(k, id), 0)
  {
    k := Offering(left, right, id);
    k := Lift(k, id, Deliver);
    k := Lift(k, id, Do(Take));
  }

  lemma WriteOne(k: Link, id: U32, data: Bytes) returns (k': Link)
    requires Reachable(k) && Solo(k, id)
    requires var s := View(k, id).left; HandleFree(s) && !s.stream.finishSent && s.stream.credit > 0
    ensures Reachable(k') && Solo(k', id) && k'.left.cfg == k.left.cfg && k'.right.cfg == k.right.cfg
    ensures var l, l' := View(k, id), View(k', id);
      && l'.lr == l.lr + [Push(data)] && l'.rl == l.rl && l'.right == l.right
      && l'.left.cfg == l.left.cfg && l'.left.slot == l.left.slot
      && l'.left.stream == l.left.stream.(credit := l.left.stream.credit - 1)
  {
    k' := Lift(k, id, Do(BeginWrite(data)));
    assert View(k', id).lr == View(k, id).lr;
    k' := Lift(k', id, Do(EmitPending));
  }

  lemma WriteAndDeliver(k: Link, id: U32, n: nat, data: Bytes) returns (k': Link)
    requires Reachable(k) && Solo(k, id) && AfterRounds(View(k, id), n) && n < View(k, id).right.cfg.rwnd
    ensures Reachable(k') && Solo(k', id) && k'.left.cfg == k.left.cfg && k'.right.cfg == k.right.cfg
    ensures var l, l' := View(k, id), View(k', id);
      && l'.lr == [] && l'.rl == []
      && l'.left.cfg == l.left.cfg && l'.left.slot == Established
      && l'.left.stream == l.left.stream.(credit := l.left.stream.credit - 1)
      && l'.right == l.right.(stream := l.right.stream.(queue := [data]))
  {
    k' := WriteOne(k, id, data);
    k' := LiftRight(k', id, Deliver);
  }

  /** What taking and consuming a chunk of one byte does to a side, below the threshold. */
  lemma ReadShape(s: Side, data: Bytes)
    requires HandleFree(s) && |data| == 1
    requires s.stream.buf == [] && s.stream.queue == [data] && s.stream.recvdSince + 1 < s.stream.threshold
    ensures var o := Perform(s, FillBuf);
      && o.emit == [] && Enabled(o.side, Consume(1)) && o.side.cfg == s.cfg && o.side.slot == s.slot
      && var o' := Perform(o.side, Consume(1));
         && o'.emit == [] && o'.side.cfg == s.cfg && o'.side.slot == s.slot
         && o'.side.stream == s.stream.(queue := [], recvdSince := s.stream.recvdSince + 1)
  {
    assert data[1..] == [];
  }

  lemma ReadOne(k: Link, id: U32, data: Bytes) returns (k': Link)
    requires Reachable(k) && Solo(k, id) && |data| == 1
    requires var s := View(k, id).right;
      HandleFree(s) && s.stream.buf == [] && s.stream.queue == [data] && s.stream.recvdSince + 1 < s.stream.threshold
    ensures Reachable(k') && Solo(k', id) && k'.left.cfg == k.left.cfg && k'.right.cfg == k.right.cfg
    ensures var l, l' := View(k, id), View(k', id);
      && l'.left == l.left && l'.lr == l.lr && l'.rl == l.rl
      && l'.right.cfg == l.right.cfg && l'.right.slot == l.right.slot
      && l'.right.stream == l.right.stream.(queue := [], recvdSince := l.right.stream.recvdSince + 1)
  {
    var s := View(k, id).right;
    ReadShape(s, data);
    k' := LiftRight(k, id, Do(FillBuf));
    assert View(k', id).rl == View(k, id).rl && View(k', id).right == Perform(s, FillBuf).side;
    k' := LiftRight(k', id, Do(Consume(1)));
  }

  lemma Round(k: Link, id: U32, n: nat) returns (k': Link)
    requires Reachable(k) && Solo(k, id) && AfterRounds(View(k, id), n)
    requires n < View(k, id).right.cfg.rwnd && n + 1 < View(k, id).right.stream.threshold
    ensures Reachable(k') && Solo(k', id) && AfterRounds(View(k', id), n + 1)
    ensures k'.left.cfg == k.left.cfg && k'.right.cfg == k.right.cfg
  {
    k' := WriteAndDeliver(k, id, n, [0]);
    k' := ReadOne(k', id, [0]);
  }

  lemma {:induction false} Rounds(left: Config, right: Config, id: U32, n: nat) returns (k: Link)
    requires left.Valid() && right.Valid() && id != 0 && n <= right.rwnd < Min(right.threshold, left.rwnd)
    ensures Reachable(k) && Solo(k, id) && k.left.cfg == left && k.right.cfg == right
    ensures AfterRounds(View(k, id), n)
  {
    if n == 0 {
      k := Opening(left, right, id);
    } else {
      k := Rounds(left, right, id, n - 1);
      ReachableInv(k);
      k := Round(k, id, n - 1);
    }
  }

  ghost predicate StuckReachable(left: Config, right: Config, id: U32) {
    exists k: Link :: Reachable(k) && k.left.cfg == left && k.right.cfg == right && Stuck(View(k, id))
  }

  /** Progress, exactly. A writer can be left without credit although the reader has read
      everything and nothing is in flight if and only if the reader's threshold, clamped
      by the writer's window, exceeds the reader's own window. */
  lemma ProgressExactly(left: Config, right: Config, id: U32)
    requires left.Valid() && right.Valid() && id != 0
    ensures StuckReachable(left, right, id) <==> Min(right.threshold, left.rwnd) > right.rwnd
  {
    if Min(right.threshold, left.rwnd) > right.rwnd {
      var k := Rounds(left, right, id, right.rwnd);
      ReachableInv(k);
      assert Stuck(View(k, id));
    } else {
      forall k: Link | Reachable(k) && k.left.cfg == left && k.right.cfg == right && Stuck(View(k, id)) ensures false {
        FittingThresholdNeverStuck(k, id);
      }
    }
  }

  // ---- Deliveries and reads come to an end ----

  /** Work left for the mux task and a reader on one flow id. */
  function Cost(x: Payload): nat {
    match x
    case Connect(_, _, _) => 3
    case Bind(_, _, _) => 2
    case Acknowledge(_) => 2
    case Finish => 2
    case Push(data) => 4 + |data|
    case Reset => 1
    case Datagram(_, _, _) => 1
  }

  function Costs(c: seq<Payload>): nat {
    if c == [] then 0 else Cost(c[0]) + Costs(c[1..])
  }

  function Unread(q: seq<Bytes>): nat {
    if q == [] then 0 else 3 + |q[0]| + Unread(q[1..])
  }

  function SideWork(s: Side): nat { Unread(s.stream.queue) + |s.stream.buf| + 2 * s.drops }

  function Work(l: Lane): nat { Costs(l.lr) + Costs(l.rl) + SideWork(l.left) + SideWork(l.right) }

  lemma {:induction false} CostsAppend(c: seq<Payload>, x: Payload)
    ensures Costs(c + [x]) == Costs(c) + Cost(x)
  {
    if c != [] {
      assert (c + [x])[1..] == c[1..] + [x];
      CostsAppend(c[1..], x);
    }
  }

  lemma {:induction false} UnreadAppend(q: seq<Bytes>, d: Bytes)
    ensures Unread(q + [d]) == Unread(q) + 3 + |d|
  {
    if q != [] {
      assert (q + [d])[1..] == q[1..] + [d];
      UnreadAppend(q[1..], d);
    }
  }

  /** Delivering, processing a drop, taking a queued chunk, consuming bytes. */
  predicate Service(s: Side, m: Move) {
    || m.Deliver? || (m.Do? && m.action.ProcessDrop?)
    || (m.Do? && m.action.FillBuf? && s.stream.buf == [] && s.stream.queue != [])
    || (m.Do? && m.action.Consume? && m.action.amount > 0)
  }

  lemma AnswerCosts(s: Side, x: Payload)
    ensures var o := Receive(s, x);
      && (o.emit == [] || (|o.emit| == 1 && o.emit == [o.emit[0]]))
      && SideWork(o.side) + (if o.emit == [] then 0 else Cost(o.emit[0])) < SideWork(s) + Cost(x)
  {
    if x.Push? { UnreadAppend(s.stream.queue, x.data); }
  }

  lemma DeliveryIsProgress(l: Lane)
    requires l.rl != []
    ensures Work(Advance(l, Deliver)) < Work(l)
  {
    var x, o := l.rl[0], Receive(l.left, l.rl[0]);
    assert l.lr + [] == l.lr;
    AnswerCosts(l.left, x);
    if o.emit != [] { CostsAppend(l.lr, o.emit[0]); }
  }

  lemma ReadingIsProgress(l: Lane, m: Move)
    requires m.Do? && Service(l.left, m) && CanAdvance(l, m)
    ensures Work(Advance(l, m)) < Work(l)
  {
    var o := Perform(l.left, m.action);
    assert l.lr + [] == l.lr;
    if o.emit != [] {
      assert |o.emit| == 1 && o.emit == [o.emit[0]];
      CostsAppend(l.lr, o.emit[0]);
    }
  }

  lemma ServiceIsProgress(l: Lane, m: Move)
    requires Service(l.left, m) && CanAdvance(l, m)
    ensures Work(Advance(l, m)) < Work(l)
  {
    if m.Deliver? { DeliveryIsProgress(l); } else { ReadingIsProgress(l, m); }
  }

  /** A service step of either side. */
  ghost predicate ServiceStep(l: Lane, l': Lane) {
    || (exists m: Move :: Service(l.left, m) && CanAdvance(l, m) && l' == Advance(l, m))
    || (exists m: Move :: Service(l.right, m) && CanAdvance(Swap(l), m) && l' == Swap(Advance(Swap(l), m)))
  }

  lemma ServiceStepIsProgress(l: Lane, l': Lane)
    requires ServiceStep(l, l')
    ensures Work(l') < Work(l) && Step(l, l')
    ensures l'.left.cfg == l.left.cfg && l'.right.cfg == l.right.cfg
  {
    if m: Move :| Service(l.left, m) && CanAdvance(l, m) && l' == Advance(l, m) {
      ServiceIsProgress(l, m);
      AdvanceConfigs(l, m);
    } else {
      var m: Move :| Service(l.right, m) && CanAdvance(Swap(l), m) && l' == Swap(Advance(Swap(l), m));
      ServiceIsProgress(Swap(l), m);
      AdvanceConfigs(Swap(l), m);
    }
  }

  lemma AdvanceConfigs(l: Lane, m: Move)
    requires CanAdvance(l, m)
    ensures Advance(l, m).left.cfg == l.left.cfg && Advance(l, m).right.cfg == l.right.cfg
  {
    if m.Deliver? { AnswerOf(l.left, l.rl[0]); }
    if m.Do? { ConfigKept(l.left, m.action); }
  }

  ghost predicate ServiceRun(tr: seq<Lane>) {
    tr != [] && forall i :: 0 <= i < |tr| - 1 ==> ServiceStep(tr[i], tr[i + 1])
  }

  /** A lane that is only served falls silent: from any state, a run of service steps of
      both sides is no longer than the work there is to do. */
  lemma {:induction false} ServiceEnds(tr: seq<Lane>)
    requires ServiceRun(tr)
    ensures |tr| - 1 <= Work(tr[0])
  {
    if |tr| > 1 {
      ServiceStepIsProgress(tr[0], tr[1]);
      var rest := tr[1..];
      forall i | 0 <= i < |rest| - 1 ensures ServiceStep(rest[i], rest[i + 1]) {
        assert ServiceStep(tr[i + 1], tr[(i + 1) + 1]);
      }
      ServiceEnds(rest);
    }
  }

  lemma {:induction false} ServiceKeeps(tr: seq<Lane>, i: nat)
    requires ServiceRun(tr) && Inv(tr[0]) && i < |tr|
    ensures Inv(tr[i]) && tr[i].left.cfg == tr[0].left.cfg && tr[i].right.cfg == tr[0].right.cfg
  {
    if i > 0 {
      ServiceKeeps(tr, i - 1);
      assert ServiceStep(tr[i - 1], tr[(i - 1) + 1]);
      ServiceStepIsProgress(tr[i - 1], tr[i]);
      StepKeeps(tr[i - 1], tr[i]);
    }
  }

  /** No service step is left for either side. */
  ghost predicate Exhausted(l: Lane) { forall l': Lane :: !ServiceStep(l, l') }

  /** There is something to read for a user that is free to. */
  predicate HasUnread(s: Side) { HandleFree(s) && (s.stream.buf != [] || s.stream.queue != []) }

  lemma UnreadIsService(l: Lane) returns (l': Lane)
    requires HasUnread(l.left)
    ensures ServiceStep(l, l')
  {
    var m := if l.left.stream.buf != [] then Do(Consume(1)) else Do(FillBuf);
    assert Service(l.left, m) && CanAdvance(l, m);
    l' := Advance(l, m);
  }

  lemma ServiceStepSwap(l: Lane, l': Lane)
    requires ServiceStep(Swap(l), l')
    ensures ServiceStep(l, Swap(l'))
  {
    assert Swap(Swap(l)) == l && Swap(Swap(l')) == l';
    if m: Move :| Service(Swap(l).left, m) && CanAdvance(Swap(l), m) && l' == Advance(Swap(l), m) {
      assert Service(l.right, m) && CanAdvance(Swap(l), m) && Swap(l') == Swap(Advance(Swap(l), m));
    } else {
      var m: Move :| Service(Swap(l).right, m) && CanAdvance(Swap(Swap(l)), m) && l' == Swap(Advance(Swap(Swap(l)), m));
      assert Service(l.left, m) && CanAdvance(l, m) && Swap(l') == Advance(l, m);
    }
  }

  /** What is left for the left side to be served with. */
  lemma LeftHasService(l: Lane) returns (l': Lane)
    requires l.rl != [] || l.left.drops > 0 || HasUnread(l.left)
    ensures ServiceStep(l, l')
  {
    if l.rl != [] {
      l' := Advance(l, Deliver);
    } else if l.left.drops > 0 {
      assert Service(l.left, Do(ProcessDrop)) && CanAdvance(l, Do(ProcessDrop));
      l' := Advance(l, Do(ProcessDrop));
    } else {
      l' := UnreadIsService(l);
    }
  }

  lemma HasService(l: Lane) returns (l': Lane)
    requires l.rl != [] || l.lr != [] || l.left.drops > 0 || l.right.drops > 0 || HasUnread(l.left) || HasUnread(l.right)
    ensures ServiceStep(l, l')
  {
    if l.rl != [] || l.left.drops > 0 || HasUnread(l.left) {
      l' := LeftHasService(l);
    } else {
      l' := LeftHasService(Swap(l));
      ServiceStepSwap(l, l');
      l' := Swap(l');
    }
  }

  lemma ExhaustedIsServed(l: Lane)
    requires Exhausted(l)
    ensures l.lr == [] && l.rl == [] && l.left.drops == 0 && l.right.drops == 0
    ensures !HasUnread(l.left) && !HasUnread(l.right)
  {
    if l.rl != [] || l.lr != [] || l.left.drops > 0 || l.right.drops > 0 || HasUnread(l.left) || HasUnread(l.right) {
      var l' := HasService(l);
    }
  }

  /** Nothing in flight, nothing dropped and nothing unread at the right. */
  predicate Silent(l: Lane) {
    && l.lr == [] && l.rl == [] && l.left.drops == 0 && l.right.drops == 0
    && l.right.stream.queue == [] && l.right.stream.buf == []
  }

  /** A stream open at both ends, whose users are not in the middle of a call. */
  predicate BothOpen(l: Lane) {
    && HandleFree(l.left) && HandleFree(l.right)
    && l.left.slot == Established && l.right.slot == Established && !l.left.stream.finishSent
  }

  /** Progress over runs. Serve any flow of any reachable link, in any order: after at most
      `Work` steps there is nothing left to serve, and if the threshold fits and the stream
      is still open the writer then has credit. */
  lemma ServedWriterHasCredit(k: Link, id: U32, tr: seq<Lane>)
    requires Reachable(k) && Min(k.right.cfg.threshold, k.left.cfg.rwnd) <= k.right.cfg.rwnd
    requires ServiceRun(tr) && tr[0] == View(k, id)
    ensures |tr| - 1 <= Work(View(k, id))
    ensures var l := tr[|tr| - 1]; Exhausted(l) && BothOpen(l) ==> l.left.stream.credit > 0
  {
    ServiceEnds(tr);
    ReachableInv(k);
    ServiceKeeps(tr, |tr| - 1);
    var l := tr[|tr| - 1];
    if Exhausted(l) && BothOpen(l) {
      ExhaustedIsServed(l);
      SilentLane(l);
    }
  }

  lemma SilentLane(l: Lane)
    requires Inv(l) && Silent(l) && BothOpen(l)
    requires Min(l.right.cfg.threshold, l.left.cfg.rwnd) <= l.right.cfg.rwnd
    ensures l.left.stream.credit > 0
  {
    assert Opened(l);
  }

  /** Once a lane has fallen silent, its writer has credit, if the threshold fits. */
  lemma SilentWriterHasCredit(k: Link, id: U32)
    requires Reachable(k) && Min(k.right.cfg.threshold, k.left.cfg.rwnd) <= k.right.cfg.rwnd
    requires Silent(View(k, id)) && BothOpen(View(k, id))
    ensures View(k, id).left.stream.credit > 0
  {
    ReachableInv(k);
    SilentLane(View(k, id));
  }

  // ---- An empty write ----

  /** An empty write is taken for the end of the stream: a reader can be told the end while
      the writer has not finished and goes on to write. */
  lemma EmptyWriteLooksLikeEnd(left: Config, right: Config, id: U32) returns (k: Link)
    requires left.Valid() && right.Valid() && id != 0
    ensures Reachable(k) && k.left.cfg == left && k.right.cfg == right
    ensures var l := View(k, id);
      && Alive(l.right) && ReadsEmpty(l.right) && !AtEnd(l.right)
      && l.left.slot == Established && !l.left.stream.finishSent
  {
    k := Opening(left, right, id);
    ReachableInv(k);
    k := WriteAndDeliver(k, id, 0, []);
  }
}
