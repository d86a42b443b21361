/** Two whole peers: every flow id, one sequence of tagged frames per direction.

    A frame touches only the flow id it carries, so a link is a bundle of lanes:
    `View` projects a link to one flow id, and every step of the link is a step of
    one lane and leaves all others as they are. */
module Links {
  import opened Frames
  import opened Peer
  import opened Lanes
  import opened Invariant
  import opened Preservation

  /** A peer: its sides by flow id, and the queue of dropped flow ids. The number of
      pending drops of a side is read off that queue. */
  datatype Node = Node(cfg: Config, sides: map<U32, Side>, drops: seq<U32>)

  datatype Link = Link(left: Node, right: Node, lr: seq<Frame>, rl: seq<Frame>)

  function SwapLink(k: Link): Link { Link(k.right, k.left, k.rl, k.lr) }

  function Count(q: seq<U32>, id: U32): nat {
    if q == [] then 0 else (if q[0] == id then 1 else 0) + Count(q[1..], id)
  }

  function SideOf(n: Node, id: U32): Side {
    (if id in n.sides then n.sides[id] else Fresh(n.cfg)).(drops := Count(n.drops, id))
  }

  /** The frames of one flow id. Datagrams share the id space but belong to no flow. */
  function Only(c: seq<Frame>, id: U32): seq<Payload> {
    if c == [] then []
    else (if c[0].id == id && !c[0].payload.Datagram? then [c[0].payload] else []) + Only(c[1..], id)
  }

  function Tag(id: U32, xs: seq<Payload>): seq<Frame> {
    seq(|xs|, i requires 0 <= i < |xs| => Frame(id, xs[i]))
  }

  function View(k: Link, id: U32): Lane {
    Lane(SideOf(k.left, id), SideOf(k.right, id), Only(k.lr, id), Only(k.rl, id))
  }

  datatype LinkMove =
    | Act(id: U32, action: Action)   // any action but ProcessDrop
    | NextDrop                       // take the head of the dropped-ports queue
    | NextFrame                      // take the head of the incoming sequence
    | Reuse(id: U32)
    | SendDatagram(id: U32, port: U16, host: Bytes, data: Bytes)

  /** `next_available_key` never hands out 0: in the dropped-ports queue it stands for the
      multiplexor itself. */
  predicate Allocates(id: U32, a: Action) { a.Insert? || a.InsertBind? ==> id != 0 }

  predicate CanMove(k: Link, m: LinkMove) {
    match m
    case Act(id, a) => !a.ProcessDrop? && Allocates(id, a) && CanAdvance(View(k, id), Do(a))
    case NextDrop => k.left.drops != [] && k.left.drops[0] != 0
    case NextFrame => k.rl != []
    case Reuse(id) => Idle(View(k, id))
    case SendDatagram(_, _, _, _) => true
  }

  /** Store what a step made of one side. A dropped stream joins the queue. */
  function Stored(n: Node, id: U32, a: Action, s: Side): Node {
    n.(sides := n.sides[id := s], drops := if a.DropStream? then n.drops + [id] else n.drops)
  }

  function MoveLink(k: Link, m: LinkMove): Link
    requires CanMove(k, m)
  {
    match m
    case Act(id, a) =>
      var o := Perform(SideOf(k.left, id), a);
      k.(left := Stored(k.left, id, a, o.side), lr := k.lr + Tag(id, o.emit))
    case NextDrop =>
      DropHead(k);
      var id := k.left.drops[0];
      var o := Perform(SideOf(k.left, id), ProcessDrop);
      k.(left := k.left.(sides := k.left.sides[id := o.side], drops := k.left.drops[1..]),
         lr := k.lr + Tag(id, o.emit))
    case NextFrame =>
      var f := k.rl[0];
      if f.payload.Datagram? then k.(rl := k.rl[1..])
      else
        var o := Receive(SideOf(k.left, f.id), f.payload);
        k.(left := k.left.(sides := k.left.sides[f.id := o.side]), lr := k.lr + Tag(f.id, o.emit), rl := k.rl[1..])
    case Reuse(id) =>
      k.(left := k.left.(sides := k.left.sides - {id}), right := k.right.(sides := k.right.sides - {id}))
    case SendDatagram(id, port, host, data) =>
      k.(lr := k.lr + [Frame(id, Datagram(port, host, data))])
  }

  lemma DropHead(k: Link)
    requires k.left.drops != []
    ensures Enabled(SideOf(k.left, k.left.drops[0]), ProcessDrop)
  {
  }

  ghost predicate LinkStep(k: Link, k': Link) {
    || (exists m: LinkMove :: CanMove(k, m) && k' == MoveLink(k, m))
    || (exists m: LinkMove :: CanMove(SwapLink(k), m) && k' == SwapLink(MoveLink(SwapLink(k), m)))
  }

  function StartLink(left: Config, right: Config): Link {
    Link(Node(left, map[], []), Node(right, map[], []), [], [])
  }

  ghost predicate LinkRun(tr: seq<Link>) {
    && tr != []
    && (exists left: Config, right: Config :: left.Valid() && right.Valid() && tr[0] == StartLink(left, right))
    && forall i :: 0 <= i < |tr| - 1 ==> LinkStep(tr[i], tr[i + 1])
  }

  ghost predicate Reachable(k: Link) {
    exists tr: seq<Link> :: LinkRun(tr) && tr[|tr| - 1] == k
  }

  // ---- Projection ----

  lemma {:induction false} OnlyTag(c: seq<Frame>, id: U32, xs: seq<Payload>, j: U32)
    requires forall x :: x in xs ==> !x.Datagram?
    ensures Only(c + Tag(id, xs), j) == Only(c, j) + (if j == id then xs else [])
    decreases |c|, |xs|
  {
    if c != [] {
      assert (c + Tag(id, xs))[1..] == c[1..] + Tag(id, xs);
      OnlyTag(c[1..], id, xs, j);
    } else if xs != [] {
      var t := Tag(id, xs);
      assert t[1..] == Tag(id, xs[1..]);
      OnlyTag([], id, xs[1..], j);
      assert [] + t == t && [] + t[1..] == t[1..];
      assert xs == [xs[0]] + xs[1..];
    } else {
      assert c + Tag(id, xs) == [];
    }
  }

  lemma {:induction false} OnlyDatagram(c: seq<Frame>, f: Frame, j: U32)
    requires f.payload.Datagram?
    ensures Only(c + [f], j) == Only(c, j)
  {
    if c != [] {
      assert (c + [f])[1..] == c[1..] + [f];
      OnlyDatagram(c[1..], f, j);
    }
  }

  lemma {:induction false} CountAppend(q: seq<U32>, x: U32, id: U32)
    ensures Count(q + [x], id) == Count(q, id) + (if x == id then 1 else 0)
  {
    if q != [] {
      assert (q + [x])[1..] == q[1..] + [x];
      CountAppend(q[1..], x, id);
    }
  }

  /** A handle is only ever about to queue a `Push` or a `Finish`. */
  lemma PendingFrames(l: Lane)
    requires Inv(l)
    ensures l.left.stream.pending != None ==> !l.left.stream.pending.value.Datagram?
  {
  }

  lemma EmitsNoDatagram(s: Side, a: Action)
    requires s.stream.pending != None ==> !s.stream.pending.value.Datagram?
    requires Enabled(s, a)
    ensures forall x :: x in Perform(s, a).emit ==> !x.Datagram?
    ensures Perform(s, a).side.cfg == s.cfg
  {
  }

  lemma StoredSide(n: Node, id: U32, a: Action, s: Side, j: U32)
    requires s.drops == Count(n.drops, id) + (if a.DropStream? then 1 else 0)
    ensures SideOf(Stored(n, id, a, s), j) == if j == id then s else SideOf(n, j)
  {
    CountAppend(n.drops, id, j);
  }

  /** Only dropping a stream and processing a drop change the number of pending drops. */
  lemma DropsAfter(s: Side, a: Action)
    requires Enabled(s, a) && !a.ProcessDrop?
    ensures Perform(s, a).side.drops == s.drops + (if a.DropStream? then 1 else 0)
  {
  }

  lemma ActView(k: Link, id: U32, a: Action, j: U32)
    requires Inv(View(k, id)) && CanMove(k, Act(id, a))
    ensures View(MoveLink(k, Act(id, a)), j) == if j == id then Advance(View(k, id), Do(a)) else View(k, j)
  {
    var s := SideOf(k.left, id);
    PendingFrames(View(k, id));
    EmitsNoDatagram(s, a);
    DropsAfter(s, a);
    OnlyTag(k.lr, id, Perform(s, a).emit, j);
    StoredSide(k.left, id, a, Perform(s, a).side, j);
    if j != id { assert Only(k.lr, j) + [] == Only(k.lr, j); }
  }

  lemma DropView(k: Link, j: U32)
    requires CanMove(k, NextDrop)
    ensures var id := k.left.drops[0];
      && CanAdvance(View(k, id), Do(ProcessDrop))
      && View(MoveLink(k, NextDrop), j) == if j == id then Advance(View(k, id), Do(ProcessDrop)) else View(k, j)
  {
    var id := k.left.drops[0];
    var o := ProcessDropOn(SideOf(k.left, id));
    assert Perform(SideOf(k.left, id), ProcessDrop) == o;
    assert forall x :: x in o.emit ==> x.Reset?;
    OnlyTag(k.lr, id, o.emit, j);
    assert Only(k.lr, j) + [] == Only(k.lr, j);
    assert o.side.drops == Count(k.left.drops[1..], id);
  }

  /** The head of the incoming sequence, seen at one flow id. */
  lemma OnlyHead(c: seq<Frame>, j: U32)
    requires c != []
    ensures Only(c, j) == if c[0].id == j && !c[0].payload.Datagram? then [c[0].payload] + Only(c[1..], j) else Only(c[1..], j)
    ensures c[0].id == j && !c[0].payload.Datagram? ==> Only(c, j)[1..] == Only(c[1..], j)
  {
    assert [] + Only(c[1..], j) == Only(c[1..], j);
  }

  lemma AnswerOf(s: Side, x: Payload)
    ensures Receive(s, x).side.drops == s.drops && Receive(s, x).side.cfg == s.cfg
    ensures forall y :: y in Receive(s, x).emit ==> !y.Datagram?
  {
  }

  lemma FrameView(k: Link, j: U32)
    requires k.rl != []
    ensures var f := k.rl[0];
      View(MoveLink(k, NextFrame), j)
      == if j == f.id && !f.payload.Datagram? then Advance(View(k, j), Deliver) else View(k, j)
  {
    var f := k.rl[0];
    OnlyHead(k.rl, j);
    if !f.payload.Datagram? {
      var o := Receive(SideOf(k.left, f.id), f.payload);
      AnswerOf(SideOf(k.left, f.id), f.payload);
      OnlyTag(k.lr, f.id, o.emit, j);
      StoredView(k.left, f.id, o.side, j);
      assert Only(k.lr, j) + [] == Only(k.lr, j);
    }
  }

  /** Storing one side changes that side only. */
  lemma StoredView(n: Node, id: U32, s: Side, j: U32)
    requires s.drops == Count(n.drops, id)
    ensures SideOf(n.(sides := n.sides[id := s]), j) == if j == id then s else SideOf(n, j)
  {
  }

  predicate OwnConfig(n: Node) {
    n.cfg.Valid() && forall id :: id in n.sides ==> n.sides[id].cfg == n.cfg
  }

  /** Nobody has ever used the id that stands for the multiplexor itself. */
  predicate ZeroFree(k: Link) { View(k, 0) == Start(k.left.cfg, k.right.cfg) }

  ghost predicate LinkInv(k: Link) {
    && OwnConfig(k.left) && OwnConfig(k.right) && ZeroFree(k)
    && forall id: U32 :: Inv(View(k, id))
  }

  lemma ReuseView(k: Link, id: U32, j: U32)
    requires OwnConfig(k.left) && OwnConfig(k.right) && CanMove(k, Reuse(id))
    ensures View(MoveLink(k, Reuse(id)), j) == if j == id then Advance(View(k, id), Recycle) else View(k, j)
  {
  }

  lemma DatagramView(k: Link, m: LinkMove, j: U32)
    requires m.SendDatagram?
    ensures View(MoveLink(k, m), j) == View(k, j)
  {
    OnlyDatagram(k.lr, Frame(m.id, Datagram(m.port, m.host, m.data)), j);
  }

  lemma ConfigStays(k: Link, m: LinkMove)
    requires OwnConfig(k.left) && OwnConfig(k.right) && CanMove(k, m)
    ensures OwnConfig(MoveLink(k, m).left) && OwnConfig(MoveLink(k, m).right)
  {
  }

  /** A step of the link is a step of one lane, or none, and keeps every other lane. */
  lemma MoveView(k: Link, m: LinkMove, j: U32)
    requires LinkInv(k) && CanMove(k, m)
    ensures var v, v' := View(k, j), View(MoveLink(k, m), j);
      v' == v || exists n: Move :: CanAdvance(v, n) && v' == Advance(v, n)
  {
    match m
    case Act(id, a) =>
      ActView(k, id, a, j);
      if j == id { assert CanAdvance(View(k, id), Do(a)); }
    case NextDrop =>
      DropView(k, j);
      if j == k.left.drops[0] { assert CanAdvance(View(k, j), Do(ProcessDrop)); }
    case NextFrame =>
      FrameView(k, j);
      if j == k.rl[0].id && !k.rl[0].payload.Datagram? { assert CanAdvance(View(k, j), Deliver); }
    case Reuse(id) =>
      ReuseView(k, id, j);
      if j == id { assert CanAdvance(View(k, id), Recycle); }
    case SendDatagram(_, _, _, _) =>
      DatagramView(k, m, j);
  }

  lemma SwapView(k: Link, id: U32)
    ensures View(SwapLink(k), id) == Swap(View(k, id))
  {
  }

  /** A fresh side has nothing to do but to request something. */
  lemma FreshOnlyRequests(cfg: Config, a: Action)
    requires Enabled(Fresh(cfg), a)
    ensures a.Insert? || a.InsertBind?
  {
  }

  lemma ZeroStays(k: Link, m: LinkMove)
    requires LinkInv(k) && CanMove(k, m)
    ensures ZeroFree(MoveLink(k, m))
  {
    match m
    case Act(id, a) =>
      if id == 0 { FreshOnlyRequests(k.left.cfg, a); }
      ActView(k, id, a, 0);
    case NextDrop => DropView(k, 0);
    case NextFrame => FrameView(k, 0);
    case Reuse(id) => ReuseView(k, id, 0);
    case SendDatagram(_, _, _, _) => DatagramView(k, m, 0);
  }

  lemma MoveKeeps(k: Link, m: LinkMove)
    requires LinkInv(k) && CanMove(k, m)
    ensures LinkInv(MoveLink(k, m))
  {
    ConfigStays(k, m);
    ZeroStays(k, m);
    forall id: U32 ensures Inv(View(MoveLink(k, m), id)) {
      MoveView(k, m, id);
      if View(MoveLink(k, m), id) != View(k, id) {
        var n: Move :| CanAdvance(View(k, id), n) && View(MoveLink(k, m), id) == Advance(View(k, id), n);
        AdvanceKeeps(View(k, id), n);
      }
    }
  }

  lemma LinkInvSwap(k: Link)
    requires LinkInv(k)
    ensures LinkInv(SwapLink(k))
  {
    SwapView(k, 0);
    forall id: U32 ensures Inv(View(SwapLink(k), id)) {
      SwapView(k, id);
      InvSwap(View(k, id));
    }
  }

  lemma LinkStepKeeps(k: Link, k': Link)
    requires LinkInv(k) && LinkStep(k, k')
    ensures LinkInv(k')
  {
    if m: LinkMove :| CanMove(k, m) && k' == MoveLink(k, m) {
      MoveKeeps(k, m);
    } else {
      var m: LinkMove :| CanMove(SwapLink(k), m) && k' == SwapLink(MoveLink(SwapLink(k), m));
      LinkInvSwap(k);
      MoveKeeps(SwapLink(k), m);
      LinkInvSwap(MoveLink(SwapLink(k), m));
    }
  }

  /** The refinement: what a step of the link does to a flow id, the lane can do alone. */
  lemma LinkStepView(k: Link, k': Link, id: U32)
    requires LinkInv(k) && LinkStep(k, k')
    ensures View(k', id) == View(k, id) || Step(View(k, id), View(k', id))
  {
    if m: LinkMove :| CanMove(k, m) && k' == MoveLink(k, m) {
      MoveView(k, m, id);
    } else {
      var m: LinkMove :| CanMove(SwapLink(k), m) && k' == SwapLink(MoveLink(SwapLink(k), m));
      LinkInvSwap(k);
      MoveView(SwapLink(k), m, id);
      SwapView(k, id);
      SwapView(MoveLink(SwapLink(k), m), id);
    }
  }

  lemma {:induction false} RunKeeps(tr: seq<Link>, i: nat)
    requires LinkRun(tr) && i < |tr|
    ensures LinkInv(tr[i])
  {
    if i == 0 {
      var left: Config, right: Config :| left.Valid() && right.Valid() && tr[0] == StartLink(left, right);
      forall id: U32 ensures Inv(View(tr[0], id)) {
        StartHolds(left, right);
        assert View(tr[0], id) == Start(left, right);
      }
      assert ZeroFree(tr[0]);
    } else {
      RunKeeps(tr, i - 1);
      LinkStepKeeps(tr[i - 1], tr[i]);
    }
  }

  lemma ReachableInv(k: Link)
    requires Reachable(k)
    ensures LinkInv(k)
  {
    var tr: seq<Link> :| LinkRun(tr) && tr[|tr| - 1] == k;
    RunKeeps(tr, |tr| - 1);
  }

  /** A step from a reachable link leads to a reachable link. */
  lemma ReachableStep(k: Link, k': Link)
    requires Reachable(k) && LinkStep(k, k')
    ensures Reachable(k')
  {
    var tr: seq<Link> :| LinkRun(tr) && tr[|tr| - 1] == k;
    var tr' := tr + [k'];
    assert tr'[0] == tr[0];
    forall i | 0 <= i < |tr'| - 1 ensures LinkStep(tr'[i], tr'[i + 1]) {
      if i < |tr| - 1 { assert LinkStep(tr[i], tr[i + 1]); }
    }
    assert LinkRun(tr') && tr'[|tr'| - 1] == k';
  }
}
