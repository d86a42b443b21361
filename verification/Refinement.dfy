/** Two objects of `Multiplexor` and the frames between them are a link: whatever a method
    does to an object, a move of the link does to the peer it represents, and the other
    object still represents the other peer. What is proved of every reachable link
    therefore holds of two such objects. */
module Refinement {
  import opened Frames
  import opened Peer
  import opened Lanes
  import opened Invariant
  import opened Links
  import opened Multiplexor
  import opened Theorems

  /** The object stands for the left peer of a link, its outgoing queue for the frames on
      their way to the right. */
  ghost predicate Represents(mux: Mux, k: Link)
    reads mux
  {
    && !mux.txClosed && !mux.userGone
    && mux.cfg == k.left.cfg && mux.droppedPorts == k.left.drops && mux.tx == k.lr
    && forall id: U32 :: mux.SideAt(id) == SideOf(k.left, id)
  }

  /** Two objects are the two peers of a reachable link. */
  ghost predicate Paired(a: Mux, b: Mux, k: Link)
    reads a, b
  {
    a != b && Reachable(k) && Represents(a, k) && Represents(b, SwapLink(k))
  }

  lemma PairedSwap(a: Mux, b: Mux, k: Link)
    requires Paired(a, b, k)
    ensures Paired(b, a, SwapLink(k))
  {
    ReachableSwap(k);
    assert SwapLink(SwapLink(k)) == k;
  }

  lemma MoveReaches(k: Link, m: LinkMove)
    requires Reachable(k) && CanMove(k, m)
    ensures Reachable(MoveLink(k, m))
  {
    ReachableStep(k, MoveLink(k, m));
  }

  /** Two new multiplexors. */
  method Connected(left: Config, right: Config) returns (a: Mux, b: Mux, ghost k: Link)
    requires left.Valid() && right.Valid()
    ensures fresh(a) && fresh(b) && Paired(a, b, k) && k == StartLink(left, right)
  {
    a := new Mux(left);
    b := new Mux(right);
    k := StartLink(left, right);
    assert LinkRun([k]) && [k][|[k]| - 1] == k;
  }

  /** A user of one object acts. */
  method ActsAlone(mux: Mux, id: U32, a: Action, ghost k: Link)
    requires Represents(mux, k) && CanMove(k, Act(id, a))
    modifies mux
    ensures Represents(mux, MoveLink(k, Act(id, a)))
  {
    ghost var k' := MoveLink(k, Act(id, a));
    mux.DoAction(id, a);
    forall j: U32 ensures mux.SideAt(j) == SideOf(k'.left, j) {
      CountAppend(k.left.drops, id, j);
      if j != id { assert mux.SideAt(j) == old(mux.SideAt(j)); }
    }
  }

  /** The other object does not notice. */
  method Acts(a: Mux, b: Mux, id: U32, action: Action, ghost k: Link)
    requires Paired(a, b, k) && CanMove(k, Act(id, action))
    modifies a
    ensures Paired(a, b, MoveLink(k, Act(id, action)))
  {
    ActsAlone(a, id, action, k);
    MoveReaches(k, Act(id, action));
  }

  /** The mux task takes the next frame off the socket. On a reachable link it succeeds, and
      a `Push` is queued, not punished. */
  method ReceiveNext(mux: Mux, f: Frame, ghost k: Link) returns (r: Outcome)
    requires Represents(mux, k) && Reachable(k) && k.rl != [] && k.rl[0] == f
    modifies mux
    ensures r == Done && Represents(mux, MoveLink(k, NextFrame))
    ensures f.payload.Push? ==> !QueueFull(old(mux.SideAt(f.id)))
  {
    ghost var k' := MoveLink(k, NextFrame);
    if f.payload.Push? { QueueNeverOverruns(k); }
    r := mux.ProcessFrame(f, false);
    assert mux.tx == k'.lr;
    forall j: U32 ensures mux.SideAt(j) == SideOf(k'.left, j) {
      if j != f.id { assert mux.SideAt(j) == old(mux.SideAt(j)); }
    }
  }

  /** The oldest frame one object has queued reaches the other. */
  method Exchange(a: Mux, b: Mux, ghost k: Link) returns (r: Outcome)
    requires Paired(a, b, k) && k.lr != []
    modifies a, b
    ensures r == Done && Paired(a, b, SwapLink(MoveLink(SwapLink(k), NextFrame)))
  {
    PairedSwap(a, b, k);
    ghost var k' := MoveLink(SwapLink(k), NextFrame);
    MoveReaches(SwapLink(k), NextFrame);
    ReachableSwap(k');
    var f := a.PopFrame();
    assert Represents(b, SwapLink(k));
    r := ReceiveNext(b, f, SwapLink(k));
    assert SwapLink(SwapLink(k')) == k';
  }

  /** The mux task takes the next id off the dropped-ports queue. It is never taken for the
      notice that the multiplexor itself was dropped. */
  method ProcessNext(a: Mux, b: Mux, ghost k: Link) returns (muxDropped: bool)
    requires Paired(a, b, k) && k.left.drops != []
    modifies a
    ensures !muxDropped && CanMove(k, NextDrop) && Paired(a, b, MoveLink(k, NextDrop))
  {
    ZeroIsNeverAFlow(k);
    ghost var id, k' := k.left.drops[0], MoveLink(k, NextDrop);
    MoveReaches(k, NextDrop);
    muxDropped := a.ProcessNextDrop();
    forall j: U32 ensures a.SideAt(j) == SideOf(k'.left, j) {
      if j != id { assert a.SideAt(j) == old(a.SideAt(j)); }
    }
  }

  method SendsDatagram(a: Mux, b: Mux, id: U32, port: U16, host: Bytes, data: Bytes, ghost k: Link)
    requires Paired(a, b, k)
    modifies a
    ensures Paired(a, b, MoveLink(k, SendDatagram(id, port, host, data)))
  {
    MoveReaches(k, SendDatagram(id, port, host, data));
    a.QueueDatagram(id, port, host, data);
  }

  /** Nothing of the last use of an id is left at either object. */
  method Reuses(a: Mux, b: Mux, id: U32, ghost k: Link)
    requires Paired(a, b, k) && CanMove(k, Reuse(id))
    modifies a, b
    ensures Paired(a, b, MoveLink(k, Reuse(id)))
  {
    MoveReaches(k, Reuse(id));
    a.Forget(id);
    b.Forget(id);
    ghost var k' := MoveLink(k, Reuse(id));
    forall j: U32 ensures a.SideAt(j) == SideOf(k'.left, j) && b.SideAt(j) == SideOf(k'.right, j) {
      if j != id { assert a.SideAt(j) == old(a.SideAt(j)) && b.SideAt(j) == old(b.SideAt(j)); }
    }
  }

  /** So two objects deliver exactly: what is read at one is a prefix of what was written at
      the other, all of it at the end of the stream, and no credit is lost or made. */
  lemma ObjectsDeliver(a: Mux, b: Mux, k: Link, id: U32)
    requires Paired(a, b, k)
    ensures var s, t := a.SideAt(id), b.SideAt(id);
      && t.hist.read <= Flat(s.hist.written)
      && (Alive(t) && AtEnd(t) ==> t.hist.read == Flat(s.hist.written))
      && Window(s, t, Only(a.tx, id), Only(b.tx, id)) <= b.cfg.rwnd
      && (s.slot == Established && Alive(t) ==> Window(s, t, Only(a.tx, id), Only(b.tx, id)) == b.cfg.rwnd)
  {
    ReadsArePrefix(k, id);
    CreditConserved(k, id);
    if Alive(SideOf(k.right, id)) { EndIsExact(k, id); }
  }
}
