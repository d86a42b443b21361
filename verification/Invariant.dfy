/** What every step of either peer keeps true of a flow id. */
module Invariant {
  import opened Frames
  import opened Peer
  import opened Lanes

  // ---- A side without a stream ----

  predicate Blank(s: Side) {
    && s.cfg.Valid()
    && s.stream == NO_STREAM && s.drops == 0 && s.requests == []
    && s.hist.written == [] && s.hist.taken == [] && s.hist.read == []
    && s.hist.dropResets == 0 && !s.hist.accepted && s.hist.bindAnswers == [] && s.hist.replies == []
    && Body(s.hist.log) == [] && Finishes(s.hist.log) == 0 && FinishEnds(s.hist.log)
  }

  /** Nothing requested yet. */
  predicate New(s: Side) {
    Blank(s) && s.slot == Absent && s.unsent == None && s.hist.use == Unused && s.hist.answers == [] && s.hist.asked == None
  }

  /** The slot is in the table, the `Connect` is not queued yet. */
  predicate Inserted(s: Side) {
    && Blank(s) && s.slot == Requested && s.hist.use == ForStream && s.hist.answers == []
    && s.unsent.Some? && s.unsent.value.StreamTo? && s.hist.asked == s.unsent
  }

  /** The `Connect` is queued, no answer yet. */
  predicate Asking(s: Side) {
    Blank(s) && s.slot == Requested && s.unsent == None && s.hist.use == ForStream && s.hist.answers == []
  }

  /** The peer rejected the flow id. */
  predicate Refused(s: Side) {
    Blank(s) && s.slot == Absent && s.unsent == None && s.hist.use == ForStream && s.hist.answers == [Rejected]
  }

  // ---- Handshake: no stream yet at either side ----

  /** A `Connect` with the sender's window, for what its user asked for. */
  predicate IsConnect(x: Payload, from: Side) {
    x.Connect? && x.rwnd == from.cfg.rwnd && from.hist.asked == Some(StreamTo(x.targetPort, x.targetHost))
  }

  predicate OneConnect(c: seq<Payload>, from: Side) { |c| == 1 && IsConnect(c[0], from) }
  predicate OneReset(c: seq<Payload>) { |c| == 1 && c[0].Reset? }
  predicate ConnectReset(c: seq<Payload>, from: Side) { |c| == 2 && IsConnect(c[0], from) && c[1].Reset? }
  predicate ResetConnect(c: seq<Payload>, from: Side) { |c| == 2 && c[0].Reset? && IsConnect(c[1], from) }

  /** No frame in flight. */
  predicate HandshakeQuiet(l: Lane) {
    && l.lr == [] && l.rl == []
    && ((New(l.left) && New(l.right)) || (Inserted(l.left) && New(l.right)) || (Inserted(l.left) && Inserted(l.right))
        || (Refused(l.left) && Inserted(l.right)) || (Refused(l.left) && Refused(l.right)))
  }

  /** The left side's `Connect` is the only frame in flight. */
  predicate HandshakeOffer(l: Lane) {
    && Asking(l.left) && OneConnect(l.lr, l.left) && l.rl == []
    && (New(l.right) || Inserted(l.right) || Refused(l.right))
  }

  /** A rejection of the left side's `Connect` is the only frame in flight. */
  predicate HandshakeRefusal(l: Lane) {
    && Asking(l.left) && l.lr == [] && OneReset(l.rl)
    && (Inserted(l.right) || Refused(l.right))
  }

  /** Both sides have sent a `Connect` with the same id. */
  predicate HandshakeCrossed(l: Lane) {
    && Asking(l.left) && Asking(l.right)
    && ((l.lr == [] && ResetConnect(l.rl, l.right))
        || (OneConnect(l.lr, l.left) && OneConnect(l.rl, l.right))
        || (ConnectReset(l.lr, l.left) && l.rl == [])
        || (OneReset(l.lr) && OneReset(l.rl)))
  }

  predicate HalfHandshake(l: Lane) {
    HandshakeQuiet(l) || HandshakeOffer(l) || HandshakeRefusal(l) || HandshakeCrossed(l)
  }

  predicate Handshaking(l: Lane) { HalfHandshake(l) || HalfHandshake(Swap(l)) }

  // ---- A side with a stream ----

  predicate Alive(s: Side) { s.stream.owner == Waiting || s.stream.owner == User }

  predicate HandleOk(s: Side) {
    && s.stream.owner != Nobody
    && (s.stream.pending != None ==>
          && s.stream.owner == User
          && (s.stream.pending.value.Push? || (s.stream.pending.value.Finish? && s.stream.finishSent))
          && (s.stream.pending.value.Push? && s.slot == Established ==> !s.stream.finishSent))
    && (s.stream.owner == Dropped ==> s.stream.queue == [] && s.stream.buf == [])
  }

  /** An established slot has its stream alive, or its id in the dropped-ports queue. */
  predicate DropsOk(s: Side) {
    && s.drops <= 1
    && (Alive(s) ==> s.drops == 0)
    && (s.stream.owner == Dropped && s.slot == Established ==> s.drops == 1)
  }

  predicate ReadingOk(s: Side) {
    && s.hist.read <= Flat(s.hist.taken)
    && (Alive(s) ==> Flat(s.hist.taken) == s.hist.read + s.stream.buf)
  }

  predicate LogOk(s: Side) {
    && FinishEnds(s.hist.log)
    && (!s.stream.finishSent ==> Finishes(s.hist.log) == 0)
    && (s.stream.pending != None ==> Finishes(s.hist.log) == 0)
    && Finishes(s.hist.log) + s.hist.dropResets <= 1
    && (s.hist.dropResets > 0 ==> s.slot == Absent && s.stream.owner == Dropped)
    && (s.hist.accepted ==> Body(s.hist.log) != [] && Body(s.hist.log)[0] == Acknowledge(s.cfg.rwnd))
  }

  predicate StreamOk(s: Side) {
    && s.cfg.Valid()
    && (s.slot == Absent || s.slot == Established)
    && s.unsent == None && s.requests == [] && s.hist.use == ForStream
    && s.hist.bindAnswers == [] && s.hist.replies == []
    && s.stream.recvdSince < s.stream.threshold
    && (s.slot == Absent ==> s.stream.finishSent && !s.stream.readOpen)
    && (if s.hist.accepted then s.hist.answers == [] || s.hist.answers == [Rejected] else s.hist.answers == [GotStream])
    && HandleOk(s) && DropsOk(s) && ReadingOk(s) && LogOk(s)
  }

  // ---- One direction of an open stream: frames `c` from `s` to `t`, `d` back ----

  function PendingPush(s: Side): nat {
    if s.stream.pending != None && s.stream.pending.value.Push? then 1 else 0
  }

  /** The window of `t`, wherever it is. */
  function Window(s: Side, t: Side, c: seq<Payload>, d: seq<Payload>): nat {
    s.stream.credit + PendingPush(s) + |Data(c)| + |t.stream.queue| + t.stream.recvdSince + AckSum(d)
  }

  predicate CreditOk(s: Side, t: Side, c: seq<Payload>, d: seq<Payload>) {
    && Window(s, t, c, d) <= t.cfg.rwnd
    && (s.slot == Established && Alive(t) ==> Window(s, t, c, d) == t.cfg.rwnd)
  }

  predicate DeliveryOk(s: Side, t: Side, c: seq<Payload>) {
    && t.hist.taken <= s.hist.written
    && (Alive(t) ==> s.hist.written == t.hist.taken + t.stream.queue + Data(c))
  }

  /** Once `t` has lost its receiving end, `s` has nothing more for it. */
  predicate EofOk(s: Side, t: Side, c: seq<Payload>) {
    t.slot == Established && !t.stream.readOpen ==>
      Data(c) == [] && Finishes(c) == 0 && s.stream.finishSent && s.stream.pending == None
  }

  predicate FinishOk(s: Side, t: Side, c: seq<Payload>) {
    && (Finishes(c) > 0 ==> s.stream.finishSent && s.stream.pending == None)
    && (s.slot == Established && s.stream.finishSent && s.stream.pending == None ==>
          Finishes(c) > 0 || t.slot == Absent || !t.stream.readOpen)
  }

  predicate ResetOk(s: Side, t: Side, c: seq<Payload>, d: seq<Payload>) {
    && (Alive(s) ==> Resets(c) == 0)
    && (Resets(c) > 0 ==> s.slot == Absent)
    // a live stream loses its slot only to a peer that has dropped its own
    && (s.slot == Absent && Alive(s) ==> t.stream.owner == Dropped && t.slot == Absent && OnlyResets(d))
    // a slot outlives the peer's only until the `Reset` or `Finish` arrives
    && (s.slot == Established && t.slot == Absent ==> Resets(d) > 0 || Finishes(d) > 0 || !s.stream.readOpen)
  }

  /** The acceptor's stream is to go where the requester asked. */
  predicate DestinationOk(s: Side, t: Side) {
    t.hist.accepted ==> t.stream.dest.StreamTo? && s.hist.asked == Some(t.stream.dest)
  }

  predicate Direction(s: Side, t: Side, c: seq<Payload>, d: seq<Payload>) {
    && s.stream.threshold == Min(s.cfg.threshold, t.cfg.rwnd)
    && !(s.hist.accepted && t.hist.accepted) && (s.hist.accepted || t.hist.accepted)
    && Ordered(c) && DestinationOk(s, t)
    && CreditOk(s, t, c, d) && DeliveryOk(s, t, c) && EofOk(s, t, c) && FinishOk(s, t, c) && ResetOk(s, t, c, d)
  }

  predicate Opened(l: Lane) {
    match l
    case Lane(left, right, lr, rl) =>
      && StreamOk(left) && StreamOk(right)
      && Direction(left, right, lr, rl) && Direction(right, left, rl, lr)
  }

  /** The right side has accepted, its `Acknowledge` is first in line: the lane is the
      open lane it becomes when that frame arrives. */
  predicate Accepted(l: Lane) {
    && Asking(l.left) && l.right.cfg.Valid()
    && l.lr == [] && l.rl != [] && l.rl[0] == Acknowledge(l.right.cfg.rwnd)
    && Opened(Answered(l))
  }

  function Answered(l: Lane): Lane
    requires l.rl != []
  {
    Lane(FinishHandshake(l.left, l.right.cfg.rwnd), l.right, l.lr, l.rl[1..])
  }

  predicate StreamLane(l: Lane) {
    Handshaking(l) || Accepted(l) || Accepted(Swap(l)) || Opened(l)
  }

  // ---- `Bind`: the left side asked, the right side decides ----

  /** What a sequence of replies says: `Finish` accepts, `Reset` rejects. */
  function Verdicts(c: seq<Payload>): seq<bool> {
    if c == [] then [] else [c[0].Finish?] + Verdicts(c[1..])
  }

  predicate RepliesOnly(c: seq<Payload>) {
    forall x :: x in c ==> x.Finish? || x.Reset?
  }

  predicate NoData(s: Side) {
    s.hist.written == [] && s.hist.taken == [] && s.hist.read == [] && !s.hist.accepted
  }

  predicate BindParties(s: Side, t: Side) {
    && NoData(s) && NoData(t)
    && s.cfg.Valid() && t.cfg.Valid()
    && s.stream == NO_STREAM && t.stream == NO_STREAM && s.drops == 0 && t.drops == 0
    && s.hist.use == ForBind && s.requests == [] && s.hist.answers == []
    && s.hist.asked.Some? && s.hist.asked.value.BindTo?
    && t.hist.use == Unused && t.slot == Absent && t.unsent == None && t.hist.answers == []
    && t.hist.bindAnswers == [] && s.hist.replies == []
  }

  predicate IsBind(x: Payload, from: Side) {
    x.Bind? && from.hist.asked == Some(BindTo(x.bindType, x.bindPort, x.bindHost))
  }

  /** The `Bind` has not reached the other side. */
  predicate BindAsked(l: Lane) {
    && l.left.slot == BindRequested && l.left.hist.bindAnswers == []
    && l.right.requests == [] && l.right.hist.replies == [] && l.rl == []
    && if l.left.unsent.Some? then l.left.unsent == l.left.hist.asked && l.lr == []
       else |l.lr| == 1 && IsBind(l.lr[0], l.left)
  }

  /** The other side's user has the request, or has let it go. */
  predicate BindArrived(l: Lane) {
    && l.left.unsent == None && RepliesOnly(l.rl) && OnlyResets(l.lr)
    // the user has what was asked for, or has let it go; or the side takes no binds
    && (l.right.requests == [] || Some(l.right.requests[0]) == l.left.hist.asked)
    && |l.right.requests| <= 1 && (l.right.requests == [] ==> l.right.hist.replies != [])
    && (!l.right.cfg.acceptsBind ==> l.right.requests == [] && l.right.hist.replies == [false])
    && if l.left.slot == BindRequested
       then l.left.hist.bindAnswers == [] && l.lr == [] && Verdicts(l.rl) == l.right.hist.replies
       else l.left.slot == Absent && l.right.hist.replies != [] && l.left.hist.bindAnswers == [l.right.hist.replies[0]]
  }

  predicate BindLane(l: Lane) {
    BindParties(l.left, l.right) && (BindAsked(l) || BindArrived(l))
  }

  predicate Inv(l: Lane) {
    StreamLane(l) || BindLane(l) || BindLane(Swap(l))
  }
}
