/** The loops of the mux task that run over whole queues and over the whole flow table:
    dropped ports, and winding down after the multiplexor is dropped or the peer is gone. */
module WindDown {
  import opened Frames
  import opened Peer
  import opened Links
  import opened Multiplexor
  import Codec

  // ---- Dropped ports ----

  /** Ids whose drop costs a `Reset`: established, and not shut down by the user. */
  ghost function OpenIds(mux: Mux): set<U32>
    reads mux
  {
    set id | id in mux.flows && mux.flows[id].EstablishedSlot? && !mux.StreamAt(id).finishSent
  }

  /** One `Reset` for each open id, in the order of the queue, and only the first time. */
  function ResetsFor(q: seq<U32>, open: set<U32>): seq<Frame> {
    if q == [] then []
    else if q[0] in open then [Frame(q[0], Reset)] + ResetsFor(q[1..], open - {q[0]})
    else ResetsFor(q[1..], open)
  }

  /** Position of the notice that the multiplexor itself was dropped, if there is one. */
  function FirstZero(q: seq<U32>): (n: nat)
    ensures n <= |q| && 0 !in q[..n] && (n < |q| ==> q[n] == 0)
  {
    if q == [] || q[0] == 0 then 0 else 1 + FirstZero(q[1..])
  }

  /** One step of the loop below, for a stream. */
  method HandleDrop(mux: Mux)
    requires mux.droppedPorts != [] && mux.droppedPorts[0] != 0 && !mux.txClosed
    modifies mux
    ensures !mux.txClosed && mux.userGone == old(mux.userGone) && mux.droppedPorts == old(mux.droppedPorts)[1..]
    ensures var id := old(mux.droppedPorts[0]);
      && mux.SlotAt(id) == Absent
      && (forall j: U32 :: j != id ==> mux.SideAt(j) == old(mux.SideAt(j)))
      && mux.tx == old(mux.tx) + (if id in old(OpenIds(mux)) then [Frame(id, Reset)] else [])
      && OpenIds(mux) == old(OpenIds(mux)) - {id}
  {
    ghost var id := mux.droppedPorts[0];
    ghost var open := OpenIds(mux);
    var muxDropped := mux.ProcessNextDrop();
    assert Tag(id, [Reset]) == [Frame(id, Reset)];
    forall j: U32 ensures j in OpenIds(mux) <==> j in open && j != id {
      assert j != id ==> mux.SideAt(j) == old(mux.SideAt(j));
    }
  }

  /** `process_dropped_ports_task` on what is queued now. */
  method ProcessDroppedPorts(mux: Mux) returns (muxDropped: bool)
    requires !mux.txClosed
    modifies mux
    ensures var q := old(mux.droppedPorts); var n := FirstZero(q);
      && muxDropped == (n < |q|)
      && mux.droppedPorts == (if muxDropped then q[n + 1..] else [])
      && (forall id :: id in q[..n] ==> mux.SideAt(id).slot == Absent)
      && (forall id: U32 :: id !in q[..n] && id != 0 ==> mux.SideAt(id) == old(mux.SideAt(id)))
      && mux.tx == old(mux.tx) + ResetsFor(q[..n], old(OpenIds(mux)))
      && (n == 0 && muxDropped ==> mux.flows == old(mux.flows))
    ensures mux.userGone == old(mux.userGone)
  {
    ghost var q := mux.droppedPorts;
    ghost var n := FirstZero(q);
    ghost var i := 0;
    while mux.droppedPorts != [] && mux.droppedPorts[0] != 0
      invariant i <= n && mux.droppedPorts == q[i..] && !mux.txClosed && mux.userGone == old(mux.userGone)
      invariant i == 0 ==> mux.flows == old(mux.flows)
      invariant forall id :: id in q[..i] ==> mux.SideAt(id).slot == Absent
      invariant forall id: U32 :: id !in q[..i] ==> mux.SideAt(id) == old(mux.SideAt(id))
      invariant mux.tx + ResetsFor(q[i..n], OpenIds(mux)) == old(mux.tx) + ResetsFor(q[..n], old(OpenIds(mux)))
      decreases |mux.droppedPorts|
    {
      assert i < n;
      assert q[i..n][0] == q[i] && q[i..n][1..] == q[i + 1..n];
      assert forall id :: id in q[..i + 1] <==> id in q[..i] || id == q[i];
      ghost var tx, open, rest := mux.tx, OpenIds(mux), ResetsFor(q[i + 1..n], OpenIds(mux) - {q[i]});
      HandleDrop(mux);
      assert q[i] !in open ==> open - {q[i]} == open;
      assert mux.tx + rest == tx + ResetsFor(q[i..n], open);
      i := i + 1;
    }
    assert i == n;
    assert mux.tx + [] == mux.tx;
    muxDropped := mux.droppedPorts != [];
    if muxDropped { muxDropped := mux.ProcessNextDrop(); }
  }

  /** Id 0 is not protected on the receiving side. A peer that opens a stream with it makes
      the task stop as if the multiplexor had been dropped, once the user drops that stream. */
  method ZeroStreamStopsTask(mux: Mux, peerRwnd: U32) returns (r: Outcome, muxDropped: bool)
    requires !mux.txClosed && !mux.userGone && mux.SideAt(0) == Fresh(mux.cfg) && mux.droppedPorts == []
    modifies mux
    ensures r == Done && muxDropped && !mux.userGone
    ensures mux.SideAt(0).slot == Established
  {
    r := mux.ProcessFrame(Frame(0, Connect(peerRwnd, 0, [])), false);
    mux.TakeStream(0);
    mux.DropMuxStream(0);
    muxDropped := ProcessDroppedPorts(mux);
  }

  // ---- Winding down ----

  datatype Message = Binary(data: Bytes) | PingPong | CloseMessage

  datatype Wire = Sent(frame: Frame) | SocketClosed

  /** Something a user does to a flow id. */
  datatype UserAct = UserAct(id: U32, action: Action)

  /** While the task waits, messages arrive and users go on. */
  datatype Event = Arrives(message: Message) | Does(act: UserAct)

  /** Every flow id as it was at some moment. */
  type Snapshot = imap<U32, Side>

  ghost predicate Total(start: Snapshot) { forall id: U32 :: id in start }

  predicate CanAct(s: Side, act: UserAct) {
    Enabled(s, act.action) && !act.action.ProcessDrop? && Allocates(act.id, act.action)
  }

  /** What an act does to a flow id; one that is not possible does nothing. */
  function Acted(s: Side, act: UserAct, id: U32): Out {
    if act.id == id && CanAct(s, act) then Perform(s, act.action) else Quiet(s)
  }

  // ---- Before the outgoing queue is closed ----

  function AfterActs(s: Side, acts: seq<UserAct>, id: U32): Side {
    if acts == [] then s else Acted(AfterActs(s, acts[..|acts| - 1], id), acts[|acts| - 1], id).side
  }

  /** The frames these acts put on the outgoing queue. */
  ghost function QueuedBy(start: Snapshot, acts: seq<UserAct>): seq<Frame>
    requires Total(start)
  {
    if acts == [] then []
    else
      var before, act := acts[..|acts| - 1], acts[|acts| - 1];
      QueuedBy(start, before) + Tag(act.id, Acted(AfterActs(start[act.id], before, act.id), act, act.id).emit)
  }

  /** The object is where these acts lead from that start. */
  ghost predicate Follows(mux: Mux, start: Snapshot, tx: seq<Frame>, acts: seq<UserAct>)
    requires Total(start)
    reads mux
  {
    && !mux.txClosed && mux.tx == tx + QueuedBy(start, acts)
    && forall id: U32 :: mux.SideAt(id) == AfterActs(start[id], acts, id)
  }

  /** The frames one more act puts there. */
  ghost function QueuedNext(start: Snapshot, acts: seq<UserAct>, i: nat): seq<Frame>
    requires Total(start) && i < |acts|
  {
    var id := acts[i].id; Tag(id, Acted(AfterActs(start[id], acts[..i], id), acts[i], id).emit)
  }

  lemma QueuedOneMore(start: Snapshot, tx: seq<Frame>, acts: seq<UserAct>, i: nat)
    requires Total(start) && i < |acts|
    ensures tx + QueuedBy(start, acts[..i + 1]) == (tx + QueuedBy(start, acts[..i])) + QueuedNext(start, acts, i)
  {
    assert acts[..i + 1][..i] == acts[..i] && acts[..i + 1][i] == acts[i];
  }

  lemma ActedOneMore(s: Side, acts: seq<UserAct>, i: nat, id: U32)
    requires i < |acts|
    ensures AfterActs(s, acts[..i + 1], id) == Acted(AfterActs(s, acts[..i], id), acts[i], id).side
  {
    assert acts[..i + 1][..i] == acts[..i] && acts[..i + 1][i] == acts[i];
  }

  /** A user acts while the queue is open. */
  method ActHeard(mux: Mux, act: UserAct)
    requires !mux.txClosed
    modifies mux
    ensures !mux.txClosed && mux.userGone == old(mux.userGone)
    ensures mux.tx == old(mux.tx) + Tag(act.id, Acted(old(mux.SideAt(act.id)), act, act.id).emit)
    ensures forall id: U32 :: mux.SideAt(id) == Acted(old(mux.SideAt(id)), act, id).side
  {
    assert mux.tx + [] == mux.tx;
    if CanAct(mux.SideAt(act.id), act) { mux.DoAction(act.id, act.action); }
  }

  method ActOnce(mux: Mux, acts: seq<UserAct>, i: nat, ghost start: Snapshot, ghost tx: seq<Frame>)
    requires i < |acts| && Total(start) && Follows(mux, start, tx, acts[..i])
    modifies mux
    ensures mux.userGone == old(mux.userGone) && Follows(mux, start, tx, acts[..i + 1])
  {
    QueuedOneMore(start, tx, acts, i);
    ActHeard(mux, acts[i]);
    forall id: U32 ensures mux.SideAt(id) == AfterActs(start[id], acts[..i + 1], id) {
      ActedOneMore(start[id], acts, i, id);
    }
  }

  /** `yield_now` in `wind_down`: users may do anything before the queue is closed. */
  method Yield(mux: Mux, acts: seq<UserAct>, ghost start: Snapshot, ghost tx: seq<Frame>)
    requires Total(start) && Follows(mux, start, tx, [])
    modifies mux
    ensures mux.userGone == old(mux.userGone) && Follows(mux, start, tx, acts)
  {
    assert acts[..0] == [];
    for i := 0 to |acts|
      invariant mux.userGone == old(mux.userGone) && Follows(mux, start, tx, acts[..i])
    {
      ActOnce(mux, acts, i, start, tx);
    }
    assert acts[..|acts|] == acts;
  }

  // ---- After it is closed ----

  /** What an event does to one flow id once the outgoing queue is closed. */
  function Apply(s: Side, e: Event, id: U32, userGone: bool): Side {
    match e
    case Does(act) => Unheard(s, Acted(s, act, id))
    case Arrives(m) =>
      if m.Binary? && Codec.Decode(m.data).Ok? && Codec.Decode(m.data).value.id == id
      then Unheard(s, Processed(s, Codec.Decode(m.data).value.payload, true, userGone, true))
      else s
  }

  /** A flow id after a sequence of such events. */
  function After(s: Side, es: seq<Event>, id: U32, userGone: bool): Side {
    if es == [] then s else Apply(After(s, es[..|es| - 1], id, userGone), es[|es| - 1], id, userGone)
  }

  lemma AfterOneMore(s: Side, es: seq<Event>, i: nat, id: U32, userGone: bool)
    requires i < |es|
    ensures After(s, es[..i + 1], id, userGone) == Apply(After(s, es[..i], id, userGone), es[i], id, userGone)
  {
    assert es[..i + 1][..i] == es[..i] && es[..i + 1][i] == es[i];
  }

  /** The flow id a message is about, if any. */
  function IdOf(m: Message): U32 {
    if m.Binary? && Codec.Decode(m.data).Ok? then Codec.Decode(m.data).value.id else 0
  }

  /** A message that makes the task return early: bytes that do not decode, a `Connect`
      for a free id (its `Acknowledge` cannot be queued any more), or a datagram nobody
      can receive. `before` is the side of the message's own flow id. */
  predicate Fatal(m: Message, before: Side, userGone: bool) {
    m.Binary? &&
    match Codec.Decode(m.data)
    case Err(_) => true
    case Ok(f) => (f.payload.Connect? && before.slot == Absent) || (f.payload.Datagram? && userGone)
  }

  /** `process_message` once the outgoing queue is closed. */
  method ProcessMessage(mux: Mux, m: Message) returns (ok: bool)
    requires mux.txClosed
    modifies mux
    ensures mux.txClosed && mux.tx == old(mux.tx) && mux.userGone == old(mux.userGone)
    ensures forall id: U32 :: mux.SideAt(id) == Apply(old(mux.SideAt(id)), Arrives(m), id, mux.userGone)
    ensures ok == !Fatal(m, old(mux.SideAt(IdOf(m))), mux.userGone)
  {
    match m {
      case PingPong => return true;
      case CloseMessage => return true;
      case Binary(data) =>
        var decoded := Codec.DecodeFrom(data);
        match decoded {
          case Err(_) => return false;
          case Ok(f) =>
            var r := mux.ProcessFrame(f, true);
            assert mux.tx + [] == mux.tx;
            return r == Done;
        }
    }
  }

  /** A user goes on after the queue is closed. */
  method ActUnheard(mux: Mux, act: UserAct)
    requires mux.txClosed
    modifies mux
    ensures mux.txClosed && mux.tx == old(mux.tx) && mux.userGone == old(mux.userGone)
    ensures forall id: U32 :: mux.SideAt(id) == Apply(old(mux.SideAt(id)), Does(act), id, mux.userGone)
  {
    if CanAct(mux.SideAt(act.id), act) { mux.DoAction(act.id, act.action); }
    assert mux.tx + [] == mux.tx;
  }

  /** The object is where these events lead from that start. */
  ghost predicate Reflects(mux: Mux, start: Snapshot, es: seq<Event>)
    requires Total(start)
    reads mux
  {
    forall id: U32 :: mux.SideAt(id) == After(start[id], es, id, mux.userGone)
  }

  /** Event `i` is a fatal message where the events before it lead. */
  ghost predicate FatalAt(start: Snapshot, es: seq<Event>, i: nat, userGone: bool)
    requires Total(start) && i < |es|
  {
    es[i].Arrives? &&
    var id := IdOf(es[i].message); Fatal(es[i].message, After(start[id], es[..i], id, userGone), userGone)
  }

  method ProcessOne(mux: Mux, es: seq<Event>, i: nat, ghost start: Snapshot) returns (ok: bool)
    requires mux.txClosed && i < |es| && Total(start) && Reflects(mux, start, es[..i])
    modifies mux
    ensures mux.txClosed && mux.tx == old(mux.tx) && mux.userGone == old(mux.userGone)
    ensures Reflects(mux, start, es[..i + 1])
    ensures ok == !FatalAt(start, es, i, mux.userGone)
  {
    match es[i] {
      case Arrives(m) => ok := ProcessMessage(mux, m);
      case Does(act) =>
        ActUnheard(mux, act);
        ok := true;
    }
    forall id: U32 ensures mux.SideAt(id) == After(start[id], es[..i + 1], id, mux.userGone) {
      AfterOneMore(start[id], es, i, id, mux.userGone);
    }
  }

  /** The second loop of `wind_down`: what the peer had already sent. */
  method ProcessRemaining(mux: Mux, es: seq<Event>, ghost start: Snapshot) returns (ok: bool)
    requires mux.txClosed && Total(start) && Reflects(mux, start, [])
    modifies mux
    ensures mux.txClosed && mux.tx == old(mux.tx) && mux.userGone == old(mux.userGone)
    ensures ok <==> forall i :: 0 <= i < |es| ==> !FatalAt(start, es, i, mux.userGone)
    ensures ok ==> Reflects(mux, start, es)
  {
    assert es[..0] == [];
    for i := 0 to |es|
      invariant mux.txClosed && mux.tx == old(mux.tx) && mux.userGone == old(mux.userGone)
      invariant Reflects(mux, start, es[..i])
      invariant forall j :: 0 <= j < i ==> !FatalAt(start, es, j, mux.userGone)
    {
      var went := ProcessOne(mux, es, i, start);
      if !went { return false; }
    }
    assert es[..|es|] == es;
    return true;
  }

  /** Every id is as it was, or muted if it is done with. */
  ghost predicate PartlyMuted(mux: Mux, start: Snapshot, todo: set<U32>)
    requires Total(start)
    reads mux
  {
    forall id: U32 :: mux.SideAt(id) == if id in todo then start[id] else Disallowed(start[id])
  }

  method MuteOne(mux: Mux, id: U32, todo: set<U32>, ghost start: Snapshot)
    requires Total(start) && PartlyMuted(mux, start, todo) && id in todo && todo <= mux.flows.Keys
    modifies mux`streams
    ensures PartlyMuted(mux, start, todo - {id})
  {
    if mux.flows[id].EstablishedSlot? { mux.DisallowWrite(id); }
  }

  /** The first loop of `wind_down`: no stream may write any more. */
  method DisallowWrites(mux: Mux)
    modifies mux`streams
    ensures forall id: U32 :: mux.SideAt(id) == Disallowed(old(mux.SideAt(id)))
    ensures forall id :: id in mux.flows && mux.flows[id].EstablishedSlot? ==> mux.StreamAt(id).finishSent
    ensures forall id: U32 :: mux.SlotAt(id) != Established ==> mux.StreamAt(id) == old(mux.StreamAt(id))
  {
    ghost var start := imap id: U32 :: mux.SideAt(id);
    var todo := mux.flows.Keys;
    while todo != {}
      invariant todo <= mux.flows.Keys && PartlyMuted(mux, start, todo)
      decreases todo
    {
      var id :| id in todo;
      MuteOne(mux, id, todo, start);
      todo := todo - {id};
    }
  }

  /** Every id is as it was, or closed without a `Reset` if it has left the table. */
  ghost predicate PartlyDrained(mux: Mux, start: Snapshot)
    requires Total(start)
    reads mux
  {
    forall id: U32 ::
      mux.SideAt(id) == if id in mux.flows then start[id] else Peer.ClosePort(start[id], true).side
  }

  /** A silent close says nothing, whether or not the queue is closed. */
  lemma SilentClose(s: Side)
    ensures Peer.ClosePort(s, true).emit == [] && Unheard(s, Peer.ClosePort(s, true)) == Peer.ClosePort(s, true).side
  {
  }

  method DrainOne(mux: Mux, id: U32, ghost start: Snapshot)
    requires Total(start) && PartlyDrained(mux, start) && id in mux.flows
    modifies mux
    ensures PartlyDrained(mux, start) && mux.flows == old(mux.flows) - {id}
    ensures mux.tx == old(mux.tx) && mux.txClosed == old(mux.txClosed) && mux.userGone == old(mux.userGone)
  {
    SilentClose(mux.SideAt(id));
    mux.ClosePort(id, true);
    assert mux.tx + [] == mux.tx;
    forall j: U32
      ensures mux.SideAt(j) == if j in mux.flows then start[j] else Peer.ClosePort(start[j], true).side
    {
      if j != id { assert mux.SideAt(j) == old(mux.SideAt(j)); }
    }
  }

  /** The last loop of `wind_down`: every slot leaves the table, and no `Reset` is sent. */
  method DrainTable(mux: Mux)
    modifies mux
    ensures forall id: U32 :: mux.SideAt(id) == Peer.ClosePort(old(mux.SideAt(id)), true).side
    ensures mux.flows == map[] && mux.tx == old(mux.tx) && mux.txClosed == old(mux.txClosed) && mux.userGone == old(mux.userGone)
  {
    ghost var start := imap id: U32 :: mux.SideAt(id);
    while mux.flows != map[]
      invariant mux.tx == old(mux.tx) && mux.txClosed == old(mux.txClosed) && mux.userGone == old(mux.userGone)
      invariant PartlyDrained(mux, start)
      decreases mux.flows.Keys
    {
      var id :| id in mux.flows.Keys;
      DrainOne(mux, id, start);
    }
  }

  /** The socket got these frames in this order, and then was closed. */
  predicate SentInOrder(socket: seq<Wire>, q: seq<Frame>) {
    && |socket| == |q| + 1 && socket[|q|] == SocketClosed
    && forall i :: 0 <= i < |q| ==> socket[i] == Sent(q[i])
  }

  /** What one flow id gets of what the socket gets. */
  function OnWire(socket: seq<Wire>, id: U32): seq<Payload> {
    if socket == [] then []
    else (if socket[0].Sent? && socket[0].frame.id == id && !socket[0].frame.payload.Datagram?
          then [socket[0].frame.payload] else [])
         + OnWire(socket[1..], id)
  }

  /** For each flow id, in the order its frames were queued. */
  lemma {:induction false} OrderPerFlow(socket: seq<Wire>, q: seq<Frame>, id: U32)
    requires SentInOrder(socket, q)
    ensures OnWire(socket, id) == Only(q, id)
  {
    if q == [] {
      assert socket == [SocketClosed];
    } else {
      assert socket[0] == Sent(q[0]);
      forall i | 0 <= i < |q[1..]| ensures socket[1..][i] == Sent(q[1..][i]) { assert socket[i + 1] == Sent(q[i + 1]); }
      OrderPerFlow(socket[1..], q[1..], id);
    }
  }

  /** What winding down leaves of a side: writing is disallowed, users act, the queue is
      closed, messages arrive and users act on, and the slot is closed silently. */
  function WoundDown(s: Side, acts: seq<UserAct>, es: seq<Event>, id: U32, userGone: bool): Side {
    Peer.ClosePort(After(AfterActs(Disallowed(s), acts, id), es, id, userGone), true).side
  }

  /** `wind_down`, with no error from the socket. Users perform `acts` before the queue is
      closed and go on among the messages that arrive after. It reports success exactly
      when no message is fatal. Then every frame that was queued has reached the socket
      in order ahead of the close (if the peer is still interested), the table is empty,
      and each flow id is what the acts, the messages and a final silent close make of it. */
  method WindDown(mux: Mux, shouldDrain: bool, acts: seq<UserAct>, es: seq<Event>)
      returns (ok: bool, socket: seq<Wire>, ghost start: Snapshot, ghost closed: Snapshot)
    requires !mux.txClosed
    modifies mux
    ensures Total(start) && forall id: U32 :: start[id] == Disallowed(old(mux.SideAt(id)))
    ensures Total(closed) && forall id: U32 :: closed[id] == AfterActs(start[id], acts, id)
    ensures SentInOrder(socket, if shouldDrain then old(mux.tx) + QueuedBy(start, acts) else [])
    ensures mux.txClosed && mux.userGone == old(mux.userGone)
    ensures ok <==> forall i :: 0 <= i < |es| ==> !FatalAt(closed, es, i, mux.userGone)
    ensures ok ==> mux.flows == map[]
    ensures ok ==> forall id: U32 :: mux.SideAt(id) == WoundDown(old(mux.SideAt(id)), acts, es, id, mux.userGone)
  {
    start, closed := Mute(mux, acts);
    socket := [];
    if shouldDrain {
      socket := SendQueued(mux);
    }
    socket := socket + [SocketClosed];
    ok := ProcessRemaining(mux, es, closed);
    if ok { DrainTable(mux); }
  }

  /** Up to the closing of the outgoing queue. */
  method Mute(mux: Mux, acts: seq<UserAct>) returns (ghost start: Snapshot, ghost closed: Snapshot)
    requires !mux.txClosed
    modifies mux
    ensures mux.txClosed && mux.userGone == old(mux.userGone)
    ensures Total(start) && forall id: U32 :: start[id] == Disallowed(old(mux.SideAt(id)))
    ensures Total(closed) && forall id: U32 :: closed[id] == AfterActs(start[id], acts, id)
    ensures mux.tx == old(mux.tx) + QueuedBy(start, acts)
    ensures forall id: U32 :: mux.SideAt(id) == closed[id]
  {
    DisallowWrites(mux);
    start := imap id: U32 :: mux.SideAt(id);
    assert mux.tx + [] == mux.tx;
    Yield(mux, acts, start, mux.tx);
    mux.CloseTx();
    closed := imap id: U32 :: mux.SideAt(id);
  }

  /** Everything queued goes to the socket, oldest first. */
  method SendQueued(mux: Mux) returns (socket: seq<Wire>)
    modifies mux
    ensures SentInOrder(socket + [SocketClosed], old(mux.tx))
    ensures mux.txClosed == old(mux.txClosed) && mux.userGone == old(mux.userGone)
    ensures forall id: U32 :: mux.SideAt(id) == old(mux.SideAt(id))
  {
    socket := [];
    var frames := mux.TakeQueued();
    for i := 0 to |frames|
      invariant |socket| == i && forall j :: 0 <= j < i ==> socket[j] == Sent(frames[j])
    {
      socket := socket + [Sent(frames[i])];
    }
  }

  // ---- What winding down means for users ----

  /** A request waits without an answer, or has exactly one. */
  predicate OneAnswer(s: Side) {
    s.hist.use != Unused && if s.slot == Requested then s.hist.answers == [] else |s.hist.answers| == 1
  }

  predicate OneBindAnswer(s: Side) {
    s.hist.use != Unused && if s.slot == BindRequested then s.hist.bindAnswers == [] else |s.hist.bindAnswers| == 1
  }

  /** A user's act on an id that is in use leaves the slot and the answers alone. */
  lemma ActLeaves(s: Side, a: Action)
    requires Enabled(s, a) && !a.ProcessDrop? && s.hist.use != Unused
    ensures var h := Perform(s, a).side.hist;
      h.use == s.hist.use && h.answers == s.hist.answers && h.bindAnswers == s.hist.bindAnswers
    ensures Perform(s, a).side.slot == s.slot
  {
  }

  lemma ActKeepsAnswers(s: Side, act: UserAct, id: U32)
    ensures OneAnswer(s) ==> OneAnswer(Acted(s, act, id).side)
    ensures OneBindAnswer(s) ==> OneBindAnswer(Acted(s, act, id).side)
  {
    if CanAct(s, act) && s.hist.use != Unused { ActLeaves(s, act.action); }
  }

  lemma {:induction false} ActsKeepAnswers(s: Side, acts: seq<UserAct>, id: U32)
    ensures OneAnswer(s) ==> OneAnswer(AfterActs(s, acts, id))
    ensures OneBindAnswer(s) ==> OneBindAnswer(AfterActs(s, acts, id))
  {
    if acts != [] {
      ActsKeepAnswers(s, acts[..|acts| - 1], id);
      ActKeepsAnswers(AfterActs(s, acts[..|acts| - 1], id), acts[|acts| - 1], id);
    }
  }

  lemma CloseKeepsAnswers(s: Side, inhibitReset: bool)
    ensures OneAnswer(s) ==> OneAnswer(Peer.ClosePort(s, inhibitReset).side)
    ensures OneBindAnswer(s) ==> OneBindAnswer(Peer.ClosePort(s, inhibitReset).side)
  {
  }

  lemma FrameKeepsAnswers(s: Side, x: Payload, userGone: bool)
    ensures OneAnswer(s) ==> OneAnswer(Processed(s, x, true, userGone, true).side)
    ensures OneBindAnswer(s) ==> OneBindAnswer(Processed(s, x, true, userGone, true).side)
  {
    match x
    case Connect(rwnd, _, _) => assert s.slot != Absent ==> Processed(s, x, true, userGone, true) == Send(s, Reset);
    case Acknowledge(count) =>
    case Finish =>
    case Reset => CloseKeepsAnswers(s, true);
    case Push(data) => CloseKeepsAnswers(s, false);
    case Bind(_, _, _) =>
    case Datagram(_, _, _) =>
  }

  lemma ApplyKeepsAnswers(s: Side, e: Event, id: U32, userGone: bool)
    ensures OneAnswer(s) ==> OneAnswer(Apply(s, e, id, userGone))
    ensures OneBindAnswer(s) ==> OneBindAnswer(Apply(s, e, id, userGone))
  {
    match e
    case Does(act) => ActKeepsAnswers(s, act, id);
    case Arrives(m) =>
      if m.Binary? && Codec.Decode(m.data).Ok? { FrameKeepsAnswers(s, Codec.Decode(m.data).value.payload, userGone); }
  }

  lemma {:induction false} EventsKeepAnswers(s: Side, es: seq<Event>, id: U32, userGone: bool)
    ensures OneAnswer(s) ==> OneAnswer(After(s, es, id, userGone))
    ensures OneBindAnswer(s) ==> OneBindAnswer(After(s, es, id, userGone))
  {
    if es != [] {
      EventsKeepAnswers(s, es[..|es| - 1], id, userGone);
      ApplyKeepsAnswers(After(s, es[..|es| - 1], id, userGone), es[|es| - 1], id, userGone);
    }
  }

  /** After winding down nobody waits: no slot is left, each request that was pending has
      exactly one answer, rejected if nothing better had arrived, and each pending bind
      exactly one result, whatever users and the peer did meanwhile. */
  lemma NobodyWaits(s: Side, acts: seq<UserAct>, es: seq<Event>, id: U32, userGone: bool)
    ensures var last, end := After(AfterActs(Disallowed(s), acts, id), es, id, userGone), WoundDown(s, acts, es, id, userGone);
      && end.slot == Absent
      && (s.slot == Requested && OneAnswer(s) ==>
            |end.hist.answers| == 1 && (last.slot == Requested ==> end.hist.answers == [Rejected]))
      && (s.slot == BindRequested && OneBindAnswer(s) ==>
            |end.hist.bindAnswers| == 1 && (last.slot == BindRequested ==> end.hist.bindAnswers == [false]))
  {
    ActsKeepAnswers(Disallowed(s), acts, id);
    EventsKeepAnswers(AfterActs(Disallowed(s), acts, id), es, id, userGone);
  }

  /** No message about this flow id is fatal. */
  predicate Harmless(s: Side, es: seq<Event>, id: U32, userGone: bool) {
    forall i :: 0 <= i < |es| && es[i].Arrives? && IdOf(es[i].message) == id ==>
      !Fatal(es[i].message, After(s, es[..i], id, userGone), userGone)
  }

  /** No writing, and no receiving without a slot. */
  predicate Muted(s: Side) {
    && s.hist.use != Unused && s.stream.finishSent
    && (s.slot == Established || (s.slot == Absent && !s.stream.readOpen))
  }

  lemma ActKeepsMuted(s: Side, act: UserAct, id: U32)
    requires Muted(s)
    ensures Muted(Acted(s, act, id).side)
  {
  }

  lemma {:induction false} ActsKeepMuted(s: Side, acts: seq<UserAct>, id: U32)
    requires Muted(s)
    ensures Muted(AfterActs(s, acts, id))
  {
    if acts != [] {
      ActsKeepMuted(s, acts[..|acts| - 1], id);
      ActKeepsMuted(AfterActs(s, acts[..|acts| - 1], id), acts[|acts| - 1], id);
    }
  }

  lemma ApplyKeepsMuted(s: Side, e: Event, id: U32, userGone: bool)
    requires Muted(s) && (e.Arrives? && IdOf(e.message) == id ==> !Fatal(e.message, s, userGone))
    ensures Muted(Apply(s, e, id, userGone))
  {
    if e.Does? { ActKeepsMuted(s, e.act, id); }
  }

  lemma HarmlessPrefix(s: Side, es: seq<Event>, n: nat, id: U32, userGone: bool)
    requires n <= |es| && Harmless(s, es, id, userGone)
    ensures Harmless(s, es[..n], id, userGone)
  {
    forall i | 0 <= i < n && es[..n][i].Arrives? && IdOf(es[..n][i].message) == id
      ensures !Fatal(es[..n][i].message, After(s, es[..n][..i], id, userGone), userGone)
    {
      assert es[..n][i] == es[i] && es[..n][..i] == es[..i];
    }
  }

  lemma {:induction false} StaysMuted(s: Side, es: seq<Event>, id: U32, userGone: bool)
    requires Muted(s) && Harmless(s, es, id, userGone)
    ensures Muted(After(s, es, id, userGone))
  {
    if es != [] {
      var n := |es| - 1;
      HarmlessPrefix(s, es, n, id, userGone);
      StaysMuted(s, es[..n], id, userGone);
      ApplyKeepsMuted(After(s, es[..n], id, userGone), es[n], id, userGone);
    }
  }

  /** A stream that was open when winding down began can neither write nor receive after. */
  lemma StreamsAreClosed(s: Side, acts: seq<UserAct>, es: seq<Event>, id: U32, userGone: bool)
    requires s.slot == Established && s.hist.use != Unused
    requires Harmless(AfterActs(Disallowed(s), acts, id), es, id, userGone)
    ensures var end := WoundDown(s, acts, es, id, userGone); end.stream.finishSent && !end.stream.readOpen
  {
    ActsKeepMuted(Disallowed(s), acts, id);
    StaysMuted(AfterActs(Disallowed(s), acts, id), es, id, userGone);
  }

  lemma MutedActWritesNothing(s: Side, act: UserAct, id: U32)
    requires s.stream.finishSent && s.stream.pending == None
    ensures var t := Acted(s, act, id).side;
      t.hist.written == s.hist.written && t.stream.finishSent && t.stream.pending == None
  {
  }

  /** From the moment writing is disallowed no data is accepted on an established stream, but
      for a frame that had its permission before. */
  lemma {:induction false} NothingIsWritten(s: Side, acts: seq<UserAct>, id: U32)
    requires s.slot == Established && s.stream.pending == None
    ensures var t := AfterActs(Disallowed(s), acts, id);
      t.hist.written == s.hist.written && t.stream.finishSent && t.stream.pending == None
  {
    if acts != [] {
      var n := |acts| - 1;
      NothingIsWritten(s, acts[..n], id);
      MutedActWritesNothing(AfterActs(Disallowed(s), acts[..n], id), acts[n], id);
    }
  }
}
