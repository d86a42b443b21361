/** One peer's view of one flow id.

    A `Side` gathers what the source keeps for a flow id: the entry of the shared
    flow table, the cells shared between that entry and the `MuxStream` handed to
    the user, the `MuxStream`'s own fields, and how often the id sits in the
    dropped-ports queue. `History` records what happened since the id was last
    free; no step reads it, except that `use` stands for the assumption that ids
    are not handed out again while traces of their last use survive.

    Every function returns the new side and the frames it puts on the outgoing queue. */
module Peer {
  import opened Frames

  datatype Config = Config(rwnd: U32, threshold: U32, acceptsBind: bool) {
    /** `Options` panics on a zero window or a zero threshold. */
    predicate Valid() { rwnd > 0 && threshold > 0 }
  }

  datatype Slot = Absent | Requested | Established | BindRequested

  /** Where the `MuxStream` is: not made, in the accept queue or the oneshot,
      with the user, or dropped by the user. */
  datatype Owner = Nobody | Waiting | User | Dropped

  /** What a call of `new_stream_channel` or `request_bind` asks for. */
  datatype Ask = StreamTo(port: U16, host: Bytes) | BindTo(kind: BindType, port: U16, host: Bytes)

  /** A stream we asked for does not carry its destination. */
  const NOWHERE := StreamTo(0, [])

  datatype Stream = Stream(
    owner: Owner,
    finishSent: bool,          // shared: writes must fail
    credit: nat,               // shared: `psh_send_remaining`
    readOpen: bool,            // the flow table still holds the queue's sender
    queue: seq<Bytes>,         // received, not yet taken by the reader
    recvdSince: nat,           // taken since the last credit `Acknowledge`
    threshold: nat,
    buf: Bytes,                // what is left of the chunk taken last
    pending: Option<Payload>,  // permission obtained, frame not queued yet
    dest: Ask)                 // where an accepted stream is to go

  datatype Use = Unused | ForStream | ForBind

  /** What a requesting `new_stream_channel` call learns about its flow id:
      a stream, `None` (it retries with another id), or a closed oneshot. */
  datatype Answer = GotStream | Rejected | Hangup

  datatype History = History(
    use: Use,                  // what this side has used the id for
    asked: Option<Ask>,        // what our user asked for with this id
    answers: seq<Answer>,
    written: seq<Bytes>,       // chunks accepted by completed writes
    taken: seq<Bytes>,         // chunks the reader has taken off the queue
    read: Bytes,               // bytes the reader has consumed
    log: seq<Payload>,         // frames put on the outgoing queue
    dropResets: nat,           // of those, `Reset`s sent for a dropped stream
    accepted: bool,            // the stream was made by a received `Connect`
    bindAnswers: seq<bool>,
    replies: seq<bool>)        // replies given to the peer's `Bind`

  datatype Side = Side(
    cfg: Config,
    slot: Slot,
    unsent: Option<Ask>,       // a request in the table whose frame is not queued yet
    drops: nat,                // occurrences of this id in the dropped-ports queue
    requests: seq<Ask>,        // `BindRequest`s the user still holds
    stream: Stream,
    hist: History)

  const NO_STREAM := Stream(Nobody, false, 0, false, [], 0, 0, [], None, NOWHERE)
  const NO_HISTORY := History(Unused, None, [], [], [], [], [], 0, false, [], [])

  function Fresh(cfg: Config): Side {
    Side(cfg, Absent, None, 0, [], NO_STREAM, NO_HISTORY)
  }

  datatype Out = Out(side: Side, emit: seq<Payload>)

  function Quiet(s: Side): Out { Out(s, []) }

  /** Put one frame on the outgoing queue. */
  function Send(s: Side, x: Payload): Out {
    Out(s.(hist := s.hist.(log := s.hist.log + [x])), [x])
  }

  function Min(a: int, b: int): int { if a <= b then a else b }

  /** `new_stream_shared`: both ends of a new stream. The acknowledgement threshold
      is clamped by the peer's window, the receive queue is sized by our own. */
  function NewStream(s: Side, peerRwnd: U32, dest: Ask): Side {
    s.(slot := Established,
       stream := Stream(Waiting, false, peerRwnd, true, [], 0, Min(s.cfg.threshold, peerRwnd), [], None, dest),
       hist := s.hist.(use := ForStream))
  }

  /** `close_port` and `close_port_local`. */
  function ClosePort(s: Side, inhibitReset: bool): Out {
    match s.slot
    case Absent => Quiet(s)
    case Established =>
      var closed := s.(slot := Absent, stream := s.stream.(finishSent := true, readOpen := false));
      if !s.stream.finishSent && !inhibitReset then Send(closed, Reset) else Quiet(closed)
    case Requested =>
      Quiet(s.(slot := Absent, hist := s.hist.(answers := s.hist.answers + [Rejected])))
    case BindRequested =>
      Quiet(s.(slot := Absent, hist := s.hist.(bindAnswers := s.hist.bindAnswers + [false])))
  }

  /** `con_recv_new_stream`. */
  function ReceiveConnect(s: Side, peerRwnd: U32, dest: Ask): Out {
    if s.slot != Absent then
      Send(s, Reset)
    else
      var made := NewStream(s, peerRwnd, dest);
      Send(made.(hist := made.hist.(accepted := true)), Acknowledge(s.cfg.rwnd))
  }

  /** `ack_recv_new_stream`: finish our own handshake. */
  function FinishHandshake(s: Side, peerRwnd: U32): Side {
    var made := NewStream(s, peerRwnd, NOWHERE);
    made.(hist := made.hist.(answers := made.hist.answers + [GotStream]))
  }

  function ReceiveAcknowledge(s: Side, count: U32): Out {
    match s.slot
    case Established => Quiet(s.(stream := s.stream.(credit := (s.stream.credit + count) % TWO_32)))
    case Requested => Quiet(FinishHandshake(s, count))
    case BindRequested => Send(s, Reset)
    case Absent => Send(s, Reset)
  }

  function ReceiveFinish(s: Side): Out {
    match s.slot
    case Absent => Send(s, Reset)
    case BindRequested =>
      Quiet(s.(slot := Absent, hist := s.hist.(bindAnswers := s.hist.bindAnswers + [true])))
    case Requested =>
      Send(s.(slot := Absent, hist := s.hist.(answers := s.hist.answers + [Hangup])), Reset)
    case Established => Quiet(s.(stream := s.stream.(readOpen := false)))
  }

  /** The bounded receive queue has no room left: `TrySendError::Full`. */
  predicate QueueFull(s: Side) { |s.stream.queue| >= s.cfg.rwnd }

  function ReceivePush(s: Side, data: Bytes): Out {
    if s.slot != Established || !s.stream.readOpen then Send(s, Reset)
    else if s.stream.owner == Dropped then Quiet(s)
    else if QueueFull(s) then ClosePort(s, false)
    else Quiet(s.(stream := s.stream.(queue := s.stream.queue + [data])))
  }

  function ReceiveBind(s: Side, ask: Ask): Out {
    if s.cfg.acceptsBind then Quiet(s.(requests := s.requests + [ask])) else ReplyOn(s, false)
  }

  /** `process_frame`, for the side that owns the frame's flow id. */
  function Receive(s: Side, x: Payload): Out {
    match x
    case Connect(rwnd, port, host) => ReceiveConnect(s, rwnd, StreamTo(port, host))
    case Acknowledge(count) => ReceiveAcknowledge(s, count)
    case Finish => ReceiveFinish(s)
    case Reset => ClosePort(s, true)
    case Push(data) => ReceivePush(s, data)
    case Bind(kind, port, host) => ReceiveBind(s, BindTo(kind, port, host))
    case Datagram(_, _, _) => Quiet(s)
  }

  /** What the user and the dropped-ports loop can do to a flow id. */
  datatype Action =
    | Insert(port: U16, host: Bytes)          // new_stream_channel, first half
    | SendConnect                             // new_stream_channel, second half
    | Take                                    // the user gets the MuxStream
    | BeginWrite(data: Bytes)                 // poll_write up to the permission
    | BeginShutdown                           // shutdown_inner up to the swap
    | EmitPending                             // the frame_tx.send of either
    | FillBuf                                 // poll_fill_buf
    | Consume(amount: nat)                    // consume
    | DropStream                              // Drop for MuxStream
    | ProcessDrop                             // process_dropped_ports_task
    | InsertBind(kind: BindType, bindPort: U16, bindHost: Bytes)   // request_bind, first half
    | SendBind                                // request_bind, second half
    | Reply(accept: bool)                     // BindRequest::reply
    | DropRequest(which: nat)                 // Drop for BindRequest

  /** A handle method runs to its end before the next one starts, so nothing but
      `EmitPending` happens on a handle with a pending frame. */
  predicate HandleFree(s: Side) { s.stream.owner == User && s.stream.pending == None }

  predicate Enabled(s: Side, a: Action) {
    match a
    case Insert(_, _) => s.hist.use == Unused && s.slot == Absent
    case SendConnect => s.unsent.Some? && s.unsent.value.StreamTo?
    case Take => s.stream.owner == Waiting
    case BeginWrite(_) => HandleFree(s)
    case BeginShutdown => HandleFree(s)
    case EmitPending => s.stream.pending != None
    case FillBuf => HandleFree(s)
    case Consume(amount) => HandleFree(s) && amount <= |s.stream.buf|
    case DropStream => HandleFree(s)
    case ProcessDrop => s.drops > 0
    case InsertBind(_, _, _) => s.hist.use == Unused && s.slot == Absent
    case SendBind => s.unsent.Some? && s.unsent.value.BindTo?
    case Reply(_) => s.requests != []
    case DropRequest(which) => which < |s.requests|
  }

  /** `poll_obtain_write_permission`, its checks and its exchange taken together. */
  function BeginWriteOn(s: Side, data: Bytes): Side {
    if s.stream.finishSent || s.stream.credit == 0 then s
    else s.(stream := s.stream.(credit := s.stream.credit - 1, pending := Some(Push(data))))
  }

  function BeginShutdownOn(s: Side): Side {
    if s.stream.finishSent then s
    else s.(stream := s.stream.(finishSent := true, pending := Some(Finish)))
  }

  function EmitOn(s: Side): Out
    requires s.stream.pending != None
  {
    var x := s.stream.pending.value;
    var done := s.(stream := s.stream.(pending := None));
    Send(if x.Push? then done.(hist := done.hist.(written := done.hist.written + [x.data])) else done, x)
  }

  /** `increment_psh_recvd_since`. */
  function CountTaken(s: Side): Out {
    var n := s.stream.recvdSince + 1;
    if n >= s.stream.threshold then
      Send(s.(stream := s.stream.(recvdSince := 0)), Acknowledge(n % TWO_32))
    else
      Quiet(s.(stream := s.stream.(recvdSince := n)))
  }

  function FillOn(s: Side): Out {
    if s.stream.buf != [] || s.stream.queue == [] then Quiet(s)
    else
      var next := s.stream.queue[0];
      CountTaken(s.(stream := s.stream.(queue := s.stream.queue[1..], buf := next),
                    hist := s.hist.(taken := s.hist.taken + [next])))
  }

  function ConsumeOn(s: Side, amount: nat): Side
    requires amount <= |s.stream.buf|
  {
    s.(stream := s.stream.(buf := s.stream.buf[amount..]),
       hist := s.hist.(read := s.hist.read + s.stream.buf[..amount]))
  }

  function DropOn(s: Side): Side {
    s.(stream := s.stream.(owner := Dropped, queue := [], buf := []), drops := s.drops + 1)
  }

  function ProcessDropOn(s: Side): Out
    requires s.drops > 0
  {
    var o := ClosePort(s.(drops := s.drops - 1), false);
    o.(side := o.side.(hist := o.side.hist.(dropResets := o.side.hist.dropResets + |o.emit|)))
  }

  function ReplyOn(s: Side, accept: bool): Out {
    Send(s.(hist := s.hist.(replies := s.hist.replies + [accept])), if accept then Finish else Reset)
  }

  /** A request is in the table, its frame is still to be sent. */
  function Asked(s: Side, use: Use, ask: Ask): Side {
    s.(unsent := Some(ask), hist := s.hist.(use := use, asked := Some(ask)))
  }

  function Perform(s: Side, a: Action): Out
    requires Enabled(s, a)
  {
    match a
    case Insert(port, host) => Quiet(Asked(s.(slot := Requested), ForStream, StreamTo(port, host)))
    case SendConnect => Send(s.(unsent := None), Connect(s.cfg.rwnd, s.unsent.value.port, s.unsent.value.host))
    case Take => Quiet(s.(stream := s.stream.(owner := User)))
    case BeginWrite(data) => Quiet(BeginWriteOn(s, data))
    case BeginShutdown => Quiet(BeginShutdownOn(s))
    case EmitPending => EmitOn(s)
    case FillBuf => FillOn(s)
    case Consume(amount) => Quiet(ConsumeOn(s, amount))
    case DropStream => Quiet(DropOn(s))
    case ProcessDrop => ProcessDropOn(s)
    case InsertBind(kind, port, host) => Quiet(Asked(s.(slot := BindRequested), ForBind, BindTo(kind, port, host)))
    case SendBind =>
      var ask := s.unsent.value;
      Send(s.(unsent := None), Bind(ask.kind, ask.port, ask.host))
    case Reply(accept) => ReplyOn(s, accept)
    case DropRequest(which) =>
      ReplyOn(s.(requests := s.requests[..which] + s.requests[which + 1..]), false)
  }
}
