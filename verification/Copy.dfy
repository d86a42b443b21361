/** `CopyBidirectional`: forwarding between a stream and another reader/writer, poll by
    poll. What the other side answers comes as a script, so a run of polls with all
    scripts covers every schedule of pending calls, partial writes and ends of file. */
module Copying {
  import opened Frames
  import opened Lanes

  datatype ReadState = Transferring(amount: nat) | ShuttingDown(amount: nat) | ReadDone(amount: nat)
  datatype WriteState = Sending(amount: nat) | WriteDone(amount: nat)

  /** Answer of the other side's `poll_write`: it took some of what was offered. */
  datatype WriteReply = WriteBlocked | WriteFailed | Took(n: nat)

  /** Answer of the other side's `poll_fill_buf` when its buffer is empty. */
  datatype FillReply = FillBlocked | FillFailed | Filled(bytes: Bytes)

  datatype ShutReply = ShutBlocked | ShutFailed | Shut

  datatype Poll = Pending | Failed | Ready(amount: nat)

  /** The chunks ahead of the first empty one: what a reader gets that takes an empty read
      for the end of the stream. */
  function BeforeEmpty(chunks: seq<Bytes>): seq<Bytes> {
    if chunks == [] || chunks[0] == [] then [] else [chunks[0]] + BeforeEmpty(chunks[1..])
  }

  lemma {:induction false} BeforeFirstEmpty(a: seq<Bytes>, b: seq<Bytes>)
    requires [] !in a
    ensures BeforeEmpty(a) == a && BeforeEmpty(a + [[]] + b) == a
  {
    if a != [] {
      assert a[0] in a && a == [a[0]] + a[1..];
      assert (a + [[]] + b)[1..] == a[1..] + [[]] + b;
      BeforeFirstEmpty(a[1..], b);
    }
  }

  /** Only empty chunks follow an empty chunk. */
  predicate EmptyOnlyAtEnd(chunks: seq<Bytes>) {
    forall i, j :: 0 <= i < j < |chunks| && chunks[i] == [] ==> chunks[j] == []
  }

  lemma {:induction false} FlatEmpty(chunks: seq<Bytes>)
    ensures Flat(chunks) == [] <==> forall i :: 0 <= i < |chunks| ==> chunks[i] == []
  {
    if chunks != [] {
      FlatEmpty(chunks[1..]);
      assert forall i :: 1 <= i < |chunks| ==> chunks[i] == chunks[1..][i - 1];
    }
  }

  /** Stopping at the first empty chunk loses nothing if and only if nothing but empty
      chunks follows it. */
  lemma {:induction false} StopsAtEmpty(chunks: seq<Bytes>)
    ensures Flat(BeforeEmpty(chunks)) == Flat(chunks) <==> EmptyOnlyAtEnd(chunks)
  {
    if chunks != [] {
      var rest := chunks[1..];
      assert forall i :: 1 <= i < |chunks| ==> chunks[i] == rest[i - 1];
      if chunks[0] == [] {
        FlatEmpty(rest);
      } else {
        StopsAtEmpty(rest);
        assert BeforeEmpty(chunks)[1..] == BeforeEmpty(rest);
        assert Flat(chunks) == chunks[0] + Flat(rest) && Flat(BeforeEmpty(chunks)) == chunks[0] + Flat(BeforeEmpty(rest));
        assert Flat(rest) == Flat(chunks)[|chunks[0]|..] && Flat(BeforeEmpty(rest)) == Flat(BeforeEmpty(chunks))[|chunks[0]|..];
        assert EmptyOnlyAtEnd(chunks) <==> EmptyOnlyAtEnd(rest);
      }
    }
  }

  lemma FlatAppend(chunks: seq<Bytes>, c: Bytes)
    ensures Flat(chunks + [c]) == Flat(chunks) + c
  {
    FlatConcat(chunks, [c]);
    assert Flat([c]) == c;
  }

  function Sum(ns: seq<nat>): nat {
    if ns == [] then 0 else Sum(ns[..|ns| - 1]) + ns[|ns| - 1]
  }

  /** What a poll reports that has got as far as shutting the other side down. */
  function ShutResult(reply: ShutReply, amount: nat): Poll {
    match reply { case ShutBlocked => Pending case ShutFailed => Failed case Shut => Ready(amount) }
  }

  // ---- What a poll does, as a function of the answers it gets ----

  /** Our stream on its way to the other side. */
  datatype Flow = Flow(inbox: seq<Bytes>, buf: Bytes, sink: Bytes)

  /** Why `poll_read_us` stops: nothing more for now, the end, an answer, or no more answers. */
  datatype Stop = Drained | AtEnd | Blocked | Failing | Unanswered

  /** After `poll_fill_buf`. */
  function Filling(f: Flow): Flow {
    if f.buf != [] || f.inbox == [] then f else Flow(f.inbox[1..], f.inbox[0], f.sink)
  }

  /** Once around the loop; `Unanswered` goes around again. */
  function Turn(f: Flow, open: bool, write: WriteReply): (Flow, Stop) {
    if f.buf == [] && f.inbox == [] && open then (f, Drained)
    else
      var g := Filling(f);
      if g.buf == [] then (g, AtEnd)
      else
        match write
        case WriteBlocked => (g, Blocked)
        case WriteFailed => (g, Failing)
        case Took(n) => (Moved(g, n), Unanswered)
  }

  function Play(f: Flow, open: bool, writes: seq<WriteReply>): (Flow, Stop)
    decreases |writes|
  {
    if writes == [] then (f, Unanswered)
    else
      var (g, stop) := Turn(f, open, writes[0]);
      if stop == Unanswered then Play(g, open, writes[1..]) else (g, stop)
  }

  /** The other side took `n` bytes of what it was offered. */
  function Moved(f: Flow, n: nat): Flow {
    var m := if n <= |f.buf| then n else |f.buf|;
    Flow(f.inbox, f.buf[m..], f.sink + f.buf[..m])
  }

  /** Every answer counts: the bytes taken leave the buffer from the front, reach the other
      side, and the next answer is about what is left. */
  lemma TookMoves(f: Flow, open: bool, n: nat, rest: seq<WriteReply>)
    requires f.buf != []
    ensures n <= |f.buf| ==>
      Play(f, open, [Took(n)] + rest) == Play(Flow(f.inbox, f.buf[n..], f.sink + f.buf[..n]), open, rest)
    ensures n > |f.buf| ==>
      Play(f, open, [Took(n)] + rest) == Play(Flow(f.inbox, [], f.sink + f.buf), open, rest)
  {
    assert ([Took(n)] + rest)[1..] == rest;
    assert f.buf[|f.buf|..] == [] && f.buf[..|f.buf|] == f.buf;
  }

  lemma FillingKeeps(f: Flow)
    ensures var g := Filling(f); g.sink == f.sink && g.buf + Flat(g.inbox) == f.buf + Flat(f.inbox)
  {
  }

  lemma MovedKeeps(f: Flow, n: nat)
    ensures var g := Moved(f, n);
      && f.sink <= g.sink && g.sink + (g.buf + Flat(g.inbox)) == f.sink + (f.buf + Flat(f.inbox))
      && (n > 0 && f.buf != [] ==> |g.sink| > |f.sink|)
  {
    var m := if n <= |f.buf| then n else |f.buf|;
    SplitAt(f.sink, f.buf, Flat(f.inbox), m);
  }

  lemma SplitAt(a: Bytes, b: Bytes, c: Bytes, m: nat)
    requires m <= |b|
    ensures a + (b + c) == (a + b[..m]) + (b[m..] + c)
  {
    assert b == b[..m] + b[m..];
  }

  /** One turn keeps every byte in order, and stops only for a reason. */
  lemma TurnStops(f: Flow, open: bool, write: WriteReply)
    ensures var (g, stop) := Turn(f, open, write);
      && f.sink <= g.sink
      && g.sink + (g.buf + Flat(g.inbox)) == f.sink + (f.buf + Flat(f.inbox))
      && (stop == Drained ==> g.buf == [] && g.inbox == [] && open)
      && (stop == Blocked ==> write == WriteBlocked)
      && (stop == Failing ==> write == WriteFailed)
      && (stop == Unanswered ==> write.Took? && (write.n > 0 ==> |g.sink| > |f.sink|))
  {
    FillingKeeps(f);
    if write.Took? { MovedKeeps(Filling(f), write.n); }
  }

  /** So does a poll. */
  lemma {:induction false} PlayStops(f: Flow, open: bool, writes: seq<WriteReply>)
    ensures var (g, stop) := Play(f, open, writes);
      && f.sink <= g.sink
      && g.sink + (g.buf + Flat(g.inbox)) == f.sink + (f.buf + Flat(f.inbox))
      && (stop == Drained ==> g.buf == [] && g.inbox == [] && open)
      && (stop == Blocked ==> WriteBlocked in writes)
      && (stop == Failing ==> WriteFailed in writes)
      && (stop == Unanswered ==> forall i :: 0 <= i < |writes| ==> writes[i].Took?)
    decreases |writes|
  {
    if writes != [] {
      TurnStops(f, open, writes[0]);
      assert writes[0] in writes;
      var (g, stop) := Turn(f, open, writes[0]);
      if stop == Unanswered { PlayStops(g, open, writes[1..]); }
    }
  }

  /** If the other side takes something each time, a poll that runs out of answers has moved
      a byte for each of them; so with more answers than bytes it ends otherwise. */
  lemma {:induction false} PlayMoves(f: Flow, open: bool, writes: seq<WriteReply>)
    requires forall i :: 0 <= i < |writes| ==> writes[i].Took? && writes[i].n > 0
    ensures var (g, stop) := Play(f, open, writes);
      && (stop == Unanswered ==> |g.sink| >= |f.sink| + |writes|)
      && (stop == Unanswered || stop == Drained || stop == AtEnd)
    decreases |writes|
  {
    if writes != [] {
      TurnStops(f, open, writes[0]);
      var (g, stop) := Turn(f, open, writes[0]);
      if stop == Unanswered { PlayMoves(g, open, writes[1..]); }
    }
  }

  lemma PlayNext(f: Flow, open: bool, writes: seq<WriteReply>, i: nat)
    requires i < |writes|
    ensures var (g, stop) := Turn(f, open, writes[i]);
      Play(f, open, writes[i..]) == if stop == Unanswered then Play(g, open, writes[i + 1..]) else (g, stop)
  {
    assert writes[i..][0] == writes[i] && writes[i..][1..] == writes[i + 1..];
  }

  lemma EnoughAnswers(f: Flow, open: bool, writes: seq<WriteReply>)
    requires forall i :: 0 <= i < |writes| ==> writes[i].Took? && writes[i].n > 0
    requires |writes| > |f.buf| + |Flat(f.inbox)|
    ensures var stop := Play(f, open, writes).1; stop == Drained || stop == AtEnd
  {
    PlayMoves(f, open, writes);
    PlayStops(f, open, writes);
    var g := Play(f, open, writes).0;
    assert |g.sink + (g.buf + Flat(g.inbox))| == |f.sink + (f.buf + Flat(f.inbox))|;
  }

  /** The other side's bytes on their way into our stream. */
  datatype Feed = Feed(source: Bytes, credit: nat, pushed: seq<Bytes>)

  /** Why `poll_write_us` stops. */
  datatype FeedStop = NothingToSend | SourceFailed | SourceEnded | NoCredit | Broken | NoMore

  /** Once around the loop; `NoMore` goes around again. */
  function Round(f: Feed, open: bool, queueClosed: bool, fill: FillReply): (Feed, FeedStop) {
    match if f.source != [] then Filled(f.source) else fill
    case FillBlocked => (f, NothingToSend)
    case FillFailed => (f, SourceFailed)
    case Filled(bytes) =>
      if bytes == [] then (f, SourceEnded)
      else if !open then (f.(source := bytes), Broken)
      else if f.credit == 0 then (f.(source := bytes), NoCredit)
      else if queueClosed then (Feed(bytes, f.credit - 1, f.pushed), Broken)
      else (Feed([], f.credit - 1, f.pushed + [bytes]), NoMore)
  }

  /** Once the buffer is filled, a turn goes on from there. */
  lemma RoundIs(f: Feed, open: bool, queueClosed: bool, fill: FillReply, bytes: Bytes)
    requires Filled(bytes) == if f.source != [] then Filled(f.source) else fill
    ensures Round(f, open, queueClosed, fill) ==
      if bytes == [] then (f.(source := bytes), SourceEnded)
      else Round(f.(source := bytes), open, queueClosed, FillBlocked)
  {
  }

  function Draw(f: Feed, open: bool, queueClosed: bool, fills: seq<FillReply>): (Feed, FeedStop)
    decreases |fills|
  {
    if fills == [] then (f, NoMore)
    else
      var (g, stop) := Round(f, open, queueClosed, fills[0]);
      if stop == NoMore then Draw(g, open, queueClosed, fills[1..]) else (g, stop)
  }

  /** What `poll_write_us` reports where it stops; `finished` if ours could be finished. */
  predicate Reports(stop: FeedStop, finished: bool, p: Poll) {
    match stop
    case NothingToSend => p == Pending
    case SourceFailed => p == Failed
    case SourceEnded => if finished then p.Ready? else p == Failed
    case NoCredit => p == Pending
    case Broken => p == Failed
    case NoMore => p == Pending
  }

  /** One frame for each buffer, one credit for each frame, and a stop only for a reason. */
  lemma {:induction false} DrawStops(f: Feed, open: bool, queueClosed: bool, fills: seq<FillReply>)
    ensures var (g, stop) := Draw(f, open, queueClosed, fills);
      && f.pushed <= g.pushed
      && (stop != Broken ==> g.credit + |g.pushed| == f.credit + |f.pushed|)
      && (stop == NothingToSend ==> FillBlocked in fills && g.source == [])
      && (stop == SourceFailed ==> FillFailed in fills)
      && (stop == SourceEnded ==> Filled([]) in fills && g.source == [])
      && (stop == NoCredit ==> g.credit == 0 && g.source != [])
      && (stop == NoMore ==> |g.pushed| == |f.pushed| + |fills|)
      && (stop == Broken ==> !open || queueClosed)
    decreases |fills|
  {
    if fills != [] {
      assert fills[0] in fills;
      var (g, stop) := Round(f, open, queueClosed, fills[0]);
      if stop == NoMore { DrawStops(g, open, queueClosed, fills[1..]); }
    }
  }

  lemma DrawNext(f: Feed, open: bool, queueClosed: bool, fills: seq<FillReply>, i: nat)
    requires i < |fills|
    ensures var (g, stop) := Round(f, open, queueClosed, fills[i]);
      Draw(f, open, queueClosed, fills[i..]) == if stop == NoMore then Draw(g, open, queueClosed, fills[i + 1..]) else (g, stop)
  {
    assert fills[i..][0] == fills[i] && fills[i..][1..] == fills[i + 1..];
  }

  /** With credit for all of them, every buffer offered becomes a frame, as it is, in order. */
  lemma {:induction false} DrawForwards(f: Feed, bufs: seq<Bytes>, rest: seq<FillReply>)
    requires f.source == [] && |bufs| <= f.credit && [] !in bufs
    ensures var fills := seq(|bufs|, i requires 0 <= i < |bufs| => Filled(bufs[i])) + rest;
      Draw(f, true, false, fills) == Draw(Feed([], f.credit - |bufs|, f.pushed + bufs), true, false, rest)
    decreases |bufs|
  {
    var fills := seq(|bufs|, i requires 0 <= i < |bufs| => Filled(bufs[i])) + rest;
    if bufs == [] {
      assert fills == rest && f.pushed + bufs == f.pushed;
    } else {
      var g := Feed([], f.credit - 1, f.pushed + [bufs[0]]);
      assert bufs[0] in bufs && fills[0] == Filled(bufs[0]);
      assert fills[1..] == seq(|bufs[1..]|, i requires 0 <= i < |bufs[1..]| => Filled(bufs[1..][i])) + rest;
      DrawForwards(g, bufs[1..], rest);
      assert g.pushed + bufs[1..] == f.pushed + bufs;
    }
  }

  class CopyBidirectional {
    const threshold: nat
    // our stream
    var inbox: seq<Bytes>
    var readOpen: bool
    var buf: Bytes
    var credit: nat
    var finishSent: bool
    var recvdSince: nat        // chunks taken since the last `Acknowledge`
    var pushed: seq<Bytes>     // `Push` frames queued
    var finishes: nat          // `Finish` frames queued
    var acks: seq<nat>         // counts of the `Acknowledge` frames made
    // the other side
    var sink: Bytes            // what it has accepted
    var sinkShut: bool
    var source: Bytes          // what its read buffer holds
    // the future
    var readState: ReadState
    var writeState: WriteState
    // history
    var arrived: seq<Bytes>    // every chunk the peer has sent us
    var chunks: seq<Bytes>     // of those, the ones taken off the inbox
    var offered: Bytes         // every byte the other side has offered
    var granted: nat           // every credit we were ever given
    var broken: nat            // credits spent on a frame the closed queue refused

    /** We saw the end of our stream, or an empty chunk that looks like it. */
    ghost predicate Ended()
      reads this`buf, this`inbox, this`readOpen, this`chunks
    {
      buf == [] && ((inbox == [] && !readOpen && [] !in chunks) || EndedByEmpty())
    }

    ghost predicate EndedByEmpty()
      reads this`chunks
    {
      chunks != [] && chunks[|chunks| - 1] == [] && [] !in chunks[..|chunks| - 1]
    }

    /** Nothing is lost, repeated or reordered on the way out of our stream. */
    ghost predicate OutOk()
      reads this`arrived, this`chunks, this`inbox, this`sink, this`buf, this`readState
    {
      arrived == chunks + inbox && Flat(chunks) == sink + buf && readState.amount == |sink|
    }

    /** Each chunk taken is acknowledged or counted. */
    ghost predicate CountOk()
      reads this`chunks, this`acks, this`recvdSince
    {
      |chunks| == Sum(acks) + recvdSince && recvdSince < threshold
    }

    /** The other side is shut down only when all of it has got there. */
    ghost predicate EndOk()
      reads this`readState, this`sinkShut, this`buf, this`inbox, this`readOpen, this`chunks
    {
      (!readState.Transferring? ==> Ended()) && sinkShut == readState.ReadDone?
    }

    /** Nothing is lost, repeated or reordered on the way in: one frame, one credit. */
    ghost predicate InOk()
      reads this`offered, this`pushed, this`source, this`writeState, this`finishSent, this`granted, this`credit, this`broken
    {
      && offered == Flat(pushed) + source
      && writeState.amount == |Flat(pushed)|
      && (writeState.WriteDone? ==> source == [] && finishSent)
      && granted == credit + |pushed| + broken
    }

    ghost predicate Core()
      reads this
    {
      OutOk() && CountOk() && EndOk() && InOk()
    }

    /** Between polls, an empty chunk has been acted upon. */
    ghost predicate Valid()
      reads this
    {
      Core() && (readState.Transferring? ==> [] !in chunks)
    }

    constructor (initialCredit: nat, threshold: nat)
      requires threshold > 0
      ensures Valid() && arrived == [] && offered == [] && sink == [] && pushed == [] && granted == initialCredit
      ensures readState == Transferring(0) && writeState == Sending(0) && readOpen
      ensures inbox == [] && buf == [] && source == [] && !finishSent
    {
      inbox, readOpen, buf, credit, finishSent, pushed, finishes := [], true, [], initialCredit, false, [], 0;
      sink, sinkShut, source := [], false, [];
      recvdSince, acks, this.threshold := 0, [], threshold;
      readState, writeState := Transferring(0), Sending(0);
      arrived, chunks, offered, granted, broken := [], [], [], initialCredit, 0;
    }

    // ---- What the mux task does between polls ----

    method Arrive(data: Bytes)
      requires Valid() && readOpen
      modifies this`inbox, this`arrived
      ensures Valid() && arrived == old(arrived) + [data] && inbox == old(inbox) + [data]
    {
      inbox := inbox + [data];
      arrived := arrived + [data];
    }

    method CloseInbox()
      requires Valid()
      modifies this`readOpen
      ensures Valid() && !readOpen
    {
      readOpen := false;
    }

    method Acknowledge(n: nat)
      requires Valid()
      modifies this`credit, this`granted
      ensures Valid() && granted == old(granted) + n
    {
      credit := credit + n;
      granted := granted + n;
    }

    method DisallowWrite()
      requires Valid()
      modifies this`finishSent
      ensures Valid() && finishSent
    {
      finishSent := true;
    }

    // ---- The future ----

    /** `increment_psh_recvd_since`, whether or not the frame can still be queued. */
    method CountChunk()
      requires recvdSince < threshold
      modifies this`recvdSince, this`acks
      ensures recvdSince < threshold && Sum(acks) + recvdSince == old(Sum(acks) + recvdSince) + 1
      ensures acks == old(acks) || acks == old(acks) + [threshold]
    {
      recvdSince := recvdSince + 1;
      if recvdSince >= threshold {
        acks := acks + [recvdSince];
        assert acks[..|acks| - 1] == old(acks);
        recvdSince := 0;
      }
    }

    /** Take the next chunk off the inbox. */
    method TakeChunk()
      requires Valid() && readState.Transferring? && buf == [] && inbox != []
      modifies this`inbox, this`buf, this`chunks, this`recvdSince, this`acks
      ensures OutOk() && CountOk() && chunks == old(chunks) + [buf]
      ensures buf == old(inbox)[0] && inbox == old(inbox)[1..]
    {
      var next := inbox[0];
      FlatAppend(chunks, next);
      assert Flat(chunks) == sink by { assert sink + [] == sink; }
      assert chunks + inbox == (chunks + [next]) + inbox[1..];
      chunks := chunks + [next];
      inbox := inbox[1..];
      buf := next;
      CountChunk();
    }

    /** `poll_fill_buf` on our stream: pending, or what is in the buffer afterwards. */
    method FillUs() returns (ready: bool)
      requires Valid() && readState.Transferring?
      modifies this`inbox, this`buf, this`chunks, this`recvdSince, this`acks
      ensures Core() && old(chunks) <= chunks
      ensures Flow(inbox, buf, sink) == Filling(old(Flow(inbox, buf, sink)))
      ensures ready == !(old(buf) == [] && old(inbox) == [] && readOpen)
      ensures if ready && buf == [] then Ended() else Valid()
    {
      if buf != [] { return true; }
      if inbox == [] { return !readOpen; }
      ghost var was := chunks;
      TakeChunk();
      assert chunks[..|was|] == was;
      return true;
    }

    method TryShutdown(reply: ShutReply) returns (p: Poll)
      requires Valid() && readState.ShuttingDown?
      modifies this`readState, this`sinkShut
      ensures Valid()
      ensures p == ShutResult(reply, |sink|)
      ensures p.Ready? == readState.ReadDone?
      ensures p.Ready? ==> sinkShut
    {
      match reply {
        case ShutBlocked => return Pending;
        case ShutFailed => return Failed;
        case Shut =>
          readState := ReadDone(readState.amount);
          sinkShut := true;
          return Ready(readState.amount);
      }
    }

    /** The other side took `n` bytes of the buffer. */
    method Forward(n: nat)
      requires Valid() && readState.Transferring? && n <= |buf|
      modifies this`buf, this`sink, this`readState
      ensures Valid() && readState.Transferring?
      ensures sink == old(sink) + old(buf)[..n] && buf == old(buf)[n..]
    {
      assert sink + buf == (sink + buf[..n]) + buf[n..];
      sink := sink + buf[..n];
      buf := buf[n..];
      readState := Transferring(readState.amount + n);
    }

    /** We are at our end: start to shut the other side down. */
    method EndTransfer(shut: ShutReply) returns (p: Poll)
      requires Core() && readState.Transferring? && Ended()
      modifies this`sinkShut, this`readState
      ensures Valid() && p == ShutResult(shut, |sink|)
      ensures p.Ready? ==> readState.ReadDone? && p.amount == |sink| && sinkShut
    {
      readState := ShuttingDown(readState.amount);
      p := TryShutdown(shut);
    }

    /** Once around the loop of `poll_read_us`; `done` if that returns. What the other side
        took of the buffer is consumed, forwarded and counted. */
    method TransferOnce(write: WriteReply, shut: ShutReply) returns (done: bool, p: Poll)
      requires Valid() && readState.Transferring?
      modifies this`inbox, this`buf, this`chunks, this`recvdSince, this`acks, this`sink, this`sinkShut, this`readState
      ensures Valid() && old(chunks) <= chunks
      ensures !done ==> readState.Transferring?
      ensures done && p.Ready? ==> readState.ReadDone? && p.amount == |sink| && sinkShut
      ensures done == !Turn(old(Flow(inbox, buf, sink)), readOpen, write).1.Unanswered?
      ensures Turned(Turn(old(Flow(inbox, buf, sink)), readOpen, write), shut, p)
    {
      var ready := FillUs();
      if !ready { return true, Pending; }
      if buf == [] {
        p := EndTransfer(shut);
        return true, p;
      }
      match write {
        case WriteBlocked => return true, Pending;
        case WriteFailed => return true, Failed;
        case Took(n) => Forward(if n <= |buf| then n else |buf|);
      }
      return false, Pending;
    }

    /** `poll_read_us` while there may be more to transfer. */
    method TransferOut(writes: seq<WriteReply>, shut: ShutReply) returns (p: Poll)
      requires Valid() && readState.Transferring?
      modifies this`inbox, this`buf, this`chunks, this`recvdSince, this`acks, this`sink, this`sinkShut, this`readState
      ensures Valid() && old(chunks) <= chunks
      ensures p.Ready? ==> readState.ReadDone? && p.amount == |sink| && sinkShut
      ensures Turned(Play(old(Flow(inbox, buf, sink)), readOpen, writes), shut, p)
    {
      ghost var f := Flow(inbox, buf, sink);
      assert writes[0..] == writes;
      for i := 0 to |writes|
        invariant Valid() && readState.Transferring? && old(chunks) <= chunks
        invariant Play(f, readOpen, writes) == Play(Flow(inbox, buf, sink), readOpen, writes[i..])
      {
        PlayNext(Flow(inbox, buf, sink), readOpen, writes, i);
        var done;
        done, p := TransferOnce(writes[i], shut);
        if done { return; }
      }
      return Pending;
    }

    /** The stream is where this says, and the poll reports why it stopped there. */
    predicate Turned(end: (Flow, Stop), shut: ShutReply, p: Poll)
      reads this`inbox, this`buf, this`sink
    {
      && Flow(inbox, buf, sink) == end.0
      && p == match end.1 {
           case Drained => Pending
           case AtEnd => ShutResult(shut, |sink|)
           case Blocked => Pending
           case Failing => Failed
           case Unanswered => Pending
         }
    }

    /** Forwarding is pending only while there is nothing to forward, the other side blocks, or
        there are no more answers, each of which moved what it took. */
    lemma ReadPendsOnlyIf(f: Flow, writes: seq<WriteReply>, shut: ShutReply, p: Poll)
      requires Turned(Play(f, readOpen, writes), shut, p) && p.Pending?
      ensures
        || (buf == [] && inbox == [] && readOpen) || WriteBlocked in writes || shut == ShutBlocked
        || forall i :: 0 <= i < |writes| ==> writes[i].Took?
    {
      PlayStops(f, readOpen, writes);
    }

    /** What a finished transfer has delivered: every chunk ahead of the first empty one. */
    lemma SinkHolds()
      requires Valid() && !readState.Transferring?
      ensures sink == Flat(BeforeEmpty(arrived))
      ensures sink == Flat(arrived) <==> EmptyOnlyAtEnd(arrived)
    {
      assert sink + [] == sink;
      if EndedByEmpty() {
        var kept := chunks[..|chunks| - 1];
        assert chunks == kept + [[]] && arrived == kept + [[]] + inbox;
        BeforeFirstEmpty(kept, inbox);
        FlatConcat(kept, [[]]);
        assert Flat([[]]) == [] && Flat(kept) + [] == Flat(kept);
      } else {
        assert arrived == chunks;
        BeforeFirstEmpty(chunks, []);
      }
      StopsAtEmpty(arrived);
    }

    /** `poll_read_us`. Ready means that everything of ours ahead of an empty chunk got there
        and the other side was shut down after it; it is everything of ours if and only if
        nothing but empty chunks followed. */
    method PollReadUs(writes: seq<WriteReply>, shut: ShutReply) returns (p: Poll)
      requires Valid()
      modifies this`inbox, this`buf, this`chunks, this`recvdSince, this`acks, this`sink, this`sinkShut, this`readState
      ensures Valid()
      ensures old(sink) <= sink && old(chunks) <= chunks
      ensures p.Ready? ==> readState.ReadDone? && p.amount == |sink| && sinkShut
      ensures p.Ready? ==> sink == Flat(BeforeEmpty(arrived)) && (sink == Flat(arrived) <==> EmptyOnlyAtEnd(arrived))
      ensures old(readState).ReadDone? ==> p == Ready(|sink|)
      ensures old(readState).ShuttingDown? ==> p == ShutResult(shut, |sink|)
      ensures !old(readState).Transferring? ==> Flow(inbox, buf, sink) == old(Flow(inbox, buf, sink))
      ensures old(readState).Transferring? ==> Turned(Play(old(Flow(inbox, buf, sink)), readOpen, writes), shut, p)
    {
      PlayStops(Flow(inbox, buf, sink), readOpen, writes);
      match readState {
        case ReadDone(n) => p := Ready(n);
        case ShuttingDown(_) => p := TryShutdown(shut);
        case Transferring(_) => p := TransferOut(writes, shut);
      }
      if p.Ready? { SinkHolds(); }
    }

    /** `poll_fill_buf` on the other side: its buffer if it holds anything, else more. */
    method FillOther(reply: FillReply) returns (p: Poll)
      requires Valid() && writeState.Sending?
      modifies this`source, this`offered
      ensures Valid()
      ensures var got := if old(source) != [] then Filled(old(source)) else reply;
        match got
        case FillBlocked => p == Pending && source == []
        case FillFailed => p == Failed && source == []
        case Filled(bytes) => p == Ready(|bytes|) && source == bytes
      ensures old(source) == [] && reply == Filled([]) ==> offered == old(offered)
    {
      if source != [] { return Ready(|source|); }
      match reply {
        case FillBlocked => return Pending;
        case FillFailed => return Failed;
        case Filled(bytes) =>
          source := bytes;
          offered := offered + bytes;
          return Ready(|source|);
      }
    }

    /** The frame is queued, the buffer consumed. */
    method QueueSource()
      requires Valid() && writeState.Sending? && source != [] && credit > 0
      modifies this`credit, this`pushed, this`source, this`writeState
      ensures Valid() && writeState.Sending?
      ensures pushed == old(pushed) + [old(source)] && source == [] && credit == old(credit) - 1
    {
      FlatAppend(pushed, source);
      assert Flat(pushed) + source == (Flat(pushed) + source) + [];
      credit := credit - 1;
      pushed := pushed + [source];
      writeState := Sending(writeState.amount + |source|);
      source := [];
    }

    /** Queue the whole of the other side's buffer as one `Push`, for one credit. */
    method PushSource(queueClosed: bool) returns (p: Poll)
      requires Valid() && writeState.Sending? && source != []
      modifies this`credit, this`pushed, this`source, this`writeState, this`broken
      ensures Valid() && writeState.Sending?
      ensures p == if finishSent then Failed else if old(credit) == 0 then Pending
                   else if queueClosed then Failed else Ready(|old(source)|)
      ensures p.Ready? ==> pushed == old(pushed) + [old(source)] && source == [] && credit == old(credit) - 1
      ensures !p.Ready? ==> pushed == old(pushed) && source == old(source)
      ensures credit == old(credit) - (if finishSent || old(credit) == 0 then 0 else 1)
    {
      if finishSent { return Failed; }
      if credit == 0 { return Pending; }
      if queueClosed {
        credit := credit - 1;
        broken := broken + 1;
        return Failed;
      }
      p := Ready(|source|);
      QueueSource();
    }

    /** `shutdown_inner`. */
    method ShutdownUs(queueClosed: bool) returns (ok: bool)
      requires Valid()
      modifies this`finishSent, this`finishes
      ensures Valid() && finishSent
      ensures ok == (old(finishSent) || !queueClosed)
      ensures finishes == old(finishes) + (if !old(finishSent) && !queueClosed then 1 else 0)
    {
      if finishSent { return true; }
      finishSent := true;
      if queueClosed { return false; }
      finishes := finishes + 1;
      return true;
    }

    /** The other side is at its end: finish ours. */
    method FinishSending(queueClosed: bool) returns (p: Poll)
      requires Valid() && writeState.Sending? && source == []
      modifies this`finishSent, this`finishes, this`writeState
      ensures Valid() && !p.Pending? && p.Ready? == (old(finishSent) || !queueClosed)
      ensures finishSent && finishes == old(finishes) + (if !old(finishSent) && !queueClosed then 1 else 0)
      ensures p.Ready? ==> writeState.WriteDone? && p.amount == |offered| && Flat(pushed) == offered && finishSent
    {
      assert Flat(pushed) + [] == Flat(pushed);
      var ok := ShutdownUs(queueClosed);
      if !ok { return Failed; }
      writeState := WriteDone(writeState.amount);
      return Ready(writeState.amount);
    }

    /** The other side's bytes are where this says, and the poll reports why it stopped there.
        At the other side's end ours is finished, once. */
    twostate predicate Drawn(end: (Feed, FeedStop), queueClosed: bool, p: Poll)
      reads this`source, this`credit, this`pushed, this`finishes, this`finishSent
    {
      && Feed(source, credit, pushed) == end.0
      && finishes == old(finishes) + (if end.1 == SourceEnded && !old(finishSent) && !queueClosed then 1 else 0)
      && finishSent == (old(finishSent) || end.1 == SourceEnded)
      && (end.1 != NoMore ==> Reports(end.1, old(finishSent) || !queueClosed, p))
    }

    /** The other side's buffer holds something: send it, or say why not. */
    method SendBuffer(queueClosed: bool) returns (done: bool, p: Poll)
      requires Valid() && writeState.Sending? && source != []
      modifies this`credit, this`pushed, this`source, this`writeState, this`broken
      ensures Valid() && writeState.Sending?
      ensures var end := Round(old(Feed(source, credit, pushed)), !finishSent, queueClosed, FillBlocked);
        done == !end.1.NoMore? && Drawn(end, queueClosed, p) && (done ==> !p.Ready?)
    {
      p := PushSource(queueClosed);
      done := !p.Ready?;
    }

    /** The other side is at its end. */
    method SendEnd(queueClosed: bool) returns (p: Poll)
      requires Valid() && writeState.Sending? && source == []
      modifies this`finishSent, this`finishes, this`writeState
      ensures Valid()
      ensures p.Ready? ==> writeState.WriteDone? && p.amount == |offered| && Flat(pushed) == offered && finishSent
      ensures Drawn((Feed(source, credit, pushed), SourceEnded), queueClosed, p)
    {
      p := FinishSending(queueClosed);
    }

    /** Once around the loop of `poll_write_us`; `done` if that returns. */
    method SendOnce(fill: FillReply, queueClosed: bool) returns (done: bool, p: Poll)
      requires Valid() && writeState.Sending?
      modifies this`credit, this`pushed, this`source, this`offered, this`writeState, this`broken, this`finishSent, this`finishes
      ensures Valid()
      ensures done && p.Ready? ==> writeState.WriteDone? && p.amount == |offered| && Flat(pushed) == offered && finishSent
      ensures !done ==> writeState.Sending?
      ensures var end := Round(old(Feed(source, credit, pushed)), !old(finishSent), queueClosed, fill);
        done == !end.1.NoMore? && Drawn(end, queueClosed, p)
    {
      ghost var f, open := Feed(source, credit, pushed), !finishSent;
      p := FillOther(fill);
      done := true;
      if p.Ready? {
        RoundIs(f, open, queueClosed, fill, source);
        if source == [] { p := SendEnd(queueClosed); } else { done, p := SendBuffer(queueClosed); }
      }
    }

    /** Sending is pending only while the other side blocks, while a buffer waits for credit, or
        when there are no more answers, each of which became a frame. */
    twostate lemma WritePendsOnlyIf(f: Feed, queueClosed: bool, fills: seq<FillReply>, p: Poll)
      requires Drawn(Draw(f, !old(finishSent), queueClosed, fills), queueClosed, p) && p.Pending?
      ensures FillBlocked in fills || (credit == 0 && source != []) || |pushed| == |f.pushed| + |fills|
    {
      DrawStops(f, !old(finishSent), queueClosed, fills);
    }

    /** `poll_write_us`: move the other side's bytes into our stream, one frame per buffer.
        Ready means that all it offered is queued and our end is finished. */
    method PollWriteUs(fills: seq<FillReply>, queueClosed: bool) returns (p: Poll)
      requires Valid()
      modifies this`credit, this`pushed, this`source, this`offered, this`writeState, this`broken, this`finishSent, this`finishes
      ensures Valid() && old(pushed) <= pushed
      ensures p.Ready? ==> writeState.WriteDone? && p.amount == |offered| && Flat(pushed) == offered && finishSent
      ensures old(writeState).WriteDone? ==> p.Ready? && pushed == old(pushed) && credit == old(credit)
      ensures old(writeState).Sending? ==>
        var end := Draw(old(Feed(source, credit, pushed)), !old(finishSent), queueClosed, fills);
        Drawn(end, queueClosed, p) && (end.1 == NoMore ==> p == Pending)
    {
      if writeState.WriteDone? {
        assert Flat(pushed) + [] == Flat(pushed);
        return Ready(writeState.amount);
      }
      DrawStops(Feed(source, credit, pushed), !finishSent, queueClosed, fills);
      p := SendAll(fills, queueClosed);
    }

    method SendAll(fills: seq<FillReply>, queueClosed: bool) returns (p: Poll)
      requires Valid() && writeState.Sending?
      modifies this`credit, this`pushed, this`source, this`offered, this`writeState, this`broken, this`finishSent, this`finishes
      ensures Valid()
      ensures p.Ready? ==> writeState.WriteDone? && p.amount == |offered| && Flat(pushed) == offered && finishSent
      ensures var end := Draw(old(Feed(source, credit, pushed)), !old(finishSent), queueClosed, fills);
        Drawn(end, queueClosed, p) && (end.1 == NoMore ==> p == Pending)
    {
      ghost var f := Feed(source, credit, pushed);
      ghost var open := !finishSent;
      assert fills[0..] == fills;
      for i := 0 to |fills|
        invariant Valid() && writeState.Sending? && finishSent == old(finishSent) && finishes == old(finishes)
        invariant Draw(f, open, queueClosed, fills) == Draw(Feed(source, credit, pushed), open, queueClosed, fills[i..])
      {
        DrawNext(Feed(source, credit, pushed), open, queueClosed, fills, i);
        var done;
        done, p := SendOnce(fills[i], queueClosed);
        if done { return; }
      }
      return Pending;
    }

    /** `poll` of the future: both directions, and ready when both are. A ready future has
        moved every byte of the other side, and of ours every byte ahead of the first
        empty chunk; it has lost nothing if and only if nothing but empty chunks followed. */
    method PollBoth(writes: seq<WriteReply>, shut: ShutReply, fills: seq<FillReply>, queueClosed: bool)
        returns (r: Poll, w: Poll)
      requires Valid()
      modifies this`inbox, this`buf, this`chunks, this`recvdSince, this`acks, this`sink, this`sinkShut, this`readState
      modifies this`credit, this`pushed, this`source, this`offered, this`writeState, this`broken, this`finishSent, this`finishes
      ensures Valid()
      ensures r.Ready? && w.Ready? ==>
        && r.amount == |sink| && w.amount == |offered| && Flat(pushed) == offered && finishSent && sinkShut
        && sink == Flat(BeforeEmpty(arrived))
        && (sink == Flat(arrived) <==> EmptyOnlyAtEnd(arrived))
      ensures old(readState).Transferring? ==> Turned(Play(old(Flow(inbox, buf, sink)), readOpen, writes), shut, r)
      ensures old(writeState).Sending? ==>
        Drawn(Draw(old(Feed(source, credit, pushed)), !old(finishSent), queueClosed, fills), queueClosed, w)
    {
      r := PollReadUs(writes, shut);
      w := PollWriteUs(fills, queueClosed);
    }
  }

  /** An empty chunk at the head ends a poll, an empty fill ends the other. */
  lemma EmptyEnds(inbox: seq<Bytes>, write: WriteReply, credit: nat)
    requires inbox != [] && inbox[0] == []
    ensures Play(Flow(inbox, [], []), true, [write]) == (Flow(inbox[1..], [], []), AtEnd)
    ensures Draw(Feed([], credit, []), true, false, [Filled([])]) == (Feed([], credit, []), SourceEnded)
  {
  }

  /** A new copy with an empty chunk ahead of some data. */
  method EmptyChunkFirst(data: Bytes) returns (copy: CopyBidirectional)
    ensures fresh(copy) && copy.Valid() && copy.readOpen && copy.arrived == copy.inbox == [[], data]
    ensures copy.readState.Transferring? && copy.writeState.Sending? && !copy.finishSent
    ensures copy.buf == [] && copy.sink == [] && copy.source == [] && copy.pushed == [] && copy.offered == []
  {
    copy := new CopyBidirectional(1, 1);
    copy.Arrive([]);
    copy.Arrive(data);
  }

  /** Bytes can be lost this way: an empty chunk ends the copy with data queued behind it,
      while the peer has not finished. */
  method EmptyChunkEndsCopy(data: Bytes) returns (copy: CopyBidirectional, r: Poll, w: Poll)
    requires data != []
    ensures copy.Valid() && copy.readOpen
    ensures r == Ready(0) && w.Ready? && copy.arrived == [[], data] && copy.sink == []
  {
    copy := EmptyChunkFirst(data);
    EmptyEnds(copy.inbox, Took(1), copy.credit);
    r, w := copy.PollBoth([Took(1)], Shut, [Filled([])], false);
  }
}
