/** Two peers and the frames between them, for one flow id.

    The outgoing queue, the WebSocket and the wire make one first-in-first-out
    sequence per direction. `Advance` is a step of the left peer; the right peer
    steps through `Swap`, so every statement is proved once. */
module Lanes {
  import opened Frames
  import opened Peer

  datatype Lane = Lane(left: Side, right: Side, lr: seq<Payload>, rl: seq<Payload>)

  function Swap(l: Lane): Lane { Lane(l.right, l.left, l.rl, l.lr) }

  function Start(left: Config, right: Config): Lane {
    Lane(Fresh(left), Fresh(right), [], [])
  }

  datatype Move =
    | Do(action: Action)
    | Deliver
    | Recycle   // nothing of the last use is left, so the id counts as free again

  /** Nothing of the last use of the id survives at this side. */
  predicate SideIdle(s: Side) {
    && s.slot == Absent && s.unsent == None && s.drops == 0 && s.requests == []
    && (s.stream.owner == Nobody || s.stream.owner == Dropped)
  }

  predicate Idle(l: Lane) {
    SideIdle(l.left) && SideIdle(l.right) && l.lr == [] && l.rl == []
  }

  /** The assumption on random ids: a `Bind` and a second request never share an id. */
  predicate IdAssumption(l: Lane, a: Action) {
    && (a.Insert? ==> l.right.hist.use != ForBind)
    && (a.InsertBind? ==> l.right.hist.use == Unused)
  }

  predicate CanAdvance(l: Lane, m: Move) {
    match m
    case Do(a) => Enabled(l.left, a) && IdAssumption(l, a)
    case Deliver => l.rl != []
    case Recycle => Idle(l)
  }

  function Advance(l: Lane, m: Move): Lane
    requires CanAdvance(l, m)
  {
    match m
    case Do(a) =>
      var o := Perform(l.left, a);
      Lane(o.side, l.right, l.lr + o.emit, l.rl)
    case Deliver =>
      var o := Receive(l.left, l.rl[0]);
      Lane(o.side, l.right, l.lr + o.emit, l.rl[1..])
    case Recycle =>
      Start(l.left.cfg, l.right.cfg)
  }

  /** One step of either peer. */
  ghost predicate Step(l: Lane, l': Lane) {
    || (exists m: Move :: CanAdvance(l, m) && l' == Advance(l, m))
    || (exists m: Move :: CanAdvance(Swap(l), m) && l' == Swap(Advance(Swap(l), m)))
  }

  // ---- What a sequence of frames carries ----

  function Data(c: seq<Payload>): seq<Bytes> {
    if c == [] then [] else (if c[0].Push? then [c[0].data] else []) + Data(c[1..])
  }

  function AckSum(c: seq<Payload>): nat {
    if c == [] then 0 else (if c[0].Acknowledge? then c[0].count else 0) + AckSum(c[1..])
  }

  function Finishes(c: seq<Payload>): nat {
    if c == [] then 0 else (if c[0].Finish? then 1 else 0) + Finishes(c[1..])
  }

  function Resets(c: seq<Payload>): (n: nat)
    ensures n <= |c|
  {
    if c == [] then 0 else (if c[0].Reset? then 1 else 0) + Resets(c[1..])
  }

  predicate OnlyResets(c: seq<Payload>) { Resets(c) == |c| }

  /** Frames of an open stream, in an order that loses nothing: no data and no second
      `Finish` after a `Finish`, and nothing but `Reset`s after a `Reset`. */
  predicate Ordered(c: seq<Payload>) {
    c == [] ||
    match c[0]
    case Push(_) => Ordered(c[1..])
    case Acknowledge(_) => Ordered(c[1..])
    case Finish => Data(c[1..]) == [] && Finishes(c[1..]) == 0 && Ordered(c[1..])
    case Reset => OnlyResets(c[1..])
    case _ => false
  }

  /** `Push`, `Acknowledge` and `Finish` frames only: what a stream says once it is made. */
  function Body(c: seq<Payload>): seq<Payload> {
    if c == [] then []
    else (if c[0].Push? || c[0].Acknowledge? || c[0].Finish? then [c[0]] else []) + Body(c[1..])
  }

  /** No data and no `Finish` after a `Finish`. */
  predicate FinishEnds(c: seq<Payload>) {
    c == [] ||
    ((c[0].Finish? ==> Data(c[1..]) == [] && Finishes(c[1..]) == 0) && FinishEnds(c[1..]))
  }

  lemma {:induction false} Appended(c: seq<Payload>, x: Payload)
    ensures Data(c + [x]) == Data(c) + (if x.Push? then [x.data] else [])
    ensures AckSum(c + [x]) == AckSum(c) + (if x.Acknowledge? then x.count else 0)
    ensures Finishes(c + [x]) == Finishes(c) + (if x.Finish? then 1 else 0)
    ensures Resets(c + [x]) == Resets(c) + (if x.Reset? then 1 else 0)
    ensures Body(c + [x]) == Body(c) + (if x.Push? || x.Acknowledge? || x.Finish? then [x] else [])
  {
    if c == [] {
    } else {
      assert (c + [x])[1..] == c[1..] + [x];
      Appended(c[1..], x);
    }
  }

  lemma {:induction false} OnlyResetsOrdered(c: seq<Payload>)
    requires OnlyResets(c)
    ensures Ordered(c) && Data(c) == [] && Finishes(c) == 0 && AckSum(c) == 0
  {
    if c != [] { OnlyResetsOrdered(c[1..]); }
  }

  lemma {:induction false} OrderedAppend(c: seq<Payload>, x: Payload)
    requires Ordered(c)
    requires x.Push? || x.Acknowledge? || x.Finish? || x.Reset?
    requires !x.Reset? ==> Resets(c) == 0
    requires x.Push? || x.Finish? ==> Finishes(c) == 0
    ensures Ordered(c + [x])
  {
    if c == [] {
    } else {
      assert (c + [x])[1..] == c[1..] + [x];
      Appended(c[1..], x);
      if !c[0].Reset? { OrderedAppend(c[1..], x); }
    }
  }

  lemma {:induction false} FinishEndsAppend(c: seq<Payload>, x: Payload)
    requires FinishEnds(c)
    requires x.Push? || x.Finish? ==> Finishes(c) == 0
    ensures FinishEnds(c + [x])
  {
    if c == [] {
    } else {
      assert (c + [x])[1..] == c[1..] + [x];
      Appended(c[1..], x);
      FinishEndsAppend(c[1..], x);
    }
  }

  /** Bytes of a sequence of chunks. */
  function Flat(chunks: seq<Bytes>): Bytes {
    if chunks == [] then [] else chunks[0] + Flat(chunks[1..])
  }

  lemma {:induction false} FlatConcat(a: seq<Bytes>, b: seq<Bytes>)
    ensures Flat(a + b) == Flat(a) + Flat(b)
  {
    if a == [] {
      assert a + b == b;
    } else {
      assert (a + b)[1..] == a[1..] + b;
      FlatConcat(a[1..], b);
    }
  }
}
