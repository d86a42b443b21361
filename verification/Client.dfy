/** The client's UDP client index and its one parked stream request. */
module UdpIndex {
  import opened Frames

  /** A socket address; what is in it does not matter here. */
  type Addr = nat
  /** The client's address and the address of our socket it talks to. */
  type Key = (Addr, Addr)

  /** How long an entry lives without being used, in milliseconds. */
  const UDP_PRUNE_TIMEOUT: nat := 10_000

  datatype Entry = Entry(key: Key, socks5: bool, expires: nat)

  datatype Index = Index(ids: map<U32, Entry>, addrs: map<Key, U32>)

  /** The two maps are inverse to each other, and id 0 (standard output) is never used. */
  predicate Consistent(x: Index) {
    && (forall id :: id in x.ids ==> x.ids[id].key in x.addrs && x.addrs[x.ids[id].key] == id)
    && (forall key :: key in x.addrs ==> x.addrs[key] in x.ids && x.ids[x.addrs[key]].key == key)
    && 0 !in x.ids
  }

  datatype Op = Add(key: Key, socks5: bool, now: nat, candidate: U32) | Prune(now: nat)

  /** `next_available_key`: the candidate is a free non-zero id, if one is needed. */
  predicate CanApply(x: Index, op: Op) {
    op.Add? && op.key !in x.addrs ==> op.candidate != 0 && op.candidate !in x.ids
  }

  /** Ids that a prune at this moment removes. */
  function Expired(x: Index, now: nat): set<U32> {
    set id | id in x.ids && x.ids[id].expires <= now
  }

  /** The state after an operation, or `None` where the source would panic because the two
      maps disagree. */
  function Apply(x: Index, op: Op): Option<Index> {
    match op
    case Add(key, socks5, now, candidate) =>
      if key in x.addrs then
        var id := x.addrs[key];
        if id !in x.ids then None
        else Some(x.(ids := x.ids[id := x.ids[id].(expires := now + UDP_PRUNE_TIMEOUT)]))
      else
        Some(Index(x.ids[candidate := Entry(key, socks5, now + UDP_PRUNE_TIMEOUT)], x.addrs[key := candidate]))
    case Prune(now) =>
      var gone := Expired(x, now);
      if (exists id :: id in gone && x.ids[id].key !in x.addrs)
         || (exists a, b :: a in gone && b in gone && a != b && x.ids[a].key == x.ids[b].key) then None
      else Some(Index(x.ids - gone, x.addrs - set id | id in gone :: x.ids[id].key))
  }

  lemma ApplyKeeps(x: Index, op: Op)
    requires Consistent(x) && CanApply(x, op)
    ensures Apply(x, op).Some? && Consistent(Apply(x, op).value)
  {
  }

  /** States and operations of a client, as far as no operation panicked. */
  ghost predicate History(xs: seq<Index>, ops: seq<Op>) {
    && |xs| == |ops| + 1 && xs[0] == Index(map[], map[])
    && forall i :: 0 <= i < |ops| ==> CanApply(xs[i], ops[i]) && Apply(xs[i], ops[i]) == Some(xs[i + 1])
  }

  /** Over every sequence of adds and prunes the two maps stay inverse to each other, and
      no later operation can panic. */
  lemma {:induction false} MapsNeverDisagree(xs: seq<Index>, ops: seq<Op>, i: nat, op: Op)
    requires History(xs, ops) && i < |xs|
    ensures Consistent(xs[i])
    ensures CanApply(xs[i], op) ==> Apply(xs[i], op).Some?
  {
    if i > 0 {
      MapsNeverDisagree(xs, ops, i - 1, op);
      assert Apply(xs[i - 1], ops[i - 1]) == Some(xs[(i - 1) + 1]);
      ApplyKeeps(xs[i - 1], ops[i - 1]);
    }
    if CanApply(xs[i], op) { ApplyKeeps(xs[i], op); }
  }

  /** A live pair keeps its id, however often it is added again and whatever else happens;
      so replies for that id always go to the client that was given it. */
  lemma {:induction false} LivePairKeepsId(xs: seq<Index>, ops: seq<Op>, key: Key, first: nat, last: nat)
    requires History(xs, ops) && first <= last < |xs|
    requires forall i :: first <= i <= last ==> key in xs[i].addrs
    ensures xs[last].addrs[key] == xs[first].addrs[key]
    ensures xs[first].addrs[key] in xs[last].ids && xs[last].ids[xs[first].addrs[key]].key == key
    decreases last
  {
    MapsNeverDisagree(xs, ops, last, Prune(0));
    assert key in xs[first].addrs && key in xs[last].addrs;
    if first < last {
      LivePairKeepsId(xs, ops, key, first, last - 1);
      MapsNeverDisagree(xs, ops, last - 1, Prune(0));
      assert Apply(xs[last - 1], ops[last - 1]) == Some(xs[(last - 1) + 1]);
    }
  }

  /** Two different live pairs never share an id. */
  lemma PairsHaveOwnIds(x: Index, a: Key, b: Key)
    requires Consistent(x) && a in x.addrs && b in x.addrs && a != b
    ensures x.addrs[a] != x.addrs[b]
  {
    assert x.ids[x.addrs[a]].key == a;
  }

  /** Pruning removes exactly the expired entries, from both maps. */
  lemma PruneIsExact(x: Index, now: nat)
    requires Consistent(x)
    ensures Apply(x, Prune(now)).Some?
    ensures var y := Apply(x, Prune(now)).value;
      && (forall id :: id in y.ids <==> id in x.ids && x.ids[id].expires > now)
      && (forall id :: id in y.ids ==> y.ids[id] == x.ids[id])
      && (forall key :: key in y.addrs <==> key in x.addrs && x.ids[x.addrs[key]].expires > now)
      && |y.ids| == |y.addrs|
  {
    ApplyKeeps(x, Prune(now));
    SameSize(Apply(x, Prune(now)).value);
  }

  lemma {:induction false} SameSize(x: Index)
    requires Consistent(x)
    ensures |x.ids| == |x.addrs|
    decreases |x.ids|
  {
    if x.ids == map[] {
      assert x.addrs == map[];
    } else {
      var id :| id in x.ids;
      var key := x.ids[id].key;
      var y := Index(x.ids - {id}, x.addrs - {key});
      assert y.ids.Keys == x.ids.Keys - {id} && y.addrs.Keys == x.addrs.Keys - {key};
      forall k | k in y.addrs ensures y.addrs[k] in y.ids && y.ids[y.addrs[k]].key == k {
        assert x.ids[x.addrs[k]].key == k;
      }
      SameSize(y);
    }
  }

  /** The maps as the client keeps them, under one lock. */
  class ClientIdMaps {
    var clientIdMap: map<U32, Entry>
    var clientAddrMap: map<Key, U32>

    function Now(): Index
      reads this
    {
      Index(clientIdMap, clientAddrMap)
    }

    constructor ()
      ensures Now() == Index(map[], map[]) && Consistent(Now())
    {
      clientIdMap, clientAddrMap := map[], map[];
    }

    /** `add_udp_client`. The lookup that the source `expect`s cannot fail. */
    method AddUdpClient(key: Key, socks5: bool, now: nat, candidate: U32) returns (id: U32)
      requires Consistent(Now()) && CanApply(Now(), Add(key, socks5, now, candidate))
      modifies this
      ensures Apply(old(Now()), Add(key, socks5, now, candidate)) == Some(Now()) && Consistent(Now())
      ensures key in clientAddrMap && id == clientAddrMap[key] && id != 0
      ensures key in old(clientAddrMap) ==> id == old(clientAddrMap[key])
      ensures id in clientIdMap && clientIdMap[id].expires == now + UDP_PRUNE_TIMEOUT && clientIdMap[id].key == key
      ensures key !in old(clientAddrMap) ==> id == candidate && clientIdMap[id].socks5 == socks5
      ensures forall j :: j in old(clientIdMap) && j != id ==> j in clientIdMap && clientIdMap[j] == old(clientIdMap[j])
    {
      ApplyKeeps(Now(), Add(key, socks5, now, candidate));
      if key in clientAddrMap {
        id := clientAddrMap[key];
        clientIdMap := clientIdMap[id := clientIdMap[id].(expires := now + UDP_PRUNE_TIMEOUT)];
      } else {
        id := candidate;
        clientIdMap := clientIdMap[id := Entry(key, socks5, now + UDP_PRUNE_TIMEOUT)];
        clientAddrMap := clientAddrMap[key := id];
      }
    }

    /** Remove one entry from both maps. The removal that the source `expect`s always finds
        its entry. */
    method RemoveBoth(id: U32)
      requires Consistent(Now()) && id in clientIdMap
      modifies this
      ensures Consistent(Now())
      ensures clientIdMap == old(clientIdMap) - {id}
      ensures clientAddrMap == old(clientAddrMap) - {old(clientIdMap[id].key)}
    {
      var key := clientIdMap[id].key;
      assert key in clientAddrMap;
      clientAddrMap := clientAddrMap - {key};
      clientIdMap := clientIdMap - {id};
    }

    /** Pruned down to these ids: both maps agree with `x` on them. */
    ghost predicate Restricted(x: Index, ids: set<U32>)
      reads this
    {
      && clientIdMap.Keys == ids && ids <= x.ids.Keys
      && (forall id :: id in ids ==> clientIdMap[id] == x.ids[id])
    }

    /** `prune_udp_clients`: one pass over the id map, removing from both maps. */
    method PruneUdpClients(now: nat)
      requires Consistent(Now())
      modifies this
      ensures Apply(old(Now()), Prune(now)) == Some(Now()) && Consistent(Now())
    {
      var todo := clientIdMap.Keys;
      ghost var x := Now();
      ghost var kept := clientIdMap.Keys;
      while todo != {}
        invariant todo <= kept && Consistent(Now()) && Restricted(x, kept)
        invariant forall id :: id in kept <==> id in x.ids && (id in todo || x.ids[id].expires > now)
        decreases todo
      {
        var id :| id in todo;
        todo := todo - {id};
        if clientIdMap[id].expires <= now {
          RemoveBoth(id);
          kept := kept - {id};
        }
      }
      ApplyKeeps(x, Prune(now));
      assert Now().ids == Apply(x, Prune(now)).value.ids;
      SameAddresses(Now(), Apply(x, Prune(now)).value);
    }
  }

  /** Two consistent indexes with the same ids have the same addresses. */
  lemma SameAddresses(x: Index, y: Index)
    requires Consistent(x) && Consistent(y) && x.ids == y.ids
    ensures x.addrs == y.addrs
  {
    forall key ensures key in x.addrs <==> key in y.addrs {
      if key in x.addrs { assert x.ids[x.addrs[key]].key == key; }
      if key in y.addrs { assert y.ids[y.addrs[key]].key == key; }
    }
  }
}

module Reconnecting {
  import opened Frames
  import opened Timing

  /** A stream request from a local listener. */
  type Command = nat

  /** How `new_stream_channel` ended for one request, under the channel timeout. */
  datatype Attempt = Succeeded | MuxFailed(retryable: bool) | TimedOut

  /** What the main loop of `on_connected` picks next. */
  datatype Event =
    | NextCommand(attempt: Attempt)   // a queued request, if there is one
    | OtherTraffic                    // datagrams either way
    | TaskFailed(retryable: bool)     // the mux task ended with an error
    | Interrupted                     // Ctrl-C
    | Disconnected

  /** One turn of the retry loop: no connection, or a connection with its first attempt at
      a parked request and its events. */
  datatype Session =
    | NoConnection(retryable: bool)
    | Connected(first: Attempt, events: seq<Event>)

  datatype End = Retry | Quit | Fatal

  function EndOf(a: Attempt): End
    requires !a.Succeeded?
  {
    if a.TimedOut? || a.retryable then Retry else Fatal
  }

  // ---- What a session hands over, and how it ends ----

  /** How far a session gets: requests handed over from the queue, whether the next one was
      then parked, and how it ends. */
  datatype Served = Served(handed: nat, parked: bool, end: End)

  function Serve(queue: seq<Command>, events: seq<Event>): (r: Served)
    ensures r.handed + (if r.parked then 1 else 0) <= |queue|
    decreases |events|
  {
    if events == [] then Served(0, false, Retry)
    else
      match events[0]
      case NextCommand(attempt) =>
        if queue == [] then Serve(queue, events[1..])
        else if !attempt.Succeeded? then Served(0, true, EndOf(attempt))
        else
          var r := Serve(queue[1..], events[1..]);
          r.(handed := r.handed + 1)
      case OtherTraffic => Serve(queue, events[1..])
      case TaskFailed(retryable) => Served(0, false, if retryable then Retry else Fatal)
      case Interrupted => Served(0, false, Quit)
      case Disconnected => Served(0, false, Retry)
  }

  /** The events that do not end a session. */
  predicate Smooth(e: Event) { e == NextCommand(Succeeded) || e == OtherTraffic }

  function Commands(events: seq<Event>): nat {
    if events == [] then 0 else (if events[0].NextCommand? then 1 else 0) + Commands(events[1..])
  }

  /** As long as all goes well each command event hands over one request, as long as there
      are any; then it goes on with the rest. */
  lemma {:induction false} SmoothHandsOver(queue: seq<Command>, events: seq<Event>, rest: seq<Event>)
    requires forall e :: e in events ==> Smooth(e)
    ensures var n := if Commands(events) <= |queue| then Commands(events) else |queue|;
      var r := Serve(queue[n..], rest);
      Serve(queue, events + rest) == Served(n + r.handed, r.parked, r.end)
    decreases |events|
  {
    if events == [] {
      assert events + rest == rest && queue[0..] == queue;
    } else {
      assert events[0] in events && (events + rest)[1..] == events[1..] + rest;
      if events[0].NextCommand? && queue != [] {
        SmoothHandsOver(queue[1..], events[1..], rest);
        var n := if Commands(events) <= |queue| then Commands(events) else |queue|;
        assert queue[n..] == queue[1..][n - 1..];
      } else {
        SmoothHandsOver(queue, events[1..], rest);
        if queue == [] { assert queue[0..] == queue; }
      }
    }
  }

  /** What ends a session, and how. */
  lemma SessionEnds(queue: seq<Command>, rest: seq<Event>)
    ensures Serve(queue, [Interrupted] + rest) == Served(0, false, Quit)
    ensures Serve(queue, [Disconnected] + rest) == Served(0, false, Retry)
    ensures Serve(queue, [TaskFailed(true)] + rest) == Served(0, false, Retry)
    ensures Serve(queue, [TaskFailed(false)] + rest) == Served(0, false, Fatal)
    ensures queue != [] ==>
      && Serve(queue, [NextCommand(TimedOut)] + rest) == Served(0, true, Retry)
      && Serve(queue, [NextCommand(MuxFailed(true))] + rest) == Served(0, true, Retry)
      && Serve(queue, [NextCommand(MuxFailed(false))] + rest) == Served(0, true, Fatal)
  {
  }

  /** Requests still to be handed over; the first may be parked. */
  datatype Pending = Pending(parked: Option<Command>, queue: seq<Command>) {
    function All(): seq<Command> { (if parked == None then [] else [parked.value]) + queue }
  }

  /** What is left of a queue from which `handed` requests were taken, and one more if parked. */
  function Remaining(queue: seq<Command>, handed: nat, parked: bool): Pending
    requires handed + (if parked then 1 else 0) <= |queue|
  {
    if parked then Pending(Some(queue[handed]), queue[handed + 1..]) else Pending(None, queue[handed..])
  }

  lemma StillWaiting(p: Pending, handed: nat, parked: bool)
    requires handed + (if parked then 1 else 0) <= |p.queue|
    ensures |p.All()| == |p.queue| + (if p.parked == None then 0 else 1)
    ensures Remaining(p.queue, handed, parked).All() == p.All()[(if p.parked == None then handed else 1 + handed)..]
  {
    var n := if p.parked == None then handed else 1 + handed;
    var all := p.All();
    assert p.queue == all[|all| - |p.queue|..];
    assert p.queue[handed..] == all[n..];
    if parked { assert [p.queue[handed]] + p.queue[handed + 1..] == p.queue[handed..]; }
  }

  function ServeSession(p: Pending, s: Session): (r: (Pending, nat, End))
    ensures r.1 <= |p.All()| && r.0.All() == p.All()[r.1..]
  {
    match s
    case NoConnection(retryable) => (p, 0, if retryable then Retry else Fatal)
    case Connected(first, events) =>
      if p.parked != None && !first.Succeeded? then (p, 0, EndOf(first))
      else
        var r := Serve(p.queue, events);
        var n := if p.parked == None then r.handed else 1 + r.handed;
        StillWaiting(p, r.handed, r.parked);
        (Remaining(p.queue, r.handed, r.parked), n, r.end)
  }

  /** All sessions: a connection that was made starts the count of retries over. */
  function ServeSessions(p: Pending, sessions: seq<Session>, retries: nat, maxRetries: U32): (Pending, nat, End)
    decreases |sessions|
  {
    if sessions == [] then (p, 0, Retry)
    else
      var (p1, n, end) := ServeSession(p, sessions[0]);
      var made := if sessions[0].Connected? then 0 else retries;
      if end != Retry then (p1, n, end)
      else if maxRetries != 0 && made >= maxRetries then (p1, n, Fatal)
      else
        var r := ServeSessions(p1, sessions[1..], made + 1, maxRetries);
        (r.0, n + r.1, r.2)
  }

  /** Without a connection the client gives up after exactly as many retries as it may make,
      or never if there is no limit, and hands nothing over. */
  lemma {:induction false} GivesUpExactly(p: Pending, sessions: seq<Session>, retries: nat, maxRetries: U32)
    requires forall i :: 0 <= i < |sessions| ==> sessions[i] == NoConnection(true)
    requires maxRetries != 0 ==> retries <= maxRetries
    ensures ServeSessions(p, sessions, retries, maxRetries)
         == (p, 0, if maxRetries != 0 && |sessions| > maxRetries - retries then Fatal else Retry)
    decreases |sessions|
  {
    if sessions != [] {
      if !(maxRetries != 0 && retries >= maxRetries) { GivesUpExactly(p, sessions[1..], retries + 1, maxRetries); }
    }
  }

  /** A good session hands over the parked request and as many queued ones as it is asked for. */
  lemma GoodSession(p: Pending, events: seq<Event>)
    requires forall e :: e in events ==> Smooth(e)
    ensures var n := if Commands(events) <= |p.queue| then Commands(events) else |p.queue|;
      ServeSession(p, Connected(Succeeded, events + [Interrupted]))
      == (Pending(None, p.queue[n..]), (if p.parked == None then n else 1 + n), Quit)
  {
    var n := if Commands(events) <= |p.queue| then Commands(events) else |p.queue|;
    SmoothHandsOver(p.queue, events, [Interrupted]);
    SessionEnds(p.queue[n..], []);
    assert [Interrupted] + [] == [Interrupted];
  }

  class Client {
    var queue: seq<Command>            // requests the listeners have queued
    var parked: Option<Command>
    var handed: seq<Command>           // requests whose stream went to the listener
    const arrived: seq<Command>        // every request of the run, oldest first

    /** The parked request, if any, as a sequence. */
    function Parked(): seq<Command>
      reads this
    {
      if parked == None then [] else [parked.value]
    }

    /** Every request is handed over, parked or still queued, in order and once. */
    ghost predicate Valid()
      reads this
    {
      arrived == handed + Parked() + queue
    }

    constructor (commands: seq<Command>)
      ensures Valid() && arrived == commands && handed == [] && parked == None
    {
      arrived := commands;
      queue, parked, handed := commands, None, [];
    }

    /** `get_send_stream_chan`, with the parking slot free: a failed request is parked, and
        nothing it would overwrite is there. */
    method GetSendStreamChan(command: Command, attempt: Attempt) returns (ok: bool)
      requires parked == None && arrived == handed + [command] + queue
      modifies this`parked, this`handed
      ensures Valid() && ok == attempt.Succeeded?
      ensures if ok then handed == old(handed) + [command] && parked == None
              else handed == old(handed) && parked == Some(command)
    {
      ok := attempt.Succeeded?;
      if ok {
        handed := handed + [command];
        assert handed + [] + queue == handed + queue;
      } else {
        parked := Some(command);
      }
    }

    /** What is still to be handed over. */
    function Waiting(): Pending
      reads this
    {
      Pending(parked, queue)
    }

    /** The main loop of `on_connected`. */
    method ServeEvents(events: seq<Event>) returns (end: End)
      requires Valid() && parked == None
      modifies this`queue, this`parked, this`handed
      ensures Valid()
      ensures var r := Serve(old(queue), events);
        && handed == old(handed) + old(queue)[..r.handed] && end == r.end
        && Waiting() == Remaining(old(queue), r.handed, r.parked)
    {
      ghost var n := 0;
      assert events[0..] == events && queue[0..] == queue;
      for i := 0 to |events|
        invariant Valid() && parked == None && n <= |old(queue)|
        invariant queue == old(queue)[n..] && handed == old(handed) + old(queue)[..n]
        invariant var r, rest := Serve(old(queue), events), Serve(queue, events[i..]);
          r.handed == n + rest.handed && r.parked == rest.parked && r.end == rest.end
      {
        assert events[i..][0] == events[i] && events[i..][1..] == events[i + 1..];
        match events[i] {
          case NextCommand(attempt) =>
            if queue != [] {
              var command := queue[0];
              assert handed + [] + queue == handed + [command] + queue[1..];
              assert old(queue)[..n + 1] == old(queue)[..n] + [command];
              queue := queue[1..];
              var ok := GetSendStreamChan(command, attempt);
              if !ok { return EndOf(attempt); }
              n := n + 1;
            }
          case OtherTraffic =>
          case TaskFailed(retryable) => return if retryable then Retry else Fatal;
          case Interrupted => return Quit;
          case Disconnected => return Retry;
        }
      }
      assert events[|events|..] == [];
      return Retry;
    }

    /** `on_connected`: a parked request goes first. */
    method OnConnected(first: Attempt, events: seq<Event>) returns (end: End)
      requires Valid()
      modifies this`queue, this`parked, this`handed
      ensures Valid()
      ensures var (p, n, e) := ServeSession(old(Waiting()), Connected(first, events));
        Waiting() == p && |handed| == |old(handed)| + n && old(handed) <= handed && end == e
    {
      if parked != None {
        var command := parked.value;
        parked := None;
        var ok := GetSendStreamChan(command, first);
        if !ok { return EndOf(first); }
      }
      end := ServeEvents(events);
    }

    /** One turn of the retry loop, with the wait after it; `again` if there is another. */
    method RunSession(s: Session, backoff: Backoff) returns (end: End, again: bool)
      requires Valid() && backoff.Valid() && backoff.Roomy()
      modifies this`queue, this`parked, this`handed, backoff
      ensures Valid() && backoff.Valid() && old(handed) <= handed
      ensures var (p, n, e) := ServeSession(old(Waiting()), s);
        var made := if s.Connected? then 0 else old(backoff.successes);
        && Waiting() == p && |handed| == |old(handed)| + n
        && again == (e == Retry && !(backoff.maxCount != 0 && made >= backoff.maxCount))
        && (again ==> backoff.successes == made + 1)
        && end == (if e == Retry && !again then Fatal else e)
    {
      match s {
        case NoConnection(retryable) =>
          end := if retryable then Retry else Fatal;
        case Connected(first, events) =>
          end := OnConnected(first, events);
          if end != Quit { backoff.Reset(); }
      }
      again := end == Retry;
      if again {
        var step := backoff.Advance();
        if step.Exhausted? { end, again := Fatal, false; }
      }
    }

    /** The retry loop of the client, with its backoff. Across any number of lost
        connections no request is lost, repeated or overtaken: the requests handed over
        are the first ones that arrived, as many as the sessions give, and the next one is
        parked or still queued. */
    method MainLoop(sessions: seq<Session>, maxRetryMillis: nat, maxRetryCount: U32) returns (end: End)
      requires Valid() && maxRetryMillis <= 0xFFFF_FFFF_FFFF_FFFF
      modifies this
      ensures Valid() && handed <= arrived
      ensures var (p, n, e) := ServeSessions(old(Waiting()), sessions, 0, maxRetryCount);
        Waiting() == p && |handed| == |old(handed)| + n && old(handed) <= handed && end == e
    {
      // twice the longest interval is still a duration
      var backoff := new Backoff(200_000_000, maxRetryMillis * 1_000_000, 2, maxRetryCount);
      end := RunSessions(sessions, backoff);
    }

    /** These sessions lead from here to that end, with what was handed over since. */
    ghost predicate LeadsTo(goal: (Pending, nat, End), before: nat, sessions: seq<Session>, backoff: Backoff)
      reads this, backoff
    {
      && Valid() && backoff.Valid() && before <= |handed|
      && var rest := ServeSessions(Waiting(), sessions, backoff.successes, backoff.maxCount);
         goal == (rest.0, |handed| - before + rest.1, rest.2)
    }

    method NextSession(sessions: seq<Session>, backoff: Backoff, ghost goal: (Pending, nat, End), ghost before: nat)
        returns (end: End, again: bool)
      requires sessions != [] && backoff.Roomy() && LeadsTo(goal, before, sessions, backoff)
      modifies this`queue, this`parked, this`handed, backoff
      ensures old(handed) <= handed && Valid()
      ensures again ==> LeadsTo(goal, before, sessions[1..], backoff)
      ensures !again ==> goal == (Waiting(), |handed| - before, end)
    {
      end, again := RunSession(sessions[0], backoff);
    }

    lemma Arrives(goal: (Pending, nat, End), before: nat, backoff: Backoff)
      requires LeadsTo(goal, before, [], backoff)
      ensures goal == (Waiting(), |handed| - before, Retry)
    {
    }

    method RunSessions(sessions: seq<Session>, backoff: Backoff) returns (end: End)
      requires Valid() && backoff.Valid() && backoff.successes == 0 && backoff.Roomy()
      modifies this`queue, this`parked, this`handed, backoff
      ensures Valid() && old(handed) <= handed
      ensures ServeSessions(old(Waiting()), sessions, 0, backoff.maxCount) == (Waiting(), |handed| - |old(handed)|, end)
    {
      ghost var goal, before := ServeSessions(Waiting(), sessions, 0, backoff.maxCount), |handed|;
      var left := sessions;
      while left != []
        invariant LeadsTo(goal, before, left, backoff) && old(handed) <= handed
        decreases |left|
      {
        var again;
        end, again := NextSession(left, backoff, goal, before);
        if !again { return; }
        left := left[1..];
      }
      Arrives(goal, before, backoff);
      return Retry;
    }
  }
}
