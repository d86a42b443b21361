/** A writer waiting for credit, at the grain of single atomic operations.

    The writer checks the finish flag, loads the credit, and only then registers its
    waker; it does not look again. The mux task updates a cell and then wakes. This
    module says exactly when the writer is left asleep. */
module Waker {

  /** Where the writer is in `poll_obtain_write_permission`. */
  datatype Pc =
    | Idle                 // not polling: the last poll was ready, or there was none
    | Polling              // entered, nothing checked yet
    | Checked              // finish flag seen false
    | Loaded(seen: nat)    // credit seen, not zero
    | SawZero              // credit seen zero, waker not registered yet
    | Parked               // waker registered, `Pending` returned

  datatype State = State(
    finishSent: bool,
    credit: nat,
    registered: bool,      // the waker cell holds the writer's waker
    notified: bool,        // the writer's task has been told to poll again
    wakeDue: bool,         // the mux task has updated a cell and not woken yet
    pc: Pc,
    late: bool,            // history: the update came after this poll's check of that cell
    missed: bool)          // history: its wake-up came before this poll's registration

  datatype Event =
    | Poll
    | LoadFinish
    | LoadCredit
    | Exchange
    | ExchangeFails        // a weak exchange may fail for no reason
    | Register
    | Add(count: nat)      // first half of acknowledge
    | Swap                 // first half of disallow_write
    | Wake                 // second half of either

  predicate Enabled(s: State, e: Event) {
    match e
    case Poll => s.pc == Idle || s.pc == Parked
    case LoadFinish => s.pc == Polling
    case LoadCredit => s.pc == Checked
    case Exchange => s.pc.Loaded?
    case ExchangeFails => s.pc.Loaded?
    case Register => s.pc == SawZero
    case Add(_) => !s.wakeDue
    case Swap => !s.wakeDue
    case Wake => s.wakeDue
  }

  /** This poll has checked the finish flag and not registered. */
  predicate PastFinishCheck(s: State) { s.pc == Checked || s.pc.Loaded? || s.pc == SawZero }

  function Next(s: State, e: Event): State
    requires Enabled(s, e)
  {
    match e
    case Poll => s.(pc := Polling, notified := false, late := false, missed := false)
    case LoadFinish => s.(pc := if s.finishSent then Idle else Checked)
    case LoadCredit => s.(pc := if s.credit == 0 then SawZero else Loaded(s.credit))
    case Exchange =>
      if s.pc.seen == s.credit && s.credit > 0 then s.(credit := s.credit - 1, pc := Idle) else s.(pc := Checked)
    case ExchangeFails => s.(pc := Checked)
    case Register => s.(registered := true, pc := Parked)
    case Add(n) => s.(credit := s.credit + n, wakeDue := true, late := s.late || (n > 0 && s.pc == SawZero))
    case Swap => s.(finishSent := true, wakeDue := true, late := s.late || PastFinishCheck(s))
    case Wake =>
      if s.registered then s.(registered := false, notified := true, wakeDue := false)
      else s.(wakeDue := false, missed := s.missed || (s.late && PastFinishCheck(s)))
  }

  function Begin(credit: nat): State { State(false, credit, false, false, false, Idle, false, false) }

  predicate Linked(tr: seq<State>, es: seq<Event>, i: nat)
    requires |tr| == |es| + 1 && i < |es|
  {
    Enabled(tr[i], es[i]) && tr[i + 1] == Next(tr[i], es[i])
  }

  /** A schedule and the states it leads through. */
  ghost predicate Run(tr: seq<State>, es: seq<Event>) {
    && |tr| == |es| + 1 && (exists credit: nat :: tr[0] == Begin(credit))
    && forall i :: 0 <= i < |es| ==> Linked(tr, es, i)
  }

  /** There is something for the writer to see. */
  predicate Worth(s: State) { s.credit > 0 || s.finishSent }

  /** There is something this poll has already looked past. */
  predicate LookedPast(s: State) {
    (s.finishSent && PastFinishCheck(s)) || (s.credit > 0 && s.pc == SawZero)
  }

  predicate Inv(s: State) {
    && (s.pc == Parked && !s.notified ==> s.registered)
    && (s.pc.Loaded? ==> s.credit > 0)
    // what this poll has looked past came late; once woken for, it is missed or told
    && (LookedPast(s) ==> s.notified || if s.wakeDue then s.late || s.missed else s.missed)
    && (s.pc == Parked && Worth(s) && !s.wakeDue ==> s.missed || s.notified)
    && ((s.late || s.missed) && PastFinishCheck(s) ==> LookedPast(s))
    && (s.missed && s.pc == Parked ==> Worth(s))
    && (s.pc == Polling ==> !s.late && !s.missed)
  }

  lemma NextKeeps(s: State, e: Event)
    requires Inv(s) && Enabled(s, e)
    ensures Inv(Next(s, e))
  {
  }

  lemma {:induction false} RunKeeps(tr: seq<State>, es: seq<Event>, n: nat)
    requires Run(tr, es) && n <= |es|
    ensures Inv(tr[n])
  {
    if n > 0 {
      RunKeeps(tr, es, n - 1);
      assert Linked(tr, es, n - 1);
      NextKeeps(tr[n - 1], es[n - 1]);
    }
  }

  // ---- What the history means, in terms of the schedule ----

  predicate NoPoll(es: seq<Event>, from: nat, to: nat) {
    forall i :: from <= i < to && i < |es| ==> !es[i].Poll?
  }

  /** An update of a cell that the poll under way has already checked. */
  predicate LateUpdate(s: State, e: Event) {
    (e.Add? && e.count > 0 && s.pc == SawZero) || (e.Swap? && PastFinishCheck(s))
  }

  /** A wake-up that finds no waker, while a poll has checked and not registered. */
  predicate LostWake(s: State, e: Event) { e.Wake? && !s.registered && PastFinishCheck(s) }

  /** Event `u` is a late update, and its poll has not been repeated before `n`. */
  predicate LateAt(tr: seq<State>, es: seq<Event>, u: nat, n: nat)
    requires |tr| == |es| + 1
  {
    u < n <= |es| && LateUpdate(tr[u], es[u]) && NoPoll(es, u, n)
  }

  /** Then event `w` was a wake-up lost on that poll. */
  predicate LostAt(tr: seq<State>, es: seq<Event>, u: nat, w: nat, n: nat)
    requires |tr| == |es| + 1
  {
    LateAt(tr, es, u, n) && u < w < n && LostWake(tr[w], es[w])
  }

  /** How one event changes the history. */
  lemma HistoryStep(s: State, e: Event)
    requires Enabled(s, e)
    ensures Next(s, e).late <==> !e.Poll? && (s.late || LateUpdate(s, e))
    ensures Next(s, e).missed <==> !e.Poll? && (s.missed || (s.late && LostWake(s, e)))
  {
  }

  lemma HistoryAt(tr: seq<State>, es: seq<Event>, i: nat)
    requires Run(tr, es) && i < |es|
    ensures tr[i + 1].late <==> !es[i].Poll? && (tr[i].late || LateUpdate(tr[i], es[i]))
    ensures tr[i + 1].missed <==> !es[i].Poll? && (tr[i].missed || (tr[i].late && LostWake(tr[i], es[i])))
  {
    assert Linked(tr, es, i);
    HistoryStep(tr[i], es[i]);
  }

  lemma NothingYet(tr: seq<State>, es: seq<Event>)
    requires Run(tr, es)
    ensures !tr[0].late && !tr[0].missed
  {
  }

  /** A late state has a late update behind it. */
  lemma {:induction false} LateHasCause(tr: seq<State>, es: seq<Event>, n: nat) returns (u: nat)
    requires Run(tr, es) && n <= |es| && tr[n].late
    ensures LateAt(tr, es, u, n)
  {
    NothingYet(tr, es);
    HistoryAt(tr, es, n - 1);
    if LateUpdate(tr[n - 1], es[n - 1]) { u := n - 1; } else { u := LateHasCause(tr, es, n - 1); }
  }

  lemma {:induction false} LateUpdateShows(tr: seq<State>, es: seq<Event>, u: nat, n: nat)
    requires Run(tr, es) && LateAt(tr, es, u, n)
    ensures tr[n].late
  {
    HistoryAt(tr, es, n - 1);
    if u < n - 1 { LateUpdateShows(tr, es, u, n - 1); }
  }

  /** A missed wake-up has a late update and a lost wake-up behind it. */
  lemma {:induction false} MissedHasCause(tr: seq<State>, es: seq<Event>, n: nat) returns (u: nat, w: nat)
    requires Run(tr, es) && n <= |es| && tr[n].missed
    ensures LostAt(tr, es, u, w, n)
  {
    NothingYet(tr, es);
    HistoryAt(tr, es, n - 1);
    if tr[n - 1].missed {
      u, w := MissedHasCause(tr, es, n - 1);
    } else {
      u := LateHasCause(tr, es, n - 1);
      w := n - 1;
    }
  }

  lemma {:induction false} LostWakeShows(tr: seq<State>, es: seq<Event>, u: nat, w: nat, n: nat)
    requires Run(tr, es) && LostAt(tr, es, u, w, n)
    ensures tr[n].missed
  {
    HistoryAt(tr, es, n - 1);
    if w < n - 1 { LostWakeShows(tr, es, u, w, n - 1); } else { LateUpdateShows(tr, es, u, w); }
  }

  /** A writer asleep that nobody will wake. */
  predicate Asleep(s: State) { s.pc == Parked && !s.notified && !s.wakeDue }

  /** In every schedule, a sleeping writer has credit or a set finish flag it does not know
      of if and only if, since it last began to poll, a cell was updated after it had
      checked that cell and the wake-up came before it had registered. */
  lemma AsleepExactly(tr: seq<State>, es: seq<Event>, n: nat)
    requires Run(tr, es) && n <= |es| && Asleep(tr[n])
    ensures Worth(tr[n]) <==> exists u: nat, w: nat :: LostAt(tr, es, u, w, n)
  {
    RunKeeps(tr, es, n);
    if tr[n].missed {
      var u, w := MissedHasCause(tr, es, n);
    }
    forall u: nat, w: nat | LostAt(tr, es, u, w, n) ensures tr[n].missed {
      LostWakeShows(tr, es, u, w, n);
    }
  }

  /** In every other schedule it is told: an update that is woken for after the
      registration always reaches a parked writer. */
  lemma ParkedWriterIsTold(tr: seq<State>, es: seq<Event>, n: nat)
    requires Run(tr, es) && n <= |es| && tr[n].pc == Parked && !tr[n].notified && tr[n].wakeDue
    ensures Next(tr[n], Wake).notified
  {
    RunKeeps(tr, es, n);
  }

  /** The lost wake-up can happen: credit arrives between the load and the registration. */
  lemma LostWakeUp() returns (tr: seq<State>, es: seq<Event>)
    ensures Run(tr, es) && Asleep(tr[|es|]) && tr[|es|].credit > 0
  {
    var s0 := Begin(0);
    var s1 := Next(s0, Poll);
    var s2 := Next(s1, LoadFinish);
    var s3 := Next(s2, LoadCredit);
    var s4 := Next(s3, Add(1));
    var s5 := Next(s4, Wake);
    tr := [s0, s1, s2, s3, s4, s5, Next(s5, Register)];
    es := [Poll, LoadFinish, LoadCredit, Add(1), Wake, Register];
    assert tr[0] == Begin(0);
  }
}
