// One queue, one writer: internal/protocol/outbox.go. Senders,
// the writer and close interleave; a one-token channel wakes the writer.
module Outbox {
  import opened Catalog

  /** Where the writer goroutine stands: before its swap, parked on the wake
      channel, writing the rest of a batch, or returned. */
  datatype Writer = Top | Parked | Writing(rest: seq<string>) | Returned

  /** signalers: senders and closers between their critical section and their
      signal. accepted: every line queued so far. */
  datatype State = State(queue: seq<string>, closed: bool, failed: bool, wake: bool, writer: Writer,
                         signalers: nat, accepted: seq<string>, written: seq<string>)

  const START := State([], false, false, false, Top, 0, [], [])

  datatype Event =
    | Send(line: string)
    | Close
    | Signal
    | Swap
    | Wake
    | Write
    | WriteFails

  predicate Enabled(s: State, e: Event) {
    match e
    case Send(_) => true
    case Close => true
    case Signal => s.signalers > 0
    case Swap => s.writer == Top || s.writer == Writing([])
    case Wake => s.writer == Parked && s.wake
    case Write => s.writer.Writing? && s.writer.rest != []
    case WriteFails => s.writer.Writing? && s.writer.rest != []
  }

  function Sent(s: State, line: string): State {
    if s.closed then s else s.(queue := s.queue + [line], accepted := s.accepted + [line])
  }

  function Step(s: State, e: Event): State
    requires Enabled(s, e)
  {
    match e
    case Send(line) => Sent(s, line).(signalers := s.signalers + 1)
    case Close => s.(closed := true, signalers := s.signalers + 1)
    case Signal => s.(wake := true, signalers := s.signalers - 1)
    case Swap => s.(queue := [], writer :=
      if s.queue != [] then Writing(s.queue) else if s.closed then Returned else Parked)
    case Wake => s.(wake := false, writer := Top)
    case Write => s.(written := s.written + [s.writer.rest[0]], writer := Writing(s.writer.rest[1..]))
    case WriteFails => s.(closed := true, queue := [], failed := true, writer := Returned)
  }

  function Rest(s: State): seq<string> {
    if s.writer.Writing? then s.writer.rest else []
  }

  // ---- safety ----

  /** Nothing is lost or reordered, and a parked writer with work is about to be woken. */
  ghost predicate Inv(s: State) {
    && (!s.failed ==> s.written + Rest(s) + s.queue == s.accepted)
    && (s.failed ==> s.closed && s.queue == [] && s.writer == Returned && s.written < s.accepted)
    && (s.writer == Parked && (s.queue != [] || s.closed) ==> s.wake || s.signalers > 0)
    && (s.writer == Returned ==> s.closed && s.queue == [])
  }

  lemma StepKeeps(s: State, e: Event)
    requires Inv(s) && Enabled(s, e)
    ensures Inv(Step(s, e))
  {
    match e
    case Send(line) => assert s.written + Rest(s) + (s.queue + [line]) == s.written + Rest(s) + s.queue + [line];
    case Write =>
      assert s.writer.rest == [s.writer.rest[0]] + s.writer.rest[1..];
      assert s.written + [s.writer.rest[0]] + s.writer.rest[1..] == s.written + s.writer.rest;
    case WriteFails => assert |s.written| < |s.accepted| && s.written <= s.accepted;
    case _ =>
  }

  ghost predicate IsRun(run: seq<State>, evs: seq<Event>) {
    && |run| == |evs| + 1
    && forall i | 0 <= i < |evs| :: Enabled(run[i], evs[i]) && run[i + 1] == Step(run[i], evs[i])
  }

  lemma {:induction false} RunKeeps(run: seq<State>, evs: seq<Event>, n: nat)
    requires IsRun(run, evs) && n < |run| && Inv(run[0])
    ensures Inv(run[n])
  {
    if n > 0 {
      RunKeeps(run, evs, n - 1);
      StepKeeps(run[n - 1], evs[n - 1]);
    }
  }

  /** The lines the sends of a run leave accepted: those before the outbox closed,
      in the order they were sent. */
  function AcceptedOf(run: seq<State>, evs: seq<Event>, n: nat): seq<string>
    requires n <= |evs| < |run|
  {
    if n == 0 then []
    else AcceptedOf(run, evs, n - 1) + if evs[n - 1].Send? && !run[n - 1].closed then [evs[n - 1].line] else []
  }

  lemma {:induction false} AcceptedAre(run: seq<State>, evs: seq<Event>, n: nat)
    requires IsRun(run, evs) && run[0] == START && n <= |evs|
    ensures run[n].accepted == AcceptedOf(run, evs, n)
  {
    if n > 0 {
      AcceptedAre(run, evs, n - 1);
      assert run[n] == Step(run[n - 1], evs[n - 1]);
    }
  }

  /** Once close was called the outbox stays closed, and no line sent later is accepted. */
  lemma {:induction false} ClosedForGood(run: seq<State>, evs: seq<Event>, i: nat, n: nat)
    requires IsRun(run, evs) && i < n < |run| && evs[i] == Close
    ensures run[n].closed && run[n].accepted == run[i].accepted
  {
    assert run[n] == Step(run[n - 1], evs[n - 1]);
    if i < n - 1 { ClosedForGood(run, evs, i, n - 1); }
  }

  /** What reaches the stream is a prefix of what was sent in time; a writer that has
      returned wrote all of it, exactly when no write failed. Close reports the
      return either way, whether the queue was drained or dropped. */
  lemma WrittenInOrder(run: seq<State>, evs: seq<Event>, n: nat)
    requires IsRun(run, evs) && run[0] == START && n < |run|
    ensures run[n].written <= AcceptedOf(run, evs, n)
    ensures run[n].writer == Returned ==> (run[n].written == AcceptedOf(run, evs, n) <==> !run[n].failed)
  {
    RunKeeps(run, evs, n);
    AcceptedAre(run, evs, n);
    WrittenSoFar(run[n]);
  }

  lemma WrittenSoFar(s: State)
    requires Inv(s)
    ensures s.written <= s.accepted
    ensures s.writer == Returned ==> (s.written == s.accepted <==> !s.failed)
  {
    if !s.failed { assert s.written + (Rest(s) + s.queue) == s.accepted; }
  }

  /** A run in which a write fails, and close then finds the writer returned, though a
      line it accepted was dropped. */
  lemma ClosedAfterFailedWrite() returns (run: seq<State>, evs: seq<Event>)
    ensures IsRun(run, evs) && run[0] == START && evs != [] && evs[|evs| - 1] == Close
    ensures var last := run[|evs|]; last.writer == Returned && last.closed && last.failed
    ensures run[|evs|].written == [] && AcceptedOf(run, evs, |evs|) == ["line"]
  {
    var s1 := Step(START, Send("line"));
    var s2 := Step(s1, Swap);
    var s3 := Step(s2, WriteFails);
    var s4 := Step(s3, Close);
    run, evs := [START, s1, s2, s3, s4], [Send("line"), Swap, WriteFails, Close];
    AcceptedAre(run, evs, 4);
  }

  /** No wake-up is missed: a writer parked with lines queued, or on an outbox since
      closed, has the token waiting or a signaler about to leave it. */
  lemma NoMissedWakeup(run: seq<State>, evs: seq<Event>, n: nat)
    requires IsRun(run, evs) && run[0] == START && n < |run|
    requires run[n].writer == Parked && (run[n].written != run[n].accepted || run[n].closed)
    ensures Enabled(run[n], Wake) || Enabled(run[n], Signal)
  {
    RunKeeps(run, evs, n);
  }

  // ---- progress ----

  /** The writer and the signals on their way, with no more sends. */
  ghost predicate OnlyInternal(run: seq<State>, evs: seq<Event>) {
    IsRun(run, evs) && Inv(run[0]) && forall i | 0 <= i < |evs| :: Internal(evs[i])
  }

  predicate Internal(e: Event) { !e.Send? && !e.Close? }

  function WriterWork(w: Writer): nat {
    match w
    case Top => 1
    case Parked => 0
    case Writing(rest) => 2 + 2 * |rest|
    case Returned => 0
  }

  /** How many steps are left before the writer is idle. */
  function Work(s: State): nat {
    3 * s.signalers + (if s.wake then 2 else 0) + 4 * |s.queue| + WriterWork(s.writer)
  }

  lemma InternalWorks(s: State, e: Event)
    requires Inv(s) && Enabled(s, e) && Internal(e)
    ensures Work(Step(s, e)) < Work(s)
  {
  }

  /** With no signal on its way and the writer unable to move, it has returned, or is
      parked on an open outbox with everything written. */
  lemma IdleIsDrained(s: State)
    requires Inv(s) && forall e | Internal(e) :: !Enabled(s, e)
    ensures s.writer == Returned || (s.writer == Parked && !s.closed && s.queue == [] && s.written == s.accepted)
  {
    assert !Enabled(s, Signal) && !Enabled(s, Swap) && !Enabled(s, Wake) && !Enabled(s, Write);
  }

  /** Once sends stop, the backlog is written in a bounded number of steps: no run of
      the writer and the pending signals goes on for longer than the work there is. */
  lemma {:induction false} BacklogEnds(run: seq<State>, evs: seq<Event>, n: nat)
    requires OnlyInternal(run, evs) && n < |run|
    ensures n + Work(run[n]) <= Work(run[0])
  {
    if n > 0 {
      BacklogEnds(run, evs, n - 1);
      WorkFalls(run, evs, n);
    }
  }

  lemma WorkFalls(run: seq<State>, evs: seq<Event>, n: nat)
    requires OnlyInternal(run, evs) && 0 < n < |run|
    ensures Work(run[n]) < Work(run[n - 1])
  {
    RunKeeps(run, evs, n - 1);
    InternalWorks(run[n - 1], evs[n - 1]);
  }

  /** A closed outbox whose steps have all been taken has returned. */
  lemma ClosedReturns(run: seq<State>, evs: seq<Event>)
    requires OnlyInternal(run, evs) && run[0].closed
    requires forall e | Internal(e) :: !Enabled(run[|evs|], e)
    ensures run[|evs|].writer == Returned
  {
    RunKeeps(run, evs, |evs|);
    IdleIsDrained(run[|evs|]);
    StaysClosed(run, evs, |evs|);
  }

  lemma {:induction false} StaysClosed(run: seq<State>, evs: seq<Event>, n: nat)
    requires IsRun(run, evs) && run[0].closed && n < |run|
    ensures run[n].closed
  {
    if n > 0 { StaysClosed(run, evs, n - 1); }
  }

  // ---- the outbox object ----

  /** Each method below is one critical section or channel operation, so calls by
      senders, close and the writer interleave one at a time. */
  class Outbox {
    var queue: seq<string>
    var closed: bool
    var failed: bool
    var wake: bool
    var writer: Writer
    ghost var signalers: nat
    ghost var accepted: seq<string>
    var written: seq<string>

    ghost function View(): State
      reads this
    {
      State(queue, closed, failed, wake, writer, signalers, accepted, written)
    }

    constructor ()
      ensures View() == START
    {
      queue, closed, failed, wake, writer, signalers, accepted, written := [], false, false, false, Top, 0, [], [];
    }

    /** send up to its signal; an event that cannot be encoded queues nothing. */
    method Send(line: Option<string>) returns (ok: bool)
      modifies this
      ensures ok == line.Some?
      ensures View() == if line.Some? then Step(old(View()), Event.Send(line.value)) else old(View())
    {
      if line.None? {
        return false;
      }
      if !closed {
        queue := queue + [line.value];
        accepted := accepted + [line.value];
      }
      signalers := signalers + 1;
      return true;
    }

    /** The token is put in the channel, or is already there. */
    method Signal()
      requires signalers > 0
      modifies this
      ensures View() == Step(old(View()), Event.Signal)
    {
      if !wake { wake := true; }
      signalers := signalers - 1;
    }

    method Close()
      modifies this
      ensures View() == Step(old(View()), Event.Close)
    {
      closed := true;
      signalers := signalers + 1;
    }

    /** The top of the writer's loop. */
    method Swap()
      requires Enabled(View(), Event.Swap)
      modifies this
      ensures View() == Step(old(View()), Event.Swap)
    {
      var batch := queue;
      queue := [];
      if |batch| == 0 {
        writer := if closed then Returned else Parked;
      } else {
        writer := Writing(batch);
      }
    }

    /** The writer running with no one else: it writes the queue batch by batch until
        it parks with no token left or returns; fails names a write that fails. */
    method Run(fails: nat)
      requires Inv(View()) && signalers == 0 && writer != Returned
      modifies this
      ensures Inv(View()) && accepted == old(accepted) && signalers == old(signalers) && old(written) <= written
      ensures writer == Returned || (writer == Parked && !wake)
      ensures !failed ==> written == accepted
      ensures failed <==> |old(written)| + fails < |accepted|
      ensures failed ==> written == accepted[..|old(written)| + fails]
    {
      ghost var start := View();
      var left := fails;
      while writer != Returned && !(writer == Parked && !wake)
        invariant Running(start, fails, left, View())
        decreases Work(View())
      {
        ghost var before := View();
        var e := Advance(left > 0);
        RunningOn(start, fails, left, before, e);
        left := if e == Write then left - 1 else left;
      }
    }

    /** One turn of the writer: it takes the token, swaps, or writes one line. */
    method Advance(goesThrough: bool) returns (e: Event)
      requires Inv(View()) && writer != Returned && (writer == Parked ==> wake)
      modifies this
      ensures e in {Wake, Event.Swap, Write, WriteFails} && Enabled(old(View()), e) && View() == Step(old(View()), e)
      ensures (e == Write ==> goesThrough) && (e == WriteFails ==> !goesThrough)
    {
      if writer == Parked {
        wake, writer, e := false, Top, Wake;
      } else if writer == Top || writer.rest == [] {
        Swap();
        e := Event.Swap;
      } else if goesThrough {
        written, writer, e := written + [writer.rest[0]], Writing(writer.rest[1..]), Write;
      } else {
        closed, queue, failed, writer, e := true, [], true, Returned, WriteFails;
      }
    }
  }

  /** The writer alone since start, with left more writes that go through. */
  ghost predicate Running(start: State, fails: nat, left: nat, s: State) {
    && Inv(s) && s.accepted == start.accepted && s.signalers == 0 && start.written <= s.written
    && (s.failed ==> |start.written| + fails < |s.accepted| && s.written == s.accepted[..|start.written| + fails])
    && (!s.failed ==> |s.written| + left == |start.written| + fails)
  }

  lemma RunningOn(start: State, fails: nat, left: nat, s: State, e: Event)
    requires Running(start, fails, left, s) && Enabled(s, e) && e in {Wake, Swap, Write, WriteFails}
    requires (e == Write ==> left > 0) && (e == WriteFails ==> left == 0)
    ensures Running(start, fails, if e == Write then left - 1 else left, Step(s, e)) && Work(Step(s, e)) < Work(s)
  {
    StepKeeps(s, e);
    InternalWorks(s, e);
    if e == WriteFails {
      assert s.written + (s.writer.rest + s.queue) == s.accepted;
      assert s.written == s.accepted[..|s.written|];
    }
  }
}
