/** The bounded queue between the HID reader thread and the broker
    (services/device-broker/src/usb.rs). */
module ReceiveQueue {
  import opened Prelude

  datatype Event = Report(content: bytes) | ReadError(message: string)

  /** The reader is between reads, has dropped an event and still owes the overflow flag, or
      has left its loop. */
  datatype Reader = Reading | MustFlag(stopping: bool) | Stopped

  /** The broker is outside `read`, or inside it past the flag and about to receive. */
  datatype Broker = Outside | Receiving

  /** What a receive of the broker comes to. */
  datatype Received = Taken(event: Event) | TimedOut | ReaderGone

  datatype Queue = Queue(
    capacity: nat,
    events: seq<Event>,
    overflowed: bool,
    errors: nat,               // consecutive read errors
    reader: Reader,
    broker: Broker,
    produced: seq<Event>,      // history: everything the reader read, dropped or not
    kept: seq<nat>,            // history: which of it was queued
    firstDrop: Option<nat>,    // history: the first of it that was not
    returned: seq<Event>,      // history: what `read` returned before its first overflow error
    failed: bool,              // history: `read` has reported an overflow
    exposed: bool              // history: the flag was first raised behind a receiver on an empty queue
  )

  datatype Step =
    | Produce(event: Event)    // the reader reads an event and tries to queue it
    | Idle                     // the reader's read times out with nothing
    | RaiseFlag                // the reader stores the overflow flag after a drop
    | CheckFlag                // the broker enters `read` and swaps the flag
    | Receive                  // the broker receives the head of the queue
    | GiveUp                   // the broker's receive times out, or finds the reader gone

  predicate Enabled(q: Queue, step: Step) {
    match step
    case Produce(_) => q.reader == Reading
    case Idle => q.reader == Reading
    case RaiseFlag => q.reader.MustFlag?
    case CheckFlag => q.broker == Outside
    case Receive => q.broker == Receiving && q.events != []
    case GiveUp => q.broker == Receiving && q.events == []
  }

  function ErrorsAfter(q: Queue, e: Event): nat {
    if e.ReadError? then q.errors + 1 else 0
  }

  /** The reader leaves its loop at the second error in a row. */
  predicate StopsAfter(q: Queue, e: Event) {
    ErrorsAfter(q, e) >= 2
  }

  function Next(q: Queue, step: Step): Queue
    requires Enabled(q, step)
  {
    match step
    case Produce(e) =>
      var q1 := q.(produced := q.produced + [e], errors := ErrorsAfter(q, e));
      if |q.events| < q.capacity then
        q1.(events := q.events + [e], kept := q.kept + [|q.produced|],
            reader := if StopsAfter(q, e) then Stopped else Reading)
      else
        q1.(reader := MustFlag(StopsAfter(q, e)),
            firstDrop := if q.firstDrop.None? then Some(|q.produced|) else q.firstDrop)
    case Idle => q.(errors := 0)
    case RaiseFlag =>
      q.(overflowed := true, reader := if q.reader.stopping then Stopped else Reading,
         exposed := if q.overflowed then q.exposed else q.broker == Receiving && q.events == [])
    case CheckFlag =>
      if q.overflowed then q.(overflowed := false, failed := true) else q.(broker := Receiving)
    case Receive =>
      q.(events := q.events[1..], broker := Outside,
         returned := if q.failed then q.returned else q.returned + [q.events[0]])
    case GiveUp => q.(broker := Outside)
  }

  function Start(capacity: nat): Queue {
    Queue(capacity, [], false, 0, Reading, Outside, [], [], None, [], false, false)
  }

  // ------------------------------------------------------------------- the class

  /** The shared queue and flag. Each method is one atomic action of a thread. */
  class HidIo {
    const capacity: nat
    var events: seq<Event>
    var overflowed: bool
    var errors: nat
    var reader: Reader
    var broker: Broker
    ghost var produced: seq<Event>
    ghost var kept: seq<nat>
    ghost var firstDrop: Option<nat>
    ghost var returned: seq<Event>
    ghost var failed: bool
    ghost var exposed: bool

    ghost function State(): Queue
      reads this
    {
      Queue(capacity, events, overflowed, errors, reader, broker, produced, kept, firstDrop, returned, failed, exposed)
    }

    constructor (capacity: nat)
      ensures State() == Start(capacity)
    {
      this.capacity := capacity;
      events, overflowed, errors, reader, broker := [], false, 0, Reading, Outside;
      produced, kept, firstDrop, returned, failed, exposed := [], [], None, [], false, false;
    }

    /** The reader's `try_send` of what it has just read. */
    method TrySend(e: Event)
      requires Enabled(State(), Produce(e))
      modifies this
      ensures State() == Next(old(State()), Produce(e))
    {
      errors := if e.ReadError? then errors + 1 else 0;
      if |events| < capacity {
        events := events + [e];
        kept := kept + [|produced|];
        if errors >= 2 { reader := Stopped; }
      } else {
        reader := MustFlag(errors >= 2);
        if firstDrop == None { firstDrop := Some(|produced|); }
      }
      produced := produced + [e];
    }

    /** A read that times out forgives an earlier error. */
    method ReadNothing()
      requires Enabled(State(), Idle)
      modifies this`errors
      ensures State() == Next(old(State()), Idle)
    {
      errors := 0;
    }

    method StoreFlag()
      requires Enabled(State(), RaiseFlag)
      modifies this
      ensures State() == Next(old(State()), RaiseFlag)
    {
      if !overflowed { exposed := broker == Receiving && events == []; }
      overflowed := true;
      reader := if reader.stopping then Stopped else Reading;
    }

    /** The first half of `read`: swaps the flag, and reports an overflow if it was up. */
    method SwapFlag() returns (overflow: bool)
      requires Enabled(State(), CheckFlag)
      modifies this
      ensures State() == Next(old(State()), CheckFlag) && overflow == old(overflowed)
    {
      overflow := overflowed;
      overflowed := false;
      if overflow { failed := true; } else { broker := Receiving; }
    }

    /** The second half of `read`: takes the head of the queue, if there is one. On an empty queue it
        fails if the reader has left its loop, and otherwise waits its time out. */
    method RecvTimeout() returns (r: Received)
      requires broker == Receiving
      modifies this
      ensures State() == Next(old(State()), if old(events) == [] then GiveUp else Receive)
      ensures r == if old(events) != [] then Taken(old(events)[0])
                   else if reader == Stopped then ReaderGone else TimedOut
    {
      broker := Outside;
      if events == [] { return if reader == Stopped then ReaderGone else TimedOut; }
      r := Taken(events[0]);
      if !failed { returned := returned + [events[0]]; }
      events := events[1..];
    }

    /** One step of the reader or of the broker. */
    method Perform(step: Step)
      requires Enabled(State(), step)
      modifies this
      ensures State() == Next(old(State()), step)
    {
      match step
      case Produce(e) => TrySend(e);
      case Idle => ReadNothing();
      case RaiseFlag => StoreFlag();
      case CheckFlag => var overflow := SwapFlag();
      case Receive => var r := RecvTimeout();
      case GiveUp => var r := RecvTimeout();
    }

    /** Any interleaving of the two threads: the queue goes through exactly the states of the run. */
    method Drive(schedule: seq<Step>, ghost end: Queue)
      requires Run(State(), schedule, end)
      modifies this
      ensures State() == end
    {
      hide *;
      var i := 0;
      assert schedule[0..] == schedule;
      while i < |schedule|
        invariant i <= |schedule| && Run(State(), schedule[i..], end)
      {
        assert schedule[i..][1..] == schedule[i + 1..] && schedule[i..][0] == schedule[i];
        RunUnfolds(State(), schedule[i..], end);
        Perform(schedule[i]);
        i := i + 1;
      }
      RunUnfolds(State(), schedule[i..], end);
    }
  }

  lemma RunUnfolds(q: Queue, steps: seq<Step>, end: Queue)
    requires Run(q, steps, end)
    ensures steps == [] ==> end == q
    ensures steps != [] ==> Enabled(q, steps[0]) && Run(Next(q, steps[0]), steps[1..], end)
  {
  }

  // ------------------------------------------------------------------ invariant

  ghost predicate Picks(kept: seq<nat>, produced: seq<Event>, out: seq<Event>) {
    |out| == |kept| && forall i :: 0 <= i < |kept| ==> kept[i] < |produced| && out[i] == produced[kept[i]]
  }

  /** Before a gap every event is kept; after it, only later ones. */
  ghost predicate KeptAround(q: Queue) {
    match q.firstDrop
    case None => |q.kept| == |q.produced| && forall i :: 0 <= i < |q.kept| ==> q.kept[i] == i
    case Some(d) =>
      && d <= |q.kept| && d < |q.produced|
      && (forall i :: 0 <= i < d ==> q.kept[i] == i)
      && (forall i :: d <= i < |q.kept| ==> d < q.kept[i])
  }

  /** How far `read` can have come while it has not reported an overflow. */
  ghost predicate Progress(q: Queue) {
    match q.firstDrop
    case None => !q.overflowed && !q.reader.MustFlag? && !q.exposed
    case Some(d) =>
      if !q.overflowed then
        // the drop has not been flagged yet
        q.reader.MustFlag? && |q.kept| == d && !q.exposed
      else if q.broker == Receiving then
        // this receive began before the flag went up
        |q.returned| <= d && (!q.exposed ==> |q.returned| < d)
      else
        |q.returned| <= d + 1 && (!q.exposed ==> |q.returned| <= d)
  }

  ghost predicate Inv(q: Queue) {
    && KeptAround(q)
    && (!q.failed ==> Picks(q.kept, q.produced, q.returned + q.events) && Progress(q))
  }

  lemma ProduceKeepsInv(q: Queue, e: Event)
    requires Inv(q) && Enabled(q, Produce(e))
    ensures Inv(Next(q, Produce(e)))
  {
    var q' := Next(q, Produce(e));
    if |q.events| < q.capacity {
      assert q'.returned + q'.events == (q.returned + q.events) + [e];
    }
  }

  lemma ReceiveKeepsInv(q: Queue)
    requires Inv(q) && Enabled(q, Receive)
    ensures Inv(Next(q, Receive))
  {
    var q' := Next(q, Receive);
    if !q.failed {
      assert q'.returned + q'.events == q.returned + q.events;
    }
  }

  lemma StepKeepsInv(q: Queue, step: Step)
    requires Inv(q) && Enabled(q, step)
    ensures Inv(Next(q, step))
  {
    match step
    case Produce(e) => ProduceKeepsInv(q, e);
    case Receive => ReceiveKeepsInv(q);
    case Idle => hide Picks;
    case RaiseFlag => hide Picks;
    case CheckFlag => hide Picks;
    case GiveUp => hide Picks;
  }

  ghost predicate Run(q: Queue, steps: seq<Step>, end: Queue)
    decreases |steps|
  {
    if steps == [] then end == q
    else Enabled(q, steps[0]) && Run(Next(q, steps[0]), steps[1..], end)
  }

  lemma {:induction false} RunKeepsInv(q: Queue, steps: seq<Step>, end: Queue)
    requires Inv(q) && Run(q, steps, end)
    ensures Inv(end)
    decreases |steps|
  {
    if steps != [] {
      hide Next, Enabled, Inv;
      StepKeepsInv(q, steps[0]);
      RunKeepsInv(Next(q, steps[0]), steps[1..], end);
    }
  }

  /** The first half of `read` takes the flag down: an overflow is reported once, and then not again
      until another is flagged. Without one the broker goes on to receive. */
  lemma OverflowIsReportedOnce(q: Queue)
    requires Enabled(q, CheckFlag)
    ensures var x := Next(q, CheckFlag);
            && !x.overflowed && x.events == q.events
            && (q.overflowed ==> x.failed && x.broker == Outside && !Enabled(x, Receive))
            && (!q.overflowed ==> x == q.(broker := Receiving))
  {
  }

  // ------------------------------------------------------------- when the reader stops

  /** What the reader has read: an event, or nothing within its time. */
  function ReaderSteps(steps: seq<Step>): seq<Step> {
    if steps == [] then []
    else (if steps[0].Produce? || steps[0].Idle? then [steps[0]] else []) + ReaderSteps(steps[1..])
  }

  predicate IsError(step: Step) {
    step.Produce? && step.event.ReadError?
  }

  predicate EndsInTwoErrors(past: seq<Step>) {
    |past| >= 2 && IsError(past[|past| - 1]) && IsError(past[|past| - 2])
  }

  predicate Stopping(q: Queue) {
    q.reader == Stopped || q.reader == MustFlag(true)
  }

  /** The reader knows how the last two of its reads went. */
  ghost predicate Counts(q: Queue, past: seq<Step>) {
    && (q.errors == 0 <==> past == [] || !IsError(past[|past| - 1]))
    && (q.errors >= 2 <==> EndsInTwoErrors(past))
    && (Stopping(q) <==> EndsInTwoErrors(past))
  }

  lemma StepCounts(q: Queue, past: seq<Step>, step: Step)
    requires Counts(q, past) && Enabled(q, step)
    ensures Counts(Next(q, step), if step.Produce? || step.Idle? then past + [step] else past)
  {
  }

  lemma ReadsJoin(past: seq<Step>, steps: seq<Step>)
    ensures past + ReaderSteps(steps) ==
            if steps == [] then past
            else (if steps[0].Produce? || steps[0].Idle? then past + [steps[0]] else past) + ReaderSteps(steps[1..])
  {
  }

  lemma {:induction false} RunCounts(q: Queue, past: seq<Step>, steps: seq<Step>, end: Queue)
    requires Counts(q, past) && Run(q, steps, end)
    ensures Counts(end, past + ReaderSteps(steps))
    decreases |steps|
  {
    hide Next, Enabled, Counts, ReaderSteps;
    ReadsJoin(past, steps);
    if steps != [] {
      StepCounts(q, past, steps[0]);
      RunCounts(Next(q, steps[0]), if steps[0].Produce? || steps[0].Idle? then past + [steps[0]] else past,
                steps[1..], end);
    }
  }

  /** Over every run the reader leaves its loop, or is about to, exactly if the last two of its reads were
      errors: a report or an empty read in between forgives the first. */
  lemma ReaderStopsIff(capacity: nat, steps: seq<Step>, q: Queue)
    requires Run(Start(capacity), steps, q)
    ensures Stopping(q) <==> EndsInTwoErrors(ReaderSteps(steps))
  {
    RunCounts(Start(capacity), [], steps, q);
    assert [] + ReaderSteps(steps) == ReaderSteps(steps);
  }

  // ------------------------------------------------------------------- theorems

  /** What `read` has returned before its first overflow error is what the reader read first,
      in order and without a gap, except that the last of it may come from after the gap. */
  lemma GapIsDetectedWithinOneEvent(capacity: nat, steps: seq<Step>, q: Queue)
    requires Run(Start(capacity), steps, q) && !q.failed
    ensures q.returned <= q.produced ||
            exists j :: 0 <= j < |q.produced| && q.firstDrop.Some? && j > q.firstDrop.value
                        && q.returned == q.produced[..q.firstDrop.value] + [q.produced[j]]
    ensures q.firstDrop.Some? && |q.returned| > q.firstDrop.value ==> q.exposed
  {
    RunKeepsInv(Start(capacity), steps, q);
    var n := |q.returned|;
    assert forall i :: 0 <= i < n ==> q.returned[i] == (q.returned + q.events)[i] == q.produced[q.kept[i]];
    if q.firstDrop.Some? && n > q.firstDrop.value {
      var d := q.firstDrop.value;
      assert q.returned == q.produced[..d] + [q.produced[q.kept[d]]];
    } else {
      assert q.returned == q.produced[..n];
    }
  }

  /** Unless the flag was first raised behind a receiver waiting on an empty queue, nothing
      from after the gap is ever returned before the overflow is reported. */
  lemma PrefixUnlessExposed(capacity: nat, steps: seq<Step>, q: Queue)
    requires Run(Start(capacity), steps, q) && !q.failed && !q.exposed
    ensures q.returned <= q.produced
    ensures q.firstDrop.Some? ==> |q.returned| <= q.firstDrop.value
  {
    GapIsDetectedWithinOneEvent(capacity, steps, q);
    RunKeepsInv(Start(capacity), steps, q);
    var n := |q.returned|;
    assert forall i :: 0 <= i < n ==> q.returned[i] == (q.returned + q.events)[i] == q.produced[q.kept[i]];
    assert q.returned == q.produced[..n];
  }

  /** The condition is exact: from such a moment a next read event is returned ahead of the
      overflow error, across the gap. */
  lemma ExposedReceiverCrossesGap(q: Queue, e: Event)
    requires Inv(q) && !q.failed && q.reader == MustFlag(false) && !q.overflowed && q.capacity > 0
    requires q.broker == Receiving && q.events == []
    ensures var steps := [RaiseFlag, Produce(e), Receive];
            var end := Next(Next(Next(q, steps[0]), steps[1]), steps[2]);
            && Run(q, steps, end) && end.exposed && !end.failed
            && end.returned == q.produced[..q.firstDrop.value] + [e] && end.produced == q.produced + [e]
  {
    var q1 := Next(q, RaiseFlag);
    var q2 := Next(q1, Produce(e));
    var end := Next(q2, Receive);
    var steps := [RaiseFlag, Produce(e), Receive];
    assert steps[1..] == [Produce(e), Receive] && steps[1..][1..] == [Receive] && steps[1..][1..][1..] == [];
    assert Run(end, [], end);
    assert Run(q2, [Receive], end);
    assert Run(q1, [Produce(e), Receive], end);
    assert q.returned + q.events == q.returned;
    assert q.returned == q.produced[..q.firstDrop.value];
  }

  lemma {:induction false} RunsJoin(q: Queue, steps: seq<Step>, mid: Queue, more: seq<Step>, end: Queue)
    requires Run(q, steps, mid) && Run(mid, more, end)
    ensures Run(q, steps + more, end)
    decreases |steps|
  {
    hide Next, Enabled;
    if steps == [] {
      assert steps + more == more;
    } else {
      RunsJoin(Next(q, steps[0]), steps[1..], mid, more, end);
      assert (steps + more)[1..] == steps[1..] + more;
    }
  }

  lemma RunOne(q: Queue, step: Step)
    requires Enabled(q, step)
    ensures Run(q, [step], Next(q, step))
  {
    hide Next, Enabled;
    assert Run(Next(q, step), [], Next(q, step));
  }

  lemma RunThen(q: Queue, steps: seq<Step>, mid: Queue, step: Step)
    requires Run(q, steps, mid) && Enabled(mid, step)
    ensures Run(q, steps + [step], Next(mid, step))
  {
    hide *;
    RunOne(mid, step);
    RunsJoin(q, steps, mid, [step], Next(mid, step));
  }

  /** Reports go into the queue while there is room, with nobody receiving. */
  lemma {:induction false} Fills(capacity: nat, reports: seq<Event>) returns (steps: seq<Step>, q: Queue)
    requires |reports| <= capacity && forall i :: 0 <= i < |reports| ==> reports[i].Report?
    ensures Run(Start(capacity), steps, q)
    ensures q == Start(capacity).(events := reports, produced := reports, kept := q.kept)
  {
    hide Run;
    steps, q := [], Start(capacity);
    if reports == [] {
      RunNothing(q);
    } else {
      var n := |reports| - 1;
      var before;
      steps, before := Fills(capacity, reports[..n]);
      RunThen(Start(capacity), steps, before, Produce(reports[n]));
      steps, q := steps + [Produce(reports[n])], Next(before, Produce(reports[n]));
      assert reports[..n] + [reports[n]] == reports;
    }
  }

  lemma RunNothing(q: Queue)
    ensures Run(q, [], q)
  {
  }

  /** The broker reads the first `k` events of the queue while the reader owes its flag. */
  lemma {:induction false} Drains(q: Queue, k: nat) returns (steps: seq<Step>)
    requires k <= |q.events| && q.broker == Outside && !q.overflowed && !q.failed && q.returned == []
    ensures Run(q, steps, q.(events := q.events[k..], returned := q.events[..k]))
  {
    hide Run;
    steps := [];
    if k == 0 {
      assert q.events[0..] == q.events;
      RunNothing(q);
    } else {
      steps := Drains(q, k - 1);
      var q1 := q.(events := q.events[k - 1..], returned := q.events[..k - 1]);
      var q2 := Next(q1, CheckFlag);
      RunThen(q, steps, q1, CheckFlag);
      RunThen(q, steps + [CheckFlag], q2, Receive);
      steps := steps + [CheckFlag] + [Receive];
      assert q.events[k - 1..][1..] == q.events[k..] && q.events[..k - 1] + [q.events[k - 1]] == q.events[..k];
    }
  }

  /** The broker has read all that was queued and waits for more, the reader still owes its flag. */
  ghost predicate WaitsUnflagged(q: Queue, dropped: nat) {
    && q.reader == MustFlag(false) && !q.overflowed && !q.failed && q.broker == Receiving && q.events == []
    && q.firstDrop == Some(dropped)
  }

  /** A full queue drops the next report, and before the reader flags it the broker empties the queue. */
  lemma DropsAndDrains(full: Queue, dropped: bytes) returns (steps: seq<Step>, q: Queue)
    requires |full.events| == full.capacity && full.reader == Reading && full.broker == Outside
    requires !full.overflowed && !full.failed && full.firstDrop == None && full.returned == []
    ensures Run(full, steps, q) && WaitsUnflagged(q, |full.produced|)
    ensures q.capacity == full.capacity && q.produced == full.produced + [Report(dropped)]
  {
    hide Run;
    var unflagged := Next(full, Produce(Report(dropped)));
    RunOne(full, Produce(Report(dropped)));
    var n := |full.events|;
    steps := Drains(unflagged, n);
    var drained := unflagged.(events := unflagged.events[n..], returned := unflagged.events[..n]);
    RunsJoin(full, [Produce(Report(dropped))], unflagged, steps, drained);
    q := Next(drained, CheckFlag);
    RunThen(full, [Produce(Report(dropped))] + steps, drained, CheckFlag);
    steps := [Produce(Report(dropped))] + steps + [CheckFlag];
  }

  /** And the moment does come, from the start and whatever the room: a full queue drops the next
      report, and before that is flagged the broker has read all that was queued and waits for more.
      It then gets every report but the dropped one, and no error between them. */
  lemma GapIsCrossed(capacity: nat, reports: seq<Event>) returns (steps: seq<Step>, end: Queue)
    requires capacity > 0 && |reports| == capacity + 2 && forall i :: 0 <= i < |reports| ==> reports[i].Report?
    ensures Run(Start(capacity), steps, end) && !end.failed
    ensures end.produced == reports && end.returned == reports[..capacity] + [reports[capacity + 1]]
  {
    var more, q;
    steps, q := Exposes(capacity, reports[..capacity + 1]);
    hide Run, Inv;
    ExposedReceiverCrossesGap(q, reports[capacity + 1]);
    more := [RaiseFlag, Produce(reports[capacity + 1]), Receive];
    end := Next(Next(Next(q, more[0]), more[1]), more[2]);
    hide Next, Enabled;
    RunsJoin(Start(capacity), steps, q, more, end);
    steps := steps + more;
    assert reports[..capacity + 1] + [reports[capacity + 1]] == reports;
    assert q.produced[..capacity] == reports[..capacity];
  }

  lemma Exposes(capacity: nat, reports: seq<Event>) returns (steps: seq<Step>, q: Queue)
    requires |reports| == capacity + 1 && forall i :: 0 <= i < |reports| ==> reports[i].Report?
    ensures Run(Start(capacity), steps, q) && Inv(q) && WaitsUnflagged(q, capacity)
    ensures q.capacity == capacity && q.produced == reports
  {
    var full, more;
    steps, full := Fills(capacity, reports[..capacity]);
    more, q := DropsAndDrains(full, reports[capacity].content);
    NothingYet(capacity);
    hide Run, Inv;
    RunsJoin(Start(capacity), steps, full, more, q);
    steps := steps + more;
    RunKeepsInv(Start(capacity), steps, q);
    assert reports[..capacity] + [reports[capacity]] == reports;
  }

  lemma NothingYet(capacity: nat)
    ensures Inv(Start(capacity))
  {
  }

  /** A run in which every drop is flagged before anything else happens. */
  ghost predicate FlagsAtOnce(q: Queue, steps: seq<Step>)
    decreases |steps|
  {
    steps != [] && Enabled(q, steps[0]) ==>
      && (Next(q, steps[0]).reader.MustFlag? ==> |steps| > 1 && steps[1] == RaiseFlag)
      && FlagsAtOnce(Next(q, steps[0]), steps[1..])
  }

  lemma {:induction false} NeverExposed(q: Queue, steps: seq<Step>, end: Queue)
    requires q.capacity > 0 && Run(q, steps, end) && FlagsAtOnce(q, steps) && !q.exposed
    requires q.reader.MustFlag? ==> q.events != [] && steps != [] && steps[0] == RaiseFlag
    ensures !end.exposed
    decreases |steps|
  {
    if steps != [] {
      NeverExposed(Next(q, steps[0]), steps[1..], end);
    }
  }

  /** Were dropping and flagging one step, every event returned before the overflow error
      would precede the gap. */
  lemma AtomicFlagGivesExactPrefix(capacity: nat, steps: seq<Step>, q: Queue)
    requires capacity > 0 && Run(Start(capacity), steps, q) && FlagsAtOnce(Start(capacity), steps) && !q.failed
    ensures q.returned <= q.produced
    ensures q.firstDrop.Some? ==> |q.returned| <= q.firstDrop.value
  {
    NeverExposed(Start(capacity), steps, q);
    PrefixUnlessExposed(capacity, steps, q);
  }
}
