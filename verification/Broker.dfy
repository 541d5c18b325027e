/** The broker's three threads together: the worker, the state decoder and the metadata thread,
    around the decoder's queue (services/device-broker/src/worker.rs). */
module Broker {
  import opened Prelude
  import opened Messages
  import Decoder
  import Worker

  datatype Broker<D, C, U, S> = Broker(worker: Worker.Worker, system: Decoder.System<D, C, U, S>)

  /** A step of the worker, or one of the other threads and the clients that query the decoder. */
  datatype Step = Work(input: Worker.Input) | Decode(step: Decoder.Step)

  predicate Foreign(step: Decoder.Step) {
    step.Ask? || step.Turn? || step.PickUp? || step.Finish?
  }

  ghost predicate Enabled<D, C, U, S>(b: Broker<D, C, U, S>, step: Step) {
    match step
    case Work(input) => Worker.Enabled(b.worker, input)
    case Decode(s) => Foreign(s) && Decoder.Enabled(b.system, s)
  }

  // ---------------------------------------------------------- what the worker queues

  function Forwarded(messages: seq<Msg>): (r: seq<Decoder.Step>)
    ensures |r| == |messages| && forall i :: 0 <= i < |r| ==> r[i] == Decoder.Forward(messages[i])
  {
    seq(|messages|, i requires 0 <= i < |messages| => Decoder.Forward(messages[i]))
  }

  /** The steps of the decoder's queue that an input of the worker amounts to. */
  function Sends(w: Worker.Worker, input: Worker.Input): seq<Decoder.Step> {
    match input
    case Reconnect(force) =>
      if Worker.ReconnectSatisfied(force, w.connection.Some?, w.status.phase) then [] else [Decoder.StartSession]
    case Disconnect => [Decoder.StartSession]
    case Stop => [Decoder.Halt]
    case Connect(Connected(hello)) => [Decoder.StartSession] + Forwarded(LastOfKind(hello.history))
    case CreateBackup(b) => if w.connection.Some? && b.complete then Forwarded(Worker.SideMessages(b)) else []
    case ReadMessage(Got(kind, payload)) =>
      if w.connection.Some? then [Decoder.Forward(Msg(w.connection.value.nextSequence, kind, payload))] else []
    case _ => []
  }

  predicate WorkerStep(step: Decoder.Step) {
    step.StartSession? || step.Forward? || step.Halt?
  }

  predicate WorkerSteps(steps: seq<Decoder.Step>) {
    forall i :: 0 <= i < |steps| ==> WorkerStep(steps[i])
  }

  function Do<D, C, U, S>(codec: Decoder.Codec<D, C, U, S>, x: Decoder.System<D, C, U, S>,
        steps: seq<Decoder.Step>): Decoder.System<D, C, U, S>
    requires WorkerSteps(steps)
  {
    if steps == [] then x else Decoder.Next(codec, Do(codec, x, steps[..|steps| - 1]), steps[|steps| - 1])
  }

  lemma SendsAreWorkerSteps(w: Worker.Worker, input: Worker.Input)
    ensures WorkerSteps(Sends(w, input))
  {
    hide LastOfKind, Worker.SideMessages, Worker.ReconnectSatisfied;
  }

  ghost function Next<D, C, U, S>(
      codec: Decoder.Codec<D, C, U, S>, b: Broker<D, C, U, S>, step: Step): Broker<D, C, U, S>
    requires Enabled(b, step)
  {
    match step
    case Work(input) =>
      SendsAreWorkerSteps(b.worker, input);
      Broker(Worker.Next(b.worker, input), Do(codec, b.system, Sends(b.worker, input)))
    case Decode(s) => b.(system := Decoder.Next(codec, b.system, s))
  }

  function Start<D, C, U, S>(codec: Decoder.Codec<D, C, U, S>, auto: bool): Broker<D, C, U, S> {
    Broker(Worker.Start(auto), Decoder.Start(codec))
  }

  ghost predicate Run<D(!new), C(!new), U(!new), S(!new)>(
      codec: Decoder.Codec<D, C, U, S>, b: Broker<D, C, U, S>, steps: seq<Step>, end: Broker<D, C, U, S>)
    decreases |steps|
  {
    if steps == [] then end == b
    else Enabled(b, steps[0]) && Run(codec, Next(codec, b, steps[0]), steps[1..], end)
  }

  // ----------------------------------------------------------- the worker's part of the queue

  function PartOf<C>(c: Decoder.Command<C>): seq<Worker.DecoderCommand> {
    match c
    case Reset(g) => [Decoder.Reset(g)]
    case Message(g, m) => [Decoder.Message(g, m)]
    case Stop => [Decoder.Stop]
    case _ => []
  }

  /** What the worker put into the queue, stamps and all, among what everybody did. */
  function WorkerPart<C>(sent: seq<Decoder.Command<C>>): seq<Worker.DecoderCommand> {
    if sent == [] then []
    else
      var n := |sent| - 1;
      WorkerPart(sent[..n]) + PartOf(sent[n])
  }

  lemma PartGrows<C>(sent: seq<Decoder.Command<C>>, c: Decoder.Command<C>)
    ensures WorkerPart(sent + [c]) == WorkerPart(sent) + PartOf(c)
  {
    assert (sent + [c])[..|sent|] == sent;
  }

  /** The queue holds, in order and stamped alike, exactly what the worker sent. */
  ghost predicate Agrees<D, C, U, S>(b: Broker<D, C, U, S>) {
    WorkerPart(b.system.sent) == b.worker.sent && b.system.generation == b.worker.generation
  }

  function CommandOf(generation: nat, step: Decoder.Step): seq<Worker.DecoderCommand> {
    match step
    case StartSession => [Decoder.Reset(generation)]
    case Forward(m) => [Decoder.Message(generation, m)]
    case Halt => [Decoder.Stop]
    case _ => []
  }

  /** The queue after the worker's steps, from the generation it is in. */
  function Commands(generation: nat, steps: seq<Decoder.Step>): seq<Worker.DecoderCommand> {
    if steps == [] then []
    else
      var n := |steps| - 1;
      Commands(generation, steps[..n]) + CommandOf(Sessions(generation, steps), steps[n])
  }

  function Sessions(generation: nat, steps: seq<Decoder.Step>): nat {
    if steps == [] then generation
    else Sessions(generation, steps[..|steps| - 1]) + (if steps[|steps| - 1].StartSession? then 1 else 0)
  }

  lemma NextQueues<D, C, U, S>(codec: Decoder.Codec<D, C, U, S>, x: Decoder.System<D, C, U, S>, step: Decoder.Step)
    requires WorkerStep(step)
    ensures var g := x.generation + (if step.StartSession? then 1 else 0);
            && Decoder.Next(codec, x, step).generation == g
            && WorkerPart(Decoder.Next(codec, x, step).sent) == WorkerPart(x.sent) + CommandOf(g, step)
  {
    hide WorkerPart;
    match step
    case StartSession => PartGrows(x.sent, Decoder.Reset(x.generation + 1));
    case Forward(m) => PartGrows(x.sent, Decoder.Message(x.generation, m));
    case _ => PartGrows(x.sent, Decoder.Stop);
  }

  lemma DoSplits<D, C, U, S>(codec: Decoder.Codec<D, C, U, S>, x: Decoder.System<D, C, U, S>, steps: seq<Decoder.Step>)
    requires WorkerSteps(steps)
    ensures steps == [] ==> Do(codec, x, steps) == x
    ensures steps != [] ==>
              var n := |steps| - 1;
              && WorkerSteps(steps[..n]) && WorkerStep(steps[n])
              && Do(codec, x, steps) == Decoder.Next(codec, Do(codec, x, steps[..n]), steps[n])
  {
    hide Decoder.Next;
  }

  lemma CommandsSplit(generation: nat, steps: seq<Decoder.Step>)
    ensures steps == [] ==> Commands(generation, steps) == [] && Sessions(generation, steps) == generation
    ensures steps != [] ==>
              var n := |steps| - 1;
              && Sessions(generation, steps)
                 == Sessions(generation, steps[..n]) + (if steps[n].StartSession? then 1 else 0)
              && Commands(generation, steps)
                 == Commands(generation, steps[..n]) + CommandOf(Sessions(generation, steps), steps[n])
  {
    hide CommandOf;
  }

  lemma {:induction false} DoQueues<D, C, U, S>(
      codec: Decoder.Codec<D, C, U, S>, x: Decoder.System<D, C, U, S>, steps: seq<Decoder.Step>)
    requires WorkerSteps(steps)
    ensures WorkerPart(Do(codec, x, steps).sent) == WorkerPart(x.sent) + Commands(x.generation, steps)
    ensures Do(codec, x, steps).generation == Sessions(x.generation, steps)
    decreases |steps|
  {
    hide *;
    DoSplits(codec, x, steps);
    CommandsSplit(x.generation, steps);
    if steps == [] {
      assert WorkerPart(x.sent) + [] == WorkerPart(x.sent);
    } else {
      var n := |steps| - 1;
      DoQueues(codec, x, steps[..n]);
      NextQueues(codec, Do(codec, x, steps[..n]), steps[n]);
    }
  }

  lemma {:induction false} ForwardedCommands(generation: nat, before: seq<Decoder.Step>, messages: seq<Msg>)
    ensures var g := Sessions(generation, before);
            && Commands(generation, before + Forwarded(messages))
               == Commands(generation, before) + Worker.Forwards(g, messages)
            && Sessions(generation, before + Forwarded(messages)) == g
  {
    if messages == [] {
      assert before + Forwarded(messages) == before;
    } else {
      var n := |messages| - 1;
      ForwardedCommands(generation, before, messages[..n]);
      var steps := before + Forwarded(messages);
      assert steps[..|steps| - 1] == before + Forwarded(messages[..n]);
      assert steps[|steps| - 1] == Decoder.Forward(messages[n]);
    }
  }

  lemma {:induction false} IngestAllSends(w: Worker.Worker, messages: seq<Msg>)
    requires w.connection.Some?
    ensures Worker.IngestAll(w, messages).sent == w.sent + Worker.Forwards(w.generation, messages)
    ensures Worker.IngestAll(w, messages).generation == w.generation
  {
    if messages != [] {
      IngestAllSends(w, messages[..|messages| - 1]);
      hide Worker.FirstCompatible, Worker.Updated;
    }
  }

  lemma OneCommand(generation: nat, step: Decoder.Step)
    ensures Sessions(generation, [step]) == generation + (if step.StartSession? then 1 else 0)
    ensures Commands(generation, [step]) == CommandOf(Sessions(generation, [step]), step)
  {
    assert [step][..0] == [];
  }

  lemma SideSends(w: Worker.Worker, backup: Worker.BackupOutcome)
    requires w.connection.Some? && backup.complete
    ensures var side := Worker.SideMessages(backup);
            && Worker.BackedUp(w, backup).sent == w.sent + Worker.Forwards(w.generation, side)
            && Worker.BackedUp(w, backup).generation == w.generation
  {
    IngestAllSends(Worker.BackupBegun(w, backup), Worker.SideMessages(backup));
    hide Worker.IngestAll, Worker.SideMessages, Worker.Refusals, Worker.Forwards;
  }

  lemma NoSideSends(w: Worker.Worker, backup: Worker.BackupOutcome)
    requires w.connection.None? || !backup.complete
    ensures Worker.BackedUp(w, backup).sent == w.sent && Worker.BackedUp(w, backup).generation == w.generation
  {
    hide Worker.SideMessages, Worker.Refusals;
  }

  lemma BackupSends(w: Worker.Worker, backup: Worker.BackupOutcome)
    ensures var sends := Sends(w, Worker.CreateBackup(backup));
            && Worker.BackedUp(w, backup).sent == w.sent + Commands(w.generation, sends)
            && Worker.BackedUp(w, backup).generation == w.generation == Sessions(w.generation, sends)
  {
    var side := Worker.SideMessages(backup);
    CommandsSplit(w.generation, []);
    assert w.sent + [] == w.sent && [] + Forwarded(side) == Forwarded(side);
    hide Commands, Sessions, Forwarded, Worker.BackedUp, Worker.SideMessages;
    ForwardedCommands(w.generation, [], side);
    if w.connection.Some? && backup.complete {
      SideSends(w, backup);
      assert [] + Worker.Forwards(w.generation, side) == Worker.Forwards(w.generation, side);
    } else {
      NoSideSends(w, backup);
    }
  }

  lemma ReadSends(w: Worker.Worker, reading: Reading)
    requires w.connection.Some?
    ensures var sends := Sends(w, Worker.ReadMessage(reading));
            && Worker.ReadOne(w, reading).sent == w.sent + Commands(w.generation, sends)
            && Worker.ReadOne(w, reading).generation == w.generation == Sessions(w.generation, sends)
  {
    hide Worker.FirstCompatible, Worker.Updated, Worker.Refusals;
    assert w.sent + [] == w.sent;
    if reading.Got? {
      OneCommand(w.generation, Decoder.Forward(Msg(w.connection.value.nextSequence, reading.kind, reading.payload)));
      hide Commands, Sessions;
    }
  }

  lemma OpenedSends(w: Worker.Worker, hello: Hello)
    ensures var initial := LastOfKind(hello.history);
            var sends := [Decoder.StartSession] + Forwarded(initial);
            && Worker.Opened(w, hello, initial).sent == w.sent + Commands(w.generation, sends)
            && Worker.Opened(w, hello, initial).generation == Sessions(w.generation, sends)
  {
    var initial := LastOfKind(hello.history);
    OneCommand(w.generation, Decoder.StartSession);
    ForwardedCommands(w.generation, [Decoder.StartSession], initial);
    hide LastOfKind, Commands, Sessions, Forwarded, Worker.Forwards;
  }

  /** What a step of the worker adds to its history of sent commands is what the queue gets. */
  lemma WorkerSends(w: Worker.Worker, input: Worker.Input)
    requires Worker.Enabled(w, input)
    ensures Worker.Next(w, input).sent == w.sent + Commands(w.generation, Sends(w, input))
    ensures Worker.Next(w, input).generation == Sessions(w.generation, Sends(w, input))
  {
    OneCommand(w.generation, Decoder.StartSession);
    OneCommand(w.generation, Decoder.Halt);
    assert Commands(w.generation, []) == [] && Sessions(w.generation, []) == w.generation;
    assert w.sent + [] == w.sent;
    hide Commands, Sessions, LastOfKind, Heard, Numbered, Worker.BackedUp, Worker.ReadOne, Worker.Opened,
         Worker.Refusals, Worker.Timely;
    match input
    case CreateBackup(b) => BackupSends(w, b);
    case ReadMessage(reading) => ReadSends(w, reading);
    case Connect(Connected(hello)) => OpenedSends(w, hello);
    case _ =>
  }

  lemma StepAgrees<D, C, U, S>(codec: Decoder.Codec<D, C, U, S>, b: Broker<D, C, U, S>, step: Step)
    requires Agrees(b) && Enabled(b, step)
    ensures Agrees(Next(codec, b, step))
  {
    match step
    case Work(input) =>
      SendsAreWorkerSteps(b.worker, input);
      hide Worker.Next, Worker.Enabled, Sends, Do, WorkerPart, Commands, Sessions;
      WorkerSends(b.worker, input);
      DoQueues(codec, b.system, Sends(b.worker, input));
    case Decode(s) => ForeignAgrees(codec, b.system, s);
  }

  lemma ForeignAgrees<D, C, U, S>(codec: Decoder.Codec<D, C, U, S>, x: Decoder.System<D, C, U, S>, s: Decoder.Step)
    requires Foreign(s) && Decoder.Enabled(x, s)
    ensures WorkerPart(Decoder.Next(codec, x, s).sent) == WorkerPart(x.sent)
    ensures Decoder.Next(codec, x, s).generation == x.generation
  {
    hide WorkerPart, Decoder.Handle;
    assert WorkerPart(x.sent) + [] == WorkerPart(x.sent);
    match s
    case Ask => PartGrows(x.sent, Decoder.Query);
    case Finish =>
      var job := x.busy.value;
      var parsed := codec.parse(job.payload);
      if parsed.Some? { PartGrows(x.sent, Decoder.Catalog(job.generation, parsed.value, job.source)); }
    case _ =>
  }

  // ----------------------------------------------------------------------- theorems

  ghost predicate Sound<D(!new), C(!new), U(!new), S(!new)>(codec: Decoder.Codec<D, C, U, S>, b: Broker<D, C, U, S>) {
    Agrees(b) && Worker.Reachable(b.worker) && Decoder.Reachable(codec, b.system)
  }

  lemma {:induction false} DoReachable<D(!new), C(!new), U(!new), S(!new)>(
      codec: Decoder.Codec<D, C, U, S>, x: Decoder.System<D, C, U, S>, steps: seq<Decoder.Step>)
    requires Decoder.Reachable(codec, x) && WorkerSteps(steps)
    ensures Decoder.Reachable(codec, Do(codec, x, steps))
  {
    hide Decoder.Reachable, Decoder.Next;
    if steps != [] {
      var n := |steps| - 1;
      DoReachable(codec, x, steps[..n]);
      Decoder.ReachableStep(codec, Do(codec, x, steps[..n]), steps[n]);
    }
  }

  lemma StepSound<D(!new), C(!new), U(!new), S(!new)>(codec: Decoder.Codec<D, C, U, S>, b: Broker<D, C, U, S>,
        step: Step)
    requires Sound(codec, b) && Enabled(b, step)
    ensures Sound(codec, Next(codec, b, step))
  {
    StepAgrees(codec, b, step);
    hide Agrees, Worker.Reachable, Decoder.Reachable, Worker.Next, Worker.Enabled, Sends, Do;
    match step
    case Work(input) =>
      SendsAreWorkerSteps(b.worker, input);
      Worker.ReachableStep(b.worker, input);
      DoReachable(codec, b.system, Sends(b.worker, input));
    case Decode(s) => Decoder.ReachableStep(codec, b.system, s);
  }

  /** In every run of the three threads the worker is in a state its own theorems are about, the
      decoder in one that its theorems are about, and the decoder's queue holds exactly what the
      worker sent, beside queries and late catalogs. */
  lemma {:induction false} RunIsSound<D(!new), C(!new), U(!new), S(!new)>(
      codec: Decoder.Codec<D, C, U, S>, b: Broker<D, C, U, S>, steps: seq<Step>, end: Broker<D, C, U, S>)
    requires Sound(codec, b) && Run(codec, b, steps, end)
    ensures Sound(codec, end)
    decreases |steps|
  {
    if steps != [] {
      hide Sound, Enabled, Next;
      StepSound(codec, b, steps[0]);
      RunIsSound(codec, Next(codec, b, steps[0]), steps[1..], end);
    }
  }

  lemma StartIsSound<D(!new), C(!new), U(!new), S(!new)>(codec: Decoder.Codec<D, C, U, S>, auto: bool)
    ensures Sound(codec, Start(codec, auto))
  {
    Worker.StartReachable(auto);
    Decoder.StartReachable(codec);
  }

  /** So in every run of worker, decoder and metadata thread a dequeued message meets the decoder in
      its own generation, and the snapshot is the fold of the current session's own updates. */
  lemma SnapshotFollowsTheWorker<D(!new), C(!new), U(!new), S(!new)>(
      codec: Decoder.Codec<D, C, U, S>, auto: bool, steps: seq<Step>, b: Broker<D, C, U, S>)
    requires Run(codec, Start(codec, auto), steps, b) && !b.system.decoder.halted
    ensures WorkerPart(b.system.sent) == b.worker.sent
    ensures b.system.handled <= |b.system.sent|
    ensures var done := b.system.sent[..b.system.handled];
            b.system.decoder.snapshot == Decoder.ApplyAll(codec, codec.blank,
                Decoder.Decoded(codec, Decoder.Session(done), Decoder.GenerationAfter(done)).1)
    ensures b.system.handled < |b.system.sent| && b.system.sent[b.system.handled].Message? ==>
              b.system.sent[b.system.handled].generation == b.system.decoder.generation
  {
    hide Run, Decoder.Reachable, Worker.Reachable, Decoder.ApplyAll, Decoder.Decoded, WorkerPart;
    StartIsSound(codec, auto);
    RunIsSound(codec, Start(codec, auto), steps, b);
    Decoder.SnapshotIsSessionFold(codec, b.system);
    if b.system.handled < |b.system.sent| && b.system.sent[b.system.handled].Message? {
      Decoder.MessagesAreNeverStale(codec, b.system);
    }
  }
}
