/** The state decoder thread, the FIFO that feeds it and the metadata thread that sends late
    catalogs back into that FIFO (services/device-broker/src/worker.rs, `run_state_decoder`). */
module Decoder {
  import opened Prelude
  import opened Messages
  import opened EventLog

  /** What the thread needs of the device state decoder, the catalog parser and the snapshot:
      `D` decoder states, `C` catalogs, `U` state updates, `S` snapshots. */
  datatype Codec<!D, !C, !U, !S> = Codec(
    initial: D,
    decode: (D, nat, bytes) -> (D, Option<seq<U>>),
    install: (D, C) -> (D, seq<U>),
    clock: Msg -> bool,           // the message carries a tempo clock
    parse: bytes -> Option<C>,
    blank: S,
    apply: (S, U) -> S
  )

  /** A command in the decoder's queue. A catalog remembers, as history, the position of the
      message it was parsed from. */
  datatype Command<C> =
    | Reset(generation: nat)
    | Message(generation: nat, message: Msg)
    | Catalog(generation: nat, catalog: C, source: nat)
    | Query
    | Stop

  datatype Frame<U> = Frame(sequence: nat, states: seq<U>, clock: bool)

  datatype Decoder<D, U, S> = Decoder(
    state: D,
    generation: nat,
    snapshot: S,
    log: seq<Frame<U>>,
    nextSequence: nat,
    halted: bool
  )

  function Initial<D, C, U, S>(codec: Codec<D, C, U, S>): Decoder<D, U, S> {
    Decoder(codec.initial, 0, codec.blank, [], 1, false)
  }

  // ------------------------------------------------------------- specification

  function ApplyAll<D, C, U, S>(codec: Codec<D, C, U, S>, snapshot: S, updates: seq<U>): S {
    if updates == [] then snapshot
    else codec.apply(ApplyAll(codec, snapshot, updates[..|updates| - 1]), updates[|updates| - 1])
  }

  function Publish<D, U, S>(d: Decoder<D, U, S>, states: seq<U>, clock: bool): Decoder<D, U, S> {
    d.(log := LastN(d.log + [Frame(d.nextSequence, states, clock)], LOG_LIMIT), nextSequence := d.nextSequence + 1)
  }

  function Absorb<D, C, U, S>(codec: Codec<D, C, U, S>, d: Decoder<D, U, S>, state: D, states: seq<U>,
        clock: bool): Decoder<D, U, S> {
    var d1 := d.(state := state);
    if states == [] && !clock then d1
    else Publish(d1.(snapshot := ApplyAll(codec, d.snapshot, states)), states, clock)
  }

  /** One turn of the decoder loop. */
  function Handle<D, C, U, S>(codec: Codec<D, C, U, S>, d: Decoder<D, U, S>, c: Command<C>): Decoder<D, U, S> {
    if d.halted then d else
    match c
    case Reset(g) => d.(generation := g, state := codec.initial, log := [], snapshot := codec.blank)
    case Message(g, m) =>
      if g != d.generation || m.kind == MODEL_REPO_KIND then d
      else
        (match codec.decode(d.state, m.kind, m.payload)
         case (state, None) => d.(state := state)
         case (state, Some(states)) => Absorb(codec, d, state, states, codec.clock(m)))
    case Catalog(g, catalog, _) =>
      if g != d.generation then d
      else var (state, states) := codec.install(d.state, catalog); Absorb(codec, d, state, states, false)
    case Query => d
    case Stop => d.(halted := true)
  }

  /** The model repository a command makes the thread offer for parsing. */
  function Repository<D, C, U, S>(d: Decoder<D, U, S>, c: Command<C>): Option<(nat, bytes)> {
    match c
    case Message(g, m) => if g == d.generation && m.kind == MODEL_REPO_KIND then Some((g, m.payload)) else None
    case _ => None
  }

  function Replay<D, C, U, S>(codec: Codec<D, C, U, S>, commands: seq<Command<C>>): Decoder<D, U, S> {
    if commands == [] then Initial(codec)
    else Handle(codec, Replay(codec, commands[..|commands| - 1]), commands[|commands| - 1])
  }

  // ------------------------------------------------------------------ the thread

  class StateDecoderThread<D(0), C, U, S(0)> {
    const codec: Codec<D, C, U, S>
    const bus: EventBus<Frame<U>>
    var state: D
    var generation: nat
    var snapshot: S
    var nextSequence: nat
    var halted: bool

    ghost function State(): Decoder<D, U, S>
      reads this, bus
    {
      Decoder(state, generation, snapshot, bus.log, nextSequence, halted)
    }

    constructor (codec: Codec<D, C, U, S>)
      ensures State() == Initial(codec) && this.codec == codec && fresh(bus)
    {
      this.codec := codec;
      bus := new EventBus();
      state, generation, snapshot, nextSequence, halted := codec.initial, 0, codec.blank, 1, false;
    }

    method ApplyStates(states: seq<U>)
      modifies this`snapshot
      ensures snapshot == ApplyAll(codec, old(snapshot), states)
    {
      var i := 0;
      while i < |states|
        invariant 0 <= i <= |states| && snapshot == ApplyAll(codec, old(snapshot), states[..i])
      {
        assert states[..i + 1][..i] == states[..i];
        snapshot := codec.apply(snapshot, states[i]);
        i := i + 1;
      }
      assert states[..i] == states;
    }

    method PublishFrame(states: seq<U>, clock: bool)
      modifies this`nextSequence, bus
      ensures State() == Publish(old(State()), states, clock)
    {
      bus.Publish(Frame(nextSequence, states, clock));
      nextSequence := nextSequence + 1;
    }

    method AbsorbUpdate(decoded: D, states: seq<U>, clock: bool)
      modifies this, bus
      ensures State() == Absorb(codec, old(State()), decoded, states, clock)
    {
      hide ApplyAll;
      state := decoded;
      if states == [] && !clock { return; }
      ApplyStates(states);
      PublishFrame(states, clock);
    }

    /** One command. A model repository goes out to the metadata thread, unparsed; a query is
        answered from the decoder's present state. */
    method HandleCommand(c: Command<C>) returns (repository: Option<(nat, bytes)>, answer: Option<D>)
      requires !halted
      modifies this, bus
      ensures State() == Handle(codec, old(State()), c)
      ensures repository == Repository(old(State()), c)
      ensures answer == if c.Query? then Some(old(state)) else None
    {
      hide Absorb;
      repository, answer := None, None;
      match c
      case Reset(g) =>
        generation, state, snapshot := g, codec.initial, codec.blank;
        bus.Clear();
      case Message(g, m) =>
        if g == generation && m.kind == MODEL_REPO_KIND {
          repository := Some((g, m.payload));
        } else if g == generation {
          var (decoded, result) := codec.decode(state, m.kind, m.payload);
          if result.Some? {
            AbsorbUpdate(decoded, result.value, codec.clock(m));
          } else {
            state := decoded;
          }
        }
      case Catalog(g, catalog, _) =>
        if g == generation {
          var (installed, states) := codec.install(state, catalog);
          AbsorbUpdate(installed, states, false);
        }
      case Query => answer := Some(state);
      case Stop => halted := true;
    }

    /** The thread's loop over its queue, until a stop command. */
    method Loop(commands: seq<Command<C>>)
      requires State() == Initial(codec)
      modifies this, bus
      ensures State() == Replay(codec, commands)
    {
      hide Handle;
      var i := 0;
      assert commands[..0] == [];
      while i < |commands| && !halted
        invariant 0 <= i <= |commands| && State() == Replay(codec, commands[..i])
      {
        assert commands[..i + 1][..i] == commands[..i];
        var repository, answer := HandleCommand(commands[i]);
        i := i + 1;
      }
      if halted { HaltedForGood(codec, commands, i); } else { assert commands[..i] == commands; }
    }
  }

  lemma {:induction false} HaltedForGood<D, C, U, S>(codec: Codec<D, C, U, S>, commands: seq<Command<C>>, i: nat)
    requires i <= |commands| && Replay(codec, commands[..i]).halted
    ensures Replay(codec, commands) == Replay(codec, commands[..i])
    decreases |commands|
  {
    var n := |commands| - 1;
    if i <= n {
      assert commands[..n][..i] == commands[..i];
      HaltedForGood(codec, commands[..n], i);
    } else {
      assert commands[..i] == commands;
    }
  }

  // ------------------------------------------------- the queue and its two threads

  /** A model repository waiting to be parsed, or being parsed. */
  datatype Job = Job(generation: nat, payload: bytes, source: nat)

  /** `sent` is every command ever queued; the decoder has handled the first `handled`. */
  datatype System<D, C, U, S> = System(
    sent: seq<Command<C>>,
    handled: nat,
    decoder: Decoder<D, U, S>,
    generation: nat,        // the worker's session counter
    slot: Option<Job>,      // the metadata thread's queue, of one place
    busy: Option<Job>       // the job it is working on
  )

  datatype Step =
    | StartSession          // the worker opens or closes a session
    | Forward(message: Msg) // the worker passes on a message of its session
    | Ask                   // a client queries the decoder
    | Halt                  // the worker stops
    | Turn                  // the decoder handles the next command
    | PickUp                // the metadata thread takes the waiting job
    | Finish                // it finishes the job it is on

  predicate Enabled<D, C, U, S>(x: System<D, C, U, S>, step: Step) {
    match step
    case Turn => x.handled < |x.sent| && !x.decoder.halted
    case PickUp => x.busy.None? && x.slot.Some?
    case Finish => x.busy.Some?
    case _ => true
  }

  /** A model repository of the current session is offered to the metadata thread, and dropped
      if one is waiting there already. */
  function Offered<D, C, U, S>(x: System<D, C, U, S>): Option<Job>
    requires x.handled < |x.sent|
  {
    match Repository(x.decoder, x.sent[x.handled])
    case Some((g, payload)) => if x.slot.None? then Some(Job(g, payload, x.handled)) else x.slot
    case None => x.slot
  }

  function Next<D, C, U, S>(codec: Codec<D, C, U, S>, x: System<D, C, U, S>, step: Step): System<D, C, U, S>
    requires Enabled(x, step)
  {
    match step
    case StartSession => x.(generation := x.generation + 1, sent := x.sent + [Reset(x.generation + 1)])
    case Forward(m) => x.(sent := x.sent + [Message(x.generation, m)])
    case Ask => x.(sent := x.sent + [Query])
    case Halt => x.(sent := x.sent + [Stop])
    case Turn => x.(decoder := Handle(codec, x.decoder, x.sent[x.handled]), handled := x.handled + 1,
        slot := Offered(x))
    case PickUp => x.(busy := x.slot, slot := None)
    case Finish =>
      var job := x.busy.value;
      (match codec.parse(job.payload)
       case None => x.(busy := None)
       case Some(c) => x.(busy := None, sent := x.sent + [Catalog(job.generation, c, job.source)]))
  }

  function Start<D, C, U, S>(codec: Codec<D, C, U, S>): System<D, C, U, S> {
    System([], 0, Initial(codec), 0, None, None)
  }

  /** The generation in force after the given commands: that of the last reset among them. */
  function GenerationAfter<C>(commands: seq<Command<C>>): nat {
    if commands == [] then 0
    else match commands[|commands| - 1]
         case Reset(g) => g
         case _ => GenerationAfter(commands[..|commands| - 1])
  }

  /** Every command carries the stamp its place in the queue calls for. */
  ghost predicate Stamped<C>(sent: seq<Command<C>>, i: nat)
    requires i < |sent|
  {
    match sent[i]
    case Reset(g) => g == GenerationAfter(sent[..i]) + 1
    case Message(g, _) => g == GenerationAfter(sent[..i])
    case Catalog(g, _, source) => source < i && IsMessageOf(sent, source, g)
    case _ => true
  }

  predicate IsMessageOf<C>(sent: seq<Command<C>>, i: nat, generation: nat) {
    i < |sent| && sent[i].Message? && sent[i].generation == generation
  }

  ghost predicate AllStamped<C>(sent: seq<Command<C>>) {
    forall i :: 0 <= i < |sent| ==> Stamped(sent, i)
  }

  ghost predicate JobOk<C>(sent: seq<Command<C>>, handled: nat, job: Option<Job>) {
    job.Some? ==> job.value.source < handled && IsMessageOf(sent, job.value.source, job.value.generation)
  }

  ghost predicate Inv<D, C, U, S>(codec: Codec<D, C, U, S>, x: System<D, C, U, S>) {
    && x.handled <= |x.sent|
    && AllStamped(x.sent)
    && x.generation == GenerationAfter(x.sent)
    && x.decoder == Replay(codec, x.sent[..x.handled])
    && (!x.decoder.halted ==> x.decoder.generation == GenerationAfter(x.sent[..x.handled]))
    && JobOk(x.sent, x.handled, x.slot) && JobOk(x.sent, x.handled, x.busy)
  }

  lemma AppendStamped<C>(sent: seq<Command<C>>, c: Command<C>)
    requires AllStamped(sent) && Stamped(sent + [c], |sent|)
    ensures AllStamped(sent + [c])
  {
    forall i | 0 <= i < |sent + [c]| ensures Stamped(sent + [c], i) {
      if i < |sent| {
        assert Stamped(sent, i);
        assert (sent + [c])[..i] == sent[..i];
      }
    }
  }

  lemma SendKeepsInv<D, C, U, S>(codec: Codec<D, C, U, S>, x: System<D, C, U, S>, c: Command<C>, generation: nat,
        busy: Option<Job>)
    requires Inv(codec, x) && (busy == x.busy || busy == None)
    requires match c
             case Reset(g) => g == generation == x.generation + 1
             case Message(g, _) => g == generation == x.generation
             case Catalog(g, _, source) => generation == x.generation && IsMessageOf(x.sent, source, g)
             case _ => generation == x.generation
    ensures Inv(codec, x.(sent := x.sent + [c], generation := generation, busy := busy))
  {
    var sent := x.sent + [c];
    assert sent[..|x.sent|] == x.sent;
    assert sent[..x.handled] == x.sent[..x.handled];
    AppendStamped(x.sent, c);
    hide AllStamped, Replay;
  }

  lemma TurnKeepsInv<D, C, U, S>(codec: Codec<D, C, U, S>, x: System<D, C, U, S>)
    requires Inv(codec, x) && Enabled(x, Turn)
    ensures Inv(codec, Next(codec, x, Turn))
  {
    var n := x.handled;
    assert Stamped(x.sent, n);
    assert x.sent[..n + 1][..n] == x.sent[..n];
    GenerationAfterTurn(codec, x.decoder, x.sent[n]);
    hide AllStamped, Handle;
  }

  lemma GenerationAfterTurn<D, C, U, S>(codec: Codec<D, C, U, S>, d: Decoder<D, U, S>, c: Command<C>)
    requires !d.halted
    ensures Handle(codec, d, c).generation == if c.Reset? then c.generation else d.generation
  {
  }

  lemma StepKeepsInv<D, C, U, S>(codec: Codec<D, C, U, S>, x: System<D, C, U, S>, step: Step)
    requires Inv(codec, x) && Enabled(x, step)
    ensures Inv(codec, Next(codec, x, step))
  {
    hide Handle, Replay, AllStamped;
    match step
    case StartSession => SendKeepsInv(codec, x, Reset(x.generation + 1), x.generation + 1, x.busy);
    case Forward(m) => SendKeepsInv(codec, x, Message(x.generation, m), x.generation, x.busy);
    case Ask => SendKeepsInv(codec, x, Query, x.generation, x.busy);
    case Halt => SendKeepsInv(codec, x, Stop, x.generation, x.busy);
    case Turn => TurnKeepsInv(codec, x);
    case PickUp =>
    case Finish =>
      var job := x.busy.value;
      var parsed := codec.parse(job.payload);
      if parsed.Some? {
        SendKeepsInv(codec, x, Catalog(job.generation, parsed.value, job.source), x.generation, None);
      }
  }

  ghost predicate Run<D(!new), C(!new), U(!new), S(!new)>(codec: Codec<D, C, U, S>, x: System<D, C, U, S>,
        steps: seq<Step>, end: System<D, C, U, S>)
    decreases |steps|
  {
    if steps == [] then end == x
    else Enabled(x, steps[0]) && Run(codec, Next(codec, x, steps[0]), steps[1..], end)
  }

  lemma {:induction false} RunKeepsInv<D(!new), C(!new), U(!new), S(!new)>(codec: Codec<D, C, U, S>,
        x: System<D, C, U, S>, steps: seq<Step>, end: System<D, C, U, S>)
    requires Inv(codec, x) && Run(codec, x, steps, end)
    ensures Inv(codec, end)
    decreases |steps|
  {
    if steps != [] {
      hide Inv, Enabled, Next;
      StepKeepsInv(codec, x, steps[0]);
      RunKeepsInv(codec, Next(codec, x, steps[0]), steps[1..], end);
    }
  }

  ghost predicate Reachable<D(!new), C(!new), U(!new), S(!new)>(codec: Codec<D, C, U, S>, x: System<D, C, U, S>) {
    exists steps :: Run(codec, Start(codec), steps, x)
  }

  lemma ReachableInv<D(!new), C(!new), U(!new), S(!new)>(codec: Codec<D, C, U, S>, x: System<D, C, U, S>)
    requires Reachable(codec, x)
    ensures Inv(codec, x)
  {
    var steps :| Run(codec, Start(codec), steps, x);
    RunKeepsInv(codec, Start(codec), steps, x);
  }

  lemma {:induction false} RunAppend<D(!new), C(!new), U(!new), S(!new)>(
      codec: Codec<D, C, U, S>, x: System<D, C, U, S>, steps: seq<Step>, end: System<D, C, U, S>, step: Step)
    requires Run(codec, x, steps, end) && Enabled(end, step)
    ensures Run(codec, x, steps + [step], Next(codec, end, step))
    decreases |steps|
  {
    hide Next, Enabled;
    if steps == [] {
      assert [step][1..] == [] && steps + [step] == [step];
      assert Run(codec, Next(codec, x, step), [], Next(codec, end, step));
    } else {
      RunAppend(codec, Next(codec, x, steps[0]), steps[1..], end, step);
      assert (steps + [step])[1..] == steps[1..] + [step];
    }
  }

  lemma ReachableStep<D(!new), C(!new), U(!new), S(!new)>(codec: Codec<D, C, U, S>, x: System<D, C, U, S>, step: Step)
    requires Reachable(codec, x) && Enabled(x, step)
    ensures Reachable(codec, Next(codec, x, step))
  {
    hide Next, Enabled, Run;
    var steps :| Run(codec, Start(codec), steps, x);
    RunAppend(codec, Start(codec), steps, x, step);
  }

  lemma StartReachable<D(!new), C(!new), U(!new), S(!new)>(codec: Codec<D, C, U, S>)
    ensures Reachable(codec, Start(codec))
  {
    assert Run(codec, Start(codec), [], Start(codec));
  }

  // ------------------------------------------------------------------- theorems

  /** A queued message always meets the decoder in its own generation: the arm that drops a
      stale message is never taken. */
  lemma MessagesAreNeverStale<D(!new), C(!new), U(!new), S(!new)>(codec: Codec<D, C, U, S>, x: System<D, C, U, S>)
    requires Reachable(codec, x) && Enabled(x, Turn) && x.sent[x.handled].Message?
    ensures x.sent[x.handled].generation == x.decoder.generation
  {
    ReachableInv(codec, x);
    assert Stamped(x.sent, x.handled);
  }

  ghost predicate ResetBetween<C>(sent: seq<Command<C>>, lo: nat, hi: nat) {
    exists i :: lo <= i < hi && i < |sent| && sent[i].Reset?
  }

  lemma {:induction false} GenerationsRise<C>(sent: seq<Command<C>>, lo: nat, hi: nat)
    requires AllStamped(sent) && lo <= hi <= |sent|
    ensures GenerationAfter(sent[..lo]) <= GenerationAfter(sent[..hi])
    ensures GenerationAfter(sent[..lo]) == GenerationAfter(sent[..hi]) <==> !ResetBetween(sent, lo, hi)
    decreases hi
  {
    if lo != hi {
      GenerationsRise(sent, lo, hi - 1);
      assert Stamped(sent, hi - 1);
      assert sent[..hi][..hi - 1] == sent[..hi - 1];
      assert sent[..hi][hi - 1] == sent[hi - 1];
      assert ResetBetween(sent, lo, hi) <==> ResetBetween(sent, lo, hi - 1) || sent[hi - 1].Reset?;
    }
  }

  /** A catalog is discarded exactly when the session of the message it was parsed from has been
      reset since. */
  lemma CatalogIsDiscardedIffReset<D(!new), C(!new), U(!new), S(!new)>(codec: Codec<D, C, U, S>, x: System<D, C, U, S>)
    requires Reachable(codec, x) && Enabled(x, Turn) && x.sent[x.handled].Catalog?
    ensures var c := x.sent[x.handled];
            && c.source < x.handled && IsMessageOf(x.sent, c.source, c.generation)
            && (c.generation != x.decoder.generation <==> ResetBetween(x.sent, c.source, x.handled))
    ensures ResetBetween(x.sent, x.sent[x.handled].source, x.handled) ==>
              Handle(codec, x.decoder, x.sent[x.handled]) == x.decoder
  {
    ReachableInv(codec, x);
    var c := x.sent[x.handled];
    assert Stamped(x.sent, x.handled);
    assert Stamped(x.sent, c.source);
    GenerationsRise(x.sent, c.source, x.handled);
  }

  // ----------------------------------------------- the snapshot as a fold of the session

  /** The commands of the current session: those after the last reset. */
  function Session<C>(commands: seq<Command<C>>): seq<Command<C>> {
    if commands == [] || commands[|commands| - 1].Reset? then []
    else Session(commands[..|commands| - 1]) + [commands[|commands| - 1]]
  }

  /** The decoder state and the updates that the inputs of one session decode to, by order of
      arrival. Only catalogs of that session's own generation are inputs. */
  function Decoded<D, C, U, S>(codec: Codec<D, C, U, S>, session: seq<Command<C>>, generation: nat): (D, seq<U>) {
    if session == [] then (codec.initial, [])
    else
      var (state, updates) := Decoded(codec, session[..|session| - 1], generation);
      match session[|session| - 1]
      case Message(_, m) =>
        if m.kind == MODEL_REPO_KIND then (state, updates)
        else (match codec.decode(state, m.kind, m.payload)
              case (after, None) => (after, updates)
              case (after, Some(states)) => (after, updates + states))
      case Catalog(g, catalog, _) =>
        if g != generation then (state, updates)
        else var (after, states) := codec.install(state, catalog); (after, updates + states)
      case _ => (state, updates)
  }

  lemma {:induction false} ApplyConcat<D, C, U, S>(codec: Codec<D, C, U, S>, snapshot: S, a: seq<U>, b: seq<U>)
    ensures ApplyAll(codec, snapshot, a + b) == ApplyAll(codec, ApplyAll(codec, snapshot, a), b)
  {
    if b == [] {
      assert a + b == a;
    } else {
      assert (a + b)[..|a + b| - 1] == a + b[..|b| - 1];
      ApplyConcat(codec, snapshot, a, b[..|b| - 1]);
    }
  }

  ghost predicate FoldsSession<D, C, U, S>(codec: Codec<D, C, U, S>, d: Decoder<D, U, S>, commands: seq<Command<C>>) {
    var (state, updates) := Decoded(codec, Session(commands), GenerationAfter(commands));
    d.state == state && d.snapshot == ApplyAll(codec, codec.blank, updates) && d.generation == GenerationAfter(commands)
  }

  lemma TurnFoldsSession<D, C, U, S>(codec: Codec<D, C, U, S>, d: Decoder<D, U, S>, commands: seq<Command<C>>,
        c: Command<C>)
    requires FoldsSession(codec, d, commands) && !d.halted
    requires c.Message? ==> c.generation == d.generation
    ensures FoldsSession(codec, Handle(codec, d, c), commands + [c])
  {
    var all := commands + [c];
    assert all[..|all| - 1] == commands;
    var session, g := Session(commands), GenerationAfter(commands);
    var (state, updates) := Decoded(codec, session, g);
    if !c.Reset? {
      assert Session(all) == session + [c] && GenerationAfter(all) == g;
      assert (session + [c])[..|session|] == session;
      var states := Contribution(codec, state, c, g);
      hide ApplyAll;
      ApplyConcat(codec, codec.blank, updates, states);
      assert ApplyAll(codec, d.snapshot, []) == d.snapshot by { NothingToApply(codec, d.snapshot); }
      assert updates + [] == updates;
    } else {
      assert Session(all) == [];
      NothingToApply(codec, codec.blank);
    }
  }

  lemma NothingToApply<D, C, U, S>(codec: Codec<D, C, U, S>, snapshot: S)
    ensures ApplyAll(codec, snapshot, []) == snapshot
  {
  }

  /** The updates one command adds. */
  function Contribution<D, C, U, S>(codec: Codec<D, C, U, S>, state: D, c: Command<C>, generation: nat): seq<U> {
    match c
    case Message(_, m) =>
      if m.kind == MODEL_REPO_KIND then []
      else (match codec.decode(state, m.kind, m.payload) case (_, None) => [] case (_, Some(states)) => states)
    case Catalog(g, catalog, _) => if g == generation then codec.install(state, catalog).1 else []
    case _ => []
  }

  lemma {:induction false} ReplayFoldsSession<D, C, U, S>(codec: Codec<D, C, U, S>, sent: seq<Command<C>>, n: nat)
    requires AllStamped(sent) && n <= |sent| && !Replay(codec, sent[..n]).halted
    ensures FoldsSession(codec, Replay(codec, sent[..n]), sent[..n])
    decreases n
  {
    if n == 0 {
      NothingToApply(codec, codec.blank);
    } else {
      assert sent[..n][..n - 1] == sent[..n - 1];
      assert sent[..n] == sent[..n - 1] + [sent[n - 1]];
      assert Stamped(sent, n - 1);
      hide FoldsSession, AllStamped, Handle;
      assert Replay(codec, sent[..n]) == Handle(codec, Replay(codec, sent[..n - 1]), sent[n - 1]);
      assert !Replay(codec, sent[..n - 1]).halted by { HaltedStays(codec, Replay(codec, sent[..n - 1]), sent[n - 1]); }
      ReplayFoldsSession(codec, sent, n - 1);
      assert Replay(codec, sent[..n - 1]).generation == GenerationAfter(sent[..n - 1]) by {
        FoldGeneration(codec, Replay(codec, sent[..n - 1]), sent[..n - 1]);
      }
      TurnFoldsSession(codec, Replay(codec, sent[..n - 1]), sent[..n - 1], sent[n - 1]);
    }
  }

  lemma HaltedStays<D, C, U, S>(codec: Codec<D, C, U, S>, d: Decoder<D, U, S>, c: Command<C>)
    ensures d.halted ==> Handle(codec, d, c) == d
  {
  }

  lemma FoldGeneration<D, C, U, S>(codec: Codec<D, C, U, S>, d: Decoder<D, U, S>, commands: seq<Command<C>>)
    requires FoldsSession(codec, d, commands)
    ensures d.generation == GenerationAfter(commands)
  {
  }

  /** Whatever the interleaving of worker, decoder and metadata thread, the snapshot is the fold
      of exactly the updates of the current session: its messages in order, and the catalogs
      parsed from its own messages. */
  lemma SnapshotIsSessionFold<D(!new), C(!new), U(!new), S(!new)>(codec: Codec<D, C, U, S>, x: System<D, C, U, S>)
    requires Reachable(codec, x) && !x.decoder.halted
    ensures x.handled <= |x.sent|
    ensures var done := x.sent[..x.handled];
            x.decoder.snapshot == ApplyAll(codec, codec.blank, Decoded(codec, Session(done), GenerationAfter(done)).1)
    ensures x.decoder.generation == GenerationAfter(x.sent[..x.handled])
  {
    ReachableInv(codec, x);
    ReplayFoldsSession(codec, x.sent, x.handled);
  }

  // ------------------------------------------------------ what becomes of one command

  /** `e` is `d` with one more frame, which holds these states and this clock mark under the next
      number and is the last of the log; the states have gone into the snapshot. */
  ghost predicate Shows<D, C, U, S>(codec: Codec<D, C, U, S>, d: Decoder<D, U, S>, e: Decoder<D, U, S>, states: seq<U>,
        clock: bool) {
    && |e.log| > 0 && e.log[|e.log| - 1] == Frame(d.nextSequence, states, clock)
    && e.nextSequence == d.nextSequence + 1
    && (|d.log| < LOG_LIMIT ==> |e.log| == |d.log| + 1 && e.log[..|d.log|] == d.log)
    && (|d.log| == LOG_LIMIT ==> |e.log| == LOG_LIMIT && e.log[..LOG_LIMIT - 1] == d.log[1..])
    && e.snapshot == ApplyAll(codec, d.snapshot, states)
  }

  /** A message of the decoder's generation that is no model repository advances the decoder by what it
      decodes to. Decoded to states, or with a clock, it shows as exactly one frame; otherwise no
      client sees anything of it. */
  lemma MessageIsShown<D, C, U, S>(codec: Codec<D, C, U, S>, d: Decoder<D, U, S>, m: Msg)
    requires !d.halted && |d.log| <= LOG_LIMIT && m.kind != MODEL_REPO_KIND
    ensures var e := Handle(codec, d, Message(d.generation, m));
            && e.state == codec.decode(d.state, m.kind, m.payload).0 && e.generation == d.generation && !e.halted
            && match codec.decode(d.state, m.kind, m.payload).1
               case Some(states) =>
                 if states != [] || codec.clock(m) then Shows(codec, d, e, states, codec.clock(m))
                 else e == d.(state := e.state)
               case None => e == d.(state := e.state)
  {
    hide ApplyAll;
  }

  /** A catalog of the decoder's generation is installed, and shows as one frame if that gives
      states. */
  lemma CatalogIsShown<D, C, U, S>(codec: Codec<D, C, U, S>, d: Decoder<D, U, S>, catalog: C, source: nat)
    requires !d.halted && |d.log| <= LOG_LIMIT
    ensures var e := Handle(codec, d, Catalog(d.generation, catalog, source));
            var (state, states) := codec.install(d.state, catalog);
            && e.state == state && e.generation == d.generation && !e.halted
            && (if states != [] then Shows(codec, d, e, states, false) else e == d.(state := state))
  {
    hide ApplyAll;
  }

  /** A reset starts a new session from nothing but the frame numbers; a model repository, a command of
      another generation and a query change nothing; a stop only stops. */
  lemma OthersAreNotShown<D, C, U, S>(codec: Codec<D, C, U, S>, d: Decoder<D, U, S>, c: Command<C>)
    requires !d.halted
    ensures var e := Handle(codec, d, c);
            && (c.Reset? ==> e == Decoder(codec.initial, c.generation, codec.blank, [], d.nextSequence, false))
            && (c.Message? && (c.generation != d.generation || c.message.kind == MODEL_REPO_KIND) ==> e == d)
            && (c.Catalog? && c.generation != d.generation ==> e == d)
            && (c.Query? ==> e == d)
            && (c.Stop? ==> e == d.(halted := true))
  {
    hide Absorb;
  }

  /** The frames shown since the last reset, evicted ones included. */
  function Shown<D, C, U, S>(codec: Codec<D, C, U, S>, commands: seq<Command<C>>): seq<Frame<U>> {
    if commands == [] || commands[|commands| - 1].Reset? then []
    else
      var before := commands[..|commands| - 1];
      var d, e := Replay(codec, before), Replay(codec, commands);
      Shown(codec, before)
      + (if e.nextSequence != d.nextSequence && e.log != [] then [e.log[|e.log| - 1]] else [])
  }

  function StatesOf<U>(frames: seq<Frame<U>>): seq<U> {
    if frames == [] then [] else StatesOf(frames[..|frames| - 1]) + frames[|frames| - 1].states
  }

  lemma StatesAppend<U>(frames: seq<Frame<U>>, f: Frame<U>)
    ensures StatesOf(frames + [f]) == StatesOf(frames) + f.states
  {
    assert (frames + [f])[..|frames|] == frames;
  }

  /** The log is the tail of what has been shown in the session, and that is all its updates. */
  ghost predicate ShowsSession<D, C, U, S>(codec: Codec<D, C, U, S>, commands: seq<Command<C>>) {
    && Replay(codec, commands).log == LastN(Shown(codec, commands), LOG_LIMIT)
    && StatesOf(Shown(codec, commands)) == Decoded(codec, Session(commands), GenerationAfter(commands)).1
  }

  lemma DecodedGrows<D, C, U, S>(codec: Codec<D, C, U, S>, session: seq<Command<C>>, c: Command<C>, generation: nat)
    ensures var (state, updates) := Decoded(codec, session, generation);
            Decoded(codec, session + [c], generation).1 == updates + Contribution(codec, state, c, generation)
  {
    assert (session + [c])[..|session|] == session;
    var updates := Decoded(codec, session, generation).1;
    assert updates + [] == updates;
  }

  lemma ShownGrows<D, C, U, S>(codec: Codec<D, C, U, S>, commands: seq<Command<C>>, c: Command<C>)
    requires !c.Reset?
    ensures var d, e := Replay(codec, commands), Replay(codec, commands + [c]);
            && e == Handle(codec, d, c)
            && Shown(codec, commands + [c]) ==
               Shown(codec, commands)
               + (if e.nextSequence != d.nextSequence && e.log != [] then [e.log[|e.log| - 1]] else [])
  {
    hide Handle;
    assert (commands + [c])[..|commands|] == commands;
  }

  lemma ResetShows<D, C, U, S>(codec: Codec<D, C, U, S>, commands: seq<Command<C>>, c: Command<C>)
    requires c.Reset? && !Replay(codec, commands).halted
    ensures ShowsSession(codec, commands + [c])
  {
    var all := commands + [c];
    assert all[..|commands|] == commands && Session(all) == [];
  }

  lemma TurnShows<D, C, U, S>(codec: Codec<D, C, U, S>, commands: seq<Command<C>>, c: Command<C>)
    requires ShowsSession(codec, commands) && FoldsSession(codec, Replay(codec, commands), commands)
    requires !Replay(codec, commands).halted && !c.Reset?
    requires c.Message? ==> c.generation == Replay(codec, commands).generation
    ensures ShowsSession(codec, commands + [c])
  {
    var all, d := commands + [c], Replay(codec, commands);
    var session, g := Session(commands), GenerationAfter(commands);
    assert Session(all) == session + [c] && GenerationAfter(all) == g by { assert all[..|commands|] == commands; }
    var shown, updates := Shown(codec, commands), Decoded(codec, session, g).1;
    var states := Contribution(codec, d.state, c, g);
    hide Handle, Decoded, Replay, Contribution, Session, GenerationAfter, LastN, Shown, StatesOf;
    DecodedGrows(codec, session, c, g);
    ShownGrows(codec, commands, c);
    TurnAppends(codec, d, c, states);
    assert updates + [] == updates && shown + [] == shown;
    var f := Frame(d.nextSequence, states, c.Message? && codec.clock(c.message));
    LastNOfLastN(shown, [f], LOG_LIMIT);
    StatesAppend(shown, f);
  }

  lemma TurnAppends<D, C, U, S>(codec: Codec<D, C, U, S>, d: Decoder<D, U, S>, c: Command<C>, states: seq<U>)
    requires !d.halted && !c.Reset? && states == Contribution(codec, d.state, c, d.generation)
    requires c.Message? ==> c.generation == d.generation
    ensures var e := Handle(codec, d, c);
            var f := Frame(d.nextSequence, states, c.Message? && codec.clock(c.message));
            if e.nextSequence != d.nextSequence
            then e.log == LastN(d.log + [f], LOG_LIMIT) && e.log != [] && e.log[|e.log| - 1] == f
            else states == [] && e.log == d.log
  {
    hide ApplyAll;
  }

  lemma {:induction false} ReplayShowsSession<D, C, U, S>(codec: Codec<D, C, U, S>, sent: seq<Command<C>>, n: nat)
    requires AllStamped(sent) && n <= |sent| && !Replay(codec, sent[..n]).halted
    ensures ShowsSession(codec, sent[..n])
    decreases n
  {
    if n > 0 {
      assert sent[..n][..n - 1] == sent[..n - 1];
      assert sent[..n] == sent[..n - 1] + [sent[n - 1]];
      assert Stamped(sent, n - 1);
      hide ShowsSession, FoldsSession, AllStamped, Handle;
      HaltedStays(codec, Replay(codec, sent[..n - 1]), sent[n - 1]);
      ReplayShowsSession(codec, sent, n - 1);
      ReplayFoldsSession(codec, sent, n - 1);
      FoldGeneration(codec, Replay(codec, sent[..n - 1]), sent[..n - 1]);
      if sent[n - 1].Reset? {
        ResetShows(codec, sent[..n - 1], sent[n - 1]);
      } else {
        TurnShows(codec, sent[..n - 1], sent[n - 1]);
      }
    }
  }

  /** In every run the decoded-state log is the tail of the frames shown since the last reset, and
      their states, joined in order, are all the updates of the current session's inputs. */
  lemma StreamIsSessionUpdates<D(!new), C(!new), U(!new), S(!new)>(codec: Codec<D, C, U, S>, x: System<D, C, U, S>)
    requires Reachable(codec, x) && !x.decoder.halted
    ensures x.handled <= |x.sent|
    ensures var done := x.sent[..x.handled];
            && x.decoder.log == LastN(Shown(codec, done), LOG_LIMIT)
            && StatesOf(Shown(codec, done)) == Decoded(codec, Session(done), GenerationAfter(done)).1
  {
    ReachableInv(codec, x);
    ReplayShowsSession(codec, x.sent, x.handled);
  }

  // -------------------------------------------------------------- the parsed catalogs

  /** The job stands for the model repository at its source. */
  ghost predicate JobIsOf<C>(sent: seq<Command<C>>, job: Option<Job>) {
    job.Some? ==>
      && IsMessageOf(sent, job.value.source, job.value.generation)
      && sent[job.value.source].message.kind == MODEL_REPO_KIND
      && sent[job.value.source].message.payload == job.value.payload
  }

  /** The catalog at `i` is what the model repository at its source parses to. */
  ghost predicate ParsedFrom<D, C, U, S>(codec: Codec<D, C, U, S>, sent: seq<Command<C>>, i: nat) {
    && i < |sent| && sent[i].Catalog? && sent[i].source < i
    && IsMessageOf(sent, sent[i].source, sent[i].generation)
    && sent[sent[i].source].message.kind == MODEL_REPO_KIND
    && codec.parse(sent[sent[i].source].message.payload) == Some(sent[i].catalog)
  }

  ghost predicate AllParsed<D, C, U, S>(codec: Codec<D, C, U, S>, x: System<D, C, U, S>) {
    && JobIsOf(x.sent, x.slot) && JobIsOf(x.sent, x.busy)
    && forall i :: 0 <= i < |x.sent| && x.sent[i].Catalog? ==> ParsedFrom(codec, x.sent, i)
  }

  lemma StepKeepsParsed<D, C, U, S>(codec: Codec<D, C, U, S>, x: System<D, C, U, S>, step: Step)
    requires AllParsed(codec, x) && Enabled(x, step) && x.handled <= |x.sent|
    ensures AllParsed(codec, Next(codec, x, step))
  {
    hide Handle;
    var y := Next(codec, x, step);
    assert |x.sent| <= |y.sent| && forall i :: 0 <= i < |x.sent| ==> y.sent[i] == x.sent[i];
    forall i | 0 <= i < |y.sent| && y.sent[i].Catalog? ensures ParsedFrom(codec, y.sent, i) {
      if i < |x.sent| { assert ParsedFrom(codec, x.sent, i); }
    }
  }

  lemma {:induction false} RunKeepsParsed<D(!new), C(!new), U(!new), S(!new)>(codec: Codec<D, C, U, S>,
        x: System<D, C, U, S>, steps: seq<Step>, end: System<D, C, U, S>)
    requires Inv(codec, x) && AllParsed(codec, x) && Run(codec, x, steps, end)
    ensures AllParsed(codec, end)
    decreases |steps|
  {
    if steps != [] {
      assert x.handled <= |x.sent|;
      hide Inv, AllParsed, Enabled, Next;
      StepKeepsInv(codec, x, steps[0]);
      StepKeepsParsed(codec, x, steps[0]);
      RunKeepsParsed(codec, Next(codec, x, steps[0]), steps[1..], end);
    }
  }

  /** In every run a catalog in the queue is what an earlier model repository of its own generation
      parses to. */
  lemma CatalogsAreParsed<D(!new), C(!new), U(!new), S(!new)>(codec: Codec<D, C, U, S>, x: System<D, C, U, S>, i: nat)
    requires Reachable(codec, x) && i < |x.sent| && x.sent[i].Catalog?
    ensures ParsedFrom(codec, x.sent, i)
  {
    var steps :| Run(codec, Start(codec), steps, x);
    hide Run, Inv;
    assert Inv(codec, Start(codec)) by { StartReachable(codec); ReachableInv(codec, Start(codec)); }
    RunKeepsParsed(codec, Start(codec), steps, x);
  }

  /** And a model repository of the current generation gets there, if the metadata thread's place is
      free when the decoder comes to it and it parses. */
  lemma RepositoryIsParsed<D, C, U, S>(codec: Codec<D, C, U, S>, x: System<D, C, U, S>, m: Msg, catalog: C)
    requires Enabled(x, Turn) && x.sent[x.handled] == Message(x.decoder.generation, m) && m.kind == MODEL_REPO_KIND
    requires x.slot.None? && x.busy.None? && codec.parse(m.payload) == Some(catalog)
    ensures var x1 := Next(codec, x, Turn);
            && Enabled(x1, PickUp) && Enabled(Next(codec, x1, PickUp), Finish)
            && Next(codec, Next(codec, x1, PickUp), Finish).sent ==
               x.sent + [Catalog(x.decoder.generation, catalog, x.handled)]
  {
    hide Handle;
  }

  /** The place is never taken from a waiting repository, and what is in it or being parsed gives way: a
      job once finished leaves the thread free, and one that does not parse sends nothing. */
  lemma PlaceIsKept<D, C, U, S>(codec: Codec<D, C, U, S>, x: System<D, C, U, S>)
    ensures Enabled(x, Turn) && x.slot.Some? ==> Next(codec, x, Turn).slot == x.slot
    ensures Enabled(x, Turn) && x.slot.None? && !Next(codec, x, Turn).slot.None? ==>
              Next(codec, x, Turn).slot.value.source == x.handled
    ensures Enabled(x, PickUp) ==> Next(codec, x, PickUp) == x.(busy := x.slot, slot := None)
    ensures Enabled(x, Finish) ==>
              var y := Next(codec, x, Finish);
              y.busy.None? && y.slot == x.slot
              && (codec.parse(x.busy.value.payload).None? ==> y == x.(busy := None))
  {
    hide Handle;
  }

  // ------------------------------------------------------------- the decoded-state log

  /** Frames are numbered without gaps up to the last number given out. */
  predicate Contiguous<U>(log: seq<Frame<U>>, next: nat) {
    && |log| < next && |log| <= LOG_LIMIT
    && forall i :: 0 <= i < |log| ==> log[i].sequence == next - |log| + i
  }

  lemma TurnKeepsContiguous<D, C, U, S>(codec: Codec<D, C, U, S>, d: Decoder<D, U, S>, c: Command<C>)
    requires Contiguous(d.log, d.nextSequence)
    ensures Contiguous(Handle(codec, d, c).log, Handle(codec, d, c).nextSequence)
    ensures d.nextSequence <= Handle(codec, d, c).nextSequence
  {
    hide ApplyAll;
  }

  /** At every moment, and across resets, the log is contiguous and ends just before the next
      number; numbers are never given out twice. */
  lemma {:induction false} LogIsContiguous<D, C, U, S>(codec: Codec<D, C, U, S>, commands: seq<Command<C>>)
    ensures var d := Replay(codec, commands); Contiguous(d.log, d.nextSequence)
    ensures Rising(Replay(codec, commands).log, (f: Frame<U>) => f.sequence)
  {
    if commands != [] {
      LogIsContiguous(codec, commands[..|commands| - 1]);
      hide Handle;
      TurnKeepsContiguous(codec, Replay(codec, commands[..|commands| - 1]), commands[|commands| - 1]);
    }
  }

  /** The decoder's log as a client with a cursor sees it. */
  function FeedOf<D, U, S>(d: Decoder<D, U, S>, cursor: nat, got: seq<Frame<U>>): Feed<Frame<U>>
    requires d.nextSequence > 0
  {
    Feed(d.log, d.nextSequence - 1, cursor, got)
  }

  /** A turn of the decoder leaves the log, clears it, or appends one frame under a new number, so
      clients that read between turns get every frame still retained. */
  lemma TurnFeedsTheLog<D, C, U, S>(codec: Codec<D, C, U, S>, d: Decoder<D, U, S>, c: Command<C>, cursor: nat,
        got: seq<Frame<U>>)
    requires Contiguous(d.log, d.nextSequence)
    ensures Handle(codec, d, c).nextSequence > 0
    ensures var f, f' := FeedOf(d, cursor, got), FeedOf(Handle(codec, d, c), cursor, got);
            var number, all := (x: Frame<U>) => x.sequence, (x: Frame<U>) => true;
            || f' == f || f' == FeedNext(f, number, all, Cleared)
            || exists x :: FeedEnabled(f, number, Appended(x)) && f' == FeedNext(f, number, all, Appended(x))
  {
    hide ApplyAll, LastN, Page;
    var d' := Handle(codec, d, c);
    if d'.nextSequence != d.nextSequence {
      var x := AppendedFrame(codec, d, c);
      assert FeedEnabled(FeedOf(d, cursor, got), (x: Frame<U>) => x.sequence, Appended(x));
    }
  }

  lemma AppendedFrame<D, C, U, S>(codec: Codec<D, C, U, S>, d: Decoder<D, U, S>, c: Command<C>) returns (x: Frame<U>)
    requires Handle(codec, d, c).nextSequence != d.nextSequence
    ensures x.sequence == d.nextSequence && Handle(codec, d, c).nextSequence == d.nextSequence + 1
    ensures Handle(codec, d, c).log == LastN(d.log + [x], LOG_LIMIT)
  {
    hide ApplyAll, LastN;
    match c
    case Message(_, m) => x := Frame(d.nextSequence, codec.decode(d.state, m.kind, m.payload).1.value, codec.clock(m));
    case Catalog(_, catalog, _) => x := Frame(d.nextSequence, codec.install(d.state, catalog).1, false);
    case _ => x := Frame(d.nextSequence, [], false);
  }

  /** A client that keeps reading with its cursor gets every retained frame past it once, in
      order, and then an empty page. */
  lemma StateReadsAreComplete<D, C, U, S>(codec: Codec<D, C, U, S>, commands: seq<Command<C>>, cursor: nat, limit: nat)
    requires limit > 0
    ensures var log := Replay(codec, commands).log;
            var number := (f: Frame<U>) => f.sequence;
            && Rising(log, number)
            && ReadAll(log, number, _ => true, cursor, limit) == Matching(log, number, _ => true, cursor)
  {
    LogIsContiguous(codec, commands);
    CursorReadsAreComplete(Replay(codec, commands).log, (f: Frame<U>) => f.sequence, _ => true, cursor, limit);
  }
}
