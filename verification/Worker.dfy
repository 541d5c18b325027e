/** The broker worker: one loop that owns the device connection, the requests in flight, the
    latest-message index, the raw log and the session counter
    (services/device-broker/src/worker.rs). */
module Worker {
  import opened Prelude
  import opened Messages
  import opened EventLog
  import Wire
  import Decoder

  // ---------------------------------------------------------------------- state

  /** `reply` names the channel the caller waits on. */
  datatype Request = Request(reply: nat, expected: nat, requestId: Option<nat>, deadline: nat)

  datatype Failure =
    | NotConnected | SessionRestarted | SessionClosed | BackupStarted | BrokerStopped | LinkLost | NoResponse

  datatype Reply = Delivered(message: Msg) | Refused(reason: Failure)

  datatype Answer = Answer(request: Request, reply: Reply)

  datatype Phase = Searching | Connecting | Handshaking | Syncing | Ready | Disconnected | Error

  datatype Status = Status(phase: Phase, connected: bool, synchronized: bool, received: nat, lastKind: Option<nat>)

  /** `nextSequence` numbers the next message read from the device. */
  datatype Connection = Connection(synchronized: bool, latest: map<nat, Msg>, nextSequence: nat)

  type DecoderCommand = Decoder.Command<()>

  datatype Worker = Worker(
    connection: Option<Connection>,
    autoConnect: bool,
    pending: seq<Request>,
    generation: nat,
    status: Status,
    latest: map<nat, Msg>,
    log: seq<Msg>,
    sent: seq<DecoderCommand>,   // everything queued for the decoder
    readErrors: nat,
    now: nat,
    stopped: bool,
    // history
    issued: seq<Request>,        // every request processed
    answers: seq<Answer>,        // every reply given
    hello: seq<Msg>,             // what the handshake of the current session read
    ingested: seq<Msg>,          // what the session has ingested since
    arrived: seq<Msg>,           // what it has read since, backup chunks apart
    lost: seq<Msg>               // what of that a failed backup threw away
  )

  datatype ConnectOutcome = Unavailable | HandshakeFailed | Connected(hello: Hello)

  /** What a backup read from the device, and whether it completed. */
  datatype BackupOutcome = BackupOutcome(arrivals: seq<Msg>, complete: bool)

  datatype Input =
    | Reconnect(force: bool)
    | Disconnect
    | Ask(reply: nat, expected: nat, requestId: Option<nat>, timeout: nat)
    | CreateBackup(backup: BackupOutcome)
    | Stop
    | Connect(outcome: ConnectOutcome)
    | ReadMessage(reading: Reading)
    | Expire
    | Tick(elapsed: nat)

  function Start(autoConnect: bool): Worker {
    Worker(None, autoConnect, [], 0,
           Status(if autoConnect then Searching else Disconnected, false, false, 0, None),
           map[], [], [], 0, 0, false, [], [], [], [], [], [])
  }

  // -------------------------------------------------------------------- replies

  /** The request id a device message carries: field 1 of a version message, field 2 of any
      other, if the scan finds one. */
  function CarriedId(m: Msg): Option<nat> {
    match Wire.Scan(m.payload, if m.kind == DEVICE_VERSION_KIND then 1 else 2)
    case Ok(id) => id
    case Err(_) => None
  }

  predicate Compatible(r: Request, m: Msg) {
    r.expected == m.kind && (CarriedId(m).None? || r.requestId.None? || CarriedId(m) == r.requestId)
  }

  /** The position of the first pending request a message answers. */
  function FirstCompatible(pending: seq<Request>, m: Msg): (i: nat)
    ensures i <= |pending|
    ensures i < |pending| ==> Compatible(pending[i], m)
    ensures forall j :: 0 <= j < i ==> !Compatible(pending[j], m)
  {
    if pending == [] || Compatible(pending[0], m) then 0 else 1 + FirstCompatible(pending[1..], m)
  }

  function Deliver(w: Worker, m: Msg): Worker {
    var i := FirstCompatible(w.pending, m);
    if i == |w.pending| then w
    else w.(pending := w.pending[..i] + w.pending[i + 1..],
            answers := w.answers + [Answer(w.pending[i], Delivered(m))])
  }

  function Refusals(requests: seq<Request>, reason: Failure): (r: seq<Answer>)
    ensures |r| == |requests|
    ensures forall i :: 0 <= i < |r| ==> r[i] == Answer(requests[i], Refused(reason))
  {
    if requests == [] then []
    else
      var n := |requests| - 1;
      Refusals(requests[..n], reason) + [Answer(requests[n], Refused(reason))]
  }

  function FailAll(w: Worker, reason: Failure): Worker {
    w.(pending := [], answers := w.answers + Refusals(w.pending, reason))
  }

  /** The requests that are still in time, or those that are not, in order. */
  function Timely(pending: seq<Request>, now: nat, late: bool): (r: seq<Request>)
    ensures forall x :: x in r ==> x in pending && (x.deadline <= now <==> late)
  {
    if pending == [] then []
    else
      var x := pending[|pending| - 1];
      Timely(pending[..|pending| - 1], now, late) + (if (x.deadline <= now) == late then [x] else [])
  }

  function Expired(w: Worker): Worker {
    w.(pending := Timely(w.pending, w.now, false),
       answers := w.answers + Refusals(Timely(w.pending, w.now, true), NoResponse))
  }

  // ------------------------------------------------------------------- ingestion

  function SetPhase(w: Worker, phase: Phase, connected: bool, synchronized: bool): Worker {
    w.(status := w.status.(phase := phase, connected := connected, synchronized := synchronized))
  }

  /** `update_message`: a preset makes the session ready. */
  function Updated(s: Status, m: Msg): Status {
    var s1 := s.(received := s.received + 1, lastKind := Some(m.kind));
    if m.kind == PRESET_KIND then s1.(phase := Ready, synchronized := true) else s1
  }

  /** A message is indexed, logged and queued for the decoder. */
  function Indexing(w: Worker, m: Msg): Worker
    requires w.connection.Some?
  {
    var c := w.connection.value;
    w.(status := Updated(w.status, m),
       connection := Some(c.(latest := c.latest[m.kind := m])),
       latest := w.latest[m.kind := m],
       log := LastN(w.log + [m], LOG_LIMIT),
       sent := w.sent + [Decoder.Message(w.generation, m)],
       ingested := w.ingested + [m])
  }

  function Ingest(w: Worker, m: Msg): Worker
    requires w.connection.Some?
  {
    Deliver(Indexing(w, m), m)
  }

  function IngestAll(w: Worker, messages: seq<Msg>): (r: Worker)
    requires w.connection.Some?
    ensures r.connection.Some?
  {
    if messages == [] then w
    else Ingest(IngestAll(w, messages[..|messages| - 1]), messages[|messages| - 1])
  }

  // ----------------------------------------------------------------------- steps

  /** A reconnect request that asks for nothing new. */
  predicate ReconnectSatisfied(force: bool, connected: bool, phase: Phase) {
    !force && (connected || phase == Connecting || phase == Handshaking || phase == Syncing || phase == Ready)
  }

  /** Drops the session: nobody waits, nothing is indexed, and the decoder is reset. */
  function Dropped(w: Worker, reason: Failure): Worker {
    FailAll(w, reason).(connection := None, latest := map[], log := [], generation := w.generation + 1,
                        sent := w.sent + [Decoder.Reset(w.generation + 1)], readErrors := 0)
  }

  function Reconnected(w: Worker, force: bool): Worker {
    if ReconnectSatisfied(force, w.connection.Some?, w.status.phase) then w
    else SetPhase(Dropped(w, SessionRestarted), Searching, false, false).(autoConnect := true)
  }

  function Closed(w: Worker): Worker {
    SetPhase(Dropped(w, SessionClosed), Disconnected, false, false).(autoConnect := false)
  }

  function Asking(w: Worker, r: Request): Worker {
    var w1 := w.(issued := w.issued + [r]);
    if w.connection.Some? then w1.(pending := w.pending + [r])
    else w1.(answers := w.answers + [Answer(r, Refused(NotConnected))])
  }

  function Halted(w: Worker): Worker {
    FailAll(w, BrokerStopped).(sent := w.sent + [Decoder.Stop], stopped := true)
  }

  function Unreached(w: Worker, phase: Phase): Worker {
    SetPhase(w, phase, false, false).(readErrors := 0)
  }

  function Forwards(generation: nat, messages: seq<Msg>): (r: seq<DecoderCommand>)
    ensures |r| == |messages|
    ensures forall i :: 0 <= i < |r| ==> r[i] == Decoder.Message(generation, messages[i])
  {
    if messages == [] then []
    else Forwards(generation, messages[..|messages| - 1]) + [Decoder.Message(generation, messages[|messages| - 1])]
  }

  function Opened(w: Worker, hello: Hello, initial: seq<Msg>): Worker {
    var g := w.generation + 1;
    w.(connection := Some(Connection(hello.synchronized, hello.latest, hello.nextSequence)),
       generation := g,
       sent := w.sent + [Decoder.Reset(g)] + Forwards(g, initial),
       status := Status(if hello.synchronized then Ready else Syncing, true, hello.synchronized,
                        |hello.history|, if initial == [] then None else Some(initial[|initial| - 1].kind)),
       latest := hello.latest, log := initial, readErrors := 0,
       hello := hello.history, ingested := [], arrived := [], lost := [])
  }

  /** What a backup read beside its chunks. */
  function SideMessages(backup: BackupOutcome): seq<Msg> {
    WithoutKind(backup.arrivals, BACKUP_KIND)
  }

  function BackupBegun(w: Worker, backup: BackupOutcome): Worker
    requires w.connection.Some?
  {
    var c := w.connection.value;
    SetPhase(FailAll(w, BackupStarted), Syncing, true, c.synchronized)
      .(connection := Some(c.(nextSequence := c.nextSequence + |backup.arrivals|)),
        arrived := w.arrived + SideMessages(backup))
  }

  /** A complete backup hands its side messages over; a failed one loses them. */
  function BackupSettled(w: Worker, backup: BackupOutcome): Worker
    requires w.connection.Some?
  {
    if backup.complete then IngestAll(w, SideMessages(backup)) else w.(lost := w.lost + SideMessages(backup))
  }

  function BackupEnded(w: Worker, synchronized: bool): Worker {
    SetPhase(w, if synchronized then Ready else Syncing, true, synchronized)
  }

  function BackedUp(w: Worker, backup: BackupOutcome): Worker {
    match w.connection
    case None => SetPhase(FailAll(w, BackupStarted), Syncing, false, false)
    case Some(c) => BackupEnded(BackupSettled(BackupBegun(w, backup), backup), c.synchronized)
  }

  /** A message has been read and numbered. */
  function Arriving(w: Worker, m: Msg): Worker
    requires w.connection.Some?
  {
    var c := w.connection.value;
    w.(readErrors := 0, arrived := w.arrived + [m], connection := Some(c.(nextSequence := c.nextSequence + 1)))
  }

  function ReadOne(w: Worker, reading: Reading): Worker
    requires w.connection.Some?
  {
    var c := w.connection.value;
    match reading
    case Got(kind, payload) =>
      var m := Msg(c.nextSequence, kind, payload);
      Ingest(Arriving(w, m), m)
    case Nothing => w.(readErrors := 0)
    case Failed =>
      if w.readErrors + 1 < 2 then w.(readErrors := w.readErrors + 1)
      else FailAll(SetPhase(w, Searching, false, false), LinkLost).(connection := None, readErrors := 0)
  }

  ghost predicate Enabled(w: Worker, input: Input) {
    && !w.stopped
    && match input
       case Connect(outcome) =>
         w.connection.None? && w.autoConnect && (outcome.Connected? ==> exists first :: Heard(outcome.hello, first))
       case ReadMessage(_) => w.connection.Some?
       case CreateBackup(b) => w.connection.Some? ==> Numbered(b.arrivals, w.connection.value.nextSequence)
       case _ => true
  }

  ghost function Next(w: Worker, input: Input): Worker
    requires Enabled(w, input)
  {
    match input
    case Reconnect(force) => Reconnected(w, force)
    case Disconnect => Closed(w)
    case Ask(reply, expected, requestId, timeout) => Asking(w, Request(reply, expected, requestId, w.now + timeout))
    case CreateBackup(b) => BackedUp(w, b)
    case Stop => Halted(w)
    case Connect(Unavailable) => Unreached(w, Searching)
    case Connect(HandshakeFailed) => Unreached(w, Error)
    case Connect(Connected(hello)) => Opened(w, hello, LastOfKind(hello.history))
    case ReadMessage(reading) => ReadOne(w, reading)
    case Expire => Expired(w)
    case Tick(elapsed) => w.(now := w.now + elapsed)
  }

  // ---------------------------------------------------- replies: nothing lost, nothing twice

  function Asked(answers: seq<Answer>): (r: seq<Request>)
    ensures |r| == |answers|
  {
    if answers == [] then [] else Asked(answers[..|answers| - 1]) + [answers[|answers| - 1].request]
  }

  /** Every request processed has been answered or is pending, and only once. */
  ghost predicate Conserved(w: Worker) {
    multiset(w.issued) == multiset(Asked(w.answers)) + multiset(w.pending)
  }

  lemma {:induction false} AskedConcat(a: seq<Answer>, b: seq<Answer>)
    ensures Asked(a + b) == Asked(a) + Asked(b)
  {
    if b == [] {
      assert a + b == a;
    } else {
      assert (a + b)[..|a + b| - 1] == a + b[..|b| - 1];
      AskedConcat(a, b[..|b| - 1]);
    }
  }

  lemma {:induction false} AskedRefusals(requests: seq<Request>, reason: Failure)
    ensures Asked(Refusals(requests, reason)) == requests
  {
    if requests != [] {
      var t := requests[..|requests| - 1];
      AskedRefusals(t, reason);
      assert Refusals(requests, reason)[..|requests| - 1] == Refusals(t, reason);
    }
  }

  lemma FailAllConserves(w: Worker, reason: Failure)
    requires Conserved(w)
    ensures Conserved(FailAll(w, reason))
  {
    AskedConcat(w.answers, Refusals(w.pending, reason));
    AskedRefusals(w.pending, reason);
  }

  lemma DeliverConserves(w: Worker, m: Msg)
    requires Conserved(w)
    ensures Conserved(Deliver(w, m))
  {
    hide Compatible;
    var i := FirstCompatible(w.pending, m);
    if i < |w.pending| {
      assert w.pending == w.pending[..i] + [w.pending[i]] + w.pending[i + 1..];
      AskedConcat(w.answers, [Answer(w.pending[i], Delivered(m))]);
      AskedOne(Answer(w.pending[i], Delivered(m)));
    }
  }

  lemma AskedOne(a: Answer)
    ensures Asked([a]) == [a.request]
  {
    assert [a][..0] == [];
  }

  lemma {:induction false} TimelyPartitions(pending: seq<Request>, now: nat)
    ensures multiset(pending) == multiset(Timely(pending, now, false)) + multiset(Timely(pending, now, true))
  {
    if pending != [] {
      TimelyPartitions(pending[..|pending| - 1], now);
      assert pending == pending[..|pending| - 1] + [pending[|pending| - 1]];
    }
  }

  lemma ExpiredConserves(w: Worker)
    requires Conserved(w)
    ensures Conserved(Expired(w))
  {
    var late := Timely(w.pending, w.now, true);
    TimelyPartitions(w.pending, w.now);
    AskedConcat(w.answers, Refusals(late, NoResponse));
    AskedRefusals(late, NoResponse);
  }

  /** What conservation depends on. */
  ghost predicate SameBooks(w: Worker, x: Worker) {
    w.issued == x.issued && w.answers == x.answers && w.pending == x.pending
  }

  lemma {:induction false} IngestAllConserves(w: Worker, messages: seq<Msg>)
    requires w.connection.Some? && Conserved(w)
    ensures Conserved(IngestAll(w, messages))
  {
    if messages != [] {
      IngestAllConserves(w, messages[..|messages| - 1]);
      IngestConserves(IngestAll(w, messages[..|messages| - 1]), messages[|messages| - 1]);
    }
  }

  lemma IngestConserves(w: Worker, m: Msg)
    requires w.connection.Some? && Conserved(w)
    ensures Conserved(Ingest(w, m))
  {
    hide Deliver, LastN, Updated;
    var c := w.connection.value;
    var x := w.(status := Updated(w.status, m), connection := Some(c.(latest := c.latest[m.kind := m])),
                latest := w.latest[m.kind := m], log := LastN(w.log + [m], LOG_LIMIT),
                sent := w.sent + [Decoder.Message(w.generation, m)], ingested := w.ingested + [m]);
    assert Conserved(x);
    DeliverConserves(x, m);
  }

  lemma AskConserves(w: Worker, r: Request)
    requires Conserved(w)
    ensures Conserved(w.(issued := w.issued + [r], pending := w.pending + [r]))
    ensures Conserved(w.(issued := w.issued + [r], answers := w.answers + [Answer(r, Refused(NotConnected))]))
  {
    AskedConcat(w.answers, [Answer(r, Refused(NotConnected))]);
    AskedOne(Answer(r, Refused(NotConnected)));
  }

  lemma BackedUpConserves(w: Worker, backup: BackupOutcome)
    requires Conserved(w)
    ensures Conserved(BackedUp(w, backup))
  {
    hide Conserved, FailAll, SideMessages, IngestAll;
    FailAllConserves(w, BackupStarted);
    if w.connection.None? {
      BooksCarry(FailAll(w, BackupStarted), BackedUp(w, backup));
    } else {
      var begun := BackupBegun(w, backup);
      BooksCarry(FailAll(w, BackupStarted), begun);
      IngestAllConserves(begun, SideMessages(backup));
      BooksCarry(begun, begun.(lost := begun.lost + SideMessages(backup)));
      var settled := BackupSettled(begun, backup);
      BooksCarry(settled, BackupEnded(settled, w.connection.value.synchronized));
    }
  }

  lemma BooksCarry(w: Worker, x: Worker)
    requires Conserved(w) && SameBooks(w, x)
    ensures Conserved(x)
  {
  }

  lemma StepConserves(w: Worker, input: Input)
    requires Conserved(w) && Enabled(w, input)
    ensures Conserved(Next(w, input))
  {
    hide Conserved, FailAll, Expired, Ingest, BackedUp, LastOfKind, Forwards, Heard;
    var x := Next(w, input);
    match input
    case Reconnect(force) =>
      FailAllConserves(w, SessionRestarted);
      if x != w { BooksCarry(FailAll(w, SessionRestarted), x); }
    case Disconnect =>
      FailAllConserves(w, SessionClosed);
      BooksCarry(FailAll(w, SessionClosed), x);
    case Ask(reply, expected, requestId, timeout) =>
      AskConserves(w, Request(reply, expected, requestId, w.now + timeout));
    case CreateBackup(b) => BackedUpConserves(w, b);
    case Stop =>
      FailAllConserves(w, BrokerStopped);
      BooksCarry(FailAll(w, BrokerStopped), x);
    case Connect(outcome) => BooksCarry(w, x);
    case ReadMessage(reading) => ReadConserves(w, reading);
    case Expire => ExpiredConserves(w);
    case Tick(_) => BooksCarry(w, x);
  }

  lemma ReadConserves(w: Worker, reading: Reading)
    requires Conserved(w) && w.connection.Some?
    ensures Conserved(ReadOne(w, reading))
  {
    hide Conserved, FailAll, Ingest;
    var c := w.connection.value;
    match reading
    case Got(kind, payload) =>
      var m := Msg(c.nextSequence, kind, payload);
      var x := Arriving(w, m);
      BooksCarry(w, x);
      IngestConserves(x, m);
    case Nothing => BooksCarry(w, ReadOne(w, reading));
    case Failed =>
      if w.readErrors + 1 < 2 {
        BooksCarry(w, ReadOne(w, reading));
      } else {
        var x := SetPhase(w, Searching, false, false);
        BooksCarry(w, x);
        FailAllConserves(x, LinkLost);
        BooksCarry(FailAll(x, LinkLost), ReadOne(w, reading));
      }
  }

  // ------------------------------------------------------------- link and status

  /** The status tells the truth about the link, and nobody waits without one. */
  ghost predicate Linked(w: Worker) {
    && (w.connection.None? ==> w.pending == [])
    && (w.connection.Some? ==> w.autoConnect)
    && (w.status.connected <==> w.connection.Some?)
    && (w.status.phase == Ready ==> w.connection.Some?)
    && w.status.phase != Connecting && w.status.phase != Handshaking
  }

  lemma IngestLinked(w: Worker, m: Msg)
    requires w.connection.Some? && Linked(w)
    ensures Ingest(w, m).connection.Some? && Linked(Ingest(w, m))
    ensures Ingest(w, m).autoConnect == w.autoConnect
  {
    hide FirstCompatible, LastN;
  }

  lemma {:induction false} IngestAllLinked(w: Worker, messages: seq<Msg>)
    requires w.connection.Some? && Linked(w)
    ensures Linked(IngestAll(w, messages)) && IngestAll(w, messages).autoConnect == w.autoConnect
  {
    if messages != [] {
      IngestAllLinked(w, messages[..|messages| - 1]);
      hide Linked, Ingest;
      IngestLinked(IngestAll(w, messages[..|messages| - 1]), messages[|messages| - 1]);
    }
  }

  lemma BackedUpLinked(w: Worker, backup: BackupOutcome)
    requires Linked(w)
    ensures Linked(BackedUp(w, backup)) && BackedUp(w, backup).autoConnect == w.autoConnect
    ensures BackedUp(w, backup).connection.Some? <==> w.connection.Some?
    ensures w.connection.None? ==> BackedUp(w, backup).status.phase == Syncing
  {
    hide IngestAll, SideMessages, Refusals;
    if w.connection.Some? {
      var begun := BackupBegun(w, backup);
      assert Linked(begun);
      IngestAllLinked(begun, SideMessages(backup));
    }
  }

  /** No link, none being sought, and yet a phase that passes for one. */
  predicate Trapped(w: Worker) {
    w.connection.None? && !w.autoConnect && w.status.phase == Syncing
  }

  lemma StepLinked(w: Worker, input: Input)
    requires Linked(w) && Enabled(w, input)
    ensures Linked(Next(w, input))
    ensures Trapped(Next(w, input)) <==>
            || (input.CreateBackup? && w.connection.None? && !w.autoConnect)
            || (Trapped(w) && input != Disconnect && input != Reconnect(true))
  {
    hide Ingest, BackedUp, Refusals, LastOfKind, Forwards, Heard;
    match input
    case CreateBackup(b) => BackedUpLinked(w, b);
    case ReadMessage(reading) => ReadLinked(w, reading);
    case _ =>
  }

  lemma ReadLinked(w: Worker, reading: Reading)
    requires Linked(w) && w.connection.Some?
    ensures Linked(ReadOne(w, reading)) && !Trapped(ReadOne(w, reading))
  {
    hide Ingest, Refusals;
    match reading
    case Got(kind, payload) =>
      var c := w.connection.value;
      var m := Msg(c.nextSequence, kind, payload);
      IngestLinked(Arriving(w, m), m);
    case _ =>
  }

  // -------------------------------------------------- index, raw log and session history

  /** Everything the current session has taken into its index. */
  function History(w: Worker): seq<Msg> {
    w.hello + w.ingested
  }

  ghost predicate Ordered(h: seq<Msg>, bound: nat) {
    Increasing(h) && forall i :: 0 <= i < |h| ==> h[i].sequence < bound
  }

  /** The log before any message is ingested is the whole initial index; from then on it is
      trimmed to its limit. */
  function LogOf(hello: seq<Msg>, ingested: seq<Msg>): seq<Msg> {
    if ingested == [] then LastOfKind(hello) else LastN(LastOfKind(hello) + ingested, LOG_LIMIT)
  }

  /** Both indexes hold the last message of every kind in the session's history, and the log is
      what that history calls for. */
  ghost predicate Indexed(w: Worker, bound: nat) {
    && w.connection.Some? && bound <= w.connection.value.nextSequence
    && w.connection.value.latest == w.latest == LatestOf(History(w))
    && Ordered(History(w), bound)
    && w.log == LogOf(w.hello, w.ingested)
  }

  /** What a worker's index depends on. */
  ghost predicate SameIndex(w: Worker, x: Worker) {
    && w.connection.Some? && x.connection.Some? && w.connection.value.latest == x.connection.value.latest
    && w.latest == x.latest && w.hello == x.hello && w.ingested == x.ingested && w.log == x.log
    && w.connection.value.nextSequence <= x.connection.value.nextSequence
  }

  lemma IndexCarries(w: Worker, x: Worker, bound: nat)
    requires Indexed(w, bound) && SameIndex(w, x)
    ensures Indexed(x, bound)
  {
  }

  lemma OrderedAppend(h: seq<Msg>, m: Msg, bound: nat)
    requires Ordered(h, bound) && bound <= m.sequence
    ensures Ordered(h + [m], m.sequence + 1)
  {
  }

  lemma LogAppend(hello: seq<Msg>, ingested: seq<Msg>, m: Msg)
    ensures LastN(LogOf(hello, ingested) + [m], LOG_LIMIT) == LogOf(hello, ingested + [m])
  {
    var initial := LastOfKind(hello);
    if ingested == [] {
      assert ingested + [m] == [m];
    } else {
      LastNOfLastN(initial + ingested, [m], LOG_LIMIT);
      assert initial + ingested + [m] == initial + (ingested + [m]);
    }
  }

  lemma IngestIndexed(w: Worker, m: Msg, bound: nat)
    requires Indexed(w, bound) && bound <= m.sequence < w.connection.value.nextSequence
    ensures Indexed(Ingest(w, m), m.sequence + 1) && Ingest(w, m).connection.Some?
    ensures Ingest(w, m).connection.value.nextSequence == w.connection.value.nextSequence
    ensures Ingest(w, m).ingested == w.ingested + [m] && Ingest(w, m).arrived == w.arrived
            && Ingest(w, m).lost == w.lost
  {
    hide FirstCompatible, Updated, Compatible, LogOf, LastN;
    OrderedAppend(History(w), m, bound);
    LogAppend(w.hello, w.ingested, m);
    assert w.hello + (w.ingested + [m]) == History(w) + [m];
    hide Increasing, LatestOf;
  }

  /** `x` is the worker `w` after it has ingested some messages, the last of them below `top`. */
  ghost predicate Took(w: Worker, x: Worker, messages: seq<Msg>, top: nat) {
    && w.connection.Some? && x.connection.Some? && Indexed(x, top)
    && x.connection.value.nextSequence == w.connection.value.nextSequence
    && x.ingested == w.ingested + messages && x.arrived == w.arrived && x.lost == w.lost
  }

  lemma TookOneMore(w: Worker, x: Worker, messages: seq<Msg>, m: Msg, top: nat)
    requires Took(w, x, messages, m.sequence) && m.sequence < top <= w.connection.value.nextSequence
    ensures Took(w, Ingest(x, m), messages + [m], top)
  {
    hide Ingest, Indexed;
    IngestIndexed(x, m, m.sequence);
    WeakerBound(Ingest(x, m), m.sequence + 1, top);
    assert w.ingested + (messages + [m]) == (w.ingested + messages) + [m];
  }

  lemma TookNothing(w: Worker, bound: nat, top: nat)
    requires Indexed(w, bound) && bound <= top <= w.connection.value.nextSequence
    ensures Took(w, w, [], top)
  {
    WeakerBound(w, bound, top);
    assert w.ingested + [] == w.ingested;
    hide Indexed;
  }

  lemma IngestAllSplits(w: Worker, messages: seq<Msg>)
    requires w.connection.Some?
    ensures messages == [] ==> IngestAll(w, messages) == w
    ensures messages != [] ==>
              IngestAll(w, messages) == Ingest(IngestAll(w, messages[..|messages| - 1]), messages[|messages| - 1])
    ensures messages != [] ==> messages[..|messages| - 1] + [messages[|messages| - 1]] == messages
  {
    hide Ingest;
  }

  lemma OrderedPrefix(messages: seq<Msg>, top: nat)
    requires messages != [] && Ordered(messages, top)
    ensures var n := |messages| - 1; Ordered(messages[..n], messages[n].sequence) && messages[n].sequence < top
  {
  }

  lemma {:induction false} IngestAllIndexed(w: Worker, messages: seq<Msg>, bound: nat, top: nat)
    requires Indexed(w, bound) && Ordered(messages, top) && bound <= top <= w.connection.value.nextSequence
    requires forall i :: 0 <= i < |messages| ==> bound <= messages[i].sequence
    ensures w.connection.Some? && Took(w, IngestAll(w, messages), messages, top)
    decreases |messages|
  {
    assert w.connection.Some?;
    hide *;
    IngestAllSplits(w, messages);
    if messages == [] {
      TookNothing(w, bound, top);
    } else {
      var n := |messages| - 1;
      OrderedPrefix(messages, top);
      IngestAllIndexed(w, messages[..n], bound, messages[n].sequence);
      TookOneMore(w, IngestAll(w, messages[..n]), messages[..n], messages[n], top);
    }
  }

  lemma WeakerBound(w: Worker, bound: nat, top: nat)
    requires Indexed(w, bound) && bound <= top <= w.connection.value.nextSequence
    ensures Indexed(w, top)
  {
    hide Increasing, LatestOf, LogOf;
  }

  lemma SideMessagesOrdered(backup: BackupOutcome, first: nat)
    requires Numbered(backup.arrivals, first)
    ensures Ordered(SideMessages(backup), first + |backup.arrivals|)
    ensures forall i :: 0 <= i < |SideMessages(backup)| ==> first <= SideMessages(backup)[i].sequence
  {
    var all, side := backup.arrivals, SideMessages(backup);
    NumberedIncreases(all, first);
    WithoutKindIncreasing(all, BACKUP_KIND, first + |all|);
    forall i | 0 <= i < |side| ensures first <= side[i].sequence {
      WithoutKindMembers(all, BACKUP_KIND, side[i]);
    }
  }

  ghost predicate Session(w: Worker) {
    w.connection.Some? ==> Indexed(w, w.connection.value.nextSequence)
  }

  lemma BackedUpSession(w: Worker, backup: BackupOutcome)
    requires Session(w) && (w.connection.Some? ==> Numbered(backup.arrivals, w.connection.value.nextSequence))
    ensures Session(BackedUp(w, backup))
  {
    if w.connection.Some? {
      hide IngestAll, SideMessages, Indexed, Refusals, Increasing, Numbered, Ordered;
      var next := w.connection.value.nextSequence;
      var top := next + |backup.arrivals|;
      var begun := BackupBegun(w, backup);
      var side := SideMessages(backup);
      SideMessagesOrdered(backup, next);
      IndexCarries(w, begun, next);
      if backup.complete {
        IngestAllIndexed(begun, side, next, top);
        var settled := BackupSettled(begun, backup);
        IndexCarries(settled, BackedUp(w, backup), top);
      } else {
        var settled := BackupSettled(begun, backup);
        IndexCarries(begun, BackedUp(w, backup), next);
        WeakerBound(BackedUp(w, backup), next, top);
      }
    }
  }

  lemma OpenedSession(w: Worker, hello: Hello, first: nat)
    requires Indexes(hello, first)
    ensures Session(Opened(w, hello, LastOfKind(hello.history)))
  {
    NumberedIncreases(hello.history, first);
    hide LatestOf, LastOfKind, Forwards, Increasing;
    assert hello.history + [] == hello.history;
  }

  lemma StepSession(w: Worker, input: Input)
    requires Session(w) && Enabled(w, input)
    ensures Session(Next(w, input))
  {
    hide Session, Opened, ReadOne, BackedUp, Indexes, Heard;
    var x := Next(w, input);
    match input
    case CreateBackup(b) => BackedUpSession(w, b);
    case Connect(Connected(hello)) =>
      var first :| Heard(hello, first);
      HeardIndexes(hello, first);
      OpenedSession(w, hello, first);
    case ReadMessage(reading) => ReadSession(w, reading);
    case _ => SessionCarries(w, x);
  }

  lemma SessionCarries(w: Worker, x: Worker)
    requires Session(w)
    requires x.connection.Some? ==>
               x.connection == w.connection && SameIndex(w, x)
    ensures Session(x)
  {
    if x.connection.Some? {
      hide Indexed;
      IndexCarries(w, x, w.connection.value.nextSequence);
    }
  }

  lemma ReadSession(w: Worker, reading: Reading)
    requires Session(w) && w.connection.Some?
    ensures Session(ReadOne(w, reading))
  {
    hide Ingest, Indexed, FailAll;
    var c := w.connection.value;
    match reading
    case Got(kind, payload) =>
      var m := Msg(c.nextSequence, kind, payload);
      var x := Arriving(w, m);
      IndexCarries(w, x, c.nextSequence);
      IngestIndexed(x, m, c.nextSequence);
    case _ =>
      if ReadOne(w, reading).connection.Some? { SessionCarries(w, ReadOne(w, reading)); }
  }

  // -------------------------------------------------------- what arrived and what was lost

  /** What has arrived since the handshake is, in order, what was ingested merged with what failed
      backups lost; and it carries on the handshake's numbers. */
  ghost predicate Arrivals(w: Worker) {
    w.connection.Some? ==>
      && MergeOf(w.arrived, w.ingested, w.lost)
      && Ordered(w.hello + w.arrived, w.connection.value.nextSequence)
  }

  /** `x` has ingested some messages more than `w`, and read as many. */
  ghost predicate IngestedMore(w: Worker, x: Worker, messages: seq<Msg>) {
    && w.connection.Some? && x.connection.Some?
    && x.connection.value.nextSequence == w.connection.value.nextSequence
    && x.ingested == w.ingested + messages && x.arrived == w.arrived && x.lost == w.lost && x.hello == w.hello
  }

  lemma IngestOneMore(w: Worker, m: Msg)
    requires w.connection.Some?
    ensures IngestedMore(w, Ingest(w, m), [m])
  {
    hide FirstCompatible, Updated, LastN, Compatible;
  }

  lemma {:induction false} IngestAllMore(w: Worker, messages: seq<Msg>)
    requires w.connection.Some?
    ensures IngestedMore(w, IngestAll(w, messages), messages)
  {
    hide Ingest;
    if messages == [] {
      assert w.ingested + messages == w.ingested;
    } else {
      var n := |messages| - 1;
      IngestAllMore(w, messages[..n]);
      IngestOneMore(IngestAll(w, messages[..n]), messages[n]);
      assert w.ingested + messages == (w.ingested + messages[..n]) + [messages[n]];
    }
  }

  lemma OrderedJoins(h: seq<Msg>, more: seq<Msg>, bound: nat, top: nat)
    requires Ordered(h, bound) && Ordered(more, top) && bound <= top
    requires forall i :: 0 <= i < |more| ==> bound <= more[i].sequence
    ensures Ordered(h + more, top)
  {
    JoinIncreases(h, more, bound);
  }

  lemma ArrivalsGrow(w: Worker, x: Worker, more: seq<Msg>, top: nat)
    requires Arrivals(w) && w.connection.Some? && x.connection.Some?
    requires w.connection.value.nextSequence <= top == x.connection.value.nextSequence
    requires Ordered(more, top) && forall i :: 0 <= i < |more| ==> w.connection.value.nextSequence <= more[i].sequence
    requires x.hello == w.hello && x.arrived == w.arrived + more
    requires || (x.ingested == w.ingested + more && x.lost == w.lost)
             || (x.ingested == w.ingested && x.lost == w.lost + more)
    ensures Arrivals(x)
  {
    hide Ordered, MergeOf;
    MergeGrows(w.arrived, w.ingested, w.lost, more);
    OrderedJoins(w.hello + w.arrived, more, w.connection.value.nextSequence, top);
    assert w.hello + (w.arrived + more) == (w.hello + w.arrived) + more;
  }

  lemma BackedUpArrivals(w: Worker, backup: BackupOutcome)
    requires Arrivals(w) && (w.connection.Some? ==> Numbered(backup.arrivals, w.connection.value.nextSequence))
    ensures Arrivals(BackedUp(w, backup))
  {
    if w.connection.Some? {
      hide IngestAll, SideMessages, Refusals, Increasing, Numbered, Ordered, Arrivals;
      var begun := BackupBegun(w, backup);
      SideMessagesOrdered(backup, w.connection.value.nextSequence);
      if backup.complete { IngestAllMore(begun, SideMessages(backup)); }
      ArrivalsGrow(w, BackedUp(w, backup), SideMessages(backup), begun.connection.value.nextSequence);
    }
  }

  lemma ReadArrivals(w: Worker, reading: Reading)
    requires Arrivals(w) && w.connection.Some?
    ensures Arrivals(ReadOne(w, reading))
  {
    hide Ingest, FailAll, Arrivals;
    match reading
    case Got(kind, payload) =>
      var c := w.connection.value;
      var m := Msg(c.nextSequence, kind, payload);
      IngestOneMore(Arriving(w, m), m);
      ArrivalsGrow(w, ReadOne(w, reading), [m], c.nextSequence + 1);
    case _ => ArrivalsCarry(w, ReadOne(w, reading));
  }

  lemma ArrivalsCarry(w: Worker, x: Worker)
    requires Arrivals(w)
    requires x.connection.Some? ==>
               x.connection == w.connection && x.hello == w.hello && x.arrived == w.arrived
                   && x.ingested == w.ingested && x.lost == w.lost
    ensures Arrivals(x)
  {
  }

  lemma OpenedArrivals(w: Worker, hello: Hello, first: nat)
    requires Indexes(hello, first)
    ensures Arrivals(Opened(w, hello, LastOfKind(hello.history)))
  {
    NumberedIncreases(hello.history, first);
    hide LatestOf, LastOfKind, Forwards, Increasing;
    assert hello.history + [] == hello.history;
  }

  lemma StepArrivals(w: Worker, input: Input)
    requires Arrivals(w) && Enabled(w, input)
    ensures Arrivals(Next(w, input))
  {
    hide Arrivals, Opened, ReadOne, BackedUp, Indexes, Heard;
    match input
    case CreateBackup(b) => BackedUpArrivals(w, b);
    case Connect(Connected(hello)) =>
      var first :| Heard(hello, first);
      HeardIndexes(hello, first);
      OpenedArrivals(w, hello, first);
    case ReadMessage(reading) => ReadArrivals(w, reading);
    case _ => ArrivalsCarry(w, Next(w, input));
  }

  // ----------------------------------------------------------- stamps on the decoder queue

  /** What the worker queues for the decoder carries the generation its place calls for. */
  ghost predicate Stamps(w: Worker) {
    Decoder.AllStamped(w.sent) && w.generation == Decoder.GenerationAfter(w.sent)
  }

  lemma SendStamps(w: Worker, c: DecoderCommand, generation: nat)
    requires Stamps(w)
    requires match c
             case Reset(g) => g == generation == w.generation + 1
             case Message(g, _) => g == generation == w.generation
             case Stop => generation == w.generation
             case _ => false
    ensures Stamps(w.(sent := w.sent + [c], generation := generation))
  {
    var sent := w.sent + [c];
    assert sent[..|w.sent|] == w.sent;
    Decoder.AppendStamped(w.sent, c);
  }

  lemma {:induction false} ForwardStamps(w: Worker, messages: seq<Msg>)
    requires Stamps(w)
    ensures Stamps(w.(sent := w.sent + Forwards(w.generation, messages)))
  {
    if messages == [] {
      assert w.sent + Forwards(w.generation, messages) == w.sent;
    } else {
      var n := |messages| - 1;
      ForwardStamps(w, messages[..n]);
      var x := w.(sent := w.sent + Forwards(w.generation, messages[..n]));
      hide Stamps;
      SendStamps(x, Decoder.Message(w.generation, messages[n]), w.generation);
      assert x.sent + [Decoder.Message(w.generation, messages[n])] == w.sent + Forwards(w.generation, messages);
      assert w.(sent := w.sent + Forwards(w.generation, messages)) ==
             x.(sent := x.sent + [Decoder.Message(w.generation, messages[n])], generation := w.generation);
    }
  }

  lemma StampsCarry(w: Worker, x: Worker)
    requires Stamps(w) && w.sent == x.sent && w.generation == x.generation
    ensures Stamps(x)
  {
  }

  lemma IngestStamps(w: Worker, m: Msg)
    requires w.connection.Some? && Stamps(w)
    ensures Stamps(Ingest(w, m))
  {
    hide Stamps, FirstCompatible, Updated, LastN;
    var c := Decoder.Message(w.generation, m);
    SendStamps(w, c, w.generation);
    StampsCarry(w.(sent := w.sent + [c], generation := w.generation), Ingest(w, m));
  }

  lemma {:induction false} IngestAllStamps(w: Worker, messages: seq<Msg>)
    requires w.connection.Some? && Stamps(w)
    ensures Stamps(IngestAll(w, messages))
  {
    if messages != [] {
      hide Stamps, Ingest;
      IngestAllStamps(w, messages[..|messages| - 1]);
      IngestStamps(IngestAll(w, messages[..|messages| - 1]), messages[|messages| - 1]);
    }
  }

  lemma StepStamps(w: Worker, input: Input)
    requires Stamps(w) && Enabled(w, input)
    ensures Stamps(Next(w, input))
  {
    hide Stamps, Ingest, IngestAll, Refusals, LastOfKind, Forwards, Heard, SideMessages, Timely;
    var x := Next(w, input);
    var g := w.generation + 1;
    var reset := w.(sent := w.sent + [Decoder.Reset(g)], generation := g);
    match input
    case Reconnect(_) => SendStamps(w, Decoder.Reset(g), g); if x != w { StampsCarry(reset, x); }
    case Disconnect => SendStamps(w, Decoder.Reset(g), g); StampsCarry(reset, x);
    case Stop =>
      SendStamps(w, Decoder.Stop, w.generation);
      StampsCarry(w.(sent := w.sent + [Decoder.Stop], generation := w.generation), x);
    case Connect(Connected(hello)) =>
      var initial := LastOfKind(hello.history);
      SendStamps(w, Decoder.Reset(g), g);
      ForwardStamps(reset, initial);
      StampsCarry(reset.(sent := reset.sent + Forwards(g, initial)), x);
    case CreateBackup(b) => BackedUpStamps(w, b);
    case ReadMessage(reading) => ReadStamps(w, reading);
    case _ => StampsCarry(w, x);
  }

  lemma BackedUpStamps(w: Worker, backup: BackupOutcome)
    requires Stamps(w)
    ensures Stamps(BackedUp(w, backup))
  {
    hide Stamps, IngestAll, Refusals, SideMessages;
    if w.connection.None? {
      StampsCarry(w, BackedUp(w, backup));
    } else {
      var begun := BackupBegun(w, backup);
      StampsCarry(w, begun);
      IngestAllStamps(begun, SideMessages(backup));
      var settled := BackupSettled(begun, backup);
      if !backup.complete { StampsCarry(begun, settled); }
      StampsCarry(settled, BackedUp(w, backup));
    }
  }

  lemma ReadStamps(w: Worker, reading: Reading)
    requires Stamps(w) && w.connection.Some?
    ensures Stamps(ReadOne(w, reading))
  {
    hide Stamps, Ingest, Refusals;
    match reading
    case Got(kind, payload) =>
      var c := w.connection.value;
      var m := Msg(c.nextSequence, kind, payload);
      var x := Arriving(w, m);
      StampsCarry(w, x);
      IngestStamps(x, m);
    case _ => StampsCarry(w, ReadOne(w, reading));
  }

  // ------------------------------------------------------------ why a reply was given

  /** A delivered message answers its request, and a request times out only past its deadline. */
  predicate Deserved(now: nat, a: Answer) {
    match a.reply
    case Delivered(m) => Compatible(a.request, m)
    case Refused(reason) => reason == NoResponse ==> a.request.deadline <= now
  }

  ghost predicate AllDeserved(w: Worker) {
    forall i :: 0 <= i < |w.answers| ==> Deserved(w.now, w.answers[i])
  }

  /** `x` gives `w`'s answers and then some more. */
  ghost predicate Extends(w: Worker, x: Worker) {
    && w.now <= x.now && |w.answers| <= |x.answers|
    && (forall i :: 0 <= i < |w.answers| ==> x.answers[i] == w.answers[i])
    && (forall i :: |w.answers| <= i < |x.answers| ==> Deserved(x.now, x.answers[i]))
  }

  lemma ExtendsDeserved(w: Worker, x: Worker)
    requires AllDeserved(w) && Extends(w, x)
    ensures AllDeserved(x)
  {
    hide Compatible;
  }

  lemma IngestExtends(w: Worker, m: Msg)
    requires w.connection.Some?
    ensures Extends(w, Ingest(w, m))
  {
    hide Compatible, Updated, LastN;
  }

  lemma {:induction false} IngestAllExtends(w: Worker, messages: seq<Msg>)
    requires w.connection.Some?
    ensures Extends(w, IngestAll(w, messages))
  {
    if messages != [] {
      hide Ingest, Deserved;
      IngestAllExtends(w, messages[..|messages| - 1]);
      IngestExtends(IngestAll(w, messages[..|messages| - 1]), messages[|messages| - 1]);
    }
  }

  lemma FailAllExtends(w: Worker, reason: Failure)
    requires reason != NoResponse
    ensures Extends(w, FailAll(w, reason))
  {
  }

  lemma ExpiredExtends(w: Worker)
    ensures Extends(w, Expired(w))
  {
    var late := Timely(w.pending, w.now, true);
    var refusals := Refusals(late, NoResponse);
    assert forall i :: 0 <= i < |refusals| ==> refusals[i].request in late;
    hide Timely, Refusals, Compatible;
  }

  lemma ExtendsTransitive(w: Worker, x: Worker, y: Worker)
    requires Extends(w, x) && Extends(x, y)
    ensures Extends(w, y)
  {
    hide Compatible;
    forall i | |w.answers| <= i < |y.answers| ensures Deserved(y.now, y.answers[i]) {
      if i < |x.answers| { assert Deserved(x.now, x.answers[i]) && y.answers[i] == x.answers[i]; }
    }
  }

  lemma BackedUpExtends(w: Worker, backup: BackupOutcome)
    ensures Extends(w, BackedUp(w, backup))
  {
    hide FailAll, IngestAll, SideMessages, Deserved;
    FailAllExtends(w, BackupStarted);
    if w.connection.Some? {
      var begun := BackupBegun(w, backup);
      IngestAllExtends(begun, SideMessages(backup));
      ExtendsTransitive(w, begun, BackupSettled(begun, backup));
    }
  }

  lemma ReadExtends(w: Worker, reading: Reading)
    requires w.connection.Some?
    ensures Extends(w, ReadOne(w, reading))
  {
    hide FailAll, Ingest, Deserved;
    match reading
    case Got(kind, payload) =>
      var c := w.connection.value;
      var m := Msg(c.nextSequence, kind, payload);
      IngestExtends(Arriving(w, m), m);
    case Nothing =>
    case Failed => FailAllExtends(SetPhase(w, Searching, false, false), LinkLost);
  }

  lemma StepExtends(w: Worker, input: Input)
    requires Enabled(w, input)
    ensures Extends(w, Next(w, input))
  {
    hide FailAll, Expired, BackedUp, ReadOne, Opened, Heard, Deserved;
    match input
    case Reconnect(_) => FailAllExtends(w, SessionRestarted);
    case Disconnect => FailAllExtends(w, SessionClosed);
    case Stop => FailAllExtends(w, BrokerStopped);
    case CreateBackup(b) => BackedUpExtends(w, b);
    case ReadMessage(reading) => ReadExtends(w, reading);
    case Expire => ExpiredExtends(w);
    case Connect(Connected(hello)) => OpenedExtends(w, hello);
    case Ask(_, _, _, _) => DeservedNotConnected();
    case _ =>
  }

  lemma OpenedExtends(w: Worker, hello: Hello)
    ensures Extends(w, Opened(w, hello, LastOfKind(hello.history)))
  {
    hide LastOfKind, Forwards;
  }

  lemma DeservedNotConnected()
    ensures forall now, r :: Deserved(now, Answer(r, Refused(NotConnected)))
  {
  }

  // ------------------------------------------------------------------------ all runs

  ghost predicate Inv(w: Worker) {
    Conserved(w) && Linked(w) && Session(w) && Arrivals(w) && Stamps(w) && AllDeserved(w)
        && (w.stopped ==> w.pending == [])
  }

  lemma StepKeepsInv(w: Worker, input: Input)
    requires Inv(w) && Enabled(w, input)
    ensures Inv(Next(w, input))
  {
    assert Next(w, input).stopped ==> Next(w, input).pending == [] by { OnlyStopStops(w, input); }
    hide Conserved, Linked, Session, Arrivals, Stamps, AllDeserved, Next, Enabled;
    StepConserves(w, input);
    StepLinked(w, input);
    StepSession(w, input);
    StepArrivals(w, input);
    StepStamps(w, input);
    StepExtends(w, input);
    ExtendsDeserved(w, Next(w, input));
  }

  lemma OnlyStopStops(w: Worker, input: Input)
    requires Enabled(w, input)
    ensures Next(w, input).stopped ==> input == Stop && Next(w, input).pending == []
  {
    hide Ingest, IngestAll, Refusals, LastOfKind, Forwards, Heard, SideMessages, Timely;
    if input.CreateBackup? { BackedUpStopped(w, input.backup); }
    if input.ReadMessage? { ReadStopped(w, input.reading); }
  }

  lemma IngestStopped(w: Worker, m: Msg)
    requires w.connection.Some?
    ensures Ingest(w, m).stopped == w.stopped && Ingest(w, m).now == w.now
  {
    hide FirstCompatible, Updated, LastN;
  }

  lemma {:induction false} BackedUpStopped(w: Worker, backup: BackupOutcome)
    ensures BackedUp(w, backup).stopped == w.stopped && BackedUp(w, backup).now == w.now
  {
    hide IngestAll, Refusals, SideMessages;
    if w.connection.Some? { IngestAllStopped(BackupBegun(w, backup), SideMessages(backup)); }
  }

  lemma {:induction false} IngestAllStopped(w: Worker, messages: seq<Msg>)
    requires w.connection.Some?
    ensures IngestAll(w, messages).stopped == w.stopped && IngestAll(w, messages).now == w.now
  {
    if messages != [] {
      hide Ingest;
      IngestAllStopped(w, messages[..|messages| - 1]);
      IngestStopped(IngestAll(w, messages[..|messages| - 1]), messages[|messages| - 1]);
    }
  }

  lemma ReadStopped(w: Worker, reading: Reading)
    requires w.connection.Some?
    ensures ReadOne(w, reading).stopped == w.stopped
  {
    hide Ingest, Refusals;
    if reading.Got? {
      var c := w.connection.value;
      var m := Msg(c.nextSequence, reading.kind, reading.payload);
      IngestStopped(Arriving(w, m), m);
    }
  }

  ghost predicate Run(w: Worker, inputs: seq<Input>, end: Worker)
    decreases |inputs|
  {
    if inputs == [] then end == w
    else Enabled(w, inputs[0]) && Run(Next(w, inputs[0]), inputs[1..], end)
  }

  /** Over any run the invariant is kept, and the replies given so far stay as they are. */
  lemma {:induction false} RunKeepsInv(w: Worker, inputs: seq<Input>, end: Worker)
    requires Inv(w) && Run(w, inputs, end)
    ensures Inv(end) && Extends(w, end)
    decreases |inputs|
  {
    hide Inv, Next, Enabled, Deserved;
    if inputs != [] {
      StepKeepsInv(w, inputs[0]);
      StepExtends(w, inputs[0]);
      RunKeepsInv(Next(w, inputs[0]), inputs[1..], end);
      hide Extends;
      ExtendsTransitive(w, Next(w, inputs[0]), end);
    }
  }

  lemma NoInputs(w: Worker)
    ensures Run(w, [], w)
  {
  }

  lemma RunOne(w: Worker, input: Input)
    requires Enabled(w, input)
    ensures Run(w, [input], Next(w, input))
  {
    hide Enabled, Next;
    assert [input][1..] == [];
  }

  lemma {:induction false} RunsJoin(w: Worker, a: seq<Input>, x: Worker, b: seq<Input>, y: Worker)
    requires Run(w, a, x) && Run(x, b, y)
    ensures Run(w, a + b, y)
    decreases |a|
  {
    hide Next, Enabled;
    if a == [] {
      assert a + b == b;
    } else {
      RunsJoin(Next(w, a[0]), a[1..], x, b, y);
      assert (a + b)[1..] == a[1..] + b;
    }
  }

  ghost predicate Reachable(w: Worker) {
    exists auto, inputs :: Run(Start(auto), inputs, w)
  }

  lemma StartInv(auto: bool)
    ensures Inv(Start(auto))
  {
  }

  lemma ReachableInv(w: Worker)
    requires Reachable(w)
    ensures Inv(w)
  {
    hide Run, Start, Inv;
    var auto, inputs :| Run(Start(auto), inputs, w);
    StartInv(auto);
    RunKeepsInv(Start(auto), inputs, w);
  }

  lemma {:induction false} ReachesOn(w: Worker, inputs: seq<Input>, x: Worker)
    requires Run(w, inputs, x) && Reachable(w)
    ensures Reachable(x)
  {
    hide Run, Start;
    var auto, before :| Run(Start(auto), before, w);
    RunsJoin(Start(auto), before, w, inputs, x);
  }

  lemma ReachableStep(w: Worker, input: Input)
    requires Reachable(w) && Enabled(w, input)
    ensures Reachable(Next(w, input))
  {
    hide Run, Next, Enabled;
    RunOne(w, input);
    ReachesOn(w, [input], Next(w, input));
  }

  // ------------------------------------------------------------------------ theorems

  /** Over every run, each request processed is answered once or still pending; by the time of
      a stop all have been answered, and while no connection exists none is pending. */
  lemma EveryRequestAnsweredOnce(w: Worker)
    requires Reachable(w)
    ensures multiset(w.issued) == multiset(Asked(w.answers)) + multiset(w.pending)
    ensures w.stopped || w.connection.None? ==> multiset(w.issued) == multiset(Asked(w.answers))
  {
    ReachableInv(w);
    assert w.pending == [] ==> multiset(w.pending) == multiset{};
    hide Asked, Session, Arrivals, Stamps, AllDeserved;
  }

  /** A delivered message answers its request, and a request times out only past its deadline. */
  lemma RepliesAreDeserved(w: Worker, a: Answer)
    requires Reachable(w) && a in w.answers
    ensures a.reply.Delivered? ==>
              var m := a.reply.message;
              && a.request.expected == m.kind
              && (CarriedId(m).Some? && a.request.requestId.Some? ==> CarriedId(m) == a.request.requestId)
    ensures a.reply == Refused(NoResponse) ==> a.request.deadline <= w.now
  {
    ReachableInv(w);
    hide CarriedId, Session, Arrivals, Stamps, Conserved;
  }

  // ------------------------------------------------------------- who gets a message

  /** The id a message carries is the first varint field of its payload that is numbered 1, in a message
      of type 52, or 2, in any other; with no such field before the payload ceases to be one, it
      carries none. */
  lemma CarriedIdIsField(m: Msg, id: nat)
    ensures CarriedId(m) == Some(id) <==> exists fields, rest :: CarriesIn(m, id, fields, rest)
  {
    hide *;
    var wanted := if m.kind == 52 then 1 else 2;
    CarriedIdScans(m);
    if Wire.Scan(m.payload, wanted) == Ok(Some(id)) {
      var fields, rest := Wire.ScanAnswersAreFields(m.payload, wanted);
      CarriesInTold(m, id, fields, rest);
    }
    forall fields, rest | CarriesIn(m, id, fields, rest) ensures Wire.Scan(m.payload, wanted) == Ok(Some(id)) {
      CarriesInTold(m, id, fields, rest);
      Wire.ScanFindsFirst(fields, rest, wanted);
    }
  }

  /** The payload begins with these fields, and this is the value of the first that can be its id. */
  ghost predicate CarriesIn(m: Msg, id: nat, fields: seq<Wire.Field>, rest: bytes) {
    && Wire.AllValid(fields) && m.payload == Wire.Flatten(fields) + rest
    && Wire.FirstVarint(fields, if m.kind == 52 then 1 else 2) == Some(id)
  }

  lemma CarriesInTold(m: Msg, id: nat, fields: seq<Wire.Field>, rest: bytes)
    ensures CarriesIn(m, id, fields, rest) <==>
            && Wire.AllValid(fields) && m.payload == Wire.Flatten(fields) + rest
            && Wire.FirstVarint(fields, if m.kind == 52 then 1 else 2) == Some(id)
  {
  }

  lemma CarriedIdScans(m: Msg)
    ensures forall id :: CarriedId(m) == Some(id) <==>
              Wire.Scan(m.payload, if m.kind == 52 then 1 else 2) == Ok(Some(id))
  {
    hide Wire.Scan;
  }

  /** The request would take a message of this type that carries this id, if it carries one. */
  predicate Wants(r: Request, kind: nat, id: Option<nat>) {
    && r.expected == kind
    && match id
       case None => true
       case Some(carried) => r.requestId == None || r.requestId == Some(carried)
  }

  /** A message read from the device goes to the first pending request that wants it by type and id.
      Its caller is answered, all others go on waiting, in order; wanted by none, it answers nobody. */
  lemma ReadGoesToFirst(w: Worker, kind: nat, payload: bytes, i: nat)
    requires Enabled(w, ReadMessage(Got(kind, payload))) && i <= |w.pending|
    requires var id := CarriedId(Msg(w.connection.value.nextSequence, kind, payload));
             && (forall j :: 0 <= j < i ==> !Wants(w.pending[j], kind, id))
             && (i < |w.pending| ==> Wants(w.pending[i], kind, id))
    ensures var m, x := Msg(w.connection.value.nextSequence, kind, payload), Next(w, ReadMessage(Got(kind, payload)));
            if i < |w.pending|
            then
              && x.pending == w.pending[..i] + w.pending[i + 1..]
              && x.answers == w.answers + [Answer(w.pending[i], Delivered(m))]
            else x.pending == w.pending && x.answers == w.answers
  {
    var m := Msg(w.connection.value.nextSequence, kind, payload);
    FirstToWant(w.pending, m, i);
    hide FirstCompatible, Wants, CarriedId, Updated, LastN;
  }

  lemma FirstToWant(pending: seq<Request>, m: Msg, i: nat)
    requires i <= |pending| && forall j :: 0 <= j < i ==> !Wants(pending[j], m.kind, CarriedId(m))
    requires i < |pending| ==> Wants(pending[i], m.kind, CarriedId(m))
    ensures FirstCompatible(pending, m) == i
  {
    hide CarriedId;
    assert forall j :: 0 <= j < |pending| ==> (Compatible(pending[j], m) <==> Wants(pending[j], m.kind, CarriedId(m)));
    hide Compatible, Wants;
    var k := FirstCompatible(pending, m);
  }

  /** A message that carries no id goes to the first request of its type, whatever id that asked with. */
  lemma UncorrelatedReply(w: Worker, kind: nat, payload: bytes, i: nat)
    requires Enabled(w, ReadMessage(Got(kind, payload))) && i < |w.pending| && w.pending[i].expected == kind
    requires CarriedId(Msg(w.connection.value.nextSequence, kind, payload)).None?
    requires forall j :: 0 <= j < i ==> w.pending[j].expected != kind
    ensures var m, x := Msg(w.connection.value.nextSequence, kind, payload), Next(w, ReadMessage(Got(kind, payload)));
            && x.pending == w.pending[..i] + w.pending[i + 1..]
            && x.answers == w.answers + [Answer(w.pending[i], Delivered(m))]
  {
    assert Wants(w.pending[i], kind, None) && forall j :: 0 <= j < i ==> !Wants(w.pending[j], kind, None);
    hide CarriedId, Next, Enabled;
    ReadGoesToFirst(w, kind, payload, i);
  }

  // ------------------------------------------------------------ what the inputs come to

  /** Everybody who waited has been refused, in order, and nobody waits. */
  ghost predicate RefusesAll(w: Worker, x: Worker, reason: Failure) {
    && x.pending == [] && |x.answers| == |w.answers| + |w.pending| && x.answers[..|w.answers|] == w.answers
    && forall i :: 0 <= i < |w.pending| ==> x.answers[|w.answers| + i] == Answer(w.pending[i], Refused(reason))
  }

  /** No session is left: nothing is indexed or logged, and the decoder will start afresh. */
  ghost predicate EndsSession(w: Worker, x: Worker) {
    && x.connection == None && !x.status.connected && !x.status.synchronized
    && x.latest == map[] && x.log == [] && x.readErrors == 0
    && x.generation == w.generation + 1 && x.sent == w.sent + [Decoder.Reset(w.generation + 1)]
  }

  /** A disconnect ends the session, refuses whoever waits and seeks no other session. */
  lemma DisconnectEnds(w: Worker)
    requires !w.stopped
    ensures var x := Next(w, Disconnect);
            && EndsSession(w, x) && RefusesAll(w, x, SessionClosed)
            && x.status.phase == Phase.Disconnected && !x.autoConnect
  {
    FailAllRefuses(w, SessionClosed);
    hide FailAll, RefusesAll, Forwards, LastOfKind;
    RefusalsStand(w, FailAll(w, SessionClosed), Next(w, Disconnect), SessionClosed);
  }

  /** A forced reconnect, and one without a session or the making of one, ends the session and seeks a
      new one; any other changes nothing. */
  lemma ReconnectRestarts(w: Worker, force: bool)
    requires !w.stopped
    ensures var x := Next(w, Reconnect(force));
            if force || (w.connection.None? && w.status.phase in {Searching, Phase.Disconnected, Error})
            then
              && EndsSession(w, x) && RefusesAll(w, x, SessionRestarted)
              && x.status.phase == Searching && x.autoConnect
            else x == w
  {
    DroppedEnds(w, SessionRestarted);
    hide Dropped, Forwards, LastOfKind;
  }

  lemma DroppedEnds(w: Worker, reason: Failure)
    ensures var x := SetPhase(Dropped(w, reason), Searching, false, false).(autoConnect := true);
            EndsSession(w, x) && RefusesAll(w, x, reason)
  {
    FailAllRefuses(w, reason);
    hide FailAll, RefusesAll;
    RefusalsStand(w, FailAll(w, reason), Dropped(w, reason), reason);
    RefusalsStand(w, FailAll(w, reason),
                  SetPhase(Dropped(w, reason), Searching, false, false).(autoConnect := true), reason);
  }

  /** A request waits for its time, behind those already waiting, or is refused for want of a session. */
  lemma AskWaitsOrIsRefused(w: Worker, reply: nat, expected: nat, requestId: Option<nat>, timeout: nat)
    requires !w.stopped
    ensures var x, r := Next(w, Ask(reply, expected, requestId, timeout)),
                        Request(reply, expected, requestId, w.now + timeout);
            && x.issued == w.issued + [r]
            && x.pending == (if w.connection.Some? then w.pending + [r] else w.pending)
            && x.answers == (if w.connection.Some? then w.answers else w.answers + [Answer(r, Refused(NotConnected))])
  {
  }

  lemma {:induction false} TimelyIsFilter(pending: seq<Request>, now: nat)
    ensures Timely(pending, now, false) == Filter(pending, (r: Request) => r.deadline > now)
    ensures Timely(pending, now, true) == Filter(pending, (r: Request) => r.deadline <= now)
  {
    if pending != [] { TimelyIsFilter(pending[..|pending| - 1], now); }
  }

  /** The expiry refuses exactly the requests whose deadline has come, and keeps the others, both in
      order. */
  lemma ExpiryIsExact(w: Worker)
    requires !w.stopped
    ensures var x, late := Next(w, Expire), Filter(w.pending, (r: Request) => r.deadline <= w.now);
            && x.pending == Filter(w.pending, (r: Request) => r.deadline > w.now)
            && |x.answers| == |w.answers| + |late| && x.answers[..|w.answers|] == w.answers
            && forall i :: 0 <= i < |late| ==> x.answers[|w.answers| + i] == Answer(late[i], Refused(NoResponse))
  {
    hide Filter, Forwards, LastOfKind;
    TimelyIsFilter(w.pending, w.now);
  }

  /** A message is indexed and logged under its number, goes to the decoder with the session's stamp and
      is counted. A preset makes the session ready; nothing else moves the phase. */
  lemma ReadIsIngested(w: Worker, kind: nat, payload: bytes)
    requires Enabled(w, ReadMessage(Got(kind, payload)))
    ensures var m := Msg(w.connection.value.nextSequence, kind, payload);
            var x := Next(w, ReadMessage(Got(kind, payload)));
            && x.connection.Some? && x.connection.value.nextSequence == m.sequence + 1
            && x.latest == w.latest[kind := m] && x.connection.value.latest == w.connection.value.latest[kind := m]
            && |x.log| > 0 && x.log[|x.log| - 1] == m && x.log[..|x.log| - 1] == LastN(w.log, LOG_LIMIT - 1)
            && x.sent == w.sent + [Decoder.Message(w.generation, m)]
            && x.status.received == w.status.received + 1 && x.status.lastKind == Some(kind)
            && x.status.connected == w.status.connected && x.readErrors == 0
            && x.status.phase == (if kind == 15 then Ready else w.status.phase)
            && x.status.synchronized == (kind == 15 || w.status.synchronized)
  {
    var m := Msg(w.connection.value.nextSequence, kind, payload);
    IngestIsDeliver(Arriving(w, m), m);
    hide Deliver, Ingest;
  }

  lemma IngestIsDeliver(w: Worker, m: Msg)
    requires w.connection.Some?
    ensures Ingest(w, m) == Indexing(w, m).(pending := Ingest(w, m).pending, answers := Ingest(w, m).answers)
  {
    hide FirstCompatible;
  }

  /** A session starts with what the hello read: its index, the last message of each kind in the log and
      on the way to the decoder after a reset, and a status that is ready if a preset was among it. */
  lemma SessionOpens(w: Worker, hello: Hello, first: nat)
    requires Enabled(w, Connect(Connected(hello))) && Heard(hello, first)
    ensures var x, g := Next(w, Connect(Connected(hello))), w.generation + 1;
            var initial := LastOfKind(hello.history);
            && x.connection == Some(Connection(hello.synchronized, hello.latest, hello.nextSequence))
            && x.latest == hello.latest && x.log == initial && x.generation == g && x.readErrors == 0
            && |x.sent| == |w.sent| + 1 + |initial| && x.sent[..|w.sent|] == w.sent
            && x.sent[|w.sent|] == Decoder.Reset(g)
            && (forall i :: 0 <= i < |initial| ==> x.sent[|w.sent| + 1 + i] == Decoder.Message(g, initial[i]))
            && x.status.phase == (if hello.synchronized then Ready else Syncing)
            && x.status.connected && x.status.synchronized == hello.synchronized
            && x.status.received == |hello.history|
            && x.status.lastKind == (if initial == [] then None else Some(initial[|initial| - 1].kind))
            && x.pending == w.pending && x.answers == w.answers
  {
    hide LastOfKind, Heard;
  }

  /** An attempt without a session changes only the status: searching if there was no device, an error if
      there was one; and errors are counted afresh. */
  lemma AttemptFails(w: Worker, outcome: ConnectOutcome)
    requires Enabled(w, Connect(outcome)) && !outcome.Connected?
    ensures var x := Next(w, Connect(outcome));
            && x == w.(status := x.status, readErrors := 0)
            && x.status.phase == (if outcome == Unavailable then Searching else Error)
            && !x.status.connected && !x.status.synchronized
            && x.status.received == w.status.received && x.status.lastKind == w.status.lastKind
  {
  }

  /** A read that finds nothing forgives an error. A second error in a row loses the link: whoever waits is
      refused and a session is sought, but index, log and decoder are left as they are until one is found. */
  lemma ReadsWithoutMessage(w: Worker)
    requires !w.stopped && w.connection.Some?
    ensures Next(w, ReadMessage(Nothing)) == w.(readErrors := 0)
    ensures var x := Next(w, ReadMessage(Failed));
            w.readErrors >= 1 ==>
              && RefusesAll(w, x, LinkLost) && x.connection == None && x.readErrors == 0
              && x.status.phase == Searching && !x.status.connected && !x.status.synchronized
              && x == w.(pending := x.pending, answers := x.answers, connection := x.connection,
                         readErrors := x.readErrors, status := x.status)
  {
    var s := SetPhase(w, Searching, false, false);
    FailAllRefuses(s, LinkLost);
    hide FailAll, RefusesAll;
    if w.readErrors >= 1 {
      RefusalsCarry(s, FailAll(s, LinkLost), w, Next(w, ReadMessage(Failed)), LinkLost);
    }
  }

  lemma RefusalsCarry(s: Worker, t: Worker, w: Worker, x: Worker, reason: Failure)
    requires RefusesAll(s, t, reason) && w.pending == s.pending && w.answers == s.answers
    requires x.pending == t.pending && x.answers == t.answers
    ensures RefusesAll(w, x, reason)
  {
  }

  lemma TimePasses(w: Worker, elapsed: nat)
    requires !w.stopped
    ensures Next(w, Tick(elapsed)) == w.(now := w.now + elapsed)
  {
  }

  /** A stop refuses whoever waits and stops the decoder after what it has been sent. */
  lemma StopEndsAll(w: Worker)
    requires !w.stopped
    ensures var x := Next(w, Stop); RefusesAll(w, x, BrokerStopped) && x.stopped && x.sent == w.sent + [Decoder.Stop]
  {
    FailAllRefuses(w, BrokerStopped);
    hide FailAll, RefusesAll, Forwards, LastOfKind;
    RefusalsStand(w, FailAll(w, BrokerStopped), Next(w, Stop), BrokerStopped);
  }

  lemma {:induction false} NobodyToAnswer(w: Worker, messages: seq<Msg>)
    requires w.connection.Some? && w.pending == []
    ensures var x := IngestAll(w, messages);
            x.pending == [] && x.answers == w.answers
            && x.connection.value.synchronized == w.connection.value.synchronized
  {
    if messages != [] {
      NobodyToAnswer(w, messages[..|messages| - 1]);
      hide Updated, LastN;
    }
  }

  /** A backup refuses whoever waits first, and leaves the phase as synchronization has it; without a
      session it leaves it syncing all the same. */
  lemma BackupLeavesPhase(w: Worker, backup: BackupOutcome)
    requires Enabled(w, CreateBackup(backup))
    ensures var x := Next(w, CreateBackup(backup));
            && RefusesAll(w, x, BackupStarted)
            && x.connection.Some? == w.connection.Some? == x.status.connected
            && (w.connection.Some? ==>
                  && x.status.synchronized == w.connection.value.synchronized
                  && x.status.phase == (if w.connection.value.synchronized then Ready else Syncing))
            && (w.connection.None? ==> x.status.phase == Syncing && !x.status.synchronized)
  {
    hide IngestAll, SideMessages, FailAll, RefusesAll;
    if w.connection.Some? {
      var begun := BackupBegun(w, backup);
      BegunRefuses(w, backup);
      NobodyToAnswer(begun, SideMessages(backup));
      hide BackupBegun;
      RefusalsStand(w, begun, BackedUp(w, backup), BackupStarted);
    } else {
      FailAllRefuses(w, BackupStarted);
      RefusalsStand(w, FailAll(w, BackupStarted), BackedUp(w, backup), BackupStarted);
    }
  }

  lemma FailAllRefuses(w: Worker, reason: Failure)
    ensures RefusesAll(w, FailAll(w, reason), reason)
    ensures FailAll(w, reason) == w.(pending := [], answers := FailAll(w, reason).answers)
  {
  }

  lemma BegunRefuses(w: Worker, backup: BackupOutcome)
    requires w.connection.Some?
    ensures RefusesAll(w, BackupBegun(w, backup), BackupStarted) && BackupBegun(w, backup).pending == []
    ensures BackupBegun(w, backup).connection.value.synchronized == w.connection.value.synchronized
  {
    hide SideMessages;
  }

  lemma RefusalsStand(w: Worker, x: Worker, y: Worker, reason: Failure)
    requires RefusesAll(w, x, reason) && y.pending == x.pending && y.answers == x.answers
    ensures RefusesAll(w, y, reason)
  {
  }

  /** The one reason a step may give for the requests it refuses. */
  function Cause(input: Input): Option<Failure> {
    match input
    case Reconnect(_) => Some(SessionRestarted)
    case Disconnect => Some(SessionClosed)
    case Ask(_, _, _, _) => Some(NotConnected)
    case CreateBackup(_) => Some(BackupStarted)
    case Stop => Some(BrokerStopped)
    case ReadMessage(Failed) => Some(LinkLost)
    case Expire => Some(NoResponse)
    case _ => None
  }

  /** `x` adds answers to `w`'s, and refuses for no other reason. */
  ghost predicate Blames(w: Worker, x: Worker, cause: Option<Failure>) {
    && |w.answers| <= |x.answers|
    && (forall i :: 0 <= i < |w.answers| ==> x.answers[i] == w.answers[i])
    && forall i :: |w.answers| <= i < |x.answers| && x.answers[i].reply.Refused? ==>
         cause == Some(x.answers[i].reply.reason)
  }

  lemma {:induction false} IngestAllBlames(w: Worker, messages: seq<Msg>, cause: Option<Failure>)
    requires w.connection.Some?
    ensures Blames(w, IngestAll(w, messages), cause)
  {
    if messages != [] {
      IngestAllBlames(w, messages[..|messages| - 1], cause);
      hide Updated, LastN, Compatible;
    }
  }

  lemma BackedUpBlames(w: Worker, backup: BackupOutcome)
    ensures Blames(w, BackedUp(w, backup), Some(BackupStarted))
  {
    hide IngestAll, SideMessages;
    if w.connection.Some? { IngestAllBlames(BackupBegun(w, backup), SideMessages(backup), Some(BackupStarted)); }
  }

  lemma ReadBlames(w: Worker, reading: Reading)
    requires w.connection.Some?
    ensures Blames(w, ReadOne(w, reading), if reading.Failed? then Some(LinkLost) else None)
  {
    hide Updated, LastN, Compatible;
  }

  /** Every refusal names its cause: a request is refused as timed out only by the expiry, as started
      or ended with a session only by that command, and so on; a delivery refuses nobody. */
  lemma RefusalsNameTheirCause(w: Worker, input: Input)
    requires Enabled(w, input)
    ensures Blames(w, Next(w, input), Cause(input))
    ensures input.Ask? && |Next(w, input).answers| > |w.answers| ==> w.connection.None?
  {
    hide ReadOne, BackedUp, Heard, LastOfKind, Forwards, Timely;
    match input
    case CreateBackup(b) => BackedUpBlames(w, b);
    case ReadMessage(reading) => ReadBlames(w, reading);
    case _ =>
  }

  /** The message answers the i-th pending request and leaves the others. */
  predicate Delivers(w: Worker, m: Msg, i: nat) {
    && i < |w.pending|
    && Deliver(w, m) == w.(answers := w.answers + [Answer(w.pending[i], Delivered(m))],
                           pending := w.pending[..i] + w.pending[i + 1..])
  }

  /** Request `r` takes the message `m` away from a later request that asked for it by its id: it
      wants the kind, and asked either without an id or with the same one. */
  predicate Intercepts(r: Request, m: Msg) {
    r.expected == m.kind && (r.requestId.None? || r.requestId == CarriedId(m))
  }

  /** A correlated reply reaches the request it carries the id of exactly when every earlier request
      of its kind asked with an id, and another one. Otherwise an earlier request takes it, and the
      rightful one stays pending. */
  lemma CorrelatedReplyIff(w: Worker, m: Msg, i: nat)
    requires i < |w.pending| && w.pending[i].expected == m.kind
    requires CarriedId(m).Some? && w.pending[i].requestId == CarriedId(m)
    ensures (forall j :: 0 <= j < i ==> !Intercepts(w.pending[j], m)) ==> Delivers(w, m, i)
    ensures (exists j :: 0 <= j < i && Intercepts(w.pending[j], m)) ==>
              && w.pending[i] in Deliver(w, m).pending
              && exists j :: 0 <= j < i && Intercepts(w.pending[j], m) && Delivers(w, m, j)
  {
    hide CarriedId, Compatible;
    CorrelatedFirst(w.pending, m, i);
    var k := FirstCompatible(w.pending, m);
    assert Delivers(w, m, k);
    if k < i { assert (w.pending[..k] + w.pending[k + 1..])[i - 1] == w.pending[i]; }
  }

  lemma CorrelatedFirst(pending: seq<Request>, m: Msg, i: nat)
    requires i < |pending| && pending[i].expected == m.kind && CarriedId(m).Some?
            && pending[i].requestId == CarriedId(m)
    ensures FirstCompatible(pending, m) <= i
    ensures FirstCompatible(pending, m) == i <==> forall j :: 0 <= j < i ==> !Intercepts(pending[j], m)
    ensures FirstCompatible(pending, m) < i ==> Intercepts(pending[FirstCompatible(pending, m)], m)
  {
    hide CarriedId;
    assert Compatible(pending[i], m);
    assert forall j :: 0 <= j < |pending| ==> (Compatible(pending[j], m) <==> Intercepts(pending[j], m));
    hide Compatible, Intercepts;
    var k := FirstCompatible(pending, m);
    if k == i { assert forall j :: 0 <= j < i ==> !Compatible(pending[j], m); }
  }

  /** The bytes of a field numbered 2 that holds the word 7. */
  const ID_SEVEN: bytes := [16, 7]

  lemma OneByte(b: byte)
    requires b < 128
    ensures Wire.IsVarint([b]) && Wire.Word([b]) == b
  {
    hide Wire.IsVarint, Wire.Word;
    Wire.WordRoundTrip(b);
    assert Wire.EncodeVarint(b) == [b];
  }

  lemma FieldSeven()
    ensures var f := Wire.VarintF([16], [7]);
            f.Valid() && f.Number() == 2 && f.Bytes() + [] == ID_SEVEN && Wire.Word(f.body) == 7
  {
    hide Wire.IsVarint, Wire.Word;
    OneByte(16);
    OneByte(7);
  }

  lemma ScanSeven()
    ensures Wire.Scan(ID_SEVEN, 2) == Ok(Some(7))
  {
    hide *;
    FieldSeven();
    Wire.ScanOfField(Wire.VarintF([16], [7]), [], 2);
  }

  lemma CarriesSeven(m: Msg)
    requires m.payload == ID_SEVEN && m.kind != DEVICE_VERSION_KIND
    ensures CarriedId(m) == Some(7)
  {
    hide Wire.Scan;
    ScanSeven();
  }

  /** A session whose handshake read nothing. */
  const SILENT: Hello := Hello(map[], map[], false, [], 2)

  lemma SilentIsHeard()
    ensures Heard(SILENT, 2) && LastOfKind([]) == []
  {
    NothingRead([], 2);
    assert HelloOf(SILENT, 2, [], (0, 0, 0), 0, 0);
  }

  /** A connected worker nobody has asked anything. */
  ghost predicate Quiet(w: Worker) {
    Reachable(w) && !w.stopped && w.connection.Some? && w.pending == [] && w.answers == [] && w.now == 0
  }

  lemma QuietExists() returns (w: Worker)
    ensures Quiet(w)
  {
    SilentIsHeard();
    StartReachable(true);
    var input := Connect(Connected(SILENT));
    assert Enabled(Start(true), input);
    hide Reachable, Heard, LastOfKind, Forwards;
    ReachableStep(Start(true), input);
    w := Next(Start(true), input);
  }

  lemma AskReachable(w: Worker, reply: nat, expected: nat, requestId: Option<nat>, timeout: nat)
    requires Reachable(w) && !w.stopped && w.connection.Some?
    ensures var r := Request(reply, expected, requestId, w.now + timeout);
            Reachable(w.(issued := w.issued + [r], pending := w.pending + [r]))
  {
    hide Reachable;
    ReachableStep(w, Ask(reply, expected, requestId, timeout));
  }

  lemma TwoAsked(kind: nat) returns (w: Worker)
    ensures Reachable(w) && !w.stopped && w.connection.Some? && w.answers == []
    ensures w.pending == [Request(0, kind, None, 9), Request(1, kind, Some(7), 9)]
  {
    w := QuietExists();
    hide Reachable;
    AskReachable(w, 0, kind, None, 9);
    var first := Request(0, kind, None, 9);
    w := w.(issued := w.issued + [first], pending := w.pending + [first]);
    AskReachable(w, 1, kind, Some(7), 9);
    var second := Request(1, kind, Some(7), 9);
    w := w.(issued := w.issued + [second], pending := w.pending + [second]);
  }

  lemma ReadReachable(w: Worker, kind: nat, payload: bytes) returns (before: Worker, m: Msg)
    requires Reachable(w) && !w.stopped && w.connection.Some?
    ensures m.kind == kind && m.payload == payload
    ensures before.pending == w.pending && before.answers == w.answers && before.connection.Some?
    ensures Reachable(Ingest(before, m))
  {
    hide Reachable, Ingest;
    ReachableStep(w, ReadMessage(Got(kind, payload)));
    var c := w.connection.value;
    m := Msg(c.nextSequence, kind, payload);
    before := Arriving(w, m);
  }

  lemma IngestDelivers(w: Worker, m: Msg)
    requires w.connection.Some? && w.pending != [] && Compatible(w.pending[0], m)
    ensures Ingest(w, m).pending == w.pending[1..] && Ingest(w, m).connection.Some?
    ensures Ingest(w, m).answers == w.answers + [Answer(w.pending[0], Delivered(m))]
  {
    hide Compatible, Updated, LastN;
    assert FirstCompatible(w.pending, m) == 0;
  }

  /** It happens: the reply with id 7 goes to the earlier request that asked without an id, and the
      request that asked with id 7 is left waiting. */
  lemma MisdeliveryHappens(kind: nat) returns (w: Worker, m: Msg)
    requires kind != DEVICE_VERSION_KIND
    ensures Reachable(w) && w.connection.Some? && CarriedId(m) == Some(7)
    ensures w.answers == [Answer(Request(0, kind, None, 9), Delivered(m))]
    ensures w.pending == [Request(1, kind, Some(7), 9)]
  {
    hide Reachable, Ingest, CarriedId;
    var asked := TwoAsked(kind);
    var before;
    before, m := ReadReachable(asked, kind, ID_SEVEN);
    CarriesSeven(m);
    IngestDelivers(before, m);
    w := Ingest(before, m);
  }

  lemma StartReachable(auto: bool)
    ensures Reachable(Start(auto))
  {
    NoInputs(Start(auto));
  }

  /** While a connection exists, both indexes are the same and hold, for every kind, the last
      message of that kind the session has ingested; sequence numbers rise along that history. */
  lemma IndexIsSessionHistory(w: Worker)
    requires Reachable(w) && w.connection.Some?
    ensures w.connection.value.latest == w.latest == LatestOf(History(w))
    ensures Increasing(History(w)) && Increasing(w.log)
    ensures forall k :: k in w.latest ==> w.latest[k] in History(w)
  {
    ReachableInv(w);
    LogIncreases(w.hello, w.ingested, w.connection.value.nextSequence);
    forall k | k in w.latest ensures w.latest[k] in History(w) {
      var i := LatestIsLast(History(w), k);
    }
  }

  lemma JoinIncreases(a: seq<Msg>, b: seq<Msg>, cut: nat)
    requires Increasing(a) && Increasing(b)
    requires (forall i :: 0 <= i < |a| ==> a[i].sequence < cut) && (forall i :: 0 <= i < |b| ==> cut <= b[i].sequence)
    ensures Increasing(a + b)
  {
    var joined := a + b;
    forall i, j | 0 <= i < j < |joined| ensures joined[i].sequence < joined[j].sequence {
    }
  }

  lemma TailIncreases(s: seq<Msg>, n: nat)
    requires Increasing(s)
    ensures Increasing(LastN(s, n))
  {
  }

  /** Where the handshake's part of an ordered history ends. */
  lemma OrderedSplits(hello: seq<Msg>, ingested: seq<Msg>, bound: nat) returns (cut: nat)
    requires Ordered(hello + ingested, bound)
    ensures Ordered(hello, cut) && Increasing(ingested)
    ensures forall i :: 0 <= i < |ingested| ==> cut <= ingested[i].sequence
  {
    var all := hello + ingested;
    cut := if ingested == [] then bound else ingested[0].sequence;
    assert forall i :: 0 <= i < |hello| ==> hello[i] == all[i];
    assert forall i :: 0 <= i < |ingested| ==> ingested[i] == all[|hello| + i];
  }

  lemma LogIncreases(hello: seq<Msg>, ingested: seq<Msg>, bound: nat)
    requires Ordered(hello + ingested, bound)
    ensures Increasing(LogOf(hello, ingested))
  {
    var cut := OrderedSplits(hello, ingested, bound);
    LastOfKindIncreasing(hello, cut);
    hide LastOfKind, Increasing, LastN, Ordered;
    JoinIncreases(LastOfKind(hello), ingested, cut);
    TailIncreases(LastOfKind(hello) + ingested, LOG_LIMIT);
  }

  /** The raw log is the last 4096 of the sorted initial index followed by everything ingested
      since, exactly when that index fits the log or something has been ingested: the initial
      index is not trimmed on its own. */
  lemma LogIsTailIff(w: Worker)
    requires Reachable(w) && w.connection.Some?
    ensures w.log == LastN(LastOfKind(w.hello) + w.ingested, LOG_LIMIT) <==>
            |LastOfKind(w.hello)| <= LOG_LIMIT || w.ingested != []
  {
    ReachableInv(w);
    hide LastOfKind, LatestOf, Increasing;
    assert LastOfKind(w.hello) + [] == LastOfKind(w.hello);
  }

  const KINDS_FROM: nat := 100

  /** `n` messages of `n` kinds, none of them a preset or a seed kind, numbered from two. */
  function Kinds(n: nat): (h: seq<Msg>)
    ensures |h| == n && forall i :: 0 <= i < n ==> h[i] == Msg(2 + i, KINDS_FROM + i, [])
  {
    seq(n, i requires 0 <= i < n => Msg(2 + i, KINDS_FROM + i, []))
  }

  lemma {:induction false} KindsAreLast(n: nat)
    ensures LastOfKind(Kinds(n)) == Kinds(n)
  {
    if n > 0 {
      KindsAreLast(n - 1);
      KeepsAllOthers(Kinds(n - 1), KINDS_FROM + n - 1);
      KindsGrow(n);
      LastOfAppended(Kinds(n - 1), Kinds(n)[n - 1]);
      hide *;
    }
  }

  lemma KindsGrow(n: nat)
    requires n > 0
    ensures Kinds(n) == Kinds(n - 1) + [Kinds(n)[n - 1]]
  {
  }

  lemma LastOfAppended(h: seq<Msg>, m: Msg)
    ensures LastOfKind(h + [m]) == WithoutKind(LastOfKind(h), m.kind) + [m]
  {
    assert (h + [m])[..|h|] == h;
  }

  lemma {:induction false} KeepsAllOthers(h: seq<Msg>, kind: nat)
    requires forall i :: 0 <= i < |h| ==> h[i].kind != kind
    ensures WithoutKind(h, kind) == h
  {
    if h != [] {
      KeepsAllOthers(h[..|h| - 1], kind);
      assert h == h[..|h| - 1] + [h[|h| - 1]];
    }
  }

  /** The hello that reads them. */
  function HelloThatReads(h: seq<Msg>): Hello {
    Hello(LatestOf(h), map k | k in LatestOf(h) :: CountOf(h, k), false, h, 2 + |h|)
  }

  /** The answers they come in. */
  function Answers(n: nat): (answers: seq<Reading>)
    ensures |answers| == n && forall i :: 0 <= i < n ==> answers[i] == Got(KINDS_FROM + i, [])
  {
    seq(n, i requires 0 <= i < n => Got(KINDS_FROM + i, []))
  }

  lemma {:induction false} TakesKinds(n: nat)
    ensures Taken(Answers(n), 2) == Kinds(n)
  {
    if n > 0 {
      TakesKinds(n - 1);
      assert Answers(n)[..n - 1] == Answers(n - 1);
      assert Kinds(n) == Kinds(n - 1) + [Kinds(n)[n - 1]];
    }
  }

  lemma KindsHoldNoSeed(n: nat)
    ensures 2 !in LatestOf(Kinds(n))
  {
    var i := LatestIsLast(Kinds(n), 2);
  }

  lemma KindsAreRead(n: nat)
    ensures HasRead(HelloThatReads(Kinds(n)), Answers(n), n, 2) && !SeededBy(Answers(n), n, 2)
  {
    TakesKinds(n);
    KindsHoldNoSeed(n);
    assert Answers(n)[..n] == Answers(n);
    hide LatestOf, CountOf, Taken;
  }

  /** A device that sends `n` messages of `n` kinds, but no preset and nothing the seed phase asks
      for, and then falls silent, is heard through to the end. */
  lemma KindsAreHeard(n: nat)
    ensures Heard(HelloThatReads(Kinds(n)), 2)
  {
    KindsAreRead(n);
    hide HasRead, SeededBy, LatestOf, CountOf, Kinds;
    assert HelloOf(HelloThatReads(Kinds(n)), 2, Answers(n), (n, 1, 1), n, n);
  }

  /** It happens: a session whose hello reads one kind more than the log holds has a log beyond its
      limit, which is not the tail of itself. */
  lemma LogExceedsLimit() returns (w: Worker)
    ensures Reachable(w) && w.connection.Some? && w.ingested == []
    ensures |w.log| == LOG_LIMIT + 1 && w.log != LastN(LastOfKind(w.hello) + w.ingested, LOG_LIMIT)
  {
    var h := Kinds(LOG_LIMIT + 1);
    KindsAreLast(LOG_LIMIT + 1);
    KindsAreHeard(LOG_LIMIT + 1);
    StartReachable(true);
    hide Kinds, LastOfKind, LatestOf, CountOf, Reachable, Forwards, Heard;
    var input := Connect(Connected(HelloThatReads(h)));
    assert Enabled(Start(true), input);
    ReachableStep(Start(true), input);
    w := Next(Start(true), input);
  }

  /** Some message of the kind of `x` is newer. */
  predicate Overtaken(x: Msg, later: seq<Msg>) {
    exists y :: y in later && y.kind == x.kind && y.sequence > x.sequence
  }

  /** The index holds the last message of every kind that arrived in the session, side messages of
      backups included, exactly when whatever failed backups lost has been overtaken since by an
      ingested message of its kind. */
  lemma IndexHoldsArrivalsIff(w: Worker)
    requires Reachable(w) && w.connection.Some?
    ensures w.connection.value.latest == w.latest
    ensures w.latest == LatestOf(w.hello + w.arrived) <==> forall x :: x in w.lost ==> Overtaken(x, w.ingested)
  {
    ReachableInv(w);
    var next := w.connection.value.nextSequence;
    assert w.latest == LatestOf(w.hello + w.ingested) && Ordered(w.hello + w.ingested, next);
    assert Ordered(w.hello + w.arrived, next) && MergeOf(w.arrived, w.ingested, w.lost);
    hide *;
    if forall x :: x in w.lost ==> Overtaken(x, w.ingested) {
      OvertakenLossIsHarmless(w.hello, w.arrived, w.ingested, w.lost, next);
    }
    if w.latest == LatestOf(w.hello + w.arrived) {
      forall x | x in w.lost ensures Overtaken(x, w.ingested) {
        HarmlessLossIsOvertaken(w.hello, w.arrived, w.ingested, w.lost, next, x);
      }
    }
  }

  lemma OvertakenLossIsHarmless(hello: seq<Msg>, arrived: seq<Msg>, ingested: seq<Msg>, lost: seq<Msg>, bound: nat)
    requires MergeOf(arrived, ingested, lost) && Ordered(hello + arrived, bound) && Ordered(hello + ingested, bound)
    requires forall x :: x in lost ==> Overtaken(x, ingested)
    ensures LatestOf(hello + ingested) == LatestOf(hello + arrived)
  {
    var a, b := hello + ingested, hello + arrived;
    assert Increasing(a) && Increasing(b);
    forall m ensures m in arrived <==> m in ingested || m in lost { MergeMembers(arrived, ingested, lost, m); }
    hide Increasing, Ordered, MergeOf, LatestOf;
    forall k | k in LatestOf(b) ensures k in LatestOf(a) && LatestOf(a)[k] == LatestOf(b)[k] {
      var i := LatestIsLast(b, k);
      var m := LatestOf(b)[k];
      assert m in a by {
        if m in lost {
          var y :| y in ingested && y.kind == m.kind && y.sequence > m.sequence;
          LatestIsGreatest(b, y);
        }
      }
      forall x | x in a && x.kind == k ensures x.sequence <= m.sequence { LatestIsGreatest(b, x); }
      GreatestIsLatest(a, m);
    }
    forall k | k in LatestOf(a) ensures k in LatestOf(b) {
      var i := LatestIsLast(a, k);
      LatestIsGreatest(b, a[i]);
    }
  }

  lemma HarmlessLossIsOvertaken(hello: seq<Msg>, arrived: seq<Msg>, ingested: seq<Msg>, lost: seq<Msg>, bound: nat,
        x: Msg)
    requires MergeOf(arrived, ingested, lost) && Ordered(hello + arrived, bound)
    requires LatestOf(hello + ingested) == LatestOf(hello + arrived) && x in lost
    ensures Overtaken(x, ingested)
  {
    var a, b := hello + ingested, hello + arrived;
    var cut := OrderedSplits(hello, arrived, bound);
    assert Increasing(b);
    MergeMembers(arrived, ingested, lost, x);
    hide MergeOf, LatestOf;
    LatestIsGreatest(b, x);
    var m := LatestOf(b)[x.kind];
    var i := LatestIsLast(a, x.kind);
    assert m in a;
    assert x.sequence >= cut && m !in hello;
    assert m in ingested;
  }

  /** A failed backup that read one message beside its chunks always leaves the index behind what
      has arrived. */
  lemma FailedBackupHidesMessage(w: Worker, kind: nat, payload: bytes)
    requires Reachable(w) && !w.stopped && w.connection.Some? && kind != BACKUP_KIND
    ensures var input := CreateBackup(BackupOutcome([Msg(w.connection.value.nextSequence, kind, payload)], false));
            && Enabled(w, input) && Reachable(Next(w, input)) && Next(w, input).connection.Some?
            && Next(w, input).latest != LatestOf(Next(w, input).hello + Next(w, input).arrived)
  {
    var m := Msg(w.connection.value.nextSequence, kind, payload);
    var input := CreateBackup(BackupOutcome([m], false));
    assert Enabled(w, input);
    LosesOne(w, m);
    NothingNewer(w, m);
    hide *;
    ReachableStep(w, input);
    IndexHoldsArrivalsIff(Next(w, input));
  }

  lemma LosesOne(w: Worker, m: Msg)
    requires w.connection.Some? && m.kind != BACKUP_KIND
    ensures var x := BackedUp(w, BackupOutcome([m], false));
            x.connection.Some? && x.ingested == w.ingested && m in x.lost
  {
    OneSideMessage(m);
    hide SideMessages, Refusals;
  }

  lemma NothingNewer(w: Worker, m: Msg)
    requires Reachable(w) && w.connection.Some? && m.sequence == w.connection.value.nextSequence
    ensures !Overtaken(m, w.ingested)
  {
    ReachableInv(w);
    var all := w.hello + w.ingested;
    assert Ordered(all, m.sequence) by { hide Conserved, Linked, Arrivals, Stamps, AllDeserved, LatestOf, Reachable; }
    hide *;
    OrderedBelow(all, m.sequence);
    assert forall y :: y in w.ingested ==> y in all;
    if Overtaken(m, w.ingested) { var y := OvertakenBy(m, w.ingested); }
  }

  lemma OrderedBelow(h: seq<Msg>, bound: nat)
    requires Ordered(h, bound)
    ensures forall y :: y in h ==> y.sequence < bound
  {
  }

  lemma OvertakenBy(x: Msg, later: seq<Msg>) returns (y: Msg)
    requires Overtaken(x, later)
    ensures y in later && y.sequence > x.sequence
  {
    y :| y in later && y.kind == x.kind && y.sequence > x.sequence;
  }

  lemma OneSideMessage(m: Msg)
    requires m.kind != BACKUP_KIND
    ensures SideMessages(BackupOutcome([m], false)) == [m]
  {
    assert [m][..0] == [];
  }

  /** A backup that fails and takes messages with it. */
  predicate Losing(input: Input) {
    input.CreateBackup? && !input.backup.complete && SideMessages(input.backup) != []
  }

  /** Told by the inputs alone: some backup since the last session opened was a losing one. */
  predicate LostSinceConnect(inputs: seq<Input>) {
    if inputs == [] then false
    else
      var last := inputs[|inputs| - 1];
      if last.Connect? && last.outcome.Connected? then false
      else Losing(last) || LostSinceConnect(inputs[..|inputs| - 1])
  }

  lemma {:induction false} RunSplits(w: Worker, inputs: seq<Input>, end: Worker) returns (mid: Worker)
    requires Run(w, inputs, end) && inputs != []
    ensures Run(w, inputs[..|inputs| - 1], mid)
    ensures Enabled(mid, inputs[|inputs| - 1]) && end == Next(mid, inputs[|inputs| - 1])
    decreases |inputs|
  {
    hide Enabled, Next;
    if |inputs| == 1 {
      mid := w;
    } else {
      mid := RunSplits(Next(w, inputs[0]), inputs[1..], end);
      assert inputs[..|inputs| - 1][1..] == inputs[1..][..|inputs| - 2];
    }
  }

  lemma StepLoses(w: Worker, input: Input)
    requires Enabled(w, input) && Next(w, input).connection.Some?
    ensures input.Connect? && input.outcome.Connected? ==> Next(w, input).lost == []
    ensures !(input.Connect? && input.outcome.Connected?) ==>
              w.connection.Some? && (Next(w, input).lost != [] <==> w.lost != [] || Losing(input))
  {
    hide Ingest, IngestAll, Refusals, LastOfKind, Forwards, Heard, SideMessages, Timely;
    if input.ReadMessage? && input.reading.Got? {
      var c := w.connection.value;
      var m := Msg(c.nextSequence, input.reading.kind, input.reading.payload);
      IngestOneMore(Arriving(w, m), m);
    }
    if input.CreateBackup? && w.connection.Some? {
      IngestAllMore(BackupBegun(w, input.backup), SideMessages(input.backup));
    }
  }

  lemma {:induction false} LossTold(auto: bool, inputs: seq<Input>, w: Worker)
    requires Run(Start(auto), inputs, w) && w.connection.Some?
    ensures w.lost != [] <==> LostSinceConnect(inputs)
    decreases |inputs|
  {
    if inputs != [] {
      var n := |inputs| - 1;
      hide Run, Next, Enabled, Losing;
      var mid := RunSplits(Start(auto), inputs, w);
      StepLoses(mid, inputs[n]);
      if !(inputs[n].Connect? && inputs[n].outcome.Connected?) { LossTold(auto, inputs[..n], mid); }
    }
  }

  /** Over every run: the current session has ingested all that arrived exactly when no backup since
      it opened has failed with side messages; and then the index holds the last message of every
      kind that arrived. */
  lemma NothingLostIff(auto: bool, inputs: seq<Input>, w: Worker)
    requires Run(Start(auto), inputs, w) && w.connection.Some?
    ensures w.ingested == w.arrived <==> !LostSinceConnect(inputs)
    ensures !LostSinceConnect(inputs) ==> w.latest == LatestOf(w.hello + w.arrived)
  {
    LossTold(auto, inputs, w);
    assert Reachable(w);
    ReachableInv(w);
    assert MergeOf(w.arrived, w.ingested, w.lost);
    hide Run, Reachable, Inv, LostSinceConnect, LatestOf, MergeOf;
    MergeWhole(w.arrived, w.ingested, w.lost);
    IndexHoldsArrivalsIff(w);
  }

  /** The worker's use of the decoder queue is the one the decoder relies on. */
  lemma QueueIsStamped(w: Worker)
    requires Reachable(w)
    ensures Decoder.AllStamped(w.sent) && w.generation == Decoder.GenerationAfter(w.sent)
  {
    ReachableInv(w);
  }

  /** The status flag is up exactly while a connection exists, and only then can the phase be
      ready. */
  lemma StatusTellsTheLink(w: Worker)
    requires Reachable(w)
    ensures w.status.connected <==> w.connection.Some?
    ensures w.status.phase == Ready ==> w.connection.Some?
  {
    ReachableInv(w);
    hide Session, Arrivals, Stamps, Conserved, AllDeserved;
  }

  /** An acknowledged soft reconnect leaves a connection, or one being sought, exactly when the
      worker was not in the trap a backup without a connection sets. */
  lemma SoftReconnectWorksIff(w: Worker)
    requires Reachable(w) && !w.stopped
    ensures var x := Next(w, Reconnect(false));
            x.connection.Some? || x.autoConnect <==> !Trapped(w)
  {
    ReachableInv(w);
    hide Session, Arrivals, Stamps, Conserved, AllDeserved, Dropped;
  }

  /** The trap is set only by a backup attempted with neither a connection nor one being sought,
      and holds until a disconnect or a forced reconnect. */
  lemma TrapIff(w: Worker, input: Input)
    requires Reachable(w) && Enabled(w, input)
    ensures Trapped(Next(w, input)) <==>
            || (input.CreateBackup? && w.connection.None? && !w.autoConnect)
            || (Trapped(w) && input != Disconnect && input != Reconnect(true))
  {
    ReachableInv(w);
    hide Session, Arrivals, Stamps, Conserved, AllDeserved, Next, Enabled;
    StepLinked(w, input);
  }

  /** No backup in the run was attempted while disconnected. */
  ghost predicate BackupsOnline(w: Worker, inputs: seq<Input>)
    decreases |inputs|
  {
    inputs == []
    || (Enabled(w, inputs[0]) && (inputs[0].CreateBackup? ==> w.connection.Some?)
        && BackupsOnline(Next(w, inputs[0]), inputs[1..]))
  }

  lemma {:induction false} NeverTrapped(w: Worker, inputs: seq<Input>, end: Worker)
    requires Inv(w) && !Trapped(w) && Run(w, inputs, end) && BackupsOnline(w, inputs)
    ensures !Trapped(end)
    decreases |inputs|
  {
    if inputs != [] {
      hide Inv, Next, Enabled;
      StepKeepsInv(w, inputs[0]);
      assert Linked(w) by { InvLinked(w); }
      StepLinked(w, inputs[0]);
      NeverTrapped(Next(w, inputs[0]), inputs[1..], end);
    }
  }

  lemma InvLinked(w: Worker)
    requires Inv(w)
    ensures Linked(w)
  {
    hide Session, Arrivals, Stamps, Conserved, AllDeserved;
  }

  /** In runs with no backup attempted while disconnected, every acknowledged soft reconnect
      leaves a connection or one being sought. */
  lemma SoftReconnectWorksOnline(auto: bool, inputs: seq<Input>, w: Worker)
    requires Run(Start(auto), inputs, w) && BackupsOnline(Start(auto), inputs) && !w.stopped
    ensures var x := Next(w, Reconnect(false)); x.connection.Some? || x.autoConnect
  {
    StartInv(auto);
    NeverTrapped(Start(auto), inputs, w);
    assert Reachable(w);
    SoftReconnectWorksIff(w);
  }

  /** The trap is real: a broker started disconnected, asked for a backup, acknowledges a soft
      reconnect and then never tries to connect. */
  lemma TrapExists()
    ensures var backup := CreateBackup(BackupOutcome([], false));
            var w := Next(Start(false), backup);
            var x := Next(w, Reconnect(false));
            Trapped(w) && x == w && x.connection.None? && !x.autoConnect
  {
  }

  /** A single read error, an overflow of the receive queue among them, leaves the connection
      open; it takes two in a row to drop it. */
  lemma LinkSurvivesOneReadError(w: Worker)
    requires Enabled(w, ReadMessage(Failed))
    ensures Next(w, ReadMessage(Failed)).connection.Some? <==> w.readErrors == 0
    ensures w.readErrors == 0 ==> Next(w, ReadMessage(Failed)) == w.(readErrors := 1)
  {
    hide Refusals;
  }
}
