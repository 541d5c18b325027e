/** The worker as the program writes it: fields updated in place by one loop over commands,
    connection attempts and device reads (services/device-broker/src/worker.rs, `run`). */
module WorkerLoop {
  import opened Prelude
  import opened Messages
  import opened EventLog
  import Wire
  import Decoder
  import Backup
  import W = Worker

  /** What a caller can send the worker. A backup comes with what the device answers to it. */
  datatype Command =
    | Reconnect(force: bool)
    | Disconnect
    | Request(reply: nat, expected: nat, requestId: Option<nat>, timeout: nat)
    | CreateBackup(timeout: nat, answers: seq<Backup.TimedReading>)
    | Stop

  /** What an attempt to connect meets: no device, a failed handshake, or one after which the
      hello reads `answers`; `others` messages come before the reply to the handshake. */
  datatype Attempt = NoDevice | NoHandshake | Handshake(others: nat, answers: seq<Reading>, windows: (nat, nat, nat))

  /** One turn of the loop: the commands waiting, each with the time that passes before it, whether
      an attempt to connect is due and what it meets, what the read meets, and the time that passes
      before the attempt, during it, during the read and after the turn. */
  datatype Turn = Turn(
    commands: seq<(nat, Command)>,
    due: bool,
    attempt: Attempt,
    reading: Reading,
    before: nat,
    connecting: nat,
    waiting: nat,
    after: nat
  )

  /** The position of the first request a message answers: the request id it carries is scanned
      for once, and a scan that fails counts as finding none. */
  method Position(pending: seq<W.Request>, m: Msg) returns (i: nat)
    ensures i == W.FirstCompatible(pending, m)
  {
    var scan := Wire.VarintField(m.payload, if m.kind == DEVICE_VERSION_KIND then 1 else 2);
    var id := if scan.Ok? then scan.value else None;
    hide Wire.Scan, W.FirstCompatible;
    assert id == W.CarriedId(m);
    i := 0;
    while i < |pending| && !(pending[i].expected == m.kind
        && (id.None? || pending[i].requestId.None? || id == pending[i].requestId))
      invariant i <= |pending| && forall j :: 0 <= j < i ==> !W.Compatible(pending[j], m)
    {
      i := i + 1;
    }
  }

  /** The index loop of the expiry, after looking at the first `seen` requests: those in time
      stand before `index`, those not looked at from it on. */
  ghost predicate Swept(was: seq<W.Request>, before: seq<W.Answer>, now: nat, seen: nat, index: nat,
        pending: seq<W.Request>, answers: seq<W.Answer>) {
    && seen <= |was| && index <= |pending| && index == |W.Timely(was[..seen], now, false)|
    && pending == W.Timely(was[..seen], now, false) + was[seen..]
    && answers == before + W.Refusals(W.Timely(was[..seen], now, true), W.NoResponse)
  }

  lemma SweepStarts(was: seq<W.Request>, before: seq<W.Answer>, now: nat)
    ensures Swept(was, before, now, 0, 0, was, before)
  {
    assert was[..0] == [];
  }

  lemma SweepStep(was: seq<W.Request>, before: seq<W.Answer>, now: nat, seen: nat, index: nat,
        pending: seq<W.Request>, answers: seq<W.Answer>)
    requires Swept(was, before, now, seen, index, pending, answers) && index < |pending|
    ensures pending[index].deadline <= now ==>
              Swept(was, before, now, seen + 1, index, pending[..index] + pending[index + 1..],
                    answers + [W.Answer(pending[index], W.Refused(W.NoResponse))])
    ensures pending[index].deadline > now ==>
              index + 1 <= |pending| && Swept(was, before, now, seen + 1, index + 1, pending, answers)
  {
    hide W.Timely, W.Refusals;
    assert |was[seen..]| == |pending| - index;
    TimelyStep(was, seen, now);
    assert was[seen..][1..] == was[seen + 1..];
    var x := was[seen];
    assert pending[index] == x;
    if x.deadline <= now {
      var refused := W.Refusals(W.Timely(was[..seen], now, true), W.NoResponse);
      assert before + refused + [W.Answer(x, W.Refused(W.NoResponse))] ==
          before + (refused + [W.Answer(x, W.Refused(W.NoResponse))]);
    }
  }

  lemma SweepEnds(w: W.Worker, seen: nat, index: nat, pending: seq<W.Request>, answers: seq<W.Answer>)
    requires Swept(w.pending, w.answers, w.now, seen, index, pending, answers) && index == |pending|
    ensures W.Expired(w) == w.(pending := pending, answers := answers)
  {
    hide W.Timely, W.Refusals;
    assert w.pending[..seen] == w.pending;
    assert W.Timely(w.pending, w.now, false) + w.pending[seen..] == W.Timely(w.pending, w.now, false);
  }

  lemma TimelyStep(was: seq<W.Request>, seen: nat, now: nat)
    requires seen < |was|
    ensures var x := was[seen];
            && W.Timely(was[..seen + 1], now, true) ==
                W.Timely(was[..seen], now, true) + (if x.deadline <= now then [x] else [])
            && W.Timely(was[..seen + 1], now, false) ==
                W.Timely(was[..seen], now, false) + (if x.deadline <= now then [] else [x])
    ensures W.Refusals(W.Timely(was[..seen], now, true) + [was[seen]], W.NoResponse) ==
            W.Refusals(W.Timely(was[..seen], now, true), W.NoResponse) + [W.Answer(was[seen], W.Refused(W.NoResponse))]
  {
    assert was[..seen + 1][..seen] == was[..seen];
  }

  function NewStatus(session: Hello): W.Status {
    var initial := LastOfKind(session.history);
    W.Status(if session.synchronized then W.Ready else W.Syncing, true, session.synchronized,
             |session.history|, if initial == [] then None else Some(initial[|initial| - 1].kind))
  }

  function Attempted(w: W.Worker, outcome: W.ConnectOutcome): W.Worker {
    match outcome
    case Unavailable => W.Unreached(w, W.Searching)
    case HandshakeFailed => W.Unreached(w, W.Error)
    case Connected(session) => W.Opened(w, session, LastOfKind(session.history))
  }

  /** The phase shown while connecting does not outlast the attempt. */
  lemma AttemptIs(w: W.Worker, connecting: W.Worker, x: W.Worker, outcome: W.ConnectOutcome)
    requires connecting == w.(status := w.status.(phase := W.Connecting, connected := false, synchronized := false))
    requires x == Attempted(connecting, outcome)
    ensures x == Attempted(w, outcome)
  {
    hide LastOfKind, W.Forwards;
  }

  // Each lemma says which fields a step changes, and to what.

  lemma DroppedIs(w: W.Worker, x: W.Worker, reason: W.Failure)
    requires x == w.(connection := None, pending := [], answers := w.answers + W.Refusals(w.pending, reason),
                     latest := map[], log := [], generation := w.generation + 1,
                     sent := w.sent + [Decoder.Reset(w.generation + 1)], readErrors := 0)
    ensures x == W.Dropped(w, reason)
  {
  }

  lemma IngestIs(w: W.Worker, x: W.Worker, m: Msg)
    requires w.connection.Some?
    requires x == w.(status := W.Updated(w.status, m),
                     connection := Some(w.connection.value.(latest := w.connection.value.latest[m.kind := m])),
                     latest := w.latest[m.kind := m], log := LastN(w.log + [m], LOG_LIMIT),
                     sent := w.sent + [Decoder.Message(w.generation, m)], ingested := w.ingested + [m])
    ensures W.Deliver(x, m) == W.Ingest(w, m)
  {
    hide W.Deliver, W.Updated, LastN;
  }

  lemma GotIs(w: W.Worker, x: W.Worker, kind: nat, payload: bytes)
    requires w.connection.Some?
    requires var c := w.connection.value;
             x == w.(readErrors := 0, arrived := w.arrived + [Msg(c.nextSequence, kind, payload)],
                     connection := Some(c.(nextSequence := c.nextSequence + 1)))
    ensures W.Ingest(x, Msg(w.connection.value.nextSequence, kind, payload)) == W.ReadOne(w, Got(kind, payload))
  {
    hide W.Ingest;
  }

  lemma NothingIs(w: W.Worker, x: W.Worker)
    requires w.connection.Some? && x == w.(readErrors := 0)
    ensures x == W.ReadOne(w, Nothing)
  {
  }

  lemma FailedIs(w: W.Worker, x: W.Worker)
    requires w.connection.Some?
    requires x == if w.readErrors + 1 < 2 then w.(readErrors := w.readErrors + 1)
                  else w.(status := w.status.(phase := W.Searching, connected := false, synchronized := false),
                      pending := [],
                          answers := w.answers + W.Refusals(w.pending, W.LinkLost), connection := None, readErrors := 0)
    ensures x == W.ReadOne(w, Failed)
  {
  }

  /** A worker whose backup has read what it reads. */
  function Began(w: W.Worker, backup: W.BackupOutcome): W.Worker
    requires w.connection.Some?
  {
    var c := w.connection.value;
    w.(connection := Some(c.(nextSequence := c.nextSequence + |backup.arrivals|)),
        arrived := w.arrived + W.SideMessages(backup))
  }

  lemma BeganIs(w: W.Worker, x: W.Worker, backup: W.BackupOutcome)
    requires w.connection.Some?
    requires var c := w.connection.value;
             x == w.(connection := Some(c.(nextSequence := c.nextSequence + |backup.arrivals|)),
                 arrived := w.arrived + W.SideMessages(backup))
    ensures x == Began(w, backup)
  {
  }

  lemma SettledIs(w: W.Worker, x: W.Worker, backup: W.BackupOutcome)
    requires w.connection.Some?
    requires x == if backup.complete then W.IngestAll(w, W.SideMessages(backup))
            else w.(lost := w.lost + W.SideMessages(backup))
    ensures x == W.BackupSettled(w, backup)
  {
  }

  lemma EndedIs(w: W.Worker, x: W.Worker, synchronized: bool)
    requires var phase := if synchronized then W.Ready else W.Syncing;
             x == w.(status := w.status.(phase := phase, connected := true, synchronized := synchronized))
    ensures x == W.BackupEnded(w, synchronized)
  {
  }

  lemma BackedUpIs(w: W.Worker, alone: W.Worker, backup: W.BackupOutcome)
    requires var synchronized := w.connection.Some? && w.connection.value.synchronized;
             alone == w.(pending := [], answers := w.answers + W.Refusals(w.pending, W.BackupStarted),
                         status := w.status.(phase := W.Syncing, connected := w.connection.Some?,
                             synchronized := synchronized))
    ensures w.connection.None? ==> W.BackedUp(w, backup) == alone
    ensures w.connection.Some? ==>
              W.BackedUp(w, backup) == W.BackupEnded(W.BackupSettled(Began(alone, backup), backup),
                  w.connection.value.synchronized)
  {
    hide W.BackupSettled, W.BackupEnded, W.SideMessages;
  }

  class BrokerWorker {
    const codec: Backup.Codec
    const profile: Backup.Profile
    const raw: EventBus<Msg>
    var connection: Option<W.Connection>
    var autoConnect: bool
    var pending: seq<W.Request>
    var generation: nat
    var status: W.Status
    var latest: map<nat, Msg>
    var sent: seq<W.DecoderCommand>
    var readErrors: nat
    var now: nat
    var stopped: bool
    var answers: seq<W.Answer>
    ghost var issued: seq<W.Request>
    ghost var hello: seq<Msg>
    ghost var ingested: seq<Msg>
    ghost var arrived: seq<Msg>
    ghost var lost: seq<Msg>

    ghost function State(): W.Worker
      reads this, raw
    {
      W.Worker(connection, autoConnect, pending, generation, status, latest, raw.log, sent, readErrors, now, stopped,
               issued, answers, hello, ingested, arrived, lost)
    }

    constructor (codec: Backup.Codec, profile: Backup.Profile, autoConnect: bool)
      ensures State() == W.Start(autoConnect) && fresh(raw)
    {
      this.codec, this.profile, this.autoConnect := codec, profile, autoConnect;
      raw := new EventBus();
      connection, pending, generation, latest, sent, readErrors, now, stopped := None, [], 0, map[], [], 0, 0, false;
      status := W.Status(if autoConnect then W.Searching else W.Disconnected, false, false, 0, None);
      answers, issued, hello, ingested, arrived, lost := [], [], [], [], [], [];
    }

    method SetPhase(phase: W.Phase, connected: bool, synchronized: bool)
      modifies this`status
      ensures status == old(status).(phase := phase, connected := connected, synchronized := synchronized)
    {
      status := status.(phase := phase, connected := connected, synchronized := synchronized);
    }

    /** Drains the requests in flight, refusing each. */
    method FailPending(reason: W.Failure)
      modifies this`pending, this`answers
      ensures pending == [] && answers == old(answers) + W.Refusals(old(pending), reason)
    {
      var i := 0;
      assert old(answers) + W.Refusals([], reason) == old(answers);
      while i < |pending|
        invariant i <= |pending| && pending == old(pending)
        invariant answers == old(answers) + W.Refusals(pending[..i], reason)
      {
        assert pending[..i + 1][..i] == pending[..i];
        answers := answers + [W.Answer(pending[i], W.Refused(reason))];
        i := i + 1;
      }
      assert pending[..i] == pending;
      pending := [];
    }

    /** Finds the first request the message answers, removes it and replies to it. */
    method DeliverPending(m: Msg)
      modifies this`pending, this`answers
      ensures State() == W.Deliver(old(State()), m)
    {
      hide W.FirstCompatible;
      var i := Position(pending, m);
      if i < |pending| {
        answers := answers + [W.Answer(pending[i], W.Delivered(m))];
        pending := pending[..i] + pending[i + 1..];
      }
    }

    /** Walks the requests by index, removing in place those past their deadline. */
    method ExpirePending()
      modifies this`pending, this`answers
      ensures State() == W.Expired(old(State()))
    {
      hide Swept, W.Expired, W.Timely, W.Refusals;
      var index := 0;
      ghost var seen := 0;
      SweepStarts(pending, answers, now);
      while index < |pending|
        invariant index <= |pending| && Swept(old(pending), old(answers), now, seen, index, pending, answers)
        decreases |pending| - index
      {
        SweepStep(old(pending), old(answers), now, seen, index, pending, answers);
        if pending[index].deadline <= now {
          answers := answers + [W.Answer(pending[index], W.Refused(W.NoResponse))];
          pending := pending[..index] + pending[index + 1..];
        } else {
          index := index + 1;
        }
        seen := seen + 1;
      }
      SweepEnds(old(State()), seen, index, pending, answers);
    }

    method UpdateMessage(m: Msg)
      requires connection.Some?
      modifies this`connection, this`status
      ensures status == W.Updated(old(status), m)
      ensures connection == Some(old(connection).value.(latest := old(connection).value.latest[m.kind := m]))
    {
      connection := Some(connection.value.(latest := connection.value.latest[m.kind := m]));
      status := status.(received := status.received + 1, lastKind := Some(m.kind));
      if m.kind == PRESET_KIND { status := status.(phase := W.Ready, synchronized := true); }
    }

    method IngestIncoming(m: Msg)
      requires connection.Some?
      modifies this, raw
      ensures State() == W.Ingest(old(State()), m)
    {
      hide W.Ingest, W.Deliver, W.Updated, OfferAll, LastN;
      UpdateMessage(m);
      latest := latest[m.kind := m];
      raw.Publish(m);
      sent := sent + [Decoder.Message(generation, m)];
      ingested := ingested + [m];
      IngestIs(old(State()), State(), m);
      DeliverPending(m);
    }

    method IngestSide(messages: seq<Msg>)
      requires connection.Some?
      modifies this, raw
      ensures State() == W.IngestAll(old(State()), messages)
    {
      hide W.Ingest;
      var i := 0;
      assert messages[..0] == [];
      while i < |messages|
        invariant i <= |messages| && State() == W.IngestAll(old(State()), messages[..i])
      {
        assert messages[..i + 1][..i] == messages[..i];
        IngestIncoming(messages[i]);
        i := i + 1;
      }
      assert messages[..i] == messages;
    }

    /** Drops what the session left behind and starts the decoder afresh. */
    method ClearSession(reason: W.Failure)
      modifies this`connection, this`pending, this`answers, this`latest, this`generation, this`sent, this`readErrors,
          raw
      ensures connection == None && pending == [] && answers == old(answers) + W.Refusals(old(pending), reason)
      ensures latest == map[] && raw.log == [] && generation == old(generation) + 1
      ensures sent == old(sent) + [Decoder.Reset(generation)] && readErrors == 0
    {
      hide *;
      connection := None;
      FailPending(reason);
      latest := map[];
      raw.Clear();
      generation := generation + 1;
      sent := sent + [Decoder.Reset(generation)];
      readErrors := 0;
    }

    method EndSession(reason: W.Failure)
      modifies this, raw
      ensures State() == W.Dropped(old(State()), reason)
    {
      hide W.Dropped, W.Refusals;
      ClearSession(reason);
      DroppedIs(old(State()), State(), reason);
    }

    method HandleReconnect(force: bool)
      requires !stopped
      modifies this, raw
      ensures State() == W.Reconnected(old(State()), force)
    {
      hide W.Dropped;
      if !force && (connection.Some? || status.phase in {W.Connecting, W.Handshaking, W.Syncing, W.Ready}) { return; }
      EndSession(W.SessionRestarted);
      autoConnect := true;
      SetPhase(W.Searching, false, false);
    }

    method HandleDisconnect()
      requires !stopped
      modifies this, raw
      ensures State() == W.Closed(old(State()))
    {
      hide W.Dropped;
      EndSession(W.SessionClosed);
      autoConnect := false;
      SetPhase(W.Disconnected, false, false);
    }

    method HandleRequest(reply: nat, expected: nat, requestId: Option<nat>, timeout: nat)
      requires !stopped
      modifies this`pending, this`answers, this`issued
      ensures State() == W.Asking(old(State()), W.Request(reply, expected, requestId, old(now) + timeout))
    {
      var request := W.Request(reply, expected, requestId, now + timeout);
      issued := issued + [request];
      if connection.Some? {
        pending := pending + [request];
      } else {
        answers := answers + [W.Answer(request, W.Refused(W.NotConnected))];
      }
    }

    /** Collects a backup from the device, numbering everything it reads. */
    method Collect(timeout: nat, device: seq<Backup.TimedReading>)
      returns (transfer: Result<Backup.Transfer, Backup.BackupError>, clock: nat, ghost backup: W.BackupOutcome)
      requires connection.Some?
      modifies this`connection, this`arrived
      ensures Numbered(backup.arrivals, old(connection).value.nextSequence)
      ensures var c := old(connection).value;
              connection == Some(c.(nextSequence := c.nextSequence + |backup.arrivals|))
      ensures arrived == old(arrived) + W.SideMessages(backup)
      ensures (transfer.Ok? <==> backup.complete)
              && (transfer.Ok? ==> transfer.value.sideMessages == W.SideMessages(backup))
      ensures clock >= now
    {
      hide Numbered, WithoutKind, Backup.NoRetryIntoDocument, Backup.WaitsWithin, Backup.Spaced, Backup.Finished,
          Backup.Creates;
      var next;
      ghost var trace;
      transfer, trace, clock, next := Backup.CreateBackup(codec, profile, timeout, now, connection.value.nextSequence,
          device);
      backup := W.BackupOutcome(Backup.Reads(trace), transfer.Ok?);
      connection := Some(connection.value.(nextSequence := next));
      arrived := arrived + W.SideMessages(backup);
    }

    method StartBackup()
      modifies this`pending, this`answers, this`status
      ensures pending == [] && answers == old(answers) + W.Refusals(old(pending), W.BackupStarted)
      ensures status == old(status).(phase := W.Syncing, connected := connection.Some?,
                                     synchronized := connection.Some? && connection.value.synchronized)
    {
      hide *;
      FailPending(W.BackupStarted);
      var synchronized := connection.Some? && connection.value.synchronized;
      SetPhase(W.Syncing, connection.Some?, synchronized);
    }

    /** A backup: nobody else is left waiting, and what it reads beside the chunks is ingested if
        it completes and lost if it fails. The clock moves on by the time it takes. */
    method HandleBackup(timeout: nat, device: seq<Backup.TimedReading>)
      returns (document: Option<string>, ghost backup: W.BackupOutcome)
      requires !stopped
      modifies this, raw
      ensures old(connection).Some? ==> Numbered(backup.arrivals, old(connection).value.nextSequence)
      ensures document.Some? <==> backup.complete
      ensures old(now) <= now && State() == W.BackedUp(old(State()), backup).(now := now)
    {
      hide W.BackedUp, W.BackupEnded, W.BackupSettled, W.Refusals, Began, Numbered;
      StartBackup();
      ghost var alone := State();
      document, backup := None, W.BackupOutcome([], false);
      if connection.Some? {
        var clock;
        document, clock, backup := BackupConnected(timeout, device);
        now := clock;
      }
      BackedUpIs(old(State()), alone, backup);
    }

    method BackupConnected(timeout: nat, device: seq<Backup.TimedReading>)
      returns (document: Option<string>, clock: nat, ghost backup: W.BackupOutcome)
      requires connection.Some? && pending == [] && status.phase == W.Syncing && status.connected
      requires status.synchronized == connection.value.synchronized
      modifies this, raw
      ensures Numbered(backup.arrivals, old(connection).value.nextSequence) && (document.Some? <==> backup.complete)
      ensures clock >= old(now)
      ensures State() == W.BackupEnded(W.BackupSettled(Began(old(State()), backup), backup),
              old(connection).value.synchronized)
    {
      hide W.IngestAll, W.SideMessages, W.BackupSettled, W.BackupEnded, Began, Numbered;
      var transfer;
      transfer, clock, backup := Collect(timeout, device);
      ghost var begun := State();
      BeganIs(old(State()), begun, backup);
      document := None;
      if transfer.Ok? {
        document := Some(transfer.value.document);
        IngestSide(transfer.value.sideMessages);
      } else {
        lost := lost + W.SideMessages(backup);
      }
      ghost var settled := State();
      SettledIs(begun, settled, backup);
      SettledKeepsSynchronized(begun, backup);
      SetPhase(if connection.value.synchronized then W.Ready else W.Syncing, true, connection.value.synchronized);
      EndedIs(settled, State(), connection.value.synchronized);
    }

    method HandleStop()
      requires !stopped
      modifies this
      ensures State() == W.Halted(old(State()))
    {
      hide W.Refusals;
      FailPending(W.BrokerStopped);
      sent := sent + [Decoder.Stop];
      stopped := true;
    }

    method InstallStatus(session: Hello, first: nat)
      requires Indexes(session, first)
      modifies this`status
      ensures status == NewStatus(session)
    {
      assert session.latest == LatestOf(session.history) && Increasing(session.history);
      hide LastOfKind, Indexes;
      LastOfKindListsIndex(session.history);
      var received := TotalCount(session, first);
      var lastKind := NewestKind(session.latest, LastOfKind(session.history));
      var phase := if session.synchronized then W.Ready else W.Syncing;
      status := W.Status(phase, true, session.synchronized, received, lastKind);
    }

    method ForwardAll(messages: seq<Msg>)
      modifies this`sent
      ensures sent == old(sent) + W.Forwards(generation, messages)
    {
      var i := 0;
      assert sent + W.Forwards(generation, messages[..0]) == sent;
      while i < |messages|
        invariant i <= |messages| && sent == old(sent) + W.Forwards(generation, messages[..i])
      {
        sent := sent + [Decoder.Message(generation, messages[i])];
        i := i + 1;
      }
      assert messages[..i] == messages;
    }

    /** Starts a session: its index is sorted by sequence number, queued for the decoder and
        becomes the log. */
    method OpenSession(session: Hello, first: nat)
      requires Indexes(session, first)
      modifies this`connection, this`generation, this`sent, this`status, this`latest, this`readErrors, raw
      ensures connection == Some(W.Connection(session.synchronized, session.latest, session.nextSequence))
      ensures generation == old(generation) + 1 && latest == session.latest && readErrors == 0
      ensures sent == old(sent) + [Decoder.Reset(generation)] + W.Forwards(generation, LastOfKind(session.history))
      ensures raw.log == LastOfKind(session.history)
      ensures status == NewStatus(session)
    {
      hide *;
      generation := generation + 1;
      sent := sent + [Decoder.Reset(generation)];
      InstallStatus(session, first);
      latest := session.latest;
      raw.Clear();
      var initial := SortedIndex(session, first);
      ForwardAll(initial);
      raw.log := raw.log + initial;
      connection := Some(W.Connection(session.synchronized, session.latest, session.nextSequence));
      readErrors := 0;
    }

    method Open(session: Hello, first: nat)
      requires Indexes(session, first)
      modifies this, raw
      ensures State() == W.Opened(old(State()), session, LastOfKind(session.history))
    {
      hide LastOfKind, Indexes, W.Forwards;
      OpenSession(session, first);
      hello, ingested, arrived, lost := session.history, [], [], [];
    }

    method Connect(attempt: Attempt) returns (ghost outcome: W.ConnectOutcome)
      requires !stopped && connection.None? && autoConnect
      modifies this, raw
      ensures outcome.Connected? ==> exists first :: Heard(outcome.hello, first)
      ensures State() == Attempted(old(State()), outcome)
    {
      hide W.Opened, W.Unreached, Indexes, HelloOf, LastOfKind;
      SetPhase(W.Connecting, false, false);
      ghost var w := State();
      outcome := W.HandshakeFailed;
      match attempt {
        case NoDevice =>
          outcome := W.Unavailable;
          LoseAttempt(W.Searching);
        case NoHandshake => LoseAttempt(W.Error);
        case Handshake(others, device, windows) =>
          var first := others + 2;
          var r, seeding, consumed := FinishHello(first, device, windows);
          if r.Err? {
            LoseAttempt(W.Error);
          } else {
            HeardIndexes(r.value, first);
            Open(r.value, first);
            outcome := W.Connected(r.value);
          }
      }
      AttemptIs(old(State()), w, State(), outcome);
    }

    method LoseAttempt(phase: W.Phase)
      modifies this`readErrors, this`status
      ensures State() == W.Unreached(old(State()), phase)
    {
      readErrors := 0;
      SetPhase(phase, false, false);
    }

    method ReadOnce(reading: Reading)
      requires !stopped && connection.Some?
      modifies this, raw
      ensures State() == W.ReadOne(old(State()), reading)
    {
      hide W.ReadOne, W.Ingest, W.Refusals;
      match reading
      case Got(kind, payload) =>
        var m := Msg(connection.value.nextSequence, kind, payload);
        connection := Some(connection.value.(nextSequence := connection.value.nextSequence + 1));
        arrived := arrived + [m];
        readErrors := 0;
        GotIs(old(State()), State(), kind, payload);
        IngestIncoming(m);
      case Nothing =>
        readErrors := 0;
        NothingIs(old(State()), State());
      case Failed =>
        readErrors := readErrors + 1;
        if readErrors >= 2 { LoseLink(); }
        FailedIs(old(State()), State());
    }

    method LoseLink()
      modifies this`connection, this`pending, this`answers, this`status, this`readErrors
      ensures connection == None && pending == [] && answers == old(answers) + W.Refusals(old(pending), W.LinkLost)
      ensures status == old(status).(phase := W.Searching, connected := false, synchronized := false) && readErrors == 0
    {
      hide *;
      SetPhase(W.Searching, false, false);
      FailPending(W.LinkLost);
      connection := None;
      readErrors := 0;
    }

    /** One command; the inputs are the steps of the state machine it amounts to. */
    method HandleCommand(command: Command) returns (ghost inputs: seq<W.Input>)
      requires !stopped
      modifies this, raw
      ensures W.Run(old(State()), inputs, State())
    {
      hide W.Run, W.Reconnected, W.Closed, W.Asking, W.Halted, W.BackedUp, W.Next, W.Enabled, Numbered;
      ghost var w := State();
      match command
      case Reconnect(force) =>
        HandleReconnect(force);
        inputs := [W.Reconnect(force)];
        RunsCommand(w, W.Reconnect(force));
      case Disconnect =>
        HandleDisconnect();
        inputs := [W.Disconnect];
        RunsCommand(w, W.Disconnect);
      case Request(reply, expected, requestId, timeout) =>
        HandleRequest(reply, expected, requestId, timeout);
        inputs := [W.Ask(reply, expected, requestId, timeout)];
        RunsCommand(w, W.Ask(reply, expected, requestId, timeout));
      case CreateBackup(timeout, device) =>
        var document, backup := HandleBackup(timeout, device);
        inputs := [W.CreateBackup(backup), W.Tick(now - old(now))];
        BackupThenTick(w, backup, now - old(now));
      case Stop =>
        HandleStop();
        inputs := [W.Stop];
        RunsCommand(w, W.Stop);
    }

    /** Handles the commands waiting, until none is left or one stops the worker. */
    method DrainCommands(commands: seq<(nat, Command)>) returns (ghost inputs: seq<W.Input>)
      requires !stopped
      modifies this, raw
      ensures W.Run(old(State()), inputs, State())
    {
      hide *;
      inputs := [];
      W.NoInputs(State());
      var i := 0;
      while i < |commands| && !stopped
        invariant W.Run(old(State()), inputs, State())
        decreases |commands| - i
      {
        ghost var before := State();
        ghost var more := PassTime(commands[i].0);
        W.RunsJoin(old(State()), inputs, before, more, State());
        inputs := inputs + more;
        before := State();
        more := HandleCommand(commands[i].1);
        W.RunsJoin(old(State()), inputs, before, more, State());
        inputs := inputs + more;
        i := i + 1;
      }
    }

    /** An attempt to connect, if none exists, one is wanted and the session clock says it is due. */
    method AttemptConnect(due: bool, attempt: Attempt) returns (ghost inputs: seq<W.Input>)
      requires !stopped
      modifies this, raw
      ensures !stopped && W.Run(old(State()), inputs, State())
    {
      hide W.Run, Attempted, Heard;
      inputs := [];
      W.NoInputs(State());
      if connection.None? && autoConnect && due {
        ghost var outcome := Connect(attempt);
        AttemptRuns(old(State()), outcome);
        inputs := [W.Connect(outcome)];
      }
    }

    /** One read, if there is a connection; `again` says that the turn ends with it, as it does
        when the read fails. */
    method ReadIfConnected(reading: Reading) returns (again: bool, ghost inputs: seq<W.Input>)
      requires !stopped
      modifies this, raw
      ensures !stopped && W.Run(old(State()), inputs, State())
      ensures again <==> old(connection).Some? && reading.Failed?
    {
      hide W.Run, W.ReadOne;
      inputs := [];
      W.NoInputs(State());
      again := connection.Some? && reading.Failed?;
      if connection.Some? {
        ReadOnce(reading);
        ReadRuns(old(State()), reading);
        inputs := [W.ReadMessage(reading)];
      }
    }

    method Expire() returns (ghost inputs: seq<W.Input>)
      requires !stopped
      modifies this`pending, this`answers
      ensures W.Run(old(State()), inputs, State())
    {
      hide W.Run, W.Expired;
      ExpirePending();
      ExpireRuns(old(State()));
      inputs := [W.Expire];
    }

    method PassTime(elapsed: nat) returns (ghost inputs: seq<W.Input>)
      requires !stopped
      modifies this`now
      ensures W.Run(old(State()), inputs, State())
    {
      hide W.Run;
      now := now + elapsed;
      TickRuns(old(State()), elapsed);
      inputs := [W.Tick(elapsed)];
    }

    /** One turn: the commands, an attempt to connect if one is due, one read, and then the expiry,
        unless the read failed. */
    method TakeTurn(turn: Turn) returns (ghost inputs: seq<W.Input>)
      requires !stopped
      modifies this, raw
      ensures W.Run(old(State()), inputs, State())
    {
      hide *;
      inputs := DrainCommands(turn.commands);
      if stopped { return; }
      ghost var drained := State();
      ghost var more := ConnectAndRead(turn);
      W.RunsJoin(old(State()), inputs, drained, more, State());
      inputs := inputs + more;
    }

    method ConnectAndRead(turn: Turn) returns (ghost inputs: seq<W.Input>)
      requires !stopped
      modifies this, raw
      ensures W.Run(old(State()), inputs, State())
    {
      hide *;
      inputs := PassTime(turn.before);
      ghost var before := State();
      ghost var more := AttemptConnect(turn.due, turn.attempt);
      W.RunsJoin(old(State()), inputs, before, more, State());
      inputs := inputs + more;
      before := State();
      more := PassTime(turn.connecting);
      W.RunsJoin(old(State()), inputs, before, more, State());
      inputs := inputs + more;
      before := State();
      var again;
      again, more := ReadIfConnected(turn.reading);
      W.RunsJoin(old(State()), inputs, before, more, State());
      inputs := inputs + more;
      before := State();
      more := PassTime(turn.waiting);
      W.RunsJoin(old(State()), inputs, before, more, State());
      inputs := inputs + more;
      if !again {
        before := State();
        more := Expire();
        W.RunsJoin(old(State()), inputs, before, more, State());
        inputs := inputs + more;
      }
      before := State();
      more := PassTime(turn.after);
      W.RunsJoin(old(State()), inputs, before, more, State());
      inputs := inputs + more;
    }

    /** The loop: each turn handles the commands waiting, attempts to connect if that is due, reads
        once, and expires requests unless the read failed. */
    method RunLoop(turns: seq<Turn>) returns (ghost inputs: seq<W.Input>)
      requires !stopped
      modifies this, raw
      ensures W.Run(old(State()), inputs, State())
      ensures W.Reachable(old(State())) ==> W.Reachable(State())
    {
      hide *;
      inputs := [];
      W.NoInputs(State());
      var i := 0;
      while i < |turns| && !stopped
        invariant W.Run(old(State()), inputs, State())
        decreases |turns| - i
      {
        ghost var before := State();
        ghost var more := TakeTurn(turns[i]);
        W.RunsJoin(old(State()), inputs, before, more, State());
        inputs := inputs + more;
        i := i + 1;
      }
      if W.Reachable(old(State())) { W.ReachesOn(old(State()), inputs, State()); }
    }
  }

  lemma AttemptRuns(w: W.Worker, outcome: W.ConnectOutcome)
    requires !w.stopped && w.connection.None? && w.autoConnect
    requires outcome.Connected? ==> exists first :: Heard(outcome.hello, first)
    ensures W.Run(w, [W.Connect(outcome)], Attempted(w, outcome)) && !Attempted(w, outcome).stopped
  {
    hide W.Run, Heard, LastOfKind, W.Forwards;
    W.RunOne(w, W.Connect(outcome));
  }

  lemma ReadEnabled(w: W.Worker, reading: Reading)
    requires !w.stopped && w.connection.Some?
    ensures W.Enabled(w, W.ReadMessage(reading))
    ensures W.Next(w, W.ReadMessage(reading)) == W.ReadOne(w, reading)
  {
    hide W.ReadOne;
  }

  lemma ReadRuns(w: W.Worker, reading: Reading)
    requires !w.stopped && w.connection.Some?
    ensures W.Run(w, [W.ReadMessage(reading)], W.ReadOne(w, reading)) && !W.ReadOne(w, reading).stopped
  {
    hide *;
    W.ReadStopped(w, reading);
    ReadEnabled(w, reading);
    W.RunOne(w, W.ReadMessage(reading));
  }

  lemma ExpireRuns(w: W.Worker)
    requires !w.stopped
    ensures W.Run(w, [W.Expire], W.Expired(w)) && !W.Expired(w).stopped
  {
    assert !W.Expired(w).stopped;
    hide W.Reconnected, W.Closed, W.Asking, W.Halted, W.BackedUp, W.ReadOne, W.Opened, W.Unreached, W.Expired, W.Run,
        Heard, Numbered, LastOfKind;
    W.RunOne(w, W.Expire);
  }

  lemma TickEnabled(w: W.Worker, elapsed: nat)
    requires !w.stopped
    ensures W.Enabled(w, W.Tick(elapsed)) && W.Next(w, W.Tick(elapsed)) == w.(now := w.now + elapsed)
  {
  }

  lemma TickRuns(w: W.Worker, elapsed: nat)
    requires !w.stopped
    ensures W.Run(w, [W.Tick(elapsed)], w.(now := w.now + elapsed))
  {
    hide *;
    TickEnabled(w, elapsed);
    W.RunOne(w, W.Tick(elapsed));
  }

  lemma RunsCommand(w: W.Worker, input: W.Input)
    requires !w.stopped && (input.Reconnect? || input.Disconnect? || input.Ask? || input.Stop?)
    ensures input.Reconnect? ==> W.Run(w, [input], W.Reconnected(w, input.force))
    ensures input.Disconnect? ==> W.Run(w, [input], W.Closed(w))
    ensures input.Ask? ==>
              var r := W.Request(input.reply, input.expected, input.requestId, w.now + input.timeout);
              W.Run(w, [input], W.Asking(w, r))
    ensures input.Stop? ==> W.Run(w, [input], W.Halted(w))
  {
    hide W.Reconnected, W.Closed, W.Asking, W.Halted, W.BackedUp, W.ReadOne, W.Opened, W.Unreached, W.Expired, W.Run,
        Heard, Numbered, LastOfKind;
    W.RunOne(w, input);
  }

  lemma SettledKeepsSynchronized(w: W.Worker, backup: W.BackupOutcome)
    requires w.connection.Some?
    ensures W.BackupSettled(w, backup).connection.Some?
    ensures W.BackupSettled(w, backup).connection.value.synchronized == w.connection.value.synchronized
  {
    hide W.IngestAll, W.SideMessages;
    IngestAllKeepsSynchronized(w, W.SideMessages(backup));
  }

  lemma {:induction false} IngestAllKeepsSynchronized(w: W.Worker, messages: seq<Msg>)
    requires w.connection.Some?
    ensures W.IngestAll(w, messages).connection.value.synchronized == w.connection.value.synchronized
  {
    if messages != [] {
      IngestAllKeepsSynchronized(w, messages[..|messages| - 1]);
      hide W.FirstCompatible, W.Updated, LastN;
    }
  }

  /** Sorting the index of a new session by sequence number lists the messages of its history
      that are the last of their kind. */
  method SortedIndex(hello: Hello, first: nat) returns (initial: seq<Msg>)
    requires Indexes(hello, first)
    ensures initial == LastOfKind(hello.history)
  {
    var h := hello.history;
    assert hello.latest == LatestOf(h) && Increasing(h);
    hide LastOfKind, LatestOf, Indexes;
    forall a, b | a in hello.latest.Values && b in hello.latest.Values && a.sequence == b.sequence ensures a == b {
      IndexIsDistinct(h, a, b);
    }
    initial := SortedValues(hello.latest);
    LastOfKindListsIndex(h);
    assert forall m :: m in initial <==> m in LastOfKind(h);
    IncreasingUnique(initial, LastOfKind(h));
  }

  lemma BackupThenTick(w: W.Worker, backup: W.BackupOutcome, elapsed: nat)
    requires !w.stopped && (w.connection.Some? ==> Numbered(backup.arrivals, w.connection.value.nextSequence))
    ensures W.Run(w, [W.CreateBackup(backup), W.Tick(elapsed)], W.BackedUp(w, backup).(now := w.now + elapsed))
  {
    W.BackedUpStopped(w, backup);
    hide W.BackedUp, Numbered;
    var x := W.Next(w, W.CreateBackup(backup));
    W.RunOne(x, W.Tick(elapsed));
    assert [W.CreateBackup(backup), W.Tick(elapsed)][1..] == [W.Tick(elapsed)];
  }
}
