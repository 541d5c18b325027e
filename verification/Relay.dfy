/** The relay hub: remote calls to devices, as interleaved steps of callers, device links and
    timers (services/qc-relay/src/relay.rs). */
module Relay {
  import opened Prelude
  import opened Credentials

  datatype CallId = CallId(uuid: nat)
  datatype SessionId = SessionId(uuid: nat)

  datatype Json = Null | Opaque(text: string)

  datatype DeviceError = DeviceError(code: string, message: string)

  datatype RelayError = Forbidden | DeviceOffline | AmbiguousDevice | Disconnected | Timeout | Device(message: string)

  type Outcome = Result<Json, RelayError>

  datatype Frame =
    | InvokeFrame(id: CallId)
    | ResultFrame(id: CallId, ok: bool, result: Option<Json>, error: Option<DeviceError>)
    | ReadyFrame(usbConnected: bool)

  const OUTBOUND_CAPACITY: nat := 32
  const BACKUP_TIMEOUT_MS: nat := 195000

  /** The remote procedures the hub treats specially, and all others. */
  datatype Rpc = Reconnect | ResetSession | CreateBackup | Other(name: string)

  /** What a result frame says to the call it names. */
  function FrameOutcome(frame: Frame): Outcome
    requires frame.ResultFrame?
  {
    if frame.ok then Ok(if frame.result.Some? then frame.result.value else Null)
    else if frame.error.Some? then Err(Device(frame.error.value.code + ": " + frame.error.value.message))
    else Err(Device("unspecified device error"))
  }

  // ---------------------------------------------------------------------- state

  /** One device link's session. `attached` until its link begins to disconnect, `open` until
      the link's end of the outbound queue is dropped, `retired` once it was replaced or began
      to disconnect. */
  datatype Session = Session(
    device: DeviceId,
    principal: PrincipalId,
    ready: bool,
    attached: bool,
    open: bool,
    retired: bool,
    queued: nat,
    pending: set<CallId>
  )

  /** Where a caller stands in `dispatch_policy`. */
  datatype Phase =
    | Looked            // holds a session, has not checked it
    | Cleared           // may call it
    | Inserted          // its id is in the pending table
    | Waiting           // its frame is queued, it waits for its result
    | Unsent            // the queue was closed, its id is still to be removed
    | Expired           // its timer fired, its id is still to be removed
    | Done(outcome: Outcome)

  /** A call; `slot` is the one-shot channel its pending entry feeds. */
  datatype Call = Call(
    principal: PrincipalId,
    rpc: Rpc,
    phase: Phase,
    session: Option<SessionId>,
    slot: Option<Outcome>,
    deadline: nat
  )

  /** A result frame a session's link handed to the hub. */
  datatype Accepted = Accepted(session: SessionId, frame: Frame)

  datatype Hub = Hub(
    timeout: nat,
    now: nat,
    connections: map<DeviceId, SessionId>,
    sessions: map<SessionId, Session>,
    calls: map<CallId, Call>,
    accepted: set<Accepted>  // history
  )

  datatype Step =
    | Connect(device: DeviceId, principal: PrincipalId, session: SessionId)
    | FailAll(session: SessionId)
    | Lookup(id: CallId, principal: PrincipalId, device: DeviceId, rpc: Rpc)
    | Check(id: CallId)
    | Insert(id: CallId)
    | Send(id: CallId)
    | Forget(id: CallId)
    | Take(id: CallId)
    | Fire(id: CallId)
    | Abandon(id: CallId)
    | Accept(session: SessionId, frame: Frame)
    | Drain(session: SessionId)
    | Disconnect(session: SessionId)
    | Close(session: SessionId)
    | Tick(elapsed: nat)

  // ---------------------------------------------------------------------- steps

  predicate InPhase(h: Hub, id: CallId, p: Phase) {
    id in h.calls && h.calls[id].phase == p && h.calls[id].session.Some? && h.calls[id].session.value in h.sessions
  }

  predicate Enabled(h: Hub, step: Step) {
    match step
    case Connect(_, _, s) => s !in h.sessions
    case FailAll(s) => s in h.sessions && h.sessions[s].retired
    case Lookup(id, _, device, _) => id !in h.calls && (device in h.connections ==> h.connections[device] in h.sessions)
    case Check(id) => InPhase(h, id, Looked)
    case Insert(id) => InPhase(h, id, Cleared)
    case Send(id) =>
      InPhase(h, id, Inserted)
      && (var s := h.sessions[h.calls[id].session.value]; !s.open || s.queued < OUTBOUND_CAPACITY)
    case Forget(id) => InPhase(h, id, Unsent)
    case Take(id) => InPhase(h, id, Waiting) && h.calls[id].slot.Some?
    case Fire(id) => InPhase(h, id, Waiting) && h.calls[id].slot.None? && h.calls[id].deadline <= h.now
    case Abandon(id) => InPhase(h, id, Expired)
    case Accept(s, _) => s in h.sessions && h.sessions[s].attached
    case Drain(s) => s in h.sessions && h.sessions[s].queued > 0
    case Disconnect(s) => s in h.sessions && h.sessions[s].attached
    case Close(s) => s in h.sessions && !h.sessions[s].attached
    case Tick(_) => true
  }

  function SetCall(h: Hub, id: CallId, c: Call): Hub {
    h.(calls := h.calls[id := c])
  }

  function SetSession(h: Hub, s: SessionId, x: Session): Hub {
    h.(sessions := h.sessions[s := x])
  }

  function Unlisted(h: Hub, s: SessionId, id: CallId): Hub
    requires s in h.sessions
  {
    SetSession(h, s, h.sessions[s].(pending := h.sessions[s].pending - {id}))
  }

  /** The one-shot channel keeps the first value sent to it. */
  function Filled(c: Call, o: Outcome): Call {
    if c.slot.None? then c.(slot := Some(o)) else c
  }

  function FilledAll(calls: map<CallId, Call>, ids: set<CallId>, o: Outcome): (r: map<CallId, Call>)
    ensures r.Keys == calls.Keys
  {
    map id | id in calls :: if id in ids then Filled(calls[id], o) else calls[id]
  }

  function RequestTimeout(timeout: nat, rpc: Rpc): nat {
    if rpc == CreateBackup then Max(timeout, BACKUP_TIMEOUT_MS) else timeout
  }

  /** What the checks on a looked-up session leave of a call. */
  function Checked(c: Call, s: Session): Phase {
    if s.principal != c.principal then Done(Err(Forbidden))
    else if !s.ready && c.rpc != Reconnect && c.rpc != ResetSession then Done(Err(DeviceOffline))
    else Cleared
  }

  function Retired(h: Hub, device: DeviceId): map<SessionId, Session> {
    if device in h.connections && h.connections[device] in h.sessions
    then h.sessions[h.connections[device] := h.sessions[h.connections[device]].(retired := true)]
    else h.sessions
  }

  function Next(h: Hub, step: Step): Hub
    requires Enabled(h, step)
  {
    match step
    case Connect(device, principal, s) =>
      h.(connections := h.connections[device := s],
         sessions := Retired(h, device)[s := Session(device, principal, false, true, true, false, 0, {})])
    case FailAll(s) =>
      SetSession(h.(calls := FilledAll(h.calls, h.sessions[s].pending, Err(Disconnected))),
                 s, h.sessions[s].(pending := {}))
    case Lookup(id, principal, device, rpc) =>
      SetCall(h, id,
              if device in h.connections then Call(principal, rpc, Looked, Some(h.connections[device]), None, 0)
              else Call(principal, rpc, Done(Err(DeviceOffline)), None, None, 0))
    case Check(id) =>
      var c := h.calls[id];
      SetCall(h, id, c.(phase := Checked(c, h.sessions[c.session.value])))
    case Insert(id) =>
      var c := h.calls[id];
      var s := h.sessions[c.session.value];
      SetCall(SetSession(h, c.session.value, s.(pending := s.pending + {id})), id, c.(phase := Inserted))
    case Send(id) =>
      var c := h.calls[id];
      var s := h.sessions[c.session.value];
      if s.open then
        SetCall(SetSession(h, c.session.value, s.(queued := s.queued + 1)), id,
                c.(phase := Waiting, deadline := h.now + RequestTimeout(h.timeout, c.rpc)))
      else SetCall(h, id, c.(phase := Unsent))
    case Forget(id) =>
      var c := h.calls[id];
      SetCall(Unlisted(h, c.session.value, id), id, c.(phase := Done(Err(Disconnected))))
    case Take(id) =>
      var c := h.calls[id];
      SetCall(h, id, c.(phase := Done(c.slot.value)))
    case Fire(id) => SetCall(h, id, h.calls[id].(phase := Expired))
    case Abandon(id) =>
      var c := h.calls[id];
      SetCall(Unlisted(h, c.session.value, id), id, c.(phase := Done(Err(Timeout))))
    case Accept(s, ReadyFrame(usb)) => SetSession(h, s, h.sessions[s].(ready := usb))
    case Accept(s, InvokeFrame(_)) => h
    case Accept(s, ResultFrame(id, ok, result, error)) =>
      var o := FrameOutcome(ResultFrame(id, ok, result, error));
      var logged := h.(accepted := h.accepted + {Accepted(s, ResultFrame(id, ok, result, error))});
      if id in h.sessions[s].pending && id in h.calls then
        SetCall(Unlisted(logged, s, id), id, Filled(h.calls[id], o))
      else Unlisted(logged, s, id)
    case Drain(s) => SetSession(h, s, h.sessions[s].(queued := h.sessions[s].queued - 1))
    case Disconnect(s) =>
      var x := h.sessions[s];
      SetSession(if x.device in h.connections && h.connections[x.device] == s
                 then h.(connections := h.connections - {x.device}) else h,
                 s, x.(attached := false, retired := true))
    case Close(s) => SetSession(h, s, h.sessions[s].(open := false))
    case Tick(elapsed) => h.(now := h.now + elapsed)
  }

  function Start(timeout: nat): Hub {
    Hub(timeout, 0, map[], map[], map[], {})
  }

  // ------------------------------------------------------------------ invariant

  /** A value may sit in a call's slot only if its own session's link accepted it for that very
      call, or if that session was retired and the value is the disconnect error. */
  ghost predicate Sent(h: Hub, id: CallId, s: SessionId, o: Outcome) {
    || (exists f :: Accepted(s, f) in h.accepted && f.ResultFrame? && f.id == id && FrameOutcome(f) == o)
    || (o == Err(Disconnected) && s in h.sessions && h.sessions[s].retired)
  }

  predicate Listed(h: Hub, id: CallId, s: SessionId) {
    s in h.sessions && id in h.sessions[s].pending
  }

  predicate MayBeListed(p: Phase) {
    p.Inserted? || p.Waiting? || p.Unsent? || p.Expired?
  }

  /** Why a finished call ended the way it did. */
  ghost predicate Justified(h: Hub, id: CallId, c: Call, o: Outcome) {
    match c.session
    case None => o == Err(DeviceOffline)
    case Some(s) =>
      || (c.slot.None? && o == Err(DeviceOffline) && c.rpc != Reconnect && c.rpc != ResetSession)
      || (c.slot.None? && o == Err(Forbidden) && s in h.sessions && h.sessions[s].principal != c.principal)
      || (c.slot == Some(o) && Sent(h, id, s, o))
      || (o == Err(Disconnected) && s in h.sessions && !h.sessions[s].open)
      || (o == Err(Timeout) && c.deadline <= h.now)
  }

  ghost predicate CallOk(h: Hub, id: CallId)
    requires id in h.calls
  {
    var c := h.calls[id];
    && (c.session.None? ==> c.phase.Done?)
    && (c.session.Some? ==> c.session.value in h.sessions)
    && (c.slot.Some? ==> c.session.Some? && Sent(h, id, c.session.value, c.slot.value))
    && match c.phase
       case Looked => c.slot.None?
       case Cleared => c.slot.None? && h.sessions[c.session.value].principal == c.principal
       case Inserted => c.slot.None? ==> Listed(h, id, c.session.value)
       case Waiting => c.slot.None? ==> Listed(h, id, c.session.value)
       case Unsent => !h.sessions[c.session.value].open
       case Expired => c.deadline <= h.now
       case Done(o) => Justified(h, id, c, o)
  }

  ghost predicate PendingOk(h: Hub, id: CallId, s: SessionId) {
    Listed(h, id, s) ==>
      id in h.calls && h.calls[id].session == Some(s) && h.calls[id].slot.None? && MayBeListed(h.calls[id].phase)
  }

  ghost predicate SessionOk(h: Hub, s: SessionId)
    requires s in h.sessions
  {
    (!h.sessions[s].attached ==> h.sessions[s].retired) && (!h.sessions[s].open ==> !h.sessions[s].attached)
  }

  ghost predicate ConnectionOk(h: Hub, d: DeviceId)
    requires d in h.connections
  {
    var s := h.connections[d];
    s in h.sessions && h.sessions[s].device == d && h.sessions[s].attached && !h.sessions[s].retired
  }

  ghost predicate Inv(h: Hub) {
    && (forall d :: d in h.connections ==> ConnectionOk(h, d))
    && (forall s :: s in h.sessions ==> SessionOk(h, s))
    && (forall id, s :: Listed(h, id, s) ==> PendingOk(h, id, s))
    && (forall id :: id in h.calls ==> CallOk(h, id))
  }

  // ------------------------------------------------------- every step keeps it

  /** What no step takes back. */
  ghost predicate Grows(h: Hub, h': Hub) {
    && h.now <= h'.now
    && h.accepted <= h'.accepted
    && (forall s :: s in h.sessions ==> SessionGrows(h, h', s))
  }

  ghost predicate SessionGrows(h: Hub, h': Hub, s: SessionId)
    requires s in h.sessions
  {
    && s in h'.sessions
    && h'.sessions[s].device == h.sessions[s].device && h'.sessions[s].principal == h.sessions[s].principal
    && (h.sessions[s].retired ==> h'.sessions[s].retired)
    && (h'.sessions[s].open ==> h.sessions[s].open)
  }

  /** The call a caller's own step moves. */
  function Mover(step: Step): Option<CallId> {
    match step
    case Lookup(id, _, _, _) => Some(id)
    case Check(id) => Some(id)
    case Insert(id) => Some(id)
    case Send(id) => Some(id)
    case Forget(id) => Some(id)
    case Take(id) => Some(id)
    case Fire(id) => Some(id)
    case Abandon(id) => Some(id)
    case _ => None
  }

  /** What a step does to the link of a session: only its own closing closes it, only its own
      disconnect detaches it, and only that or a newer connection of its device retires it; frames
      come to its queue and leave it one at a time; it is ready exactly if its link last said so. */
  ghost predicate LinkAfter(h: Hub, h': Hub, step: Step, s: SessionId)
    requires s in h.sessions && Enabled(h, step)
  {
    && s in h'.sessions
    && var x, x' := h.sessions[s], h'.sessions[s];
       && x'.device == x.device && x'.principal == x.principal
       && x'.open == (x.open && step != Close(s))
       && x'.attached == (x.attached && step != Disconnect(s))
       && x'.retired == (x.retired || step == Disconnect(s)
                         || (step.Connect? && step.device in h.connections && h.connections[step.device] == s))
       && x'.queued == (if step == Drain(s) then x.queued - 1
                        else if step.Send? && x.open && h.calls[step.id].session == Some(s) then x.queued + 1
                        else x.queued)
       && x'.ready == (if step.Accept? && step.session == s && step.frame.ReadyFrame? then step.frame.usbConnected
                       else x.ready)
  }

  lemma MoverStep(h: Hub, step: Step, s: SessionId)
    requires Enabled(h, step) && s in h.sessions && Mover(step).Some?
    ensures LinkAfter(h, Next(h, step), step, s)
  {
    hide Checked;
  }

  lemma AcceptStep(h: Hub, step: Step, s: SessionId)
    requires Enabled(h, step) && s in h.sessions && step.Accept?
    ensures LinkAfter(h, Next(h, step), step, s)
  {
    hide Filled, FrameOutcome;
  }

  lemma SessionStep(h: Hub, step: Step, s: SessionId)
    requires Enabled(h, step) && s in h.sessions
    ensures LinkAfter(h, Next(h, step), step, s)
  {
    if Mover(step).Some? {
      MoverStep(h, step, s);
    } else if step.Accept? {
      AcceptStep(h, step, s);
    } else {
      hide FilledAll;
    }
  }

  lemma OnlyConnectsOpen(h: Hub, step: Step, s: SessionId)
    requires Enabled(h, step) && s !in h.sessions
    requires s in Next(h, step).sessions || (step.Connect? && step.session == s)
    ensures step.Connect? && step.session == s && s in Next(h, step).sessions
    ensures Next(h, step).sessions[s] == Session(step.device, step.principal, false, true, true, false, 0, {})
  {
    hide FilledAll, Filled, FrameOutcome, Checked;
  }

  lemma ConnectionStep(h: Hub, step: Step, d: DeviceId)
    requires Enabled(h, step) && d in Next(h, step).connections
    ensures step.Connect? && step.device == d ==> Next(h, step).connections[d] == step.session
    ensures !(step.Connect? && step.device == d) ==>
              && d in h.connections && Next(h, step).connections[d] == h.connections[d]
              && (step.Disconnect? && h.connections[d] == step.session ==> h.sessions[step.session].device != d)
  {
    hide FilledAll, Filled, FrameOutcome, Checked;
  }

  lemma StepGrows(h: Hub, step: Step)
    requires Enabled(h, step)
    ensures Grows(h, Next(h, step))
  {
    var h' := Next(h, step);
    assert h.now <= h'.now && h.accepted <= h'.accepted;
    hide Next;
    forall s | s in h.sessions ensures SessionGrows(h, h', s) { SessionStep(h, step, s); }
  }

  lemma CallFrame(h: Hub, h': Hub, id: CallId)
    requires Grows(h, h') && id in h.calls && id in h'.calls && h.calls[id] == h'.calls[id] && CallOk(h, id)
    requires forall s :: Listed(h, id, s) ==> Listed(h', id, s)
    ensures CallOk(h', id)
  {
    var c := h.calls[id];
    if c.session.Some? {
      assert SessionGrows(h, h', c.session.value);
    }
  }

  lemma MovedCallIsOk(h: Hub, step: Step, id: CallId)
    requires Inv(h) && Enabled(h, step) && Mover(step) == Some(id)
    ensures id in Next(h, step).calls && CallOk(Next(h, step), id)
  {
    if id in h.calls { assert CallOk(h, id); }
    StepGrows(h, step);
    if step.Lookup? && step.device in h.connections { assert ConnectionOk(h, step.device); }
  }

  /** A call whose slot a step fills from the pending table. */
  lemma FilledCallIsOk(h: Hub, h': Hub, id: CallId, s: SessionId, o: Outcome)
    requires Inv(h) && Grows(h, h') && Listed(h, id, s)
    requires id in h'.calls && h'.calls[id] == Filled(h.calls[id], o) && Sent(h', id, s, o)
    ensures CallOk(h', id)
  {
    assert PendingOk(h, id, s);
    assert CallOk(h, id);
    assert SessionGrows(h, h', s);
  }

  lemma StepKeepsCall(h: Hub, step: Step, id: CallId)
    requires Inv(h) && Enabled(h, step) && id in Next(h, step).calls
    ensures CallOk(Next(h, step), id)
  {
    var h' := Next(h, step);
    StepGrows(h, step);
    if Mover(step) == Some(id) {
      MovedCallIsOk(h, step, id);
    } else {
      OtherCallFacts(h, step, id);
      hide Next, CallOk, Grows, Inv, Sent;
      if step.FailAll? && Listed(h, id, step.session) {
        FilledCallIsOk(h, h', id, step.session, Err(Disconnected));
      } else if step.Accept? && step.frame.ResultFrame? && step.frame.id == id && Listed(h, id, step.session) {
        FilledCallIsOk(h, h', id, step.session, FrameOutcome(step.frame));
      } else {
        CallFrame(h, h', id);
      }
    }
  }

  lemma MoverLeavesOthers(h: Hub, step: Step, id: CallId)
    requires Enabled(h, step) && Mover(step).Some? && Mover(step) != Some(id)
    ensures id in Next(h, step).calls <==> id in h.calls
    ensures id in h.calls ==> Next(h, step).calls[id] == h.calls[id]
    ensures forall s :: Listed(Next(h, step), id, s) <==> Listed(h, id, s)
  {
    hide Checked;
  }

  lemma LinkStepFacts(h: Hub, step: Step, id: CallId)
    requires Enabled(h, step) && Mover(step).None? && !step.Accept? && !step.FailAll?
    ensures Next(h, step).calls == h.calls
    ensures forall s :: Listed(h, id, s) ==> Listed(Next(h, step), id, s)
  {
  }

  lemma AcceptFacts(h: Hub, step: Step, id: CallId)
    requires Enabled(h, step) && step.Accept?
    ensures id in Next(h, step).calls <==> id in h.calls
    ensures var h' := Next(h, step);
            id in h.calls ==>
            if step.frame.ResultFrame? && step.frame.id == id && Listed(h, id, step.session) then
              var o := FrameOutcome(step.frame);
              h'.calls[id] == Filled(h.calls[id], o) && Sent(h', id, step.session, o)
            else h'.calls[id] == h.calls[id] && forall s :: Listed(h, id, s) ==> Listed(h', id, s)
  {
    hide Filled, FrameOutcome;
  }

  lemma FailAllFacts(h: Hub, step: Step, id: CallId)
    requires Enabled(h, step) && step.FailAll?
    ensures id in Next(h, step).calls <==> id in h.calls
    ensures var h' := Next(h, step);
            id in h.calls ==>
            if Listed(h, id, step.session) then
              h'.calls[id] == Filled(h.calls[id], Err(Disconnected)) && Sent(h', id, step.session, Err(Disconnected))
            else h'.calls[id] == h.calls[id] && forall s :: Listed(h, id, s) ==> Listed(h', id, s)
  {
    hide Filled;
  }

  lemma OtherCallFacts(h: Hub, step: Step, id: CallId)
    requires Inv(h) && Enabled(h, step) && id in Next(h, step).calls && Mover(step) != Some(id)
    ensures id in h.calls && CallOk(h, id)
    ensures var h' := Next(h, step);
            if step.FailAll? && Listed(h, id, step.session) then
              h'.calls[id] == Filled(h.calls[id], Err(Disconnected)) && Sent(h', id, step.session, Err(Disconnected))
            else if step.Accept? && step.frame.ResultFrame? && step.frame.id == id && Listed(h, id, step.session) then
              var o := FrameOutcome(step.frame);
              h'.calls[id] == Filled(h.calls[id], o) && Sent(h', id, step.session, o)
            else h'.calls[id] == h.calls[id] && forall s :: Listed(h, id, s) ==> Listed(h', id, s)
  {
    hide Next, Filled, FrameOutcome, Listed, Sent, CallOk;
    if Mover(step).Some? { MoverLeavesOthers(h, step, id); }
    else if step.FailAll? { FailAllFacts(h, step, id); }
    else if step.Accept? { AcceptFacts(h, step, id); }
    else { LinkStepFacts(h, step, id); }
  }

  /** A table entry after a step: it was there before, or its caller has just inserted it. */
  lemma ListedAfterStep(h: Hub, step: Step, id: CallId, s: SessionId)
    requires Enabled(h, step) && Listed(Next(h, step), id, s)
    ensures Listed(h, id, s) || (step == Insert(id) && h.calls[id].session == Some(s))
    ensures step != FailAll(s)
    ensures (step.Forget? || step.Abandon?) && step.id == id ==> h.calls[id].session != Some(s)
    ensures step.Accept? && step.frame.ResultFrame? && step.frame.id == id ==> step.session != s
  {
    hide FilledAll, Filled, FrameOutcome, Checked;
  }

  lemma StepKeepsPending(h: Hub, step: Step, id: CallId, s: SessionId)
    requires Inv(h) && Enabled(h, step) && Listed(Next(h, step), id, s)
    ensures PendingOk(Next(h, step), id, s)
  {
    ListedAfterStep(h, step, id, s);
    assert Listed(h, id, s) ==> PendingOk(h, id, s);
    if step == Insert(id) {
      assert CallOk(h, id);
    } else if Mover(step) != Some(id) {
      KnownCallStays(h, step, id);
      OtherCallFacts(h, step, id);
    } else {
      MoverStaysListed(h, step, id, s);
    }
  }

  lemma KnownCallStays(h: Hub, step: Step, id: CallId)
    requires Enabled(h, step) && id in h.calls
    ensures id in Next(h, step).calls
  {
    hide Filled, FrameOutcome, Checked;
  }

  lemma MoverStaysListed(h: Hub, step: Step, id: CallId, s: SessionId)
    requires Enabled(h, step) && Mover(step) == Some(id) && step != Insert(id)
    requires id in h.calls && h.calls[id].session == Some(s) && h.calls[id].slot.None? && MayBeListed(h.calls[id].phase)
    requires !((step.Forget? || step.Abandon?) && step.id == id)
    ensures var c := Next(h, step).calls[id];
            c.session == Some(s) && c.slot.None? && MayBeListed(c.phase)
  {
  }

  lemma StepKeepsSession(h: Hub, step: Step, s: SessionId)
    requires Inv(h) && Enabled(h, step) && s in Next(h, step).sessions
    ensures SessionOk(Next(h, step), s)
  {
    if s in h.sessions { assert SessionOk(h, s); }
    hide Inv, Next;
    if s in h.sessions { SessionStep(h, step, s); } else { OnlyConnectsOpen(h, step, s); }
  }

  lemma StepKeepsConnection(h: Hub, step: Step, d: DeviceId)
    requires Inv(h) && Enabled(h, step) && d in Next(h, step).connections
    ensures ConnectionOk(Next(h, step), d)
  {
    if d in h.connections { assert ConnectionOk(h, d); }
    ConnectionStep(h, step, d);
    if step.Connect? && step.device == d {
      hide Inv, Next;
      OnlyConnectsOpen(h, step, step.session);
    } else {
      if step.Connect? && step.device in h.connections { assert ConnectionOk(h, step.device); }
      hide Inv, Next, Enabled;
      SessionStep(h, step, h.connections[d]);
    }
  }

  lemma StepKeepsInv(h: Hub, step: Step)
    requires Inv(h) && Enabled(h, step)
    ensures Inv(Next(h, step))
  {
    var h' := Next(h, step);
    assert Inv(h') by {
      hide Next, CallOk, PendingOk, SessionOk, ConnectionOk;
      forall d | d in h'.connections ensures ConnectionOk(h', d) { StepKeepsConnection(h, step, d); }
      forall s | s in h'.sessions ensures SessionOk(h', s) { StepKeepsSession(h, step, s); }
      forall id, s | Listed(h', id, s) ensures PendingOk(h', id, s) { StepKeepsPending(h, step, id, s); }
      forall id | id in h'.calls ensures CallOk(h', id) { StepKeepsCall(h, step, id); }
    }
  }

  /** `end` is reached from `h` by an interleaving of enabled steps. */
  ghost predicate Run(h: Hub, steps: seq<Step>, end: Hub)
    decreases |steps|
  {
    if steps == [] then end == h
    else Enabled(h, steps[0]) && Run(Next(h, steps[0]), steps[1..], end)
  }

  ghost predicate Reachable(h: Hub) {
    exists timeout, steps :: Run(Start(timeout), steps, h)
  }

  lemma {:induction false} RunKeepsInv(h: Hub, steps: seq<Step>, end: Hub)
    requires Inv(h) && Run(h, steps, end)
    ensures Inv(end)
    decreases |steps|
  {
    if steps != [] {
      hide Inv, Next, Enabled;
      StepKeepsInv(h, steps[0]);
      RunKeepsInv(Next(h, steps[0]), steps[1..], end);
    }
  }

  lemma ReachableInv(h: Hub)
    requires Reachable(h)
    ensures Inv(h)
  {
    var timeout, steps :| Run(Start(timeout), steps, h);
    assert Inv(Start(timeout));
    RunKeepsInv(Start(timeout), steps, h);
  }

  // ------------------------------------------------------------------- theorems

  /** The outcome is what the frame says to the call it names: its result, null for none, if it
      is a success, and the code and message of its error, or a fixed text for none, if not. */
  predicate Says(frame: Frame, id: CallId, o: Outcome) {
    && frame.ResultFrame? && frame.id == id
    && (frame.ok && frame.result.Some? ==> o == Ok(frame.result.value))
    && (frame.ok && frame.result.None? ==> o == Ok(Null))
    && (!frame.ok && frame.error.Some? ==>
          o == Err(Device(frame.error.value.code + ": " + frame.error.value.message)))
    && (!frame.ok && frame.error.None? ==> o == Err(Device("unspecified device error")))
  }

  /** A finished call's outcome is what a result frame says that its own session's link accepted
      under its own id, a timeout past its deadline, a disconnect of a retired session, or a refusal made
      before anything was inserted. */
  lemma OutcomesAreJustified(h: Hub, id: CallId)
    requires Reachable(h) && id in h.calls && h.calls[id].phase.Done?
    ensures var c := h.calls[id];
            var o := c.phase.outcome;
            match c.session
            case None => o == Err(DeviceOffline)
            case Some(s) =>
              || (exists f :: Accepted(s, f) in h.accepted && Says(f, id, o))
              || (o == Err(Timeout) && c.deadline <= h.now)
              || (o == Err(Disconnected) && s in h.sessions && h.sessions[s].retired)
              || (o == Err(DeviceOffline) && c.slot.None? && c.rpc != Reconnect && c.rpc != ResetSession)
              || (o == Err(Forbidden) && c.slot.None? && s in h.sessions && h.sessions[s].principal != c.principal)
  {
    ReachableInv(h);
    assert CallOk(h, id);
    if h.calls[id].session.Some? {
      var s, o := h.calls[id].session.value, h.calls[id].phase.outcome;
      assert SessionOk(h, s);
      if f :| Accepted(s, f) in h.accepted && f.ResultFrame? && f.id == id && FrameOutcome(f) == o {
        assert Says(f, id, o);
      }
    }
  }

  /** A call completes at most once: no step moves it again. */
  lemma DoneIsFinal(h: Hub, step: Step, id: CallId)
    requires Reachable(h) && Enabled(h, step) && id in h.calls && h.calls[id].phase.Done?
    ensures id in Next(h, step).calls && Next(h, step).calls[id] == h.calls[id]
  {
    ReachableInv(h);
    assert forall s :: Listed(h, id, s) ==> PendingOk(h, id, s);
    KnownCallStays(h, step, id);
    if Mover(step) != Some(id) { OtherCallFacts(h, step, id); }
  }

  lemma {:induction false} DoneForever(h: Hub, steps: seq<Step>, end: Hub, id: CallId)
    requires Reachable(h) && Run(h, steps, end) && id in h.calls && h.calls[id].phase.Done?
    ensures id in end.calls && end.calls[id] == h.calls[id]
    decreases |steps|
  {
    if steps != [] {
      hide Next, Enabled, Reachable;
      ReachableStep(h, steps[0]);
      DoneIsFinal(h, steps[0], id);
      DoneForever(Next(h, steps[0]), steps[1..], end, id);
    }
  }

  lemma {:induction false} RunAppend(h: Hub, steps: seq<Step>, end: Hub, step: Step)
    requires Run(h, steps, end) && Enabled(end, step)
    ensures Run(h, steps + [step], Next(end, step))
    decreases |steps|
  {
    hide Next, Enabled;
    if steps == [] {
      assert [step][1..] == [];
      assert Run(Next(h, step), [], Next(end, step));
      assert steps + [step] == [step];
    } else {
      RunAppend(Next(h, steps[0]), steps[1..], end, step);
      assert (steps + [step])[1..] == steps[1..] + [step];
    }
  }

  lemma ReachableStep(h: Hub, step: Step)
    requires Reachable(h) && Enabled(h, step)
    ensures Reachable(Next(h, step))
  {
    hide Next, Enabled, Run;
    var timeout, steps :| Run(Start(timeout), steps, h);
    RunAppend(Start(timeout), steps, h, step);
  }

  /** While a caller waits on an empty slot, its id is in its own session's pending table and in
      no other: its sender cannot have been dropped. */
  lemma WaitingIsListed(h: Hub, id: CallId)
    requires Reachable(h) && id in h.calls && h.calls[id].phase.Waiting? && h.calls[id].slot.None?
    ensures forall s :: Listed(h, id, s) <==> h.calls[id].session == Some(s)
  {
    ReachableInv(h);
    assert CallOk(h, id);
    forall s ensures Listed(h, id, s) <==> h.calls[id].session == Some(s) {
      assert Listed(h, id, s) ==> PendingOk(h, id, s);
    }
  }

  /** Once a call has returned, its id is in no pending table. */
  lemma DoneIsUnlisted(h: Hub, id: CallId, s: SessionId)
    requires Reachable(h) && id in h.calls && h.calls[id].phase.Done?
    ensures !Listed(h, id, s)
  {
    ReachableInv(h);
    assert Listed(h, id, s) ==> PendingOk(h, id, s);
  }

  /** A result frame reaches a waiting call exactly when it arrives on the call's own session
      and the call has no result yet. */
  lemma ResultReachesWaitingCallIff(h: Hub, s: SessionId, frame: Frame)
    requires Reachable(h) && Enabled(h, Accept(s, frame)) && frame.ResultFrame?
    requires frame.id in h.calls && h.calls[frame.id].phase.Waiting?
    ensures var c, c' := h.calls[frame.id], Next(h, Accept(s, frame)).calls[frame.id];
            if c.session == Some(s) && c.slot.None? then c' == c.(slot := Some(FrameOutcome(frame))) else c' == c
  {
    ReachableInv(h);
    assert CallOk(h, frame.id);
    assert Listed(h, frame.id, s) ==> PendingOk(h, frame.id, s);
    hide FrameOutcome;
  }

  /** The first result frame that a waiting call's own session accepts decides it: the call then
      ends with what the frame says, and with nothing else. */
  lemma ResultEndsCall(h: Hub, s: SessionId, frame: Frame, steps: seq<Step>, end: Hub)
    requires Reachable(h) && Enabled(h, Accept(s, frame)) && frame.ResultFrame?
    requires frame.id in h.calls && h.calls[frame.id].phase.Waiting?
    requires h.calls[frame.id].session == Some(s) && h.calls[frame.id].slot.None?
    requires Run(Next(h, Accept(s, frame)), steps, end)
    ensures frame.id in end.calls
    ensures var c := end.calls[frame.id];
            if c.phase.Done? then Says(frame, frame.id, c.phase.outcome)
            else
              && Enabled(end, Take(frame.id))
              && Next(end, Take(frame.id)).calls[frame.id].phase.Done?
              && Says(frame, frame.id, Next(end, Take(frame.id)).calls[frame.id].phase.outcome)
  {
    var id, o := frame.id, FrameOutcome(frame);
    assert Says(frame, id, o);
    ResultReachesWaitingCallIff(h, s, frame);
    KnownCallStays(h, Accept(s, frame), id);
    ReachableStep(h, Accept(s, frame));
    hide Says, FrameOutcome, Enabled, Next, Reachable;
    ResultStays(Next(h, Accept(s, frame)), steps, end, id, o);
    if !end.calls[id].phase.Done? { TakesResult(end, id, o); }
  }

  /** A call that waits with a result, or has ended with it. */
  predicate Decided(h: Hub, id: CallId, o: Outcome) {
    id in h.calls && h.calls[id].slot == Some(o) && h.calls[id].phase in {Waiting, Done(o)}
  }

  lemma TakesResult(h: Hub, id: CallId, o: Outcome)
    requires Reachable(h) && Decided(h, id, o) && h.calls[id].phase.Waiting?
    ensures Enabled(h, Take(id)) && id in Next(h, Take(id)).calls && Decided(Next(h, Take(id)), id, o)
    ensures Next(h, Take(id)).calls[id].phase == Done(o)
  {
    ReachableInv(h);
    assert CallOk(h, id);
    hide Inv, Reachable;
  }

  lemma StepKeepsDecided(h: Hub, step: Step, id: CallId, o: Outcome)
    requires Reachable(h) && Enabled(h, step) && Decided(h, id, o)
    ensures Decided(Next(h, step), id, o)
  {
    KnownCallStays(h, step, id);
    if Mover(step) != Some(id) {
      ReachableInv(h);
      hide Reachable, CallOk;
      OtherCallFacts(h, step, id);
    } else {
      hide Reachable;
      OnlyTakes(h, step, id, o);
      TakesResult(h, id, o);
    }
  }

  lemma OnlyTakes(h: Hub, step: Step, id: CallId, o: Outcome)
    requires Enabled(h, step) && Decided(h, id, o) && Mover(step) == Some(id)
    ensures step == Take(id) && h.calls[id].phase.Waiting?
  {
  }

  lemma {:induction false} ResultStays(h: Hub, steps: seq<Step>, end: Hub, id: CallId, o: Outcome)
    requires Reachable(h) && Run(h, steps, end) && Decided(h, id, o)
    ensures Reachable(end) && Decided(end, id, o)
    decreases |steps|
  {
    if steps != [] {
      hide Next, Enabled, Reachable, Decided;
      ReachableStep(h, steps[0]);
      StepKeepsDecided(h, steps[0], id, o);
      ResultStays(Next(h, steps[0]), steps[1..], end, id, o);
    }
  }

  /** The checks on a looked-up session: another principal is refused, the right one may go on
      exactly if the device is ready or is to be reconnected or reset. */
  lemma CheckDecides(h: Hub, id: CallId)
    requires Enabled(h, Check(id))
    ensures var c, s := h.calls[id], h.sessions[h.calls[id].session.value];
            var p := Next(h, Check(id)).calls[id].phase;
            && (p == Done(Err(Forbidden)) <==> s.principal != c.principal)
            && (p == Cleared <==>
                  s.principal == c.principal && (s.ready || c.rpc == Reconnect || c.rpc == ResetSession))
            && p in {Done(Err(Forbidden)), Cleared, Done(Err(DeviceOffline))}
  {
  }

  /** A late, duplicate or other-session result, whose id is not in the pending table of the
      session it arrives on, changes nothing but the history. */
  lemma UnlistedResultChangesNothing(h: Hub, s: SessionId, frame: Frame)
    requires Enabled(h, Accept(s, frame)) && frame.ResultFrame? && !Listed(h, frame.id, s)
    ensures Next(h, Accept(s, frame)) == h.(accepted := h.accepted + {Accepted(s, frame)})
  {
    hide FrameOutcome;
    assert h.sessions[s].pending - {frame.id} == h.sessions[s].pending;
    assert h.sessions[s := h.sessions[s]] == h.sessions;
  }

  /** A device's session is dropped only by its own disconnect, and exchanged only by a new
      connection of that device: disconnecting a replaced link never removes the newer one. */
  lemma ConnectionEndsOnlyByItself(h: Hub, step: Step, d: DeviceId)
    requires Reachable(h) && Enabled(h, step) && d in h.connections
    requires step != Disconnect(h.connections[d]) && !(step.Connect? && step.device == d)
    ensures d in Next(h, step).connections && Next(h, step).connections[d] == h.connections[d]
  {
    ReachableInv(h);
    assert ConnectionOk(h, d);
    hide FilledAll, Filled, FrameOutcome, Checked;
  }

  /** Once a call's deadline has passed, its caller finishes without help from anyone: it takes
      the result if there is one and reports a timeout if not, never the disconnect error that
      a dropped sender would give. */
  lemma CallerFinishesAtDeadline(h: Hub, id: CallId)
    requires Reachable(h) && InPhase(h, id, Waiting) && h.calls[id].deadline <= h.now
    ensures h.calls[id].slot.Some? ==>
              Enabled(h, Take(id)) && Next(h, Take(id)).calls[id].phase == Done(h.calls[id].slot.value)
    ensures h.calls[id].slot.None? ==>
              && Enabled(h, Fire(id)) && Enabled(Next(h, Fire(id)), Abandon(id))
              && Next(Next(h, Fire(id)), Abandon(id)).calls[id].phase == Done(Err(Timeout))
              && forall s :: !Listed(Next(Next(h, Fire(id)), Abandon(id)), id, s)
  {
    if h.calls[id].slot.None? {
      WaitingIsListed(h, id);
      var h1 := Next(h, Fire(id));
      var h2 := Next(h1, Abandon(id));
      forall s ensures !Listed(h2, id, s) {
        assert Listed(h1, id, s) <==> Listed(h, id, s);
      }
    }
  }

  /** A caller whose frame finds the outbound queue full, its link neither taking frames nor gone. */
  predicate Blocked(h: Hub, id: CallId, s: SessionId) {
    && id in h.calls && h.calls[id].phase == Inserted && h.calls[id].session == Some(s)
    && s in h.sessions && h.sessions[s].open && h.sessions[s].queued >= 32
  }

  /** The link takes no frame off the session's queue and does not drop its end of it. */
  predicate LinkStalls(s: SessionId, steps: seq<Step>) {
    forall i :: 0 <= i < |steps| ==> steps[i] != Drain(s) && steps[i] != Close(s)
  }

  lemma BlockedStep(h: Hub, step: Step, id: CallId, s: SessionId)
    requires Reachable(h) && Enabled(h, step) && Blocked(h, id, s) && step != Drain(s) && step != Close(s)
    ensures Blocked(Next(h, step), id, s)
  {
    ReachableInv(h);
    hide Inv, Reachable, Filled, FilledAll, FrameOutcome, Checked;
    KnownCallStays(h, step, id);
    assert Mover(step) != Some(id);
    CallKeepsPhase(h, step, id);
    SessionStep(h, step, s);
  }

  lemma CallKeepsPhase(h: Hub, step: Step, id: CallId)
    requires Enabled(h, step) && id in h.calls && Mover(step) != Some(id)
    ensures id in Next(h, step).calls
    ensures var c, c' := h.calls[id], Next(h, step).calls[id]; c'.phase == c.phase && c'.session == c.session
  {
    hide FrameOutcome, Checked;
  }

  /** Before its frame is queued a caller has no deadline: while its link stalls, whatever else
      happens and however long it takes, disconnect and replacement of the session included, the
      caller stays where it is. The timer is started only by a send. */
  lemma {:induction false} BlockedCallerNeverTimesOut(h: Hub, steps: seq<Step>, end: Hub, id: CallId, s: SessionId)
    requires Reachable(h) && Run(h, steps, end) && Blocked(h, id, s) && LinkStalls(s, steps)
    ensures Blocked(end, id, s)
    decreases |steps|
  {
    if steps != [] {
      hide Next, Enabled, Reachable, Blocked;
      assert steps[0] != Drain(s) && steps[0] != Close(s);
      BlockedStep(h, steps[0], id, s);
      ReachableStep(h, steps[0]);
      BlockedCallerNeverTimesOut(Next(h, steps[0]), steps[1..], end, id, s);
    }
  }

  /** A listed caller can go on exactly when its link has room or is gone; from there it gets a
      deadline, or is refused as disconnected. */
  lemma SenderProceedsIff(h: Hub, id: CallId, s: SessionId)
    requires Reachable(h) && id in h.calls && h.calls[id].phase == Inserted && h.calls[id].session == Some(s)
    ensures Enabled(h, Send(id)) <==> !Blocked(h, id, s)
    ensures !Blocked(h, id, s) ==>
              var c' := Next(h, Send(id)).calls[id];
              if h.sessions[s].open
              then
                && c'.phase == Waiting
                && c'.deadline == h.now + (if c'.rpc == CreateBackup && h.timeout < 195000 then 195000 else h.timeout)
              else c'.phase == Unsent
  {
    ReachableInv(h);
    assert CallOk(h, id);
    hide Inv, Reachable;
  }

  // -------------------------------------------------------------------- the hub

  /** The hub's shared tables. Each method is one stretch of the code between two points where
      another task may run; what it does to the tables is its step. */
  class RelayHub {
    const timeout: nat
    var now: nat
    var connections: map<DeviceId, SessionId>
    var sessions: map<SessionId, Session>
    var calls: map<CallId, Call>
    ghost var accepted: set<Accepted>

    ghost function State(): Hub
      reads this
    {
      Hub(timeout, now, connections, sessions, calls, accepted)
    }

    constructor (timeout: nat)
      ensures State() == Start(timeout)
    {
      this.timeout := timeout;
      now, connections, sessions, calls, accepted := 0, map[], map[], map[], {};
    }

    method SetPhase(id: CallId, p: Phase)
      requires id in calls
      modifies this`calls
      ensures calls == old(calls)[id := old(calls)[id].(phase := p)]
    {
      calls := calls[id := calls[id].(phase := p)];
    }

    method Unlist(s: SessionId, id: CallId)
      requires s in sessions
      modifies this`sessions
      ensures State() == Unlisted(old(State()), s, id)
    {
      sessions := sessions[s := sessions[s].(pending := sessions[s].pending - {id})];
    }

    /** Installs a fresh session; the session it replaces is now to be failed. */
    method Connect(device: DeviceId, principal: PrincipalId, s: SessionId) returns (old': Option<SessionId>)
      requires Enabled(State(), Step.Connect(device, principal, s))
      requires device in connections ==> connections[device] in sessions
      modifies this
      ensures State() == Next(old(State()), Step.Connect(device, principal, s))
      ensures old' == if device in old(connections) then Some(old(connections)[device]) else None
    {
      old' := if device in connections then Some(connections[device]) else None;
      if old'.Some? {
        sessions := sessions[old'.value := sessions[old'.value].(retired := true)];
      }
      sessions := sessions[s := Session(device, principal, false, true, true, false, 0, {})];
      connections := connections[device := s];
    }

    /** Drains a session's pending table, failing every call in it. */
    method FailAll(s: SessionId)
      requires Enabled(State(), Step.FailAll(s))
      modifies this`calls, this`sessions
      ensures State() == Next(old(State()), Step.FailAll(s))
    {
      var drained := sessions[s].pending;
      sessions := sessions[s := sessions[s].(pending := {})];
      while drained != {}
        invariant sessions == old(sessions)[s := old(sessions)[s].(pending := {})]
        invariant drained <= old(sessions)[s].pending && calls.Keys == old(calls).Keys
        invariant forall id :: id in drained && id in calls ==> calls[id] == old(calls)[id]
        invariant forall id :: id in calls && id !in drained ==>
                    calls[id] == FilledAll(old(calls), old(sessions)[s].pending, Err(Disconnected))[id]
        decreases drained
      {
        var id :| id in drained;
        if id in calls { calls := calls[id := Filled(calls[id], Err(Disconnected))]; }
        drained := drained - {id};
      }
      assert calls == FilledAll(old(calls), old(sessions)[s].pending, Err(Disconnected));
    }

    method Lookup(id: CallId, principal: PrincipalId, device: DeviceId, rpc: Rpc)
      requires Enabled(State(), Step.Lookup(id, principal, device, rpc))
      modifies this`calls
      ensures State() == Next(old(State()), Step.Lookup(id, principal, device, rpc))
    {
      var call := Call(principal, rpc, Looked, None, None, 0);
      if device in connections {
        call := call.(session := Some(connections[device]));
      } else {
        call := call.(phase := Done(Err(DeviceOffline)));
      }
      calls := calls[id := call];
    }

    method Check(id: CallId)
      requires Enabled(State(), Step.Check(id))
      modifies this`calls
      ensures State() == Next(old(State()), Step.Check(id))
    {
      var call := calls[id];
      var session := sessions[call.session.value];
      if session.principal != call.principal {
        SetPhase(id, Done(Err(Forbidden)));
      } else if !session.ready && call.rpc != Reconnect && call.rpc != ResetSession {
        SetPhase(id, Done(Err(DeviceOffline)));
      } else {
        SetPhase(id, Cleared);
      }
    }

    method Insert(id: CallId)
      requires Enabled(State(), Step.Insert(id))
      modifies this`calls, this`sessions
      ensures State() == Next(old(State()), Step.Insert(id))
    {
      var s := calls[id].session.value;
      sessions := sessions[s := sessions[s].(pending := sessions[s].pending + {id})];
      SetPhase(id, Inserted);
    }

    method Send(id: CallId)
      requires Enabled(State(), Step.Send(id))
      modifies this`calls, this`sessions
      ensures State() == Next(old(State()), Step.Send(id))
    {
      var call := calls[id];
      var s := call.session.value;
      if !sessions[s].open {
        SetPhase(id, Unsent);
        return;
      }
      sessions := sessions[s := sessions[s].(queued := sessions[s].queued + 1)];
      var window := timeout;
      if call.rpc == CreateBackup { window := Max(timeout, BACKUP_TIMEOUT_MS); }
      calls := calls[id := call.(phase := Waiting, deadline := now + window)];
    }

    method Forget(id: CallId)
      requires Enabled(State(), Step.Forget(id))
      modifies this`calls, this`sessions
      ensures State() == Next(old(State()), Step.Forget(id))
    {
      Unlist(calls[id].session.value, id);
      SetPhase(id, Done(Err(Disconnected)));
    }

    method Take(id: CallId)
      requires Enabled(State(), Step.Take(id))
      modifies this`calls
      ensures State() == Next(old(State()), Step.Take(id))
    {
      SetPhase(id, Done(calls[id].slot.value));
    }

    method Abandon(id: CallId)
      requires Enabled(State(), Step.Abandon(id))
      modifies this`calls, this`sessions
      ensures State() == Next(old(State()), Step.Abandon(id))
    {
      Unlist(calls[id].session.value, id);
      SetPhase(id, Done(Err(Timeout)));
    }

    /** Handles one frame from a session's link. */
    method AcceptFrame(s: SessionId, frame: Frame)
      requires Enabled(State(), Accept(s, frame))
      modifies this
      ensures State() == Next(old(State()), Accept(s, frame))
    {
      match frame
      case InvokeFrame(_) => return;
      case ReadyFrame(usb) =>
        sessions := sessions[s := sessions[s].(ready := usb)];
      case ResultFrame(id, ok, result, error) =>
        var outcome := FrameOutcome(frame);
        accepted := accepted + {Accepted(s, frame)};
        var listed := id in sessions[s].pending;
        Unlist(s, id);
        if listed && id in calls { calls := calls[id := Filled(calls[id], outcome)]; }
    }

    /** The timer of a waiting call fires. */
    method Fire(id: CallId)
      requires Enabled(State(), Step.Fire(id))
      modifies this`calls
      ensures State() == Next(old(State()), Step.Fire(id))
    {
      SetPhase(id, Expired);
    }

    /** The link takes a frame off its queue. */
    method TakeFrame(s: SessionId)
      requires Enabled(State(), Drain(s))
      modifies this`sessions
      ensures State() == Next(old(State()), Drain(s))
    {
      sessions := sessions[s := sessions[s].(queued := sessions[s].queued - 1)];
    }

    /** The link drops its end of the queue. */
    method CloseQueue(s: SessionId)
      requires Enabled(State(), Close(s))
      modifies this`sessions
      ensures State() == Next(old(State()), Close(s))
    {
      sessions := sessions[s := sessions[s].(open := false)];
    }

    /** Takes a link's session out of service, unless it has been replaced already. */
    method DisconnectLink(s: SessionId)
      requires Enabled(State(), Step.Disconnect(s))
      modifies this`connections, this`sessions
      ensures State() == Next(old(State()), Step.Disconnect(s))
    {
      var device := sessions[s].device;
      if device in connections && connections[device] == s {
        connections := connections - {device};
      }
      sessions := sessions[s := sessions[s].(attached := false, retired := true)];
    }

    /** One step of a caller, a link or the clock. */
    method Perform(step: Step)
      requires Enabled(State(), step) && ConnectionsKnown(State())
      modifies this
      ensures State() == Next(old(State()), step)
    {
      hide Next, Enabled;
      match step
      case Connect(device, principal, s) => var replaced := Connect(device, principal, s);
      case FailAll(s) => FailAll(s);
      case Lookup(id, principal, device, rpc) => Lookup(id, principal, device, rpc);
      case Check(id) => Check(id);
      case Insert(id) => Insert(id);
      case Send(id) => Send(id);
      case Forget(id) => Forget(id);
      case Take(id) => Take(id);
      case Fire(id) => Fire(id);
      case Abandon(id) => Abandon(id);
      case Accept(s, frame) => AcceptFrame(s, frame);
      case Drain(s) => TakeFrame(s);
      case Disconnect(s) => DisconnectLink(s);
      case Close(s) => CloseQueue(s);
      case Tick(elapsed) => Wait(elapsed);
    }

    method Wait(elapsed: nat)
      modifies this`now
      ensures State() == Next(old(State()), Tick(elapsed))
    {
      now := now + elapsed;
    }

    /** Any interleaving of callers, links and timers: the hub goes through exactly the states of the
        run, so that whatever holds of reachable states holds of it. */
    method Drive(schedule: seq<Step>, ghost end: Hub)
      requires Reachable(State()) && Run(State(), schedule, end)
      modifies this
      ensures State() == end && Reachable(State())
    {
      hide *;
      var i := 0;
      assert schedule[0..] == schedule;
      while i < |schedule|
        invariant i <= |schedule| && Reachable(State()) && Run(State(), schedule[i..], end)
      {
        assert schedule[i..][1..] == schedule[i + 1..] && schedule[i..][0] == schedule[i];
        RunUnfolds(State(), schedule[i..], end);
        ReachableKnows(State());
        ReachableStep(State(), schedule[i]);
        Perform(schedule[i]);
        i := i + 1;
      }
      RunUnfolds(State(), schedule[i..], end);
    }
  }

  ghost predicate ConnectionsKnown(h: Hub) {
    forall d :: d in h.connections ==> h.connections[d] in h.sessions
  }

  lemma ReachableKnows(h: Hub)
    requires Reachable(h)
    ensures ConnectionsKnown(h)
  {
    ReachableInv(h);
    forall d | d in h.connections ensures h.connections[d] in h.sessions { assert ConnectionOk(h, d); }
  }

  lemma RunUnfolds(h: Hub, steps: seq<Step>, end: Hub)
    requires Run(h, steps, end)
    ensures steps == [] ==> end == h
    ensures steps != [] ==> Enabled(h, steps[0]) && Run(Next(h, steps[0]), steps[1..], end)
  {
  }

  // ------------------------------------------------------------ device selection

  /** The connected devices of a principal, all of them or only the ready ones. */
  function Candidates(h: Hub, principal: PrincipalId, requireReady: bool): set<DeviceId> {
    set d | d in h.connections && h.connections[d] in h.sessions
            && h.sessions[h.connections[d]].principal == principal
            && (requireReady ==> h.sessions[h.connections[d]].ready)
  }

  /** A connected device whose session is the principal's and, if that is asked for, ready. */
  predicate Eligible(h: Hub, d: DeviceId, principal: PrincipalId, requireReady: bool) {
    && d in h.connections && h.connections[d] in h.sessions
    && var s := h.sessions[h.connections[d]]; s.principal == principal && (s.ready || !requireReady)
  }

  /** Selects a device only if the principal's choice is unambiguous. */
  method DeviceForPrincipal(h: Hub, principal: PrincipalId, requireReady: bool)
    returns (r: Result<DeviceId, RelayError>)
    ensures match r
            case Ok(d) => forall c :: Eligible(h, c, principal, requireReady) <==> c == d
            case Err(e) =>
              if e == DeviceOffline then forall c :: !Eligible(h, c, principal, requireReady)
              else
                && e == AmbiguousDevice
                && exists c, d :: Eligible(h, c, principal, requireReady) && Eligible(h, d, principal, requireReady)
                                  && c != d
  {
    var devices := Candidates(h, principal, requireReady);
    assert forall c :: c in devices <==> Eligible(h, c, principal, requireReady);
    if devices == {} { return Err(DeviceOffline); }
    var d :| d in devices;
    if devices == {d} { return Ok(d); }
    assert devices - {d} != {};
    var c :| c in devices - {d};
    r := Err(AmbiguousDevice);
  }
}
