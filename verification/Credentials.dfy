/** The device credential store of the relay (services/qc-relay/src/pairing.rs). */
module Credentials {
  import opened Prelude

  datatype PrincipalId = PrincipalId(text: string)
  datatype DeviceId = DeviceId(text: string)

  /** A random pairing secret or device token. */
  datatype Secret = Secret(text: string)

  /** The digest a table keeps of a secret. Distinct secrets have distinct digests. */
  datatype Digest = Digest(secret: Secret)

  datatype PairingError = InvalidOrExpired | Replayed | RateLimited | InvalidDeviceCredential | WrongPrincipal

  datatype Credential = Credential(device: DeviceId, principal: PrincipalId, expiresAt: int)

  datatype Record = Record(credential: Credential, revoked: bool)

  datatype Grant = Grant(principal: PrincipalId, revoked: bool)

  datatype Receipt = Receipt(token: Secret, principal: PrincipalId, expiresAt: int)

  // ------------------------------------------------------------- specification

  datatype Store = Store(tokens: map<Digest, Record>, devices: map<DeviceId, Grant>)

  const EMPTY_STORE := Store(map[], map[])

  function RevokedFor(tokens: map<Digest, Record>, device: DeviceId): (r: map<Digest, Record>)
    ensures r.Keys == tokens.Keys
  {
    map d | d in tokens :: if tokens[d].credential.device == device then tokens[d].(revoked := true) else tokens[d]
  }

  function Issued(s: Store, c: Credential, token: Secret): Store {
    Store(RevokedFor(s.tokens, c.device)[Digest(token) := Record(c, false)],
          s.devices[c.device := Grant(c.principal, false)])
  }

  predicate MayRevoke(s: Store, principal: PrincipalId, device: DeviceId) {
    device in s.devices && s.devices[device].principal == principal
  }

  function Revoked(s: Store, principal: PrincipalId, device: DeviceId): Store {
    if !MayRevoke(s, principal, device) then s
    else Store(RevokedFor(s.tokens, device), s.devices[device := Grant(principal, true)])
  }

  function Validate(s: Store, token: Secret, now: int): Result<Credential, PairingError> {
    var d := Digest(token);
    if d !in s.tokens then Err(InvalidDeviceCredential) else
    var record := s.tokens[d];
    if record.credential.device !in s.devices then Err(InvalidDeviceCredential) else
    var grant := s.devices[record.credential.device];
    if record.revoked || grant.revoked || record.credential.expiresAt <= now
        || grant.principal != record.credential.principal
    then Err(InvalidDeviceCredential)
    else Ok(record.credential)
  }

  function Authorize(s: Store, principal: PrincipalId, device: DeviceId): Result<(), PairingError> {
    if device !in s.devices then Err(WrongPrincipal)
    else if s.devices[device].revoked || s.devices[device].principal != principal then Err(WrongPrincipal)
    else Ok(())
  }

  // ------------------------------------------------------------------ the store

  class DeviceCredentialStore {
    var tokens: map<Digest, Record>
    var devices: map<DeviceId, Grant>

    ghost function State(): Store
      reads this
    {
      Store(tokens, devices)
    }

    constructor ()
      ensures State() == EMPTY_STORE
    {
      tokens, devices := map[], map[];
    }

    /** Marks every credential of a device revoked, one record at a time. */
    method RevokeRecords(device: DeviceId)
      modifies this`tokens
      ensures tokens == RevokedFor(old(tokens), device)
    {
      var todo := tokens.Keys;
      while todo != {}
        invariant todo <= tokens.Keys == old(tokens).Keys
        invariant forall d :: d in todo ==> tokens[d] == old(tokens)[d]
        invariant forall d :: d in tokens && d !in todo ==> tokens[d] == RevokedFor(old(tokens), device)[d]
        decreases todo
      {
        var d :| d in todo;
        if tokens[d].credential.device == device {
          tokens := tokens[d := tokens[d].(revoked := true)];
        }
        todo := todo - {d};
      }
    }

    /** Issues a credential under a token the caller drew afresh. */
    method Issue(device: DeviceId, principal: PrincipalId, now: int, ttl: nat, token: Secret) returns (receipt: Receipt)
      modifies this
      ensures State() == Issued(old(State()), Credential(device, principal, now + ttl), token)
      ensures receipt == Receipt(token, principal, now + ttl)
    {
      var credential := Credential(device, principal, now + ttl);
      RevokeRecords(device);
      devices := devices[device := Grant(principal, false)];
      tokens := tokens[Digest(token) := Record(credential, false)];
      receipt := Receipt(token, principal, credential.expiresAt);
    }

    method ValidateToken(token: Secret, now: int) returns (r: Result<Credential, PairingError>)
      ensures r == Validate(State(), token, now)
    {
      if Digest(token) !in tokens { return Err(InvalidDeviceCredential); }
      var record := tokens[Digest(token)];
      if record.credential.device !in devices { return Err(InvalidDeviceCredential); }
      var grant := devices[record.credential.device];
      if record.revoked || grant.revoked || record.credential.expiresAt <= now
         || grant.principal != record.credential.principal {
        return Err(InvalidDeviceCredential);
      }
      r := Ok(record.credential);
    }

    method AuthorizeDevice(principal: PrincipalId, device: DeviceId) returns (r: Result<(), PairingError>)
      ensures r == Authorize(State(), principal, device)
    {
      if device !in devices { return Err(WrongPrincipal); }
      if devices[device].revoked || devices[device].principal != principal { return Err(WrongPrincipal); }
      r := Ok(());
    }

    method RevokeDevice(principal: PrincipalId, device: DeviceId) returns (r: Result<(), PairingError>)
      modifies this
      ensures State() == Revoked(old(State()), principal, device)
      ensures r == if device in old(devices) && old(devices)[device].principal == principal then Ok(())
                   else Err(WrongPrincipal)
    {
      if device !in devices || devices[device].principal != principal { return Err(WrongPrincipal); }
      devices := devices[device := devices[device].(revoked := true)];
      RevokeRecords(device);
      r := Ok(());
    }
  }

  // ----------------------------------------------------------------- all runs

  datatype Op = IssueOp(credential: Credential, token: Secret) | RevokeOp(principal: PrincipalId, device: DeviceId)

  function Step(s: Store, op: Op): Store {
    match op
    case IssueOp(c, token) => Issued(s, c, token)
    case RevokeOp(p, d) => Revoked(s, p, d)
  }

  function After(ops: seq<Op>): Store {
    if ops == [] then EMPTY_STORE else Step(After(ops[..|ops| - 1]), ops[|ops| - 1])
  }

  /** Every token's device has a grant; a live token's grant is live and for the same
      principal; a device has at most one live token. */
  ghost predicate Consistent(s: Store) {
    && (forall d :: d in s.tokens ==> s.tokens[d].credential.device in s.devices)
    && (forall d :: d in s.tokens && !s.tokens[d].revoked ==>
          s.devices[s.tokens[d].credential.device] == Grant(s.tokens[d].credential.principal, false))
    && (forall d, e | d in s.tokens && e in s.tokens && !s.tokens[d].revoked && !s.tokens[e].revoked ::
          s.tokens[d].credential.device == s.tokens[e].credential.device ==> d == e)
  }

  /** Once a device's records are revoked, whatever is live belongs to other devices. */
  lemma RevokedForIsConsistent(s: Store, device: DeviceId)
    requires Consistent(s)
    ensures var rest := s.(tokens := RevokedFor(s.tokens, device));
            Consistent(rest) && forall d :: d in rest.tokens && !rest.tokens[d].revoked ==>
                                             rest.tokens[d].credential.device != device
  {
  }

  lemma RegrantKeepsConsistent(s: Store, device: DeviceId, grant: Grant)
    requires Consistent(s)
    requires forall d :: d in s.tokens && !s.tokens[d].revoked ==> s.tokens[d].credential.device != device
    ensures Consistent(s.(devices := s.devices[device := grant]))
  {
  }

  lemma EnrolKeepsConsistent(s: Store, c: Credential, digest: Digest)
    requires Consistent(s) && c.device in s.devices && s.devices[c.device] == Grant(c.principal, false)
    requires forall d :: d in s.tokens && !s.tokens[d].revoked ==> s.tokens[d].credential.device != c.device
    ensures Consistent(s.(tokens := s.tokens[digest := Record(c, false)]))
  {
  }

  lemma StepKeepsConsistent(s: Store, op: Op)
    requires Consistent(s)
    ensures Consistent(Step(s, op))
  {
    hide Consistent, RevokedFor;
    match op
    case IssueOp(c, token) =>
      RevokedForIsConsistent(s, c.device);
      var revoked := s.(tokens := RevokedFor(s.tokens, c.device));
      RegrantKeepsConsistent(revoked, c.device, Grant(c.principal, false));
      EnrolKeepsConsistent(revoked.(devices := s.devices[c.device := Grant(c.principal, false)]), c, Digest(token));
    case RevokeOp(principal, device) =>
      if MayRevoke(s, principal, device) {
        RevokedForIsConsistent(s, device);
        var revoked := s.(tokens := RevokedFor(s.tokens, device));
        RegrantKeepsConsistent(revoked, device, s.devices[device].(revoked := true));
      }
  }

  lemma {:induction false} RunsAreConsistent(ops: seq<Op>)
    ensures Consistent(After(ops))
  {
    if ops != [] {
      RunsAreConsistent(ops[..|ops| - 1]);
      StepKeepsConsistent(After(ops[..|ops| - 1]), ops[|ops| - 1]);
    }
  }

  /** In any state runs reach, the checks `validate` makes on the grant decide nothing: a
      token is accepted exactly when it is known, unrevoked and unexpired. */
  lemma {:induction false} ValidateNeedsOnlyTheRecord(ops: seq<Op>, token: Secret, now: int)
    ensures var s := After(ops);
            Validate(s, token, now).Ok? <==>
              Digest(token) in s.tokens && !s.tokens[Digest(token)].revoked
                  && now < s.tokens[Digest(token)].credential.expiresAt
  {
    RunsAreConsistent(ops);
  }

  /** Acceptance of a token implies authorization of its principal for its device. */
  lemma ValidImpliesAuthorized(s: Store, token: Secret, now: int)
    requires Validate(s, token, now).Ok?
    ensures var c := Validate(s, token, now).value; Authorize(s, c.principal, c.device).Ok?
  {
  }

  // --------------------------------------------- which tokens a history leaves live

  predicate FreshTokens(ops: seq<Op>) {
    forall i, j :: 0 <= i < j < |ops| && ops[i].IssueOp? && ops[j].IssueOp? ==> ops[i].token != ops[j].token
  }

  /** `later` ends the credential `c`: its device is paired again, or its own principal
      revokes the device. */
  predicate Ends(later: Op, c: Credential) {
    match later
    case IssueOp(c', _) => c'.device == c.device
    case RevokeOp(p, d) => d == c.device && p == c.principal
  }

  ghost predicate StillLive(ops: seq<Op>, i: nat)
    requires i < |ops| && ops[i].IssueOp?
  {
    forall j :: i < j < |ops| ==> !Ends(ops[j], ops[i].credential)
  }

  ghost predicate RecordsMatch(ops: seq<Op>) {
    forall i :: 0 <= i < |ops| && ops[i].IssueOp? ==>
      && Digest(ops[i].token) in After(ops).tokens
      && After(ops).tokens[Digest(ops[i].token)] == Record(ops[i].credential, !StillLive(ops, i))
  }

  lemma RecordAfterStep(s: Store, op: Op, d: Digest)
    requires Consistent(s) && d in s.tokens && (op.IssueOp? ==> Digest(op.token) != d)
    ensures d in Step(s, op).tokens
    ensures var r := s.tokens[d];
            Step(s, op).tokens[d] == Record(r.credential, r.revoked || Ends(op, r.credential))
  {
  }

  lemma {:induction false} RecordsMatchHistory(ops: seq<Op>)
    requires FreshTokens(ops)
    ensures RecordsMatch(ops)
  {
    if ops != [] {
      var n := |ops| - 1;
      var before, op := ops[..n], ops[n];
      RecordsMatchHistory(before);
      RunsAreConsistent(before);
      forall i | 0 <= i < |ops| && ops[i].IssueOp?
        ensures Digest(ops[i].token) in After(ops).tokens
        ensures After(ops).tokens[Digest(ops[i].token)] == Record(ops[i].credential, !StillLive(ops, i))
      {
        hide Consistent, Issued, Revoked;
        if i < n {
          assert before[i] == ops[i];
          RecordAfterStep(After(before), op, Digest(ops[i].token));
          LiveGrows(ops, i);
        } else {
          IssuedIsLive(After(before), op);
        }
      }
    }
  }

  lemma IssuedIsLive(s: Store, op: Op)
    requires op.IssueOp?
    ensures Digest(op.token) in Step(s, op).tokens
            && Step(s, op).tokens[Digest(op.token)] == Record(op.credential, false)
  {
  }

  lemma LiveGrows(ops: seq<Op>, i: nat)
    requires i < |ops| - 1 && ops[i].IssueOp?
    ensures StillLive(ops, i) <==> StillLive(ops[..|ops| - 1], i) && !Ends(ops[|ops| - 1], ops[i].credential)
  {
    var before := ops[..|ops| - 1];
    assert forall j :: i < j < |before| ==> before[j] == ops[j];
  }

  lemma {:induction false} KnownTokensWereIssued(ops: seq<Op>, d: Digest) returns (i: nat)
    requires d in After(ops).tokens
    ensures i < |ops| && ops[i].IssueOp? && Digest(ops[i].token) == d
    decreases |ops|
  {
    var n := |ops| - 1;
    if ops[n].IssueOp? && Digest(ops[n].token) == d {
      i := n;
    } else {
      i := KnownTokensWereIssued(ops[..n], d);
    }
  }

  /** Over every history with fresh tokens, a token is accepted exactly when it was issued,
      has not expired, and since its issue its device was neither paired again nor revoked
      by its own principal. What is accepted is the credential as issued. */
  lemma ValidateMatchesHistory(ops: seq<Op>, token: Secret, now: int)
    requires FreshTokens(ops)
    ensures Validate(After(ops), token, now).Ok? <==>
            exists i :: 0 <= i < |ops| && ops[i].IssueOp? && ops[i].token == token
                        && now < ops[i].credential.expiresAt && StillLive(ops, i)
    ensures Validate(After(ops), token, now).Ok? ==>
              forall i :: 0 <= i < |ops| && ops[i].IssueOp? && ops[i].token == token ==>
                Validate(After(ops), token, now).value == ops[i].credential
  {
    ValidateNeedsOnlyTheRecord(ops, token, now);
    RecordsMatchHistory(ops);
    if Digest(token) in After(ops).tokens {
      var i := KnownTokensWereIssued(ops, Digest(token));
      assert ops[i].token == token;
    }
  }

  // ---------------------------------------------- who is authorized, told by the history

  /** The `i`-th operation is the latest pairing of the device. */
  ghost predicate LatestPairing(ops: seq<Op>, i: nat, device: DeviceId) {
    && i < |ops| && ops[i].IssueOp? && ops[i].credential.device == device
    && forall j :: i < j < |ops| && ops[j].IssueOp? ==> ops[j].credential.device != device
  }

  /** The grant of a device is that of its latest pairing, revoked exactly if the principal of that
      pairing has revoked the device since. */
  ghost predicate GrantMatches(ops: seq<Op>, i: nat, device: DeviceId)
    requires LatestPairing(ops, i, device)
  {
    && device in After(ops).devices && After(ops).devices[device].principal == ops[i].credential.principal
    && (After(ops).devices[device].revoked <==>
        exists j :: i < j < |ops| && ops[j] == RevokeOp(ops[i].credential.principal, device))
  }

  lemma {:induction false} GrantsMatchHistory(ops: seq<Op>, device: DeviceId) returns (i: nat)
    ensures device !in After(ops).devices ==>
              forall j :: 0 <= j < |ops| && ops[j].IssueOp? ==> ops[j].credential.device != device
    ensures device in After(ops).devices ==> LatestPairing(ops, i, device) && GrantMatches(ops, i, device)
    decreases |ops|
  {
    i := 0;
    if ops != [] {
      var n := |ops| - 1;
      var before, op := ops[..n], ops[n];
      assert forall j :: 0 <= j < n ==> before[j] == ops[j];
      if op.IssueOp? && op.credential.device == device {
        i := n;
      } else {
        i := GrantsMatchHistory(before, device);
        if device in After(before).devices { GrantAfterOther(ops, i, device); }
      }
    }
  }

  lemma GrantAfterOther(ops: seq<Op>, i: nat, device: DeviceId)
    requires ops != [] && LatestPairing(ops[..|ops| - 1], i, device) && GrantMatches(ops[..|ops| - 1], i, device)
    requires ops[|ops| - 1].IssueOp? ==> ops[|ops| - 1].credential.device != device
    ensures LatestPairing(ops, i, device) && GrantMatches(ops, i, device)
  {
    var n := |ops| - 1;
    var before, own := ops[..n], RevokeOp(ops[i].credential.principal, device);
    assert forall j :: 0 <= j < n ==> before[j] == ops[j];
    assert (exists j :: i < j < |ops| && ops[j] == own) <==>
           (exists j :: i < j < n && before[j] == own) || ops[n] == own;
  }

  /** Over every history, a principal is authorized for a device exactly if it paired it, nobody has
      paired it since and the principal has not revoked it since. */
  lemma AuthorizeMatchesHistory(ops: seq<Op>, principal: PrincipalId, device: DeviceId)
    ensures Authorize(After(ops), principal, device).Ok? <==>
            exists i :: 0 <= i < |ops| && LatestPairing(ops, i, device) && ops[i].credential.principal == principal
                        && forall j :: i < j < |ops| ==> ops[j] != RevokeOp(principal, device)
    ensures Authorize(After(ops), principal, device).Err? ==>
              Authorize(After(ops), principal, device) == Err(WrongPrincipal)
  {
    hide After;
    var i := GrantsMatchHistory(ops, device);
  }

  /** A principal may revoke a device, as often as it likes, exactly if the latest pairing of the
      device was its own; from then on it is not authorized for it. */
  lemma RevocationMatchesHistory(ops: seq<Op>, principal: PrincipalId, device: DeviceId)
    ensures MayRevoke(After(ops), principal, device) <==>
            exists i :: 0 <= i < |ops| && LatestPairing(ops, i, device) && ops[i].credential.principal == principal
    ensures Authorize(After(ops + [RevokeOp(principal, device)]), principal, device).Err?
  {
    var i := GrantsMatchHistory(ops, device);
    AuthorizeMatchesHistory(ops + [RevokeOp(principal, device)], principal, device);
    hide After;
    assert (ops + [RevokeOp(principal, device)])[|ops|] == RevokeOp(principal, device);
  }
}
