/** One-shot pairing offers and the attempt limiter of the relay
    (services/qc-relay/src/pairing.rs). */
module Pairing {
  import opened Prelude
  import opened Credentials

  /** What attempts are counted under, a caller's address for one. */
  datatype RateKey = RateKey(text: string)

  datatype Offer = Offer(principal: PrincipalId, expiresAt: int)

  datatype Limits = Limits(offerTtl: nat, credentialTtl: nat, maxAttempts: nat, attemptWindow: nat)

  // ------------------------------------------------------------- specification

  datatype State = State(
    offers: map<Digest, Offer>,
    consumed: map<Digest, int>,
    attempts: map<RateKey, seq<int>>
  )

  const EMPTY := State(map[], map[], map[])

  datatype Verdict = Granted(principal: PrincipalId) | Refused(error: PairingError)

  /** `now.duration_since(at)`, which is zero for an `at` that lies ahead. */
  function Elapsed(now: int, at: int): nat {
    if at < now then now - at else 0
  }

  function Purged(consumed: map<Digest, int>, now: int): map<Digest, int> {
    map d | d in consumed && now < consumed[d] :: consumed[d]
  }

  function AttemptsOf(s: State, key: RateKey): seq<int> {
    if key in s.attempts then s.attempts[key] else []
  }

  /** The deque after old attempts are popped from its front. */
  function Popped(queue: seq<int>, now: int, window: nat): seq<int> {
    if queue != [] && Elapsed(now, queue[0]) >= window then Popped(queue[1..], now, window) else queue
  }

  predicate Limited(l: Limits, s: State, key: RateKey, now: int) {
    |Popped(AttemptsOf(s, key), now, l.attemptWindow)| >= l.maxAttempts
  }

  function Offered(l: Limits, s: State, principal: PrincipalId, secret: Secret, now: int): State {
    s.(offers := s.offers[Digest(secret) := Offer(principal, now + l.offerTtl)])
  }

  /** The tables once an attempt has been put to the limiter. */
  function Attempted(l: Limits, s: State, key: RateKey, now: int): State {
    var queue := Popped(AttemptsOf(s, key), now, l.attemptWindow);
    s.(consumed := Purged(s.consumed, now),
       attempts := s.attempts[key := if Limited(l, s, key, now) then queue else queue + [now]])
  }

  /** The tables and verdict once an admitted attempt has been put to the offers. */
  function Settled(s: State, d: Digest, now: int): (State, Verdict) {
    if d in s.consumed then (s, Refused(Replayed))
    else if d !in s.offers then (s, Refused(InvalidOrExpired))
    else
      var offer, taken := s.offers[d], s.(offers := s.offers - {d});
      if offer.expiresAt <= now then (taken, Refused(InvalidOrExpired))
      else (taken.(consumed := s.consumed[d := offer.expiresAt]), Granted(offer.principal))
  }

  function Redeemed(l: Limits, s: State, secret: Secret, key: RateKey, now: int): (State, Verdict) {
    if Limited(l, s, key, now) then (Attempted(l, s, key, now), Refused(RateLimited))
    else Settled(Attempted(l, s, key, now), Digest(secret), now)
  }

  // -------------------------------------------------------------- the manager

  class PairingManager {
    var offers: map<Digest, Offer>
    var consumed: map<Digest, int>
    var attempts: map<RateKey, seq<int>>
    const credentials: DeviceCredentialStore
    const limits: Limits

    ghost function Table(): State
      reads this
    {
      State(offers, consumed, attempts)
    }

    constructor (credentials: DeviceCredentialStore, limits: Limits)
      ensures Table() == EMPTY && this.credentials == credentials && this.limits == limits
    {
      this.credentials, this.limits := credentials, limits;
      offers, consumed, attempts := map[], map[], map[];
    }

    /** Opens an offer under a secret the caller drew afresh. */
    method CreateOffer(principal: PrincipalId, secret: Secret, now: int)
      modifies this
      ensures Table() == Offered(limits, old(Table()), principal, secret, now)
    {
      offers := offers[Digest(secret) := Offer(principal, now + limits.offerTtl)];
    }

    /** Pops attempts that have left the window off the front of a deque. */
    method PopElapsed(attempts: seq<int>, now: int) returns (queue: seq<int>)
      ensures queue == Popped(attempts, now, limits.attemptWindow)
    {
      queue := attempts;
      while queue != [] && Elapsed(now, queue[0]) >= limits.attemptWindow
        invariant Popped(queue, now, limits.attemptWindow) == Popped(attempts, now, limits.attemptWindow)
        decreases |queue|
      {
        queue := queue[1..];
      }
    }

    /** Either records this attempt at the back of its key's deque or refuses it. */
    method Attempt(key: RateKey, now: int) returns (limited: bool)
      modifies this
      ensures limited == Limited(limits, old(Table()), key, now)
      ensures Table() == Attempted(limits, old(Table()), key, now)
    {
      hide Popped, Purged;
      consumed := Purged(consumed, now);
      var queue := PopElapsed(if key in attempts then attempts[key] else [], now);
      limited := |queue| >= limits.maxAttempts;
      attempts := attempts[key := if limited then queue else queue + [now]];
    }

    /** Redeems a secret. Only a granted redemption issues a credential, for the offer's
        principal, under the fresh token. */
    method Redeem(secret: Secret, device: DeviceId, key: RateKey, now: int, wallNow: int, token: Secret)
      returns (r: Result<Receipt, PairingError>)
      modifies this, credentials
      ensures (Table(), if r.Ok? then Granted(r.value.principal) else Refused(r.error)) ==
              Redeemed(limits, old(Table()), secret, key, now)
      ensures r.Err? ==> credentials.State() == old(credentials.State())
      ensures r.Ok? ==>
                var c := Credential(device, r.value.principal, wallNow + limits.credentialTtl);
                && r.value == Receipt(token, c.principal, c.expiresAt)
                && credentials.State() == Issued(old(credentials.State()), c, token)
    {
      hide Attempted, Limited;
      var hashed := Digest(secret);
      var limited := Attempt(key, now);
      if limited { return Err(RateLimited); }
      if hashed in consumed { return Err(Replayed); }
      if hashed !in offers { return Err(InvalidOrExpired); }
      var offer := offers[hashed];
      offers := offers - {hashed};
      if offer.expiresAt <= now { return Err(InvalidOrExpired); }
      consumed := consumed[hashed := offer.expiresAt];
      var receipt := credentials.Issue(device, offer.principal, wallNow, limits.credentialTtl, token);
      r := Ok(receipt);
    }
  }

  // ------------------------------------------------------------------ all runs

  datatype Event =
    | OfferEvent(principal: PrincipalId, secret: Secret, now: int)
    | RedeemEvent(secret: Secret, key: RateKey, now: int)

  function After(l: Limits, events: seq<Event>): State {
    if events == [] then EMPTY else Next(l, After(l, events[..|events| - 1]), events[|events| - 1])
  }

  function Next(l: Limits, s: State, e: Event): State {
    match e
    case OfferEvent(p, secret, now) => Offered(l, s, p, secret, now)
    case RedeemEvent(secret, key, now) => Redeemed(l, s, secret, key, now).0
  }

  /** The verdict the `i`-th event of a run received. */
  function VerdictAt(l: Limits, events: seq<Event>, i: nat): Verdict
    requires i < |events| && events[i].RedeemEvent?
  {
    var e := events[i];
    Redeemed(l, After(l, events[..i]), e.secret, e.key, e.now).1
  }

  predicate Admitted(l: Limits, events: seq<Event>, i: nat)
    requires i < |events|
  {
    events[i].RedeemEvent? && VerdictAt(l, events, i) != Refused(RateLimited)
  }

  /** The monotonic clock: redemptions read it under the table's lock. */
  ghost predicate Monotone(events: seq<Event>) {
    forall i, j :: 0 <= i < j < |events| && events[i].RedeemEvent? && events[j].RedeemEvent? ==>
        events[i].now <= events[j].now
  }

  lemma RateLimitedMeansLimited(l: Limits, s: State, secret: Secret, key: RateKey, now: int)
    ensures Redeemed(l, s, secret, key, now).1 == Refused(RateLimited) <==> Limited(l, s, key, now)
  {
  }

  // ---------------------------------------------------------------- the limiter

  /** How many of the given instants lie back by less than the window. */
  function Young(times: seq<int>, now: int, window: nat): (n: nat)
    ensures n <= |times|
  {
    if times == [] then 0
    else Young(times[..|times| - 1], now, window) + (if now - times[|times| - 1] < window then 1 else 0)
  }

  /** The instants of all admitted attempts under one key, in the full history. */
  function AdmittedTimes(l: Limits, events: seq<Event>, key: RateKey): seq<int> {
    if events == [] then []
    else
      var n := |events| - 1;
      AdmittedTimes(l, events[..n], key)
      + (if Admitted(l, events, n) && events[n].key == key then [events[n].now] else [])
  }

  predicate Ascending(times: seq<int>) {
    forall i, j :: 0 <= i < j < |times| ==> times[i] <= times[j]
  }

  lemma {:induction false} YoungConcat(a: seq<int>, b: seq<int>, now: int, window: nat)
    ensures Young(a + b, now, window) == Young(a, now, window) + Young(b, now, window)
  {
    if b == [] {
      assert a + b == a;
    } else {
      assert (a + b)[..|a + b| - 1] == a + b[..|b| - 1];
      YoungConcat(a, b[..|b| - 1], now, window);
    }
  }

  lemma {:induction false} AllOld(times: seq<int>, now: int, window: nat)
    requires UpTo(times, now) && forall i :: 0 <= i < |times| ==> Elapsed(now, times[i]) >= window
    ensures Young(times, now, window) == 0
  {
    if times != [] { AllOld(times[..|times| - 1], now, window); }
  }

  lemma {:induction false} AllYoung(times: seq<int>, now: int, window: nat)
    requires forall i :: 0 <= i < |times| ==> Elapsed(now, times[i]) < window
    ensures Young(times, now, window) == |times|
  {
    if times != [] { AllYoung(times[..|times| - 1], now, window); }
  }

  lemma YoungAfterPop(queue: seq<int>, now: int, window: nat)
    requires queue != [] && queue[0] <= now && Elapsed(now, queue[0]) >= window
    ensures Young(queue, now, window) == Young(queue[1..], now, window)
  {
    assert queue == [queue[0]] + queue[1..];
    YoungConcat([queue[0]], queue[1..], now, window);
    AllOld([queue[0]], now, window);
  }

  lemma YoungFront(queue: seq<int>, now: int, window: nat)
    requires Ascending(queue) && (queue != [] ==> Elapsed(now, queue[0]) < window)
    ensures Young(queue, now, window) == |queue|
  {
    assert forall i :: 0 <= i < |queue| ==> queue[0] <= queue[i];
    hide Young;
    AllYoung(queue, now, window);
  }

  lemma {:induction false} PoppedIsSuffix(queue: seq<int>, now: int, window: nat)
    ensures |Popped(queue, now, window)| <= |queue|
    ensures Popped(queue, now, window) == queue[|queue| - |Popped(queue, now, window)|..]
  {
    if queue != [] && Elapsed(now, queue[0]) >= window { PoppedIsSuffix(queue[1..], now, window); }
  }

  /** Popping the front of an ascending deque removes exactly the old attempts, and none it
      removes is young at any later time. */
  lemma {:induction false} PoppedKeepsYoung(queue: seq<int>, now: int, later: int, window: nat)
    requires Ascending(queue) && UpTo(queue, now) && now <= later
    ensures |Popped(queue, now, window)| == Young(queue, now, window)
    ensures Young(Popped(queue, now, window), later, window) == Young(queue, later, window)
  {
    hide Young;
    if queue != [] && Elapsed(now, queue[0]) >= window {
      assert Ascending(queue[1..]);
      assert Popped(queue, now, window) == Popped(queue[1..], now, window);
      hide Popped, Ascending;
      PoppedKeepsYoung(queue[1..], now, later, window);
      YoungAfterPop(queue, now, window);
      YoungAfterPop(queue, later, window);
    } else {
      assert Popped(queue, now, window) == queue;
      hide Popped, Ascending;
      YoungFront(queue, now, window);
    }
  }

  /** The deque of a key stands for the full history of its admitted attempts: it counts the
      same young attempts at every instant from the clock on. */
  ghost predicate DequeRefines(l: Limits, events: seq<Event>, key: RateKey, clock: int) {
    SameYoung(AttemptsOf(After(l, events), key), AdmittedTimes(l, events, key), clock, l.attemptWindow)
  }

  ghost predicate ClockCovers(events: seq<Event>, clock: int) {
    forall i :: 0 <= i < |events| && events[i].RedeemEvent? ==> events[i].now <= clock
  }

  lemma AttemptsAfterRedeem(l: Limits, s: State, e: Event, key: RateKey)
    requires e.RedeemEvent?
    ensures AttemptsOf(Next(l, s, e), key) ==
              if e.key != key then AttemptsOf(s, key)
              else
                Popped(AttemptsOf(s, key), e.now, l.attemptWindow)
                + (if Limited(l, s, key, e.now) then [] else [e.now])
  {
    hide Popped, Limited, Settled;
    SettledLeavesAttempts(Attempted(l, s, e.key, e.now), Digest(e.secret), e.now);
  }

  lemma SettledLeavesAttempts(s: State, d: Digest, now: int)
    ensures Settled(s, d, now).0.attempts == s.attempts
  {
  }

  ghost predicate SameYoung(queue: seq<int>, times: seq<int>, clock: int, window: nat) {
    && Ascending(queue)
    && UpTo(queue, clock)
    && (forall now :: clock <= now ==> Young(queue, now, window) == Young(times, now, window))
  }

  predicate UpTo(times: seq<int>, clock: int) {
    forall i :: 0 <= i < |times| ==> times[i] <= clock
  }

  lemma AscendingAfterAttempt(queue: seq<int>, now: int, clock: int, window: nat, admitted: seq<int>)
    requires Ascending(queue) && UpTo(queue, now)
    requires now <= clock && (admitted == [] || admitted == [now])
    ensures Ascending(Popped(queue, now, window) + admitted)
    ensures UpTo(Popped(queue, now, window) + admitted, clock)
  {
    PoppedIsSuffix(queue, now, window);
    hide Popped;
  }

  lemma SameYoungAfterAttempt(queue: seq<int>, times: seq<int>, now: int, clock: int, window: nat, admitted: seq<int>)
    requires SameYoung(queue, times, now, window) && now <= clock && (admitted == [] || admitted == [now])
    ensures SameYoung(Popped(queue, now, window) + admitted, times + admitted, clock, window)
  {
    hide Popped, Young, Ascending;
    AscendingAfterAttempt(queue, now, clock, window, admitted);
    forall later | clock <= later
      ensures Young(Popped(queue, now, window) + admitted, later, window) == Young(times + admitted, later, window)
    {
      PoppedKeepsYoung(queue, now, later, window);
      YoungConcat(Popped(queue, now, window), admitted, later, window);
      YoungConcat(times, admitted, later, window);
    }
  }

  lemma RefinesAfterRedeem(l: Limits, events: seq<Event>, key: RateKey, clock: int)
    requires events != [] && events[|events| - 1].RedeemEvent? && events[|events| - 1].now <= clock
    requires DequeRefines(l, events[..|events| - 1], key, events[|events| - 1].now)
    ensures DequeRefines(l, events, key, clock)
  {
    var n := |events| - 1;
    var before, e := events[..n], events[n];
    var s := After(l, before);
    var admitted := if e.key == key && !Limited(l, s, key, e.now) then [e.now] else [];
    assert After(l, events) == Next(l, s, e);
    assert AdmittedTimes(l, events, key) == AdmittedTimes(l, before, key) + admitted by {
      RateLimitedMeansLimited(l, s, e.secret, e.key, e.now);
    }
    hide After, Next, AdmittedTimes, Limited, Popped, AttemptsOf;
    AttemptsAfterRedeem(l, s, e, key);
    if e.key == key {
      SameYoungAfterAttempt(AttemptsOf(s, key), AdmittedTimes(l, before, key), e.now, clock, l.attemptWindow, admitted);
    } else {
      SameYoungLater(AttemptsOf(s, key), AdmittedTimes(l, before, key), e.now, clock, l.attemptWindow);
    }
  }

  lemma SameYoungLater(queue: seq<int>, times: seq<int>, clock: int, later: int, window: nat)
    requires SameYoung(queue, times, clock, window) && clock <= later
    ensures SameYoung(queue, times + [], later, window)
  {
    assert times + [] == times;
  }

  lemma {:induction false} DequeRefinesHistory(l: Limits, events: seq<Event>, key: RateKey, clock: int)
    requires Monotone(events) && ClockCovers(events, clock)
    ensures DequeRefines(l, events, key, clock)
  {
    if events != [] {
      var n := |events| - 1;
      if events[n].RedeemEvent? {
        DequeRefinesHistory(l, events[..n], key, events[n].now);
        RefinesAfterRedeem(l, events, key, clock);
      } else {
        DequeRefinesHistory(l, events[..n], key, clock);
        OffersLeaveAttempts(l, events, key);
      }
    }
  }

  lemma OffersLeaveAttempts(l: Limits, events: seq<Event>, key: RateKey)
    requires events != [] && events[|events| - 1].OfferEvent?
    ensures AttemptsOf(After(l, events), key) == AttemptsOf(After(l, events[..|events| - 1]), key)
    ensures AdmittedTimes(l, events, key) == AdmittedTimes(l, events[..|events| - 1], key)
  {
  }

  /** With a clock that never runs back, an attempt is refused for its rate exactly when
      `maxAttempts` earlier admitted attempts under its key lie back by less than the window. */
  lemma LimiterIsExact(l: Limits, events: seq<Event>, i: nat)
    requires Monotone(events) && i < |events| && events[i].RedeemEvent?
    ensures VerdictAt(l, events, i) == Refused(RateLimited) <==>
            Young(AdmittedTimes(l, events[..i], events[i].key), events[i].now, l.attemptWindow) >= l.maxAttempts
  {
    var e, before := events[i], events[..i];
    DequeRefinesHistory(l, before, e.key, e.now);
    var queue := AttemptsOf(After(l, before), e.key);
    RateLimitedMeansLimited(l, After(l, before), e.secret, e.key, e.now);
    PoppedKeepsYoung(queue, e.now, e.now, l.attemptWindow);
  }

  /** How many of the given instants fall in `[from, from + window)`. */
  function Within(times: seq<int>, from: int, window: nat): nat {
    if times == [] then 0
    else Within(times[..|times| - 1], from, window) + (if from <= times[|times| - 1] < from + window then 1 else 0)
  }

  lemma {:induction false} WithinAreYoung(times: seq<int>, from: int, now: int, window: nat)
    requires from <= now < from + window
    ensures Within(times, from, window) <= Young(times, now, window)
  {
    if times != [] { WithinAreYoung(times[..|times| - 1], from, now, window); }
  }

  /** No half-open interval one window long ever holds more than `maxAttempts` admitted
      attempts under one key. */
  lemma {:induction false} WindowNeverOverfull(l: Limits, events: seq<Event>, key: RateKey, from: int)
    requires Monotone(events)
    ensures Within(AdmittedTimes(l, events, key), from, l.attemptWindow) <= l.maxAttempts
  {
    if events != [] {
      var n := |events| - 1;
      var before, e := events[..n], events[n];
      WindowNeverOverfull(l, before, key, from);
      var times := AdmittedTimes(l, before, key);
      if Admitted(l, events, n) && e.key == key {
        if from <= e.now < from + l.attemptWindow {
          LimiterIsExact(l, events, n);
          WithinAreYoung(times, from, e.now, l.attemptWindow);
        }
      } else {
        assert AdmittedTimes(l, events, key) == times + [] == times;
      }
    }
  }

  // ----------------------------------------------------------------- one secret

  /** The life of one secret, told without tables. */
  datatype Life = Unborn | Open(offer: Offer) | Spent(until: int) | Dead

  /** What an admitted redemption makes of the life of its secret. */
  function Redeeming(life: Life, now: int): Life {
    if !life.Open? then life else if life.offer.expiresAt <= now then Dead else Spent(life.offer.expiresAt)
  }

  function LifeAfter(l: Limits, events: seq<Event>, secret: Secret): Life {
    if events == [] then Unborn
    else
      var n := |events| - 1;
      Living(l, LifeAfter(l, events[..n], secret), events[n], secret, Admitted(l, events, n))
  }

  function Living(l: Limits, life: Life, e: Event, secret: Secret, admitted: bool): Life {
    if e.secret != secret then life
    else match e
         case OfferEvent(p, _, now) => Open(Offer(p, now + l.offerTtl))
         case RedeemEvent(_, _, now) => if admitted then Redeeming(life, now) else life
  }

  /** What the life of a secret makes of an admitted redemption. */
  function Judge(life: Life, now: int): Verdict {
    match life
    case Open(o) => if now < o.expiresAt then Granted(o.principal) else Refused(InvalidOrExpired)
    case Spent(until) => if now < until then Refused(Replayed) else Refused(InvalidOrExpired)
    case _ => Refused(InvalidOrExpired)
  }

  predicate FreshSecrets(events: seq<Event>) {
    forall i, j :: 0 <= i < j < |events| && events[i].OfferEvent? && events[j].OfferEvent? ==>
        events[i].secret != events[j].secret
  }

  /** The tables agree with the life of a secret; a spent secret may have left the consumed
      table once some redemption has read a clock past its expiry. */
  ghost predicate TablesAgree(s: State, life: Life, d: Digest, clock: int) {
    match life
    case Open(o) => d in s.offers && s.offers[d] == o && d !in s.consumed
    case Spent(until) =>
      && d !in s.offers
      && (d in s.consumed ==> s.consumed[d] == until)
      && (d !in s.consumed ==> until <= clock)
    case _ => d !in s.offers && d !in s.consumed
  }

  lemma TablesAfterAttempt(l: Limits, s: State, life: Life, d: Digest, clock: int, key: RateKey, now: int)
    requires TablesAgree(s, life, d, clock)
    ensures TablesAgree(Attempted(l, s, key, now), life, d, Max(clock, now))
    ensures d in Attempted(l, s, key, now).consumed ==> now < Attempted(l, s, key, now).consumed[d]
  {
    hide Popped, Limited;
  }

  lemma SettledAgrees(s: State, life: Life, d: Digest, now: int)
    requires TablesAgree(s, life, d, now) && (d in s.consumed ==> now < s.consumed[d])
    ensures Settled(s, d, now).1 == Judge(life, now)
    ensures TablesAgree(Settled(s, d, now).0, Redeeming(life, now), d, now)
  {
  }

  lemma TablesAfterOther(l: Limits, s: State, e: Event, life: Life, secret: Secret, clock: int, later: int)
    requires TablesAgree(s, life, Digest(secret), clock) && clock <= later && e.secret != secret
    requires e.RedeemEvent? ==> e.now <= later
    ensures TablesAgree(Next(l, s, e), life, Digest(secret), later)
  {
    var d := Digest(secret);
    assert Digest(e.secret) != d;
    if e.RedeemEvent? {
      hide Attempted, TablesAgree, Settled, Limited;
      var a := Attempted(l, s, e.key, e.now);
      TablesAfterAttempt(l, s, life, d, clock, e.key, e.now);
    }
  }

  lemma TablesAfterRedeem(l: Limits, s: State, e: Event, life: Life, clock: int)
    requires e.RedeemEvent? && TablesAgree(s, life, Digest(e.secret), clock) && clock <= e.now
    ensures TablesAgree(Next(l, s, e), if Limited(l, s, e.key, e.now) then life else Redeeming(life, e.now),
                        Digest(e.secret), e.now)
    ensures !Limited(l, s, e.key, e.now) ==> Redeemed(l, s, e.secret, e.key, e.now).1 == Judge(life, e.now)
  {
    hide Attempted, TablesAgree, Settled, Limited;
    TablesAfterAttempt(l, s, life, Digest(e.secret), clock, e.key, e.now);
    SettledAgrees(Attempted(l, s, e.key, e.now), life, Digest(e.secret), e.now);
  }

  /** Before its offer a secret is unborn: fresh secrets are offered once. */
  lemma {:induction false} UnbornBeforeOffer(l: Limits, events: seq<Event>, secret: Secret)
    requires forall i :: 0 <= i < |events| && events[i].OfferEvent? ==> events[i].secret != secret
    ensures LifeAfter(l, events, secret) == Unborn
  {
    if events != [] { UnbornBeforeOffer(l, events[..|events| - 1], secret); }
  }

  lemma {:induction false} TablesFollowLife(l: Limits, events: seq<Event>, secret: Secret, clock: int)
    requires Monotone(events) && FreshSecrets(events) && ClockCovers(events, clock)
    ensures TablesAgree(After(l, events), LifeAfter(l, events, secret), Digest(secret), clock)
  {
    if events != [] {
      var n := |events| - 1;
      var before, e := events[..n], events[n];
      var s, life := After(l, before), LifeAfter(l, before, secret);
      hide Next, TablesAgree, Redeemed;
      if e.secret != secret {
        var earlier := if e.RedeemEvent? then e.now else clock;
        TablesFollowLife(l, before, secret, earlier);
        TablesAfterOther(l, s, e, life, secret, earlier, clock);
      } else if e.RedeemEvent? {
        TablesFollowLife(l, before, secret, e.now);
        TablesAfterRedeem(l, s, e, life, e.now);
        RateLimitedMeansLimited(l, s, e.secret, e.key, e.now);
      } else {
        UnbornBeforeOffer(l, before, secret);
        TablesFollowLife(l, before, secret, clock);
      }
    }
  }

  /** The verdict on every redemption, read off the limiter and the life of its secret. */
  lemma VerdictFollowsLife(l: Limits, events: seq<Event>, i: nat)
    requires Monotone(events) && FreshSecrets(events) && i < |events| && events[i].RedeemEvent?
    ensures Admitted(l, events, i) ==>
              VerdictAt(l, events, i) == Judge(LifeAfter(l, events[..i], events[i].secret), events[i].now)
  {
    var e, before := events[i], events[..i];
    TablesFollowLife(l, before, e.secret, e.now);
    RateLimitedMeansLimited(l, After(l, before), e.secret, e.key, e.now);
    TablesAfterRedeem(l, After(l, before), e, LifeAfter(l, before, e.secret), e.now);
  }

  /** The offer table and the consumed table never share a secret. */
  lemma OffersAndConsumedDisjoint(l: Limits, events: seq<Event>, secret: Secret, clock: int)
    requires Monotone(events) && FreshSecrets(events) && ClockCovers(events, clock)
    ensures Digest(secret) !in After(l, events).offers || Digest(secret) !in After(l, events).consumed
  {
    TablesFollowLife(l, events, secret, clock);
  }

  /** The life of a secret, event by event of one run. */
  lemma LifeStep(l: Limits, events: seq<Event>, j: nat, secret: Secret)
    requires j < |events|
    ensures LifeAfter(l, events[..j + 1], secret) ==
            Living(l, LifeAfter(l, events[..j], secret), events[j], secret, Admitted(l, events, j))
  {
    var now := events[..j + 1];
    assert now[..j] == events[..j];
    assert Admitted(l, now, j) <==> Admitted(l, events, j);
  }

  lemma UnbornAtStart(l: Limits, events: seq<Event>, secret: Secret)
    ensures LifeAfter(l, events[..0], secret) == Unborn
  {
  }

  lemma OfferedOnce(events: seq<Event>, i: nat, j: nat)
    requires FreshSecrets(events) && i < j < |events| && events[i].OfferEvent? && events[j].OfferEvent?
    ensures events[i].secret != events[j].secret
  {
  }

  /** Between the events `k` and `n` no redemption of the secret is admitted. */
  ghost predicate NoneBetween(l: Limits, events: seq<Event>, k: nat, n: nat, secret: Secret)
    requires n <= |events|
  {
    forall j :: k < j < n && events[j].secret == secret ==> !Admitted(l, events, j)
  }

  /** An open life comes from the one offer of its secret. */
  lemma {:induction false} OpenComesFromOffer(l: Limits, events: seq<Event>, n: nat, secret: Secret) returns (k: nat)
    requires n <= |events| && LifeAfter(l, events[..n], secret).Open?
    ensures k < n && events[k].OfferEvent? && events[k].secret == secret
    ensures LifeAfter(l, events[..n], secret).offer == Offer(events[k].principal, events[k].now + l.offerTtl)
    ensures NoneBetween(l, events, k, n, secret)
  {
    hide LifeAfter, Admitted;
    if n == 0 {
      UnbornAtStart(l, events, secret);
      assert false;
    }
    LifeStep(l, events, n - 1, secret);
    if events[n - 1].OfferEvent? && events[n - 1].secret == secret {
      k := n - 1;
    } else {
      k := OpenComesFromOffer(l, events, n - 1, secret);
    }
  }

  lemma {:induction false} OfferStaysOpen(l: Limits, events: seq<Event>, k: nat, n: nat)
    requires FreshSecrets(events) && k < n <= |events| && events[k].OfferEvent?
    requires NoneBetween(l, events, k, n, events[k].secret)
    ensures LifeAfter(l, events[..n], events[k].secret) == Open(Offer(events[k].principal, events[k].now + l.offerTtl))
    decreases n
  {
    hide LifeAfter, Admitted, FreshSecrets;
    LifeStep(l, events, n - 1, events[k].secret);
    if k < n - 1 {
      if events[n - 1].OfferEvent? { OfferedOnce(events, k, n - 1); }
      OfferStaysOpen(l, events, k, n - 1);
    }
  }

  ghost predicate GrantsFrom(l: Limits, events: seq<Event>, k: nat, i: nat)
    requires k < i < |events| && events[i].RedeemEvent?
  {
    && events[k].OfferEvent? && events[k].secret == events[i].secret
    && events[i].now < events[k].now + l.offerTtl
    && NoneBetween(l, events, k, i, events[i].secret)
  }

  /** Whoever redeems first wins: a redemption is granted exactly when the limiter admits it,
      its secret was offered before and has not expired, and no admitted redemption of the
      secret came in between; it is granted to the offer's creator. */
  lemma GrantedIffFirstInTime(l: Limits, events: seq<Event>, i: nat, principal: PrincipalId)
    requires Monotone(events) && FreshSecrets(events) && i < |events| && events[i].RedeemEvent?
    ensures VerdictAt(l, events, i) == Granted(principal) <==>
            && Admitted(l, events, i)
            && exists k :: 0 <= k < i && GrantsFrom(l, events, k, i) && events[k].principal == principal
  {
    VerdictFollowsLife(l, events, i);
    hide LifeAfter, VerdictAt, Monotone, FreshSecrets, NoneBetween;
    if VerdictAt(l, events, i) == Granted(principal) {
      var k := OpenComesFromOffer(l, events, i, events[i].secret);
      assert GrantsFrom(l, events, k, i);
    }
    forall k | 0 <= k < i && GrantsFrom(l, events, k, i) && events[k].principal == principal && Admitted(l, events, i)
      ensures VerdictAt(l, events, i) == Granted(principal)
    {
      OfferStaysOpen(l, events, k, i);
    }
  }

  /** Once spent, a secret stays spent until its offer's expiry. */
  lemma {:induction false} SpentForGood(l: Limits, events: seq<Event>, k: nat, i: nat, n: nat, until: int)
    requires FreshSecrets(events) && k < i < n <= |events| && events[k].OfferEvent?
    requires LifeAfter(l, events[..i + 1], events[k].secret) == Spent(until)
    ensures LifeAfter(l, events[..n], events[k].secret) == Spent(until)
    decreases n
  {
    hide LifeAfter, Admitted, FreshSecrets;
    if i < n - 1 {
      LifeStep(l, events, n - 1, events[k].secret);
      if events[n - 1].OfferEvent? { OfferedOnce(events, k, n - 1); }
      SpentForGood(l, events, k, i, n - 1, until);
    }
  }

  lemma SpentAfterGrant(l: Limits, events: seq<Event>, i: nat) returns (k: nat)
    requires Monotone(events) && FreshSecrets(events) && i < |events| && events[i].RedeemEvent?
    requires VerdictAt(l, events, i).Granted?
    ensures k < i && GrantsFrom(l, events, k, i)
    ensures LifeAfter(l, events[..i + 1], events[i].secret) == Spent(events[k].now + l.offerTtl)
  {
    VerdictFollowsLife(l, events, i);
    hide LifeAfter, VerdictAt, Monotone, FreshSecrets, NoneBetween;
    k := OpenComesFromOffer(l, events, i, events[i].secret);
    LifeStep(l, events, i, events[i].secret);
  }

  /** A pairing secret yields at most one grant; later admitted redemptions are refused as
      replays strictly before the offer's expiry and as invalid from then on. */
  lemma RetryAfterGrant(l: Limits, events: seq<Event>, i: nat, j: nat)
    requires Monotone(events) && FreshSecrets(events)
    requires i < j < |events| && events[i].RedeemEvent? && events[j].RedeemEvent?
            && events[i].secret == events[j].secret
    requires VerdictAt(l, events, i).Granted? && Admitted(l, events, j)
    ensures exists k :: 0 <= k < i && GrantsFrom(l, events, k, i)
                        && VerdictAt(l, events, j) ==
                           Refused(if events[j].now < events[k].now + l.offerTtl then Replayed else InvalidOrExpired)
  {
    hide VerdictAt, LifeAfter, Admitted, Monotone, FreshSecrets, NoneBetween;
    var k := SpentAfterGrant(l, events, i);
    VerdictFollowsLife(l, events, j);
    SpentForGood(l, events, k, i, j, events[k].now + l.offerTtl);
  }

  lemma AtMostOneGrant(l: Limits, events: seq<Event>, i: nat, j: nat)
    requires Monotone(events) && FreshSecrets(events)
    requires i < j < |events| && events[i].RedeemEvent? && events[j].RedeemEvent?
            && events[i].secret == events[j].secret
    ensures !(VerdictAt(l, events, i).Granted? && VerdictAt(l, events, j).Granted?)
  {
    if VerdictAt(l, events, i).Granted? && Admitted(l, events, j) {
      RetryAfterGrant(l, events, i, j);
    }
  }
}
