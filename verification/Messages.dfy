/** Device messages, their per-session sequence numbers and the latest-message index a session
    starts with (services/device-broker/src/usb.rs, `read_message` and `finish_hello`). */
module Messages {
  import opened Prelude

  datatype Msg = Msg(sequence: nat, kind: nat, payload: bytes)

  const PRESET_KIND: nat := 15
  const BACKUP_KIND: nat := 40
  const MODEL_REPO_KIND: nat := 51
  const DEVICE_VERSION_KIND: nat := 52

  /** Sequence numbers rise strictly along a history. */
  predicate Increasing(h: seq<Msg>) {
    forall i, j :: 0 <= i < j < |h| ==> h[i].sequence < h[j].sequence
  }

  /** The last message of each kind in a history. */
  function LatestOf(h: seq<Msg>): map<nat, Msg> {
    if h == [] then map[] else LatestOf(h[..|h| - 1])[h[|h| - 1].kind := h[|h| - 1]]
  }

  function CountOf(h: seq<Msg>, kind: nat): nat {
    if h == [] then 0 else CountOf(h[..|h| - 1], kind) + (if h[|h| - 1].kind == kind then 1 else 0)
  }

  function WithoutKind(h: seq<Msg>, kind: nat): (r: seq<Msg>)
    ensures |r| <= |h|
  {
    if h == [] then []
    else WithoutKind(h[..|h| - 1], kind) + (if h[|h| - 1].kind == kind then [] else [h[|h| - 1]])
  }

  /** The messages of a history that no later message of their kind follows, in order. */
  function LastOfKind(h: seq<Msg>): seq<Msg> {
    if h == [] then [] else WithoutKind(LastOfKind(h[..|h| - 1]), h[|h| - 1].kind) + [h[|h| - 1]]
  }

  /** Every entry is the last message of its kind in the whole history, and every kind the
      history holds has an entry. */
  lemma {:induction false} LatestIsLast(h: seq<Msg>, kind: nat) returns (i: nat)
    ensures kind in LatestOf(h) ==> i < |h| && LatestOf(h)[kind] == h[i] && h[i].kind == kind
    ensures kind in LatestOf(h) ==> forall j :: i < j < |h| ==> h[j].kind != kind
    ensures kind !in LatestOf(h) ==> forall j :: 0 <= j < |h| ==> h[j].kind != kind
  {
    i := 0;
    if h != [] {
      var n := |h| - 1;
      if h[n].kind == kind {
        i := n;
      } else {
        i := LatestIsLast(h[..n], kind);
      }
    }
  }

  /** In a rising history the entry of a kind is at least as new as any message of that kind. */
  lemma LatestIsGreatest(h: seq<Msg>, m: Msg)
    requires Increasing(h) && m in h
    ensures m.kind in LatestOf(h)
    ensures var top := LatestOf(h)[m.kind]; top in h && top.kind == m.kind && m.sequence <= top.sequence
  {
    var i := LatestIsLast(h, m.kind);
    var j :| 0 <= j < |h| && h[j] == m;
  }

  lemma GreatestIsLatest(h: seq<Msg>, m: Msg)
    requires Increasing(h) && m in h && forall x :: x in h && x.kind == m.kind ==> x.sequence <= m.sequence
    ensures m.kind in LatestOf(h) && LatestOf(h)[m.kind] == m
  {
    LatestIsGreatest(h, m);
  }

  // ------------------------------------------------------------ merges of two histories

  /** `all` is an order-preserving merge of `a` and `b`. */
  ghost predicate MergeOf(all: seq<Msg>, a: seq<Msg>, b: seq<Msg>) {
    if all == [] then a == [] && b == []
    else
      var n := |all| - 1;
      || (a != [] && a[|a| - 1] == all[n] && MergeOf(all[..n], a[..|a| - 1], b))
      || (b != [] && b[|b| - 1] == all[n] && MergeOf(all[..n], a, b[..|b| - 1]))
  }

  lemma {:induction false} MergeGrows(all: seq<Msg>, a: seq<Msg>, b: seq<Msg>, more: seq<Msg>)
    requires MergeOf(all, a, b)
    ensures MergeOf(all + more, a + more, b) && MergeOf(all + more, a, b + more)
  {
    if more == [] {
      assert all + more == all && a + more == a && b + more == b;
    } else {
      var n := |more| - 1;
      MergeGrows(all, a, b, more[..n]);
      assert (all + more)[..|all + more| - 1] == all + more[..n];
      assert (a + more)[..|a + more| - 1] == a + more[..n] && (b + more)[..|b + more| - 1] == b + more[..n];
    }
  }

  lemma {:induction false} MergeWhole(all: seq<Msg>, a: seq<Msg>, b: seq<Msg>)
    requires MergeOf(all, a, b)
    ensures |all| == |a| + |b| && (b == [] ==> a == all)
  {
    if all != [] {
      var n := |all| - 1;
      assert all == all[..n] + [all[n]];
      if a != [] && a[|a| - 1] == all[n] && MergeOf(all[..n], a[..|a| - 1], b) {
        MergeWhole(all[..n], a[..|a| - 1], b);
      } else {
        MergeWhole(all[..n], a, b[..|b| - 1]);
      }
    }
  }

  /** A merge holds the members of both; of a rising one each member comes from one of them. */
  lemma {:induction false} MergeMembers(all: seq<Msg>, a: seq<Msg>, b: seq<Msg>, m: Msg)
    requires MergeOf(all, a, b)
    ensures m in all <==> m in a || m in b
    ensures Increasing(all) ==> !(m in a && m in b)
  {
    if all != [] {
      var n := |all| - 1;
      assert all == all[..n] + [all[n]];
      assert Increasing(all) ==> all[n] !in all[..n];
      if a != [] && a[|a| - 1] == all[n] && MergeOf(all[..n], a[..|a| - 1], b) {
        assert a == a[..|a| - 1] + [all[n]];
        MergeMembers(all[..n], a[..|a| - 1], b, m);
        if m == all[n] { MergeMembers(all[..n], a[..|a| - 1], b, all[n]); }
      } else {
        assert b == b[..|b| - 1] + [all[n]];
        MergeMembers(all[..n], a, b[..|b| - 1], m);
      }
    }
  }

  // ---------------------------------------------------------------- sorted index

  /** `s` lists the values of an index by rising sequence number. */
  ghost predicate Lists(s: seq<Msg>, index: map<nat, Msg>) {
    Increasing(s) && forall m :: m in s <==> m in index.Values
  }

  lemma {:induction false} WithoutKindMembers(h: seq<Msg>, kind: nat, m: Msg)
    ensures m in WithoutKind(h, kind) <==> m in h && m.kind != kind
  {
    if h != [] {
      var t := h[..|h| - 1];
      WithoutKindMembers(t, kind, m);
      assert h == t + [h[|h| - 1]];
    }
  }

  lemma {:induction false} WithoutKindIncreasing(h: seq<Msg>, kind: nat, bound: nat)
    requires Increasing(h) && forall i :: 0 <= i < |h| ==> h[i].sequence < bound
    ensures Increasing(WithoutKind(h, kind))
    ensures forall i :: 0 <= i < |WithoutKind(h, kind)| ==> WithoutKind(h, kind)[i].sequence < bound
  {
    if h != [] {
      var t, m := h[..|h| - 1], h[|h| - 1];
      WithoutKindIncreasing(t, kind, m.sequence);
    }
  }

  lemma {:induction false} LastOfKindMembers(h: seq<Msg>, m: Msg)
    ensures m in LastOfKind(h) <==> m.kind in LatestOf(h) && LatestOf(h)[m.kind] == m
  {
    if h != [] {
      var t, last := h[..|h| - 1], h[|h| - 1];
      LastOfKindMembers(t, m);
      WithoutKindMembers(LastOfKind(t), last.kind, m);
    }
  }

  lemma {:induction false} LastOfKindIncreasing(h: seq<Msg>, bound: nat)
    requires Increasing(h) && forall i :: 0 <= i < |h| ==> h[i].sequence < bound
    ensures Increasing(LastOfKind(h))
    ensures forall i :: 0 <= i < |LastOfKind(h)| ==> LastOfKind(h)[i].sequence < bound
  {
    if h != [] {
      var t, m := h[..|h| - 1], h[|h| - 1];
      LastOfKindIncreasing(t, m.sequence);
      WithoutKindIncreasing(LastOfKind(t), m.kind, m.sequence);
    }
  }

  lemma {:induction false} LatestKeysAreKinds(h: seq<Msg>, kind: nat)
    ensures kind in LatestOf(h) ==> LatestOf(h)[kind].kind == kind
  {
    if h != [] { LatestKeysAreKinds(h[..|h| - 1], kind); }
  }

  /** Sorting the index of a history by sequence number lists, in order, the messages that are
      the last of their kind. */
  lemma LastOfKindListsIndex(h: seq<Msg>)
    requires Increasing(h)
    ensures Lists(LastOfKind(h), LatestOf(h))
  {
    var bound := if h == [] then 0 else h[|h| - 1].sequence + 1;
    LastOfKindIncreasing(h, bound);
    forall m ensures m in LastOfKind(h) <==> m in LatestOf(h).Values {
      LastOfKindMembers(h, m);
      if m in LatestOf(h).Values {
        var k :| k in LatestOf(h) && LatestOf(h)[k] == m;
        LatestKeysAreKinds(h, k);
      }
    }
  }

  lemma HeadIsLeast(s: seq<Msg>, m: Msg)
    requires Increasing(s) && m in s
    ensures s[0].sequence <= m.sequence
    ensures m in s[1..] <==> m != s[0]
  {
    assert s == [s[0]] + s[1..];
    assert forall x :: x in s[1..] ==> s[0].sequence < x.sequence;
  }

  /** A strictly rising list is determined by its members. */
  lemma {:induction false} IncreasingUnique(s: seq<Msg>, t: seq<Msg>)
    requires Increasing(s) && Increasing(t) && forall m :: m in s <==> m in t
    ensures s == t
    decreases |s|
  {
    assert |s| > 0 ==> s[0] in s;
    assert |t| > 0 ==> t[0] in t;
    if s != [] {
      HeadIsLeast(s, t[0]);
      HeadIsLeast(t, s[0]);
      assert t[0] in s && s[0] in t;
      assert s[0] == t[0];
      forall m ensures m in s[1..] <==> m in t[1..] {
        if m in s[1..] { HeadIsLeast(s, m); HeadIsLeast(t, m); }
        if m in t[1..] { HeadIsLeast(t, m); HeadIsLeast(s, m); }
      }
      IncreasingUnique(s[1..], t[1..]);
    }
  }

  /** Lists the values of an index by rising sequence number: repeatedly appends the least value
      not yet listed. Distinct values must have distinct sequence numbers. */
  method SortedValues(index: map<nat, Msg>) returns (s: seq<Msg>)
    requires forall a, b :: a in index.Values && b in index.Values && a.sequence == b.sequence ==> a == b
    ensures Lists(s, index)
  {
    s := [];
    var rest := index.Values;
    while rest != {}
      invariant rest <= index.Values
      invariant forall m :: m in s <==> m in index.Values && m !in rest
      invariant forall i, m :: 0 <= i < |s| && m in rest ==> s[i].sequence < m.sequence
      invariant Increasing(s)
      decreases rest
    {
      var least := Least(rest);
      s := s + [least];
      rest := rest - {least};
    }
  }

  method Least(values: set<Msg>) returns (least: Msg)
    requires values != {}
    ensures least in values && forall m :: m in values ==> least.sequence <= m.sequence
  {
    least :| least in values;
    var rest := values - {least};
    while rest != {}
      invariant rest <= values && least in values
      invariant forall m :: m in values && m !in rest ==> least.sequence <= m.sequence
      decreases rest
    {
      var m :| m in rest;
      if m.sequence < least.sequence { least := m; }
      rest := rest - {m};
    }
  }

  // ------------------------------------------------------------------- the hello

  /** What one `read_message` comes to: a message, nothing within its timeout, or an error. */
  datatype Reading = Got(kind: nat, payload: bytes) | Nothing | Failed

  /** The index a session starts with. */
  datatype Hello = Hello(
    latest: map<nat, Msg>,
    counts: map<nat, nat>,
    synchronized: bool,
    history: seq<Msg>,  // every message the hello read, in order
    nextSequence: nat
  )

  /** A history numbered without gaps from `first`. */
  predicate Numbered(h: seq<Msg>, first: nat) {
    forall i :: 0 <= i < |h| ==> h[i].sequence == first + i
  }

  lemma NumberedIncreases(h: seq<Msg>, first: nat)
    requires Numbered(h, first)
    ensures Increasing(h)
  {
  }

  ghost predicate Indexes(hello: Hello, first: nat) {
    && Numbered(hello.history, first) && hello.nextSequence == first + |hello.history|
    && hello.latest == LatestOf(hello.history)
    && (forall k :: k in hello.latest <==> k in hello.counts)
    && (forall k :: k in hello.counts ==> hello.counts[k] == CountOf(hello.history, k))
  }

  function Recorded(hello: Hello, kind: nat, payload: bytes): Hello {
    var m := Msg(hello.nextSequence, kind, payload);
    Hello(hello.latest[kind := m],
          hello.counts[kind := (if kind in hello.counts then hello.counts[kind] else 0) + 1],
          hello.synchronized, hello.history + [m], hello.nextSequence + 1)
  }

  lemma {:induction false} NoneOfKind(h: seq<Msg>, kind: nat)
    requires kind !in LatestOf(h)
    ensures CountOf(h, kind) == 0
  {
    if h != [] { NoneOfKind(h[..|h| - 1], kind); }
  }

  lemma RecordedIndexes(hello: Hello, first: nat, kind: nat, payload: bytes)
    requires Indexes(hello, first)
    ensures Indexes(Recorded(hello, kind, payload), first)
  {
    var next := Recorded(hello, kind, payload);
    var m := Msg(hello.nextSequence, kind, payload);
    assert next.history[..|next.history| - 1] == hello.history;
    if kind !in hello.latest { NoneOfKind(hello.history, kind); }
  }

  /** The messages among some readings, numbered from `first`. */
  function Taken(readings: seq<Reading>, first: nat): seq<Msg> {
    if readings == [] then []
    else
      var before := Taken(readings[..|readings| - 1], first);
      match readings[|readings| - 1]
      case Got(kind, payload) => before + [Msg(first + |before|, kind, payload)]
      case _ => before
  }

  predicate GotPreset(reading: Reading) {
    reading.Got? && reading.kind == PRESET_KIND
  }

  /** The hello has read exactly the first `n` answers, and indexed their messages. */
  ghost predicate HasRead(hello: Hello, answers: seq<Reading>, n: nat, first: nat) {
    n <= |answers| && hello.history == Taken(answers[..n], first) && Indexes(hello, first)
  }

  lemma ReadsOneMore(hello: Hello, answers: seq<Reading>, n: nat, first: nat)
    requires HasRead(hello, answers, n, first) && n < |answers|
    ensures match answers[n]
            case Got(kind, payload) => HasRead(Recorded(hello, kind, payload), answers, n + 1, first)
            case _ => HasRead(hello, answers, n + 1, first)
  {
    hide Indexes;
    assert answers[..n + 1][..n] == answers[..n];
    assert hello.nextSequence == first + |hello.history| by { IndexesNext(hello, first); }
    match answers[n]
    case Got(kind, payload) => RecordedIndexes(hello, first, kind, payload);
    case _ =>
  }

  lemma IndexesNext(hello: Hello, first: nat)
    requires Indexes(hello, first)
    ensures hello.nextSequence == first + |hello.history|
  {
  }

  lemma SynchronizedHasRead(hello: Hello, answers: seq<Reading>, n: nat, first: nat)
    requires HasRead(hello, answers, n, first)
    ensures HasRead(hello.(synchronized := true), answers, n, first)
  {
  }

  /** Reads up to a deadline, given as a number of answers, or through the first preset. */
  method ReadUntilPreset(start: Hello, answers: seq<Reading>, from: nat, deadline: nat, first: nat)
    returns (r: Result<Hello, ()>, next: nat)
    requires HasRead(start, answers, from, first) && !start.synchronized && from <= deadline <= |answers|
    ensures from <= next <= deadline
    ensures r.Err? ==> next > 0 && answers[next - 1].Failed?
    ensures r.Ok? ==> HasRead(r.value, answers, next, first)
    ensures r.Ok? ==>
              forall i :: from <= i < next ==>
                !answers[i].Failed? && (GotPreset(answers[i]) <==> r.value.synchronized && i == next - 1)
    ensures r.Ok? && !r.value.synchronized ==> next == deadline
    ensures r.Ok? && r.value.synchronized ==> from < next
  {
    hide HasRead, Recorded;
    var hello := start;
    next := from;
    while next < deadline && !hello.synchronized
      invariant from <= next <= deadline && HasRead(hello, answers, next, first)
      invariant forall i :: from <= i < next ==>
                  !answers[i].Failed? && (GotPreset(answers[i]) <==> hello.synchronized && i == next - 1)
      invariant hello.synchronized ==> from < next
      decreases deadline - next
    {
      ReadsOneMore(hello, answers, next, first);
      var reading := answers[next];
      next := next + 1;
      if reading.Failed? { return Err(()), next; }
      if reading.Got? {
        var recorded := Recorded(hello, reading.kind, reading.payload);
        RecordedKeepsSynchronized(hello, reading.kind, reading.payload);
        hello := recorded;
        if reading.kind == PRESET_KIND {
          SynchronizedHasRead(hello, answers, next, first);
          hello := hello.(synchronized := true);
        }
      }
    }
    r := Ok(hello);
  }

  lemma RecordedKeepsSynchronized(hello: Hello, kind: nat, payload: bytes)
    ensures Recorded(hello, kind, payload).synchronized == hello.synchronized
  {
  }

  const SEED_KINDS: set<nat> := {2, 13, 14, 17, 34}

  predicate Seeded(hello: Hello) {
    SEED_KINDS <= hello.latest.Keys
  }

  /** The first `n` answers hold a message of every seed kind. */
  predicate SeededBy(answers: seq<Reading>, n: nat, first: nat)
    requires n <= |answers|
  {
    {2, 13, 14, 17, 34} <= LatestOf(Taken(answers[..n], first)).Keys
  }

  /** Where the two phases that wait for a preset end if none comes. */
  function PresetDeadline(answers: seq<Reading>, windows: (nat, nat, nat)): (d: nat)
    ensures d <= |answers|
  {
    Min(Min(windows.0, |answers|) + windows.1, |answers|)
  }

  /** The hello is one that read `consumed` answers, the seed phase those from `seeding` on: the
      phases before it stop at the first preset or their deadline, and it stops as soon as the
      seed kinds are present, or at its own. The session counts as synchronized exactly when a
      preset came before the seed phase; one that comes later is only indexed. */
  ghost predicate HelloOf(hello: Hello, first: nat, answers: seq<Reading>, windows: (nat, nat, nat), seeding: nat,
        consumed: nat) {
    && seeding <= consumed && HasRead(hello, answers, consumed, first)
    && (forall i :: 0 <= i < consumed ==> !answers[i].Failed?)
    && (forall i :: 0 <= i < seeding - 1 ==> !GotPreset(answers[i]))
    && (hello.synchronized <==> seeding > 0 && GotPreset(answers[seeding - 1]))
    && seeding <= PresetDeadline(answers, windows)
    && (!hello.synchronized ==> seeding == PresetDeadline(answers, windows))
    && (forall n :: seeding <= n < consumed ==> !SeededBy(answers, n, first))
    && consumed <= Min(seeding + windows.2, |answers|)
    && (SeededBy(answers, consumed, first) || consumed == Min(seeding + windows.2, |answers|))
  }

  /** These conditions leave no choice: the answers and the deadlines fix the session's start. */
  lemma HelloIsDetermined(a: Hello, b: Hello, first: nat, answers: seq<Reading>, windows: (nat, nat, nat),
        seeding: nat, consumed: nat, seeding': nat, consumed': nat)
    requires HelloOf(a, first, answers, windows, seeding, consumed)
    requires HelloOf(b, first, answers, windows, seeding', consumed')
    ensures seeding == seeding' && consumed == consumed' && a == b
  {
    hide GotPreset, PresetDeadline, SeededBy, LatestOf, CountOf, Taken, Numbered;
    assert a.counts == b.counts;
  }

  /** A session can start with this hello: at least one message, the reply to the handshake, has
      been numbered before it. */
  ghost predicate Heard(hello: Hello, first: nat) {
    && first >= 2
    && exists answers, windows, seeding, consumed :: HelloOf(hello, first, answers, windows, seeding, consumed)
  }

  lemma HeardIndexes(hello: Hello, first: nat)
    requires Heard(hello, first)
    ensures Indexes(hello, first)
  {
    hide Indexes, GotPreset, PresetDeadline, SeededBy;
  }

  /** Reads up to a deadline, or until the seed kinds are present. */
  method ReadUntilSeeded(start: Hello, answers: seq<Reading>, from: nat, deadline: nat, first: nat)
    returns (r: Result<Hello, ()>, next: nat)
    requires HasRead(start, answers, from, first) && from <= deadline <= |answers|
    ensures from <= next <= deadline
    ensures r.Err? ==> next > 0 && answers[next - 1].Failed?
    ensures r.Ok? ==> HasRead(r.value, answers, next, first) && r.value.synchronized == start.synchronized
    ensures r.Ok? ==> forall i :: from <= i < next ==> !answers[i].Failed?
    ensures r.Ok? ==> forall n :: from <= n < next ==> !SeededBy(answers, n, first)
    ensures r.Ok? ==> SeededBy(answers, next, first) || next == deadline
  {
    hide HasRead, Recorded, Seeded, SeededBy;
    var hello := start;
    next := from;
    SeededIff(hello, answers, next, first);
    while next < deadline && !Seeded(hello)
      invariant from <= next <= deadline && HasRead(hello, answers, next, first)
      invariant hello.synchronized == start.synchronized
      invariant forall i :: from <= i < next ==> !answers[i].Failed?
      invariant Seeded(hello) <==> SeededBy(answers, next, first)
      invariant forall n :: from <= n < next ==> !SeededBy(answers, n, first)
      decreases deadline - next
    {
      ReadsOneMore(hello, answers, next, first);
      var reading := answers[next];
      next := next + 1;
      if reading.Failed? { return Err(()), next; }
      if reading.Got? {
        RecordedKeepsSynchronized(hello, reading.kind, reading.payload);
        hello := Recorded(hello, reading.kind, reading.payload);
      }
      SeededIff(hello, answers, next, first);
    }
    r := Ok(hello);
  }

  /** Collects the messages of a new session: until the first preset or a deadline, again after
      asking for the preset, and then until the seed kinds are present. `answers` is what the
      device answers; each phase ends with its deadline, at the read given by `windows`. */
  method FinishHello(first: nat, answers: seq<Reading>, windows: (nat, nat, nat))
    returns (r: Result<Hello, ()>, seeding: nat, consumed: nat)
    ensures seeding <= consumed <= |answers|
    ensures r.Err? <==> consumed > 0 && answers[consumed - 1].Failed?
    ensures r.Ok? ==> HelloOf(r.value, first, answers, windows, seeding, consumed)
  {
    hide HasRead, SeededBy;
    var hello := Hello(map[], map[], false, [], first);
    assert HasRead(hello, answers, 0, first) by { NothingRead(answers, first); }
    r, seeding := ReadUntilPreset(hello, answers, 0, Min(windows.0, |answers|), first);
    if r.Err? { return r, seeding, seeding; }
    if !r.value.synchronized {
      r, seeding := ReadUntilPreset(r.value, answers, seeding, Min(seeding + windows.1, |answers|), first);
      if r.Err? { return r, seeding, seeding; }
    }
    r, consumed := ReadUntilSeeded(r.value, answers, seeding, Min(seeding + windows.2, |answers|), first);
  }

  lemma SeededIff(hello: Hello, answers: seq<Reading>, n: nat, first: nat)
    requires HasRead(hello, answers, n, first)
    ensures Seeded(hello) <==> SeededBy(answers, n, first)
  {
    hide LatestOf, Taken, Numbered, CountOf;
  }

  lemma NothingRead(answers: seq<Reading>, first: nat)
    ensures HasRead(Hello(map[], map[], false, [], first), answers, 0, first)
  {
    assert answers[..0] == [];
  }

  // ------------------------------------------------------- the status of a new session

  /** How many messages of a history are of one of some kinds. */
  function CountIn(h: seq<Msg>, kinds: set<nat>): nat {
    if h == [] then 0 else CountIn(h[..|h| - 1], kinds) + (if h[|h| - 1].kind in kinds then 1 else 0)
  }

  lemma {:induction false} CountSplits(h: seq<Msg>, kinds: set<nat>, k: nat)
    requires k in kinds
    ensures CountIn(h, kinds) == CountOf(h, k) + CountIn(h, kinds - {k})
  {
    if h != [] { CountSplits(h[..|h| - 1], kinds, k); }
  }

  lemma {:induction false} CountsAll(h: seq<Msg>, kinds: set<nat>)
    requires forall i :: 0 <= i < |h| ==> h[i].kind in kinds
    ensures CountIn(h, kinds) == |h|
  {
    if h != [] { CountsAll(h[..|h| - 1], kinds); }
  }

  lemma {:induction false} CountsNone(h: seq<Msg>)
    ensures CountIn(h, {}) == 0
  {
    if h != [] { CountsNone(h[..|h| - 1]); }
  }

  lemma KindsIndexed(h: seq<Msg>, i: nat)
    requires i < |h|
    ensures h[i].kind in LatestOf(h)
  {
    var j := LatestIsLast(h, h[i].kind);
  }

  /** The counters of a new session add up to the messages its hello read. */
  method TotalCount(hello: Hello, first: nat) returns (total: nat)
    requires Indexes(hello, first)
    ensures total == |hello.history|
  {
    hide LatestOf, CountOf, CountIn;
    var rest := hello.counts.Keys;
    total := 0;
    forall i | 0 <= i < |hello.history| ensures hello.history[i].kind in rest { KindsIndexed(hello.history, i); }
    CountsAll(hello.history, rest);
    while rest != {}
      invariant rest <= hello.counts.Keys && total + CountIn(hello.history, rest) == |hello.history|
      decreases rest
    {
      var k :| k in rest;
      CountSplits(hello.history, rest, k);
      total := total + hello.counts[k];
      rest := rest - {k};
    }
    CountsNone(hello.history);
  }

  /** The index of a rising history holds no two messages of one number. */
  lemma IndexIsDistinct(h: seq<Msg>, a: Msg, b: Msg)
    requires Increasing(h) && a in LatestOf(h).Values && b in LatestOf(h).Values && a.sequence == b.sequence
    ensures a == b
  {
    var j :| j in LatestOf(h) && LatestOf(h)[j] == a;
    var k :| k in LatestOf(h) && LatestOf(h)[k] == b;
    var x := LatestIsLast(h, j);
    var y := LatestIsLast(h, k);
  }

  /** The kind of the newest message of an index. */
  method NewestKind(index: map<nat, Msg>, ghost sorted: seq<Msg>) returns (kind: Option<nat>)
    requires Lists(sorted, index)
    ensures kind == if sorted == [] then None else Some(sorted[|sorted| - 1].kind)
  {
    var rest := index.Values;
    assert sorted != [] ==> sorted[0] in rest;
    if rest == {} { return None; }
    var newest :| newest in rest;
    while rest != {}
      invariant rest <= index.Values && newest in index.Values
      invariant forall m :: m in index.Values && m !in rest ==> m.sequence <= newest.sequence
      decreases rest
    {
      var m :| m in rest;
      if m.sequence > newest.sequence { newest := m; }
      rest := rest - {m};
    }
    kind := Some(newest.kind);
  }

}
