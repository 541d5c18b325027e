/** Bounded event logs, cursor reads over them and bounded subscribers
    (services/device-broker/src/worker.rs, `events_since`, `state_events_since`,
    `publish_state_frame`, `ingest_incoming`). */
module EventLog {
  import opened Prelude

  const LOG_LIMIT: nat := 4096          // STATE_EVENT_MAXIMUM_LIMIT
  const SUBSCRIBER_CAPACITY: nat := 256 // STATE_EVENT_DEFAULT_LIMIT

  /** The last `n` elements of a sequence, or all of it. */
  function LastN<T>(s: seq<T>, n: nat): (r: seq<T>)
    ensures |r| == if |s| < n then |s| else n
  {
    if |s| <= n then s else s[|s| - n..]
  }

  lemma LastNOfLastN<T>(s: seq<T>, t: seq<T>, n: nat)
    ensures LastN(LastN(s, n) + t, n) == LastN(s + t, n)
  {
    if |s| > n {
      var a, b := LastN(s, n) + t, s + t;
      assert forall i :: 0 <= i < |a| ==> a[i] == b[|s| - n + i];
    }
  }

  // ---------------------------------------------------------------- cursor reads

  function Filter<T>(s: seq<T>, keep: T -> bool): (r: seq<T>)
    ensures |r| <= |s|
    ensures forall x :: x in r ==> x in s && keep(x)
  {
    if s == [] then []
    else Filter(s[..|s| - 1], keep) + (if keep(s[|s| - 1]) then [s[|s| - 1]] else [])
  }

  /** Entries are numbered by `number`; sequence numbers rise strictly along a log. */
  ghost predicate Rising<T>(log: seq<T>, number: T -> nat) {
    forall i, j :: 0 <= i < j < |log| ==> number(log[i]) < number(log[j])
  }

  function Matching<T>(log: seq<T>, number: T -> nat, keep: T -> bool, cursor: nat): (r: seq<T>)
    ensures forall x :: x in r ==> x in log && number(x) > cursor && keep(x)
  {
    Filter(log, x => number(x) > cursor && keep(x))
  }

  function PageSize(limit: nat): nat {
    Min(limit, LOG_LIMIT)
  }

  /** One cursor read: the first entries past the cursor that match, up to the limit. */
  function Page<T>(log: seq<T>, number: T -> nat, keep: T -> bool, cursor: nat, limit: nat): seq<T> {
    var all := Matching(log, number, keep, cursor);
    if |all| <= PageSize(limit) then all else all[..PageSize(limit)]
  }

  lemma {:induction false} FilterConcat<T>(a: seq<T>, b: seq<T>, keep: T -> bool)
    ensures Filter(a + b, keep) == Filter(a, keep) + Filter(b, keep)
  {
    if b == [] {
      assert a + b == a;
    } else {
      assert (a + b)[..|a + b| - 1] == a + b[..|b| - 1];
      FilterConcat(a, b[..|b| - 1], keep);
    }
  }

  /** The iterator chain of `events_since`: scans the log and stops at the limit. */
  method EventsSince<T>(log: seq<T>, number: T -> nat, keep: T -> bool, cursor: nat, limit: nat) returns (page: seq<T>)
    ensures page == Page(log, number, keep, cursor, limit)
  {
    var size := Min(limit, LOG_LIMIT);
    page := [];
    var i := 0;
    while i < |log| && |page| < size
      invariant 0 <= i <= |log| && |page| <= size
      invariant page == Matching(log[..i], number, keep, cursor)
      decreases |log| - i
    {
      assert log[..i + 1][..i] == log[..i];
      if number(log[i]) > cursor && keep(log[i]) { page := page + [log[i]]; }
      i := i + 1;
    }
    assert log == log[..i] + log[i..];
    FilterConcat(log[..i], log[i..], x => number(x) > cursor && keep(x));
    if i == |log| { assert log[..i] == log; }
  }

  lemma {:induction false} FilterRising<T>(log: seq<T>, number: T -> nat, keep: T -> bool)
    requires Rising(log, number)
    ensures Rising(Filter(log, keep), number)
  {
    if log != [] {
      var t := log[..|log| - 1];
      FilterRising(t, number, keep);
      assert forall x :: x in t ==> number(x) < number(log[|log| - 1]);
    }
  }

  /** Moving the cursor onto an entry of a rising list leaves exactly what follows it. */
  lemma {:induction false} FilterPast<T>(log: seq<T>, number: T -> nat, i: nat)
    requires Rising(log, number) && i < |log|
    ensures Filter(log, x => number(x) > number(log[i])) == log[i + 1..]
    decreases |log|
  {
    var n := |log| - 1;
    var t := log[..n];
    var past := x => number(x) > number(log[i]);
    if i == n {
      NonePast(t, number, number(log[n]));
    } else {
      FilterPast(t, number, i);
      assert log[i + 1..] == t[i + 1..] + [log[n]];
    }
  }

  lemma {:induction false} NonePast<T>(log: seq<T>, number: T -> nat, cursor: nat)
    requires forall i :: 0 <= i < |log| ==> number(log[i]) <= cursor
    ensures Filter(log, x => number(x) > cursor) == []
  {
    if log != [] { NonePast(log[..|log| - 1], number, cursor); }
  }

  lemma {:induction false} FilterTwice<T>(log: seq<T>, outer: T -> bool, inner: T -> bool, both: T -> bool)
    requires forall x :: both(x) <==> outer(x) && inner(x)
    ensures Filter(Filter(log, inner), outer) == Filter(log, both)
  {
    if log != [] {
      var t, x := log[..|log| - 1], log[|log| - 1];
      FilterTwice(t, outer, inner, both);
      FilterConcat(Filter(t, inner), if inner(x) then [x] else [], outer);
    }
  }

  /** Advancing the cursor to the end of a page leaves the matching entries after that page. */
  lemma NextMatching<T>(log: seq<T>, number: T -> nat, keep: T -> bool, cursor: nat, i: nat)
    requires Rising(log, number) && i < |Matching(log, number, keep, cursor)|
    ensures var all := Matching(log, number, keep, cursor);
            Matching(log, number, keep, number(all[i])) == all[i + 1..]
  {
    var all := Matching(log, number, keep, cursor);
    var mark := number(all[i]);
    assert all[i] in all;
    var inner := x => number(x) > cursor && keep(x);
    FilterRising(log, number, inner);
    FilterPast(all, number, i);
    FilterTwice(log, x => number(x) > mark, inner, x => number(x) > mark && keep(x));
  }

  /** Everything a client gets by reading page after page, moving its cursor to the number of
      the last entry of each page, until a page is empty. */
  function ReadAll<T>(log: seq<T>, number: T -> nat, keep: T -> bool, cursor: nat, limit: nat): seq<T>
    requires Rising(log, number)
    decreases |Matching(log, number, keep, cursor)|
  {
    var page := Page(log, number, keep, cursor, limit);
    if page == [] then []
    else
      assert page[|page| - 1] == Matching(log, number, keep, cursor)[|page| - 1];
      NextMatching(log, number, keep, cursor, |page| - 1);
      page + ReadAll(log, number, keep, number(page[|page| - 1]), limit)
  }

  lemma ReadAllUnfolds<T>(log: seq<T>, number: T -> nat, keep: T -> bool, cursor: nat, limit: nat)
    requires Rising(log, number) && limit > 0
    ensures var all, page := Matching(log, number, keep, cursor), Page(log, number, keep, cursor, limit);
            if page == [] then all == [] && ReadAll(log, number, keep, cursor, limit) == []
            else |page| <= |all| && page == all[..|page|] && page[|page| - 1] == all[|page| - 1]
                 && ReadAll(log, number, keep, cursor, limit)
                    == page + ReadAll(log, number, keep, number(page[|page| - 1]), limit)
  {
    hide Matching, Rising;
  }

  /** A page is the matching entries from the first on, as many as the limit allows, and never more
      than 4096. */
  lemma PageTold<T>(log: seq<T>, number: T -> nat, keep: T -> bool, cursor: nat, limit: nat)
    ensures var all, page := Matching(log, number, keep, cursor), Page(log, number, keep, cursor, limit);
            && |page| <= |all| && page == all[..|page|]
            && |page| <= limit && |page| <= 4096
            && (|page| == |all| || |page| == limit || |page| == 4096)
  {
    hide Filter;
  }

  /** Repeated cursor reads with any positive limit terminate and return every retained
      matching entry exactly once, in order. */
  lemma {:induction false} CursorReadsAreComplete<T>(
      log: seq<T>, number: T -> nat, keep: T -> bool, cursor: nat, limit: nat)
    requires Rising(log, number) && limit > 0
    ensures ReadAll(log, number, keep, cursor, limit) == Matching(log, number, keep, cursor)
    decreases |Matching(log, number, keep, cursor)|
  {
    hide *;
    var all := Matching(log, number, keep, cursor);
    var page := Page(log, number, keep, cursor, limit);
    ReadAllUnfolds(log, number, keep, cursor, limit);
    if page != [] {
      NextMatching(log, number, keep, cursor, |page| - 1);
      CursorReadsAreComplete(log, number, keep, number(page[|page| - 1]), limit);
      assert all == all[..|page|] + all[|page|..];
    }
  }

  /** A page is empty exactly when nothing retained matches past the cursor. */
  lemma EmptyPageIff<T>(log: seq<T>, number: T -> nat, keep: T -> bool, cursor: nat, limit: nat)
    requires limit > 0
    ensures Page(log, number, keep, cursor, limit) == [] <==>
            forall x :: x in log ==> !(number(x) > cursor && keep(x))
  {
    hide Filter;
    forall x | x in log && number(x) > cursor && keep(x) ensures x in Matching(log, number, keep, cursor) {
      FilterHas(log, y => number(y) > cursor && keep(y), x);
    }
    var all := Matching(log, number, keep, cursor);
    if all != [] { assert all[0] in all; }
  }

  lemma {:induction false} FilterHas<T>(s: seq<T>, keep: T -> bool, x: T)
    requires x in s && keep(x)
    ensures x in Filter(s, keep)
  {
    var n := |s| - 1;
    assert s == s[..n] + [s[n]];
    if s[n] != x { FilterHas(s[..n], keep, x); }
  }

  // ------------------------------------------------------- reads between publications

  /** A log that lives on while a client reads it. `newest` is the number last given out. */
  datatype Feed<T> = Feed(log: seq<T>, newest: nat, cursor: nat, got: seq<T>)

  /** An entry is published under a new number, the log is cleared, or the client reads a page and
      moves its cursor to the last entry of it. */
  datatype FeedEvent<T> = Appended(x: T) | Cleared | PageRead(limit: nat)

  predicate FeedEnabled<T>(f: Feed<T>, number: T -> nat, e: FeedEvent<T>) {
    e.Appended? ==> number(e.x) > f.newest
  }

  function FeedNext<T>(f: Feed<T>, number: T -> nat, keep: T -> bool, e: FeedEvent<T>): Feed<T> {
    match e
    case Appended(x) => f.(log := LastN(f.log + [x], LOG_LIMIT), newest := number(x))
    case Cleared => f.(log := [])
    case PageRead(limit) =>
      var page := Page(f.log, number, keep, f.cursor, limit);
      if page == [] then f else f.(cursor := number(page[|page| - 1]), got := f.got + page)
  }

  ghost predicate FeedRun<T(!new)>(f: Feed<T>, number: T -> nat, keep: T -> bool, events: seq<FeedEvent<T>>,
        end: Feed<T>)
    decreases |events|
  {
    if events == [] then end == f
    else
      && FeedEnabled(f, number, events[0])
      && FeedRun(FeedNext(f, number, keep, events[0]), number, keep, events[1..], end)
  }

  /** The entries of a log rise up to the number last given out. */
  ghost predicate Numbers<T(!new)>(log: seq<T>, newest: nat, number: T -> nat) {
    Rising(log, number) && forall x :: x in log ==> number(x) <= newest
  }

  /** What the client that started past `start` has got is rising, lies between its start and its
      cursor, and leaves out nothing that is still retained there. */
  ghost predicate FeedOk<T(!new)>(f: Feed<T>, number: T -> nat, keep: T -> bool, start: nat) {
    && Numbers(f.log, f.newest, number)
    && Rising(f.got, number) && (forall x :: x in f.got ==> start < number(x) <= f.cursor && keep(x))
    && start <= f.cursor && (f.cursor == start || f.cursor <= f.newest)
    && forall x :: x in f.log && start < number(x) <= f.cursor && keep(x) ==> x in f.got
  }

  lemma RisingJoins<T>(a: seq<T>, b: seq<T>, number: T -> nat)
    requires Rising(a, number) && Rising(b, number)
    requires forall x, y :: x in a && y in b ==> number(x) < number(y)
    ensures Rising(a + b, number)
  {
    var all := a + b;
    forall i, j | 0 <= i < j < |all| ensures number(all[i]) < number(all[j]) {
      if i < |a| <= j { assert a[i] in a && b[j - |a|] in b; }
    }
  }

  lemma TailRises<T>(s: seq<T>, n: nat, number: T -> nat)
    requires Rising(s, number)
    ensures Rising(LastN(s, n), number)
    ensures forall x :: x in LastN(s, n) ==> x in s
  {
  }

  lemma NumbersGrow<T(!new)>(log: seq<T>, newest: nat, number: T -> nat, x: T)
    requires Numbers(log, newest, number) && number(x) > newest
    ensures Numbers(LastN(log + [x], LOG_LIMIT), number(x), number)
    ensures forall y :: y in LastN(log + [x], LOG_LIMIT) ==> y in log || y == x
  {
    assert Rising([x], number);
    hide Rising, LastN;
    RisingJoins(log, [x], number);
    TailRises(log + [x], LOG_LIMIT, number);
  }

  lemma AppendedKeepsOk<T(!new)>(f: Feed<T>, number: T -> nat, keep: T -> bool, start: nat, x: T)
    requires FeedOk(f, number, keep, start) && number(x) > f.newest
    ensures FeedOk(FeedNext(f, number, keep, Appended(x)), number, keep, start)
  {
    hide Rising, LastN, Page, Numbers;
    NumbersGrow(f.log, f.newest, number, x);
  }

  /** A page is a rising run of entries past the cursor, and leaves out nothing on its way. */
  lemma PageFacts<T(!new)>(log: seq<T>, number: T -> nat, keep: T -> bool, cursor: nat, limit: nat)
    requires Rising(log, number)
    ensures var page := Page(log, number, keep, cursor, limit);
            && Rising(page, number)
            && (forall x :: x in page ==> x in log && number(x) > cursor && keep(x))
            && (page != [] ==>
                  forall x :: x in log && cursor < number(x) <= number(page[|page| - 1]) && keep(x) ==> x in page)
  {
    var keeps := x => number(x) > cursor && keep(x);
    FilterRising(log, number, keeps);
    var all, page := Matching(log, number, keep, cursor), Page(log, number, keep, cursor, limit);
    hide Filter;
    forall x | x in log && page != [] && cursor < number(x) <= number(page[|page| - 1]) && keep(x) ensures x in page {
      FilterHas(log, keeps, x);
      var i :| 0 <= i < |all| && all[i] == x;
      assert i < |page|;
    }
  }

  lemma PageReadKeepsOk<T(!new)>(f: Feed<T>, number: T -> nat, keep: T -> bool, start: nat, limit: nat)
    requires FeedOk(f, number, keep, start)
    ensures FeedOk(FeedNext(f, number, keep, PageRead(limit)), number, keep, start)
  {
    PageFacts(f.log, number, keep, f.cursor, limit);
    var page := Page(f.log, number, keep, f.cursor, limit);
    if page != [] {
      PageEnds(page, number);
      hide Page, Rising;
      RisingJoins(f.got, page, number);
    }
  }

  lemma PageEnds<T>(page: seq<T>, number: T -> nat)
    requires Rising(page, number) && page != []
    ensures page[|page| - 1] in page && forall x :: x in page ==> number(x) <= number(page[|page| - 1])
  {
  }

  lemma {:induction false} FeedKeepsOk<T(!new)>(f: Feed<T>, number: T -> nat, keep: T -> bool,
        events: seq<FeedEvent<T>>, end: Feed<T>, start: nat)
    requires FeedOk(f, number, keep, start) && FeedRun(f, number, keep, events, end)
    ensures FeedOk(end, number, keep, start)
    decreases |events|
  {
    if events != [] {
      match events[0] {
        case Appended(x) => AppendedKeepsOk(f, number, keep, start, x);
        case PageRead(limit) => PageReadKeepsOk(f, number, keep, start, limit);
        case Cleared =>
      }
      hide FeedOk, FeedNext;
      FeedKeepsOk(FeedNext(f, number, keep, events[0]), number, keep, events[1..], end, start);
    }
  }

  /** However publications, evictions and clears fall between a client's reads, it gets no entry
      twice and none out of order, and skips none that is still retained; once a read comes back
      empty it has every retained matching entry past its start. */
  lemma InterleavedReadsAreComplete<T(!new)>(
      f: Feed<T>, number: T -> nat, keep: T -> bool, events: seq<FeedEvent<T>>, end: Feed<T>, limit: nat)
    requires Numbers(f.log, f.newest, number) && f.got == []
    requires FeedRun(f, number, keep, events, end) && limit > 0
    ensures Rising(end.got, number)
    ensures forall x :: x in end.got ==> number(x) > f.cursor && keep(x)
    ensures forall x :: x in end.log && f.cursor < number(x) <= end.cursor && keep(x) ==> x in end.got
    ensures Page(end.log, number, keep, end.cursor, limit) == [] ==>
              forall x :: x in end.log && number(x) > f.cursor && keep(x) ==> x in end.got
  {
    FeedKeepsOk(f, number, keep, events, end, f.cursor);
    EmptyPageIff(end.log, number, keep, end.cursor, limit);
    hide Page, FeedRun;
  }

  // ------------------------------------------------------------------ subscribers

  /** One subscriber's bounded queue. `taken` and `offered` are its history: what it has
      received, and everything published to it. */
  datatype Subscriber<T> = Subscriber(queue: seq<T>, alive: bool, taken: seq<T>, offered: seq<T>)

  function Delivered<T>(s: Subscriber<T>): seq<T> {
    s.taken + s.queue
  }

  function Offer<T>(s: Subscriber<T>, x: T): Subscriber<T> {
    s.(queue := if |s.queue| < SUBSCRIBER_CAPACITY then s.queue + [x] else s.queue, offered := s.offered + [x])
  }

  /** `retain`: offers an entry to every subscriber and forgets those that have gone. */
  function OfferAll<T>(subscribers: seq<Subscriber<T>>, x: T): seq<Subscriber<T>> {
    if subscribers == [] then []
    else
      var n := |subscribers| - 1;
      OfferAll(subscribers[..n], x) + (if subscribers[n].alive then [Offer(subscribers[n], x)] else [])
  }

  /** The subscribers that are left are those that were alive, in order. Each has been offered the entry
      and has it at the end of its queue, unless that was full. */
  lemma {:induction false} OfferReachesTheLiving<T>(subscribers: seq<Subscriber<T>>, x: T)
    ensures var living, r := Filter(subscribers, (s: Subscriber<T>) => s.alive), OfferAll(subscribers, x);
            && |r| == |living|
            && forall i :: 0 <= i < |r| ==>
                 && r[i].alive && r[i].taken == living[i].taken && r[i].offered == living[i].offered + [x]
                 && r[i].queue == (if |living[i].queue| < 256 then living[i].queue + [x] else living[i].queue)
  {
    if subscribers != [] { OfferReachesTheLiving(subscribers[..|subscribers| - 1], x); }
  }

  /** `a` is `b` with some entries left out. */
  ghost predicate SubsequenceOf<T>(a: seq<T>, b: seq<T>) {
    if b == [] then a == []
    else
      var last := b[|b| - 1];
      || SubsequenceOf(a, b[..|b| - 1])
      || (a != [] && a[|a| - 1] == last && SubsequenceOf(a[..|a| - 1], b[..|b| - 1]))
  }

  /** A stalled subscriber misses entries but never sees them out of order or twice: what it
      has been delivered is an in-order subsequence of what was published to it. */
  lemma OfferKeepsSubsequence<T>(s: Subscriber<T>, x: T)
    requires SubsequenceOf(Delivered(s), s.offered)
    ensures SubsequenceOf(Delivered(Offer(s, x)), Offer(s, x).offered)
    ensures |s.queue| < SUBSCRIBER_CAPACITY ==> Delivered(Offer(s, x)) == Delivered(s) + [x]
  {
    var s' := Offer(s, x);
    assert s'.offered[..|s'.offered| - 1] == s.offered;
    if |s.queue| < SUBSCRIBER_CAPACITY {
      assert Delivered(s') == Delivered(s) + [x];
      assert Delivered(s')[..|Delivered(s')| - 1] == Delivered(s);
    }
  }

  function TakeOne<T>(s: Subscriber<T>): Subscriber<T> {
    if s.queue == [] then s else s.(queue := s.queue[1..], taken := s.taken + [s.queue[0]])
  }

  lemma TakeKeepsDelivered<T>(s: Subscriber<T>)
    ensures Delivered(TakeOne(s)) == Delivered(s) && TakeOne(s).offered == s.offered
  {
  }

  /** What can happen to one subscriber: an entry is published, or it takes one. */
  datatype Life<T> = Published(x: T) | Took

  function Live<T>(events: seq<Life<T>>): Subscriber<T> {
    if events == [] then Subscriber([], true, [], [])
    else
      var s := Live(events[..|events| - 1]);
      match events[|events| - 1]
      case Published(x) => Offer(s, x)
      case Took => TakeOne(s)
  }

  lemma {:induction false} SubscriberSeesSubsequence<T>(events: seq<Life<T>>)
    ensures SubsequenceOf(Delivered(Live(events)), Live(events).offered)
    ensures |Live(events).queue| <= SUBSCRIBER_CAPACITY
  {
    if events == [] {
      assert Delivered(Live<T>(events)) == [];
    } else {
      var before := events[..|events| - 1];
      SubscriberSeesSubsequence(before);
      match events[|events| - 1]
      case Published(x) => OfferKeepsSubsequence(Live(before), x);
      case Took => TakeKeepsDelivered(Live(before));
    }
  }

  // ---------------------------------------------------------------------- the bus

  /** A bus with everything ever published on it. */
  datatype Bus<T> = Bus(published: seq<T>, log: seq<T>, subscribers: seq<Subscriber<T>>)

  datatype BusEvent<T> = Subscribing | Publishing(x: T) | Taking(k: nat) | Leaving(k: nat) | Clearing

  function BusNext<T>(b: Bus<T>, e: BusEvent<T>): Bus<T> {
    match e
    case Subscribing => b.(subscribers := b.subscribers + [Subscriber([], true, [], [])])
    case Publishing(x) =>
      Bus(b.published + [x], LastN(b.log + [x], LOG_LIMIT), OfferAll(b.subscribers, x))
    case Taking(k) =>
      if k < |b.subscribers| then b.(subscribers := b.subscribers[k := TakeOne(b.subscribers[k])]) else b
    case Leaving(k) =>
      if k < |b.subscribers| then b.(subscribers := b.subscribers[k := b.subscribers[k].(alive := false)]) else b
    case Clearing => b.(log := [])
  }

  function BusAfter<T>(events: seq<BusEvent<T>>): Bus<T> {
    if events == [] then Bus([], [], []) else BusNext(BusAfter(events[..|events| - 1]), events[|events| - 1])
  }

  /** What was published to a subscriber is what was published since some moment; it has been
      delivered a subsequence of that, and its queue is bounded. */
  ghost predicate Follows<T>(s: Subscriber<T>, published: seq<T>) {
    && SubsequenceOf(Delivered(s), s.offered) && |s.queue| <= SUBSCRIBER_CAPACITY
    && |s.offered| <= |published| && s.offered == published[|published| - |s.offered|..]
  }

  ghost predicate AllFollow<T>(b: Bus<T>) {
    forall i :: 0 <= i < |b.subscribers| ==> Follows(b.subscribers[i], b.published)
  }

  lemma {:induction false} OfferedFrom<T>(subscribers: seq<Subscriber<T>>, x: T, i: nat) returns (k: nat)
    requires i < |OfferAll(subscribers, x)|
    ensures k < |subscribers| && subscribers[k].alive && OfferAll(subscribers, x)[i] == Offer(subscribers[k], x)
  {
    var n := |subscribers| - 1;
    if i < |OfferAll(subscribers[..n], x)| {
      k := OfferedFrom(subscribers[..n], x, i);
    } else {
      k := n;
    }
  }

  lemma OfferFollows<T>(s: Subscriber<T>, x: T, published: seq<T>)
    requires Follows(s, published)
    ensures Follows(Offer(s, x), published + [x])
  {
    OfferKeepsSubsequence(s, x);
    hide SubsequenceOf, Delivered;
    var all := published + [x];
    assert all[|all| - |s.offered| - 1..] == published[|published| - |s.offered|..] + [x];
  }

  lemma BusStepFollows<T>(b: Bus<T>, e: BusEvent<T>)
    requires AllFollow(b)
    ensures AllFollow(BusNext(b, e))
  {
    var c := BusNext(b, e);
    forall i | 0 <= i < |c.subscribers| ensures Follows(c.subscribers[i], c.published) {
      match e
      case Publishing(x) =>
        var k := OfferedFrom(b.subscribers, x, i);
        OfferFollows(b.subscribers[k], x, b.published);
      case Taking(k) =>
        if k == i { TakeKeepsDelivered(b.subscribers[k]); }
      case Subscribing => if i == |b.subscribers| { NewFollows<T>(b.published); }
      case _ =>
    }
  }

  lemma NewFollows<T>(published: seq<T>)
    ensures Follows(Subscriber([], true, [], []), published)
  {
  }

  /** Over every run of the bus, with subscribers coming, going and taking at their own pace, each
      has been delivered an in-order subsequence of what was published since it came. */
  lemma {:induction false} SubscribersFollowTheBus<T>(events: seq<BusEvent<T>>)
    ensures AllFollow(BusAfter(events))
  {
    if events != [] {
      hide AllFollow, BusNext;
      SubscribersFollowTheBus(events[..|events| - 1]);
      BusStepFollows(BusAfter(events[..|events| - 1]), events[|events| - 1]);
    } else {
      assert |BusAfter(events).subscribers| == 0;
    }
  }

  /** A bounded log with its subscribers. */
  class EventBus<T> {
    var log: seq<T>
    var subscribers: seq<Subscriber<T>>
    ghost var published: seq<T>

    ghost function State(): Bus<T>
      reads this
    {
      Bus(published, log, subscribers)
    }

    constructor ()
      ensures log == [] && subscribers == [] && State() == BusAfter([])
    {
      log, subscribers, published := [], [], [];
    }

    method Subscribe()
      modifies this`subscribers
      ensures State() == BusNext(old(State()), Subscribing)
    {
      subscribers := subscribers + [Subscriber([], true, [], [])];
    }

    /** Appends an entry, drops the oldest beyond the limit, and offers it to the subscribers. */
    method Publish(x: T)
      modifies this
      ensures log == LastN(old(log) + [x], LOG_LIMIT)
      ensures subscribers == OfferAll(old(subscribers), x)
      ensures State() == BusNext(old(State()), Publishing(x))
    {
      published := published + [x];
      log := log + [x];
      ghost var full := log;
      while |log| > LOG_LIMIT
        invariant log == LastN(full, |log|) && |log| <= |full|
        invariant |log| >= LOG_LIMIT || log == full
        invariant subscribers == old(subscribers) && published == old(published) + [x]
        decreases |log|
      {
        log := log[1..];
      }
      var kept: seq<Subscriber<T>> := [];
      var i := 0;
      while i < |subscribers|
        invariant 0 <= i <= |subscribers| && subscribers == old(subscribers)
        invariant log == LastN(full, LOG_LIMIT) && published == old(published) + [x]
        invariant kept == OfferAll(subscribers[..i], x)
        decreases |subscribers| - i
      {
        assert subscribers[..i + 1][..i] == subscribers[..i];
        if subscribers[i].alive { kept := kept + [Offer(subscribers[i], x)]; }
        i := i + 1;
      }
      assert subscribers[..i] == subscribers;
      subscribers := kept;
    }

    method Clear()
      modifies this`log
      ensures log == []
    {
      log := [];
    }
  }
}
