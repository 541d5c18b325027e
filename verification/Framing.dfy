/** The length-prefixed stream codec of the native broker
    (services/device-broker/src/rpc.rs). Bodies stay byte strings. */
module Framing {
  import opened Prelude

  const MAX_FRAME_BYTES: nat := 16777216  // IPC_MAX_FRAME_BYTES
  const HEADER_BYTES: nat := 4

  datatype FrameError = IncompleteHeader | InvalidLength(length: nat) | IncompleteBody | InputFailed | TooLarge

  /** What one attempt to read a request finds in the input. */
  datatype Frame = EndOfInput | Body(body: bytes)

  // ------------------------------------------------------------ specification

  function LowByte(n: nat): byte {
    var low: nat := n % 256;
    low
  }

  function BigEndian32(n: nat): (s: bytes)
    requires n < 0x1_0000_0000
    ensures |s| == HEADER_BYTES
  {
    [LowByte(n / 256 / 256 / 256), LowByte(n / 256 / 256), LowByte(n / 256), LowByte(n)]
  }

  function FromBigEndian32(s: bytes): nat
    requires |s| == HEADER_BYTES
  {
    var a: nat, b: nat, c: nat, d: nat := s[0], s[1], s[2], s[3];
    ((a * 256 + b) * 256 + c) * 256 + d
  }

  /** The frame at the head of an input that ends after `s`, and the input left behind it. */
  function FrameAt(s: bytes): (r: Result<(Frame, bytes), FrameError>)
    ensures r.Ok? && r.value.0.Body? ==> |r.value.1| < |s|
  {
    if s == [] then Ok((EndOfInput, []))
    else if |s| < HEADER_BYTES then Err(IncompleteHeader)
    else
      var length := FromBigEndian32(s[..HEADER_BYTES]);
      var rest := s[HEADER_BYTES..];
      if length == 0 || length > MAX_FRAME_BYTES then Err(InvalidLength(length))
      else if |rest| < length then Err(IncompleteBody)
      else Ok((Body(rest[..length]), rest[length..]))
  }

  function EncodeFrame(body: bytes): bytes
    requires |body| <= MAX_FRAME_BYTES
  {
    BigEndian32(|body|) + body
  }

  function Quad(a: nat, b: nat, c: nat, d: nat): nat {
    a * 0x100_0000 + b * 0x1_0000 + c * 0x100 + d
  }

  /** The wire format: four bytes of length, the highest first, and the body. */
  lemma FrameLayout(body: bytes)
    requires |body| <= MAX_FRAME_BYTES
    ensures var s := EncodeFrame(body);
            && |s| == 4 + |body| && s[4..] == body
            && Quad(s[0], s[1], s[2], s[3]) == |body|
  {
    BigEndianRoundTrip(|body|);
    hide BigEndian32;
    assert EncodeFrame(body)[..4] == BigEndian32(|body|);
  }

  /** What a reader makes of an input that ends after `s`: nothing at its end, a frame if its length is
      between 1 and 16 MiB and all of it is there, and otherwise the error that is met first. */
  lemma FrameTold(s: bytes)
    ensures s == [] ==> FrameAt(s) == Ok((EndOfInput, []))
    ensures 1 <= |s| < 4 ==> FrameAt(s) == Err(IncompleteHeader)
    ensures |s| >= 4 ==>
              var n := Quad(s[0], s[1], s[2], s[3]);
              FrameAt(s) == if n == 0 || n > 16 * 1024 * 1024 then Err(InvalidLength(n))
                            else if |s| < 4 + n then Err(IncompleteBody)
                            else Ok((Body(s[4..4 + n]), s[4 + n..]))
  {
    if |s| >= 4 {
      var n := FromBigEndian32(s[..HEADER_BYTES]);
      if |s| >= 4 + n { assert s[4..][..n] == s[4..4 + n] && s[4..][n..] == s[4 + n..]; }
    }
  }

  predicate Sendable(bodies: seq<bytes>) {
    forall i :: 0 <= i < |bodies| ==> 1 <= |bodies[i]| <= MAX_FRAME_BYTES
  }

  function EncodeAll(bodies: seq<bytes>): bytes
    requires Sendable(bodies)
  {
    if bodies == [] then [] else EncodeFrame(bodies[0]) + EncodeAll(bodies[1..])
  }

  /** Why a stream of frames stopped being read. */
  datatype Ending = Clean | Broken(error: FrameError)

  /** Every request a reader takes from an input, up to its clean end or first error. */
  function DecodeAll(s: bytes): (seq<bytes>, Ending)
    decreases |s|
  {
    match FrameAt(s)
    case Err(e) => ([], Broken(e))
    case Ok((EndOfInput, _)) => ([], Clean)
    case Ok((Body(body), rest)) => var (more, end) := DecodeAll(rest); ([body] + more, end)
  }

  // ---------------------------------------------------------------- the reader

  /** How the operating system serves one read: a preferred fragment size, or a failure. */
  datatype Service = Fragment(size: nat) | Failure

  /** An input whose reads return fragments of any size from one byte up. */
  class InputStream {
    var data: bytes
    var service: seq<Service>

    constructor (data: bytes, service: seq<Service>)
      ensures this.data == data && this.service == service
    {
      this.data := data;
      this.service := service;
    }

    /** Fills between one and `room` bytes, or none at the end of the input. */
    method Read(room: nat) returns (r: Result<bytes, FrameError>)
      requires room > 0
      modifies this
      ensures r.Err? ==> r.error == InputFailed && Failure in old(service) && data == old(data)
      ensures r.Ok? ==> r.value + data == old(data) && |r.value| <= room
      ensures r.Ok? ==> (r.value == [] <==> old(data) == [])
      ensures forall f :: f in service ==> f in old(service)
    {
      var size := room;
      if service != [] {
        var next := service[0];
        service := service[1..];
        if next.Failure? { return Err(InputFailed); }
        size := Max(1, Min(next.size, room));
      }
      size := Min(size, |data|);
      r := Ok(data[..size]);
      data := data[size..];
    }
  }

  /** `read_exact`: reads until `count` bytes are in hand. */
  method ReadExact(input: InputStream, count: nat) returns (r: Result<bytes, FrameError>)
    modifies input
    ensures r.Ok? ==> |r.value| == count && r.value + input.data == old(input.data)
    ensures r.Err? ==> (r.error == IncompleteBody && |old(input.data)| < count)
                       || (r.error == InputFailed && Failure in old(input.service))
  {
    var body: bytes := [];
    while |body| < count
      invariant |body| <= count && body + input.data == old(input.data)
      invariant forall f :: f in input.service ==> f in old(input.service)
      decreases count - |body|
    {
      var chunk := input.Read(count - |body|);
      if chunk.Err? { return Err(InputFailed); }
      if chunk.value == [] { return Err(IncompleteBody); }
      body := body + chunk.value;
    }
    r := Ok(body);
  }

  /** Reads one request. However the header and body are cut into fragments, the outcome
      is the frame at the head of the input; only a failing read can prevent that. */
  method ReadRequest(input: InputStream) returns (r: Result<Frame, FrameError>)
    modifies input
    ensures r != Err(InputFailed) ==>
              match FrameAt(old(input.data))
              case Ok((frame, rest)) => r == Ok(frame) && input.data == rest
              case Err(e) => r == Err(e)
    ensures r == Err(InputFailed) ==> Failure in old(input.service)
  {
    var header: bytes := [];
    while |header| < HEADER_BYTES
      invariant |header| <= HEADER_BYTES && header + input.data == old(input.data)
      invariant forall f :: f in input.service ==> f in old(input.service)
      decreases HEADER_BYTES - |header|
    {
      var chunk := input.Read(HEADER_BYTES - |header|);
      if chunk.Err? { return Err(InputFailed); }
      if chunk.value == [] {
        return if header == [] then Ok(EndOfInput) else Err(IncompleteHeader);
      }
      header := header + chunk.value;
    }
    ghost var all := old(input.data);
    assert all[..HEADER_BYTES] == header && all[HEADER_BYTES..] == input.data;
    var length := FromBigEndian32(header);
    if length == 0 || length > MAX_FRAME_BYTES { return Err(InvalidLength(length)); }
    var body := ReadExact(input, length);
    if body.Err? { return Err(body.error); }
    assert all[HEADER_BYTES..][..length] == body.value;
    assert all[HEADER_BYTES..][length..] == input.data;
    r := Ok(Body(body.value));
  }

  /** Appends one response to the output, or refuses it whole. */
  method WriteResponse(output: bytes, body: bytes) returns (r: Result<(), FrameError>, written: bytes)
    ensures r.Ok? <==> |body| <= MAX_FRAME_BYTES
    ensures r.Ok? ==> written == output + EncodeFrame(body)
    ensures r.Err? ==> r.error == TooLarge && written == output
  {
    if |body| > MAX_FRAME_BYTES { return Err(TooLarge), output; }
    written := output + BigEndian32(|body|);
    written := written + body;
    assert written == output + (BigEndian32(|body|) + body);
    r := Ok(());
  }

  // ------------------------------------------------------------------- theorems

  lemma BigEndianRoundTrip(n: nat)
    requires n < 0x1_0000_0000
    ensures FromBigEndian32(BigEndian32(n)) == n
  {
    var a: nat := n / 256;
    var b: nat := a / 256;
    assert b / 256 < 256;
  }

  /** A written frame reads back exactly when its body is not empty: `WriteResponse` accepts
      an empty body, whose zero length the reader refuses. */
  lemma FrameRoundTrip(body: bytes, rest: bytes)
    requires |body| <= MAX_FRAME_BYTES
    ensures body != [] ==> FrameAt(EncodeFrame(body) + rest) == Ok((Body(body), rest))
    ensures body == [] ==> FrameAt(EncodeFrame(body) + rest) == Err(InvalidLength(0))
  {
    var s := EncodeFrame(body) + rest;
    assert s[..HEADER_BYTES] == BigEndian32(|body|);
    assert s[HEADER_BYTES..] == body + rest;
    BigEndianRoundTrip(|body|);
    assert (body + rest)[..|body|] == body && (body + rest)[|body|..] == rest;
  }

  lemma DecodeFrame(body: bytes, rest: bytes)
    requires 1 <= |body| <= MAX_FRAME_BYTES
    ensures DecodeAll(EncodeFrame(body) + rest) == ([body] + DecodeAll(rest).0, DecodeAll(rest).1)
  {
    hide EncodeFrame, FrameAt;
    FrameRoundTrip(body, rest);
  }

  lemma {:induction false} DecodePrefix(bodies: seq<bytes>, rest: bytes)
    requires Sendable(bodies)
    ensures DecodeAll(EncodeAll(bodies) + rest) == (bodies + DecodeAll(rest).0, DecodeAll(rest).1)
  {
    hide DecodeAll, EncodeFrame;
    if bodies == [] {
      assert EncodeAll(bodies) + rest == rest;
      assert bodies + DecodeAll(rest).0 == DecodeAll(rest).0;
    } else {
      var tail := EncodeAll(bodies[1..]) + rest;
      assert EncodeAll(bodies) + rest == EncodeFrame(bodies[0]) + tail;
      DecodeFrame(bodies[0], tail);
      DecodePrefix(bodies[1..], rest);
      assert bodies + DecodeAll(rest).0 == [bodies[0]] + (bodies[1..] + DecodeAll(rest).0);
    }
  }

  /** Any sequence of bodies of 1 to 16 MiB survives the codec. */
  lemma StreamRoundTrip(bodies: seq<bytes>)
    requires Sendable(bodies)
    ensures DecodeAll(EncodeAll(bodies)) == (bodies, Clean)
  {
    DecodePrefix(bodies, []);
    assert EncodeAll(bodies) + [] == EncodeAll(bodies);
    assert DecodeAll([]) == ([], Clean);
    assert bodies + [] == bodies;
  }

  lemma CutFrame(body: bytes, k: nat)
    requires 1 <= |body| <= MAX_FRAME_BYTES && 0 < k < HEADER_BYTES + |body|
    ensures DecodeAll(EncodeFrame(body)[..k]) ==
            ([], Broken(if k < HEADER_BYTES then IncompleteHeader else IncompleteBody))
  {
    var s := EncodeFrame(body)[..k];
    if k >= HEADER_BYTES {
      assert s[..HEADER_BYTES] == BigEndian32(|body|);
      BigEndianRoundTrip(|body|);
    }
  }

  /** A stream cut after `k` bytes yields its complete frames in order, and the reader sees
      a clean end exactly when the cut falls on a frame boundary. */
  lemma {:induction false} CutStream(bodies: seq<bytes>, k: nat) returns (whole: nat)
    requires Sendable(bodies) && k <= |EncodeAll(bodies)|
    ensures whole <= |bodies| && Sendable(bodies[..whole])
    ensures DecodeAll(EncodeAll(bodies)[..k]).0 == bodies[..whole]
    ensures |EncodeAll(bodies[..whole])| <= k
    ensures whole < |bodies| ==> k < |EncodeAll(bodies[..whole])| + HEADER_BYTES + |bodies[whole]|
    ensures DecodeAll(EncodeAll(bodies)[..k]).1.Clean? <==> k == |EncodeAll(bodies[..whole])|
    decreases |bodies|
  {
    if bodies == [] {
      whole := 0;
    } else {
      var first := EncodeFrame(bodies[0]);
      if k < |first| {
        whole := 0;
        assert EncodeAll(bodies)[..k] == first[..k];
        assert bodies[..0] == [] && EncodeAll([]) == [];
        if k > 0 { CutFrame(bodies[0], k); }
      } else {
        var rest, m := bodies[1..], k - |first|;
        assert EncodeAll(bodies)[..k] == first + EncodeAll(rest)[..m];
        var n := CutStream(rest, m);
        whole := n + 1;
        assert bodies[..whole] == [bodies[0]] + rest[..n];
        CutAfterFrame(bodies[0], EncodeAll(rest)[..m], rest[..n]);
      }
    }
  }

  lemma CutAfterFrame(body: bytes, tail: bytes, more: seq<bytes>)
    requires 1 <= |body| <= MAX_FRAME_BYTES && Sendable(more)
    ensures Sendable([body] + more)
    ensures DecodeAll(EncodeFrame(body) + tail) == ([body] + DecodeAll(tail).0, DecodeAll(tail).1)
    ensures |EncodeAll([body] + more)| == HEADER_BYTES + |body| + |EncodeAll(more)|
  {
    DecodeFrame(body, tail);
    hide DecodeAll;
    assert ([body] + more)[1..] == more;
  }

  // ---------------------------------------------------------------- two writers

  /** One of the two threads that share the output: the request loop and the event pump. */
  datatype Writer = Responder | EventPump

  /** The lock holder, the frame it is sending, and the bytes of it still to go. */
  datatype Holder = Holder(writer: Writer, body: bytes, unsent: bytes)

  datatype Output = Output(
    stream: bytes,
    lock: Option<Holder>,
    waiting: map<Writer, seq<bytes>>,  // bodies each writer has still to send
    log: seq<(Writer, bytes)>          // history: whole frames in the order of their locks
  )

  /** One atomic action: take the lock with one's next body, push some bytes through a
      `write_all`, release the lock once nothing is left to send, or take it for a body that is too
      large, have it refused and write no more. */
  datatype Action = Lock(writer: Writer) | Push(count: nat) | Unlock | Refuse(writer: Writer)

  predicate Enabled(o: Output, a: Action) {
    match a
    case Lock(w) => o.lock.None? && w in o.waiting && o.waiting[w] != [] && |o.waiting[w][0]| <= MAX_FRAME_BYTES
    case Refuse(w) => o.lock.None? && w in o.waiting && o.waiting[w] != [] && |o.waiting[w][0]| > MAX_FRAME_BYTES
    case Push(n) => o.lock.Some? && n <= |o.lock.value.unsent|
    case Unlock => o.lock.Some? && o.lock.value.unsent == []
  }

  /** No body is empty: each is the text of a JSON value. */
  predicate Writable(o: Output) {
    forall w, i :: w in o.waiting && 0 <= i < |o.waiting[w]| ==> 1 <= |o.waiting[w][i]|
  }

  function Act(o: Output, a: Action): Output
    requires Enabled(o, a) && Writable(o)
  {
    match a
    case Lock(w) =>
      var body := o.waiting[w][0];
      o.(lock := Some(Holder(w, body, EncodeFrame(body))), waiting := o.waiting[w := o.waiting[w][1..]])
    case Push(n) =>
      var h := o.lock.value;
      o.(stream := o.stream + h.unsent[..n], lock := Some(h.(unsent := h.unsent[n..])))
    case Unlock =>
      o.(lock := None, log := o.log + [(o.lock.value.writer, o.lock.value.body)])
    case Refuse(w) => o.(waiting := o.waiting[w := []])
  }

  /** Of the bodies a writer has, those it gets to send: the ones before the first that is too
      large. */
  function Fitting(bodies: seq<bytes>): seq<bytes> {
    if bodies == [] || |bodies[0]| > MAX_FRAME_BYTES then [] else [bodies[0]] + Fitting(bodies[1..])
  }

  /** A writer gets to send all its bodies exactly when each of them fits a frame. */
  lemma {:induction false} AllFitIff(bodies: seq<bytes>)
    ensures Fitting(bodies) == bodies <==> forall i :: 0 <= i < |bodies| ==> |bodies[i]| <= MAX_FRAME_BYTES
    ensures |Fitting(bodies)| <= |bodies|
  {
    if bodies != [] {
      var rest := bodies[1..];
      AllFitIff(rest);
      assert bodies == [bodies[0]] + rest;
      if Fitting(bodies) == bodies { assert Fitting(rest) == Fitting(bodies)[1..] == rest; }
    }
  }

  function Bodies(log: seq<(Writer, bytes)>): (b: seq<bytes>)
    ensures |b| == |log|
  {
    seq(|log|, i requires 0 <= i < |log| => log[i].1)
  }

  /** The bodies one writer put into a log, in order. */
  function By(w: Writer, log: seq<(Writer, bytes)>): seq<bytes> {
    if log == [] then []
    else By(w, log[..|log| - 1]) + (if log[|log| - 1].0 == w then [log[|log| - 1].1] else [])
  }

  /** Everything writer `w` has sent, is sending and will get to send. */
  function Intended(o: Output, w: Writer): seq<bytes>
    requires w in o.waiting
  {
    By(w, o.log) + (if o.lock.Some? && o.lock.value.writer == w then [o.lock.value.body] else [])
        + Fitting(o.waiting[w])
  }

  ghost predicate Consistent(o: Output) {
    && Writable(o)
    && Sendable(Bodies(o.log))
    && match o.lock
       case None => o.stream == EncodeAll(Bodies(o.log))
       case Some(h) =>
         && h.writer in o.waiting
         && 1 <= |h.body| <= MAX_FRAME_BYTES
         && |h.unsent| <= |EncodeFrame(h.body)|
         && o.stream + h.unsent == EncodeAll(Bodies(o.log)) + EncodeFrame(h.body)
  }

  lemma {:induction false} EncodeAppend(bodies: seq<bytes>, body: bytes)
    requires Sendable(bodies) && 1 <= |body| <= MAX_FRAME_BYTES
    ensures EncodeAll(bodies + [body]) == EncodeAll(bodies) + EncodeFrame(body)
  {
    if bodies == [] {
      assert [] + [body] == [body] && [body][1..] == [];
    } else {
      assert (bodies + [body])[1..] == bodies[1..] + [body];
      EncodeAppend(bodies[1..], body);
    }
  }

  lemma LockKeepsWritable(o: Output, w: Writer)
    requires Writable(o) && Enabled(o, Lock(w))
    ensures Writable(Act(o, Lock(w)))
  {
    var o' := Act(o, Lock(w));
    forall v, i | v in o'.waiting && 0 <= i < |o'.waiting[v]|
      ensures 1 <= |o'.waiting[v][i]|
    {
      if v == w { assert o'.waiting[w][i] == o.waiting[w][i + 1]; } else { assert o'.waiting[v] == o.waiting[v]; }
    }
  }

  lemma ActKeepsConsistent(o: Output, a: Action)
    requires Consistent(o) && Enabled(o, a)
    ensures Consistent(Act(o, a))
    ensures Act(o, a).waiting.Keys == o.waiting.Keys
  {
    hide EncodeFrame, EncodeAll, FrameAt;
    var o' := Act(o, a);
    match a
    case Lock(w) => LockKeepsWritable(o, w);
    case Refuse(w) =>
    case Push(n) =>
      var unsent := o.lock.value.unsent;
      assert o.stream + unsent[..n] + unsent[n..] == o.stream + unsent;
    case Unlock =>
      var body := o.lock.value.body;
      EncodeAppend(Bodies(o.log), body);
      assert Bodies(o'.log) == Bodies(o.log) + [body];
      assert o.stream + [] == o.stream;
  }

  lemma ActKeepsIntended(o: Output, a: Action, w: Writer)
    requires Consistent(o) && Enabled(o, a) && w in o.waiting
    ensures w in Act(o, a).waiting && Intended(Act(o, a), w) == Intended(o, w)
  {
    assert o.lock.Some? ==> o.lock.value.writer in o.waiting;
    hide EncodeFrame, EncodeAll, Consistent;
    var o' := Act(o, a);
    match a
    case Lock(v) =>
      if v == w {
        var body, rest := o.waiting[w][0], o.waiting[w][1..];
        assert Fitting(o.waiting[w]) == [body] + Fitting(rest);
        assert By(w, o.log) + [] + ([body] + Fitting(rest)) == By(w, o.log) + [body] + Fitting(rest);
      }
    case Push(n) =>
    case Refuse(v) =>
    case Unlock => assert o'.log[..|o'.log| - 1] == o.log;
  }

  ghost predicate Run(o: Output, actions: seq<Action>, end: Output)
    decreases |actions|
  {
    if actions == [] then end == o
    else Enabled(o, actions[0]) && Writable(o) && Run(Act(o, actions[0]), actions[1..], end)
  }

  function Start(waiting: map<Writer, seq<bytes>>): Output {
    Output([], None, waiting, [])
  }

  lemma {:induction false} RunKeepsConsistent(o: Output, actions: seq<Action>, end: Output)
    requires Consistent(o) && Run(o, actions, end)
    ensures Consistent(end) && end.waiting.Keys == o.waiting.Keys
    ensures forall w :: w in o.waiting ==> Intended(end, w) == Intended(o, w)
    decreases |actions|
  {
    if actions != [] {
      hide Consistent, Intended, Act, Writable;
      ActKeepsConsistent(o, actions[0]);
      forall w | w in o.waiting ensures Intended(Act(o, actions[0]), w) == Intended(o, w) {
        ActKeepsIntended(o, actions[0], w);
      }
      RunKeepsConsistent(Act(o, actions[0]), actions[1..], end);
    }
  }

  lemma StartIsConsistent(waiting: map<Writer, seq<bytes>>)
    requires Writable(Start(waiting))
    ensures Consistent(Start(waiting))
    ensures forall w :: w in waiting ==> Intended(Start(waiting), w) == Fitting(waiting[w])
  {
    assert Bodies([]) == [];
    forall w | w in waiting ensures Intended(Start(waiting), w) == Fitting(waiting[w]) {
      assert [] + [] + Fitting(waiting[w]) == Fitting(waiting[w]);
    }
  }

  lemma ConsistentHolder(o: Output)
    requires Consistent(o) && o.lock.Some?
    ensures var h := o.lock.value;
            && Sendable(Bodies(o.log)) && 1 <= |h.body| <= MAX_FRAME_BYTES
            && |h.unsent| <= |EncodeFrame(h.body)| == HEADER_BYTES + |h.body|
            && o.stream + h.unsent == EncodeAll(Bodies(o.log)) + EncodeFrame(h.body)
  {
  }

  lemma ConsistentUnlocked(o: Output)
    requires Consistent(o) && o.lock.None?
    ensures Sendable(Bodies(o.log)) && o.stream == EncodeAll(Bodies(o.log))
  {
  }

  lemma IntendedUnlocked(o: Output, w: Writer)
    requires w in o.waiting && o.lock.None?
    ensures Intended(o, w) == By(w, o.log) + Fitting(o.waiting[w])
  {
    assert By(w, o.log) + [] == By(w, o.log);
  }

  /** Whenever the lock is free, under every interleaving and every split of the writes, the
      stream decodes cleanly to the frames in lock order, and each writer's frames appear in
      the order it meant to send them, up to the first that is too large: the stream is an
      order-preserving merge of both. */
  lemma SharedOutputIsMerge(waiting: map<Writer, seq<bytes>>, actions: seq<Action>, end: Output)
    requires Writable(Start(waiting)) && Run(Start(waiting), actions, end) && end.lock.None?
    ensures DecodeAll(end.stream) == (Bodies(end.log), Clean)
    ensures end.waiting.Keys == waiting.Keys
    ensures forall w :: w in waiting ==> By(w, end.log) + Fitting(end.waiting[w]) == Fitting(waiting[w])
  {
    assert Start(waiting).waiting == waiting;
    hide *;
    var o := Start(waiting);
    StartIsConsistent(waiting);
    RunKeepsConsistent(o, actions, end);
    assert Sendable(Bodies(end.log)) && end.stream == EncodeAll(Bodies(end.log)) by { ConsistentUnlocked(end); }
    StreamRoundTrip(Bodies(end.log));
    forall w | w in waiting ensures By(w, end.log) + Fitting(end.waiting[w]) == Fitting(waiting[w]) {
      IntendedUnlocked(end, w);
    }
  }

  /** Even while a frame is half sent, a reader gets the finished frames in order. */
  lemma HalfSentFrameIsNotSeen(waiting: map<Writer, seq<bytes>>, actions: seq<Action>, end: Output)
    requires Writable(Start(waiting)) && Run(Start(waiting), actions, end) && end.lock.Some?
    ensures DecodeAll(end.stream).0 ==
            Bodies(end.log) + (if end.lock.value.unsent == [] then [end.lock.value.body] else [])
    ensures DecodeAll(end.stream).1.Clean? <==>
            end.lock.value.unsent == [] || |end.lock.value.unsent| == HEADER_BYTES + |end.lock.value.body|
  {
    assert Start(waiting).waiting == waiting;
    hide *;
    var o := Start(waiting);
    StartIsConsistent(waiting);
    RunKeepsConsistent(o, actions, end);
    var h, done := end.lock.value, Bodies(end.log);
    ConsistentHolder(end);
    PartialFrame(done, h.body, h.unsent, end.stream);
  }

  lemma PartialFrame(done: seq<bytes>, body: bytes, unsent: bytes, stream: bytes)
    requires Sendable(done) && 1 <= |body| <= MAX_FRAME_BYTES
    requires stream + unsent == EncodeAll(done) + EncodeFrame(body) && |unsent| <= |EncodeFrame(body)|
    ensures DecodeAll(stream).0 == done + (if unsent == [] then [body] else [])
    ensures DecodeAll(stream).1.Clean? <==> unsent == [] || |unsent| == |EncodeFrame(body)|
  {
    var frame := EncodeFrame(body);
    var k := |frame| - |unsent|;
    assert stream == (stream + unsent)[..|stream|] == EncodeAll(done) + frame[..k];
    DecodePrefix(done, frame[..k]);
    if k == |frame| {
      FrameRoundTrip(body, []);
      assert frame[..k] == frame + [];
    } else if k > 0 {
      CutFrame(body, k);
    }
  }
}
