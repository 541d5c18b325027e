/** Collecting one backup document from an uncorrelated chunk stream
    (services/device-broker/src/usb.rs, `create_backup`;
    packages/rust/qc-protocol/src/responses.rs, `BackupAssembler`). */
module Backup {
  import opened Prelude
  import opened Messages

  const MAXIMUM_DOCUMENT_BYTES: nat := 33554432
  const READ_SLICE: nat := 200 // milliseconds

  datatype Profile = Profile(firstChunkTimeout: nat, stallTimeout: nat, keepaliveInterval: nat, maximumAttempts: nat)

  /** How chunk payloads decode, to a text and a terminal mark, and which documents are valid. */
  datatype Codec = Codec(decode: bytes -> Option<(string, bool)>, valid: string -> bool)

  datatype BackupError = OverallTimeout | Stalled | NoDocument | ReadFailed | Undecodable | Oversized | InvalidDocument

  // ----------------------------------------------------------------- the assembler

  datatype Assembler = Assembler(document: string, started: bool, chunks: nat, ignoredChunks: nat,
      ignoredTerminators: nat)

  const EMPTY := Assembler("", false, 0, 0, 0)

  /** A chunk that opens a JSON document: '{' after leading whitespace. */
  predicate Opens(text: string) {
    text != [] && if IsWhitespace(text[0]) then Opens(text[1..]) else text[0] == '{'
  }

  /** That is: nothing but white space stands before some '{'. */
  lemma {:induction false} OpensIff(text: string)
    ensures Opens(text) <==>
            exists i :: 0 <= i < |text| && text[i] == '{' && forall j :: 0 <= j < i ==> IsWhitespace(text[j])
  {
    if text != [] && IsWhitespace(text[0]) {
      OpensIff(text[1..]);
      if Opens(text) {
        var i :| 0 <= i < |text[1..]| && text[1..][i] == '{' && forall j :: 0 <= j < i ==> IsWhitespace(text[1..][j]);
        forall j | 0 <= j < i + 1 ensures IsWhitespace(text[j]) { assert j > 0 ==> text[1..][j - 1] == text[j]; }
        assert text[i + 1] == '{';
      }
      if i :| 0 <= i < |text| && text[i] == '{' && forall j :: 0 <= j < i ==> IsWhitespace(text[j]) {
        assert text[1..][i - 1] == '{';
      }
    }
  }

  /** The length of a text in UTF-8. */
  function ByteLength(text: string): nat {
    if text == [] then 0
    else
      var c := text[|text| - 1] as int;
      ByteLength(text[..|text| - 1]) + (if c < 0x80 then 1 else if c < 0x800 then 2 else if c < 0x1_0000 then 3 else 4)
  }

  lemma {:induction false} ByteLengthConcat(a: string, b: string)
    ensures ByteLength(a + b) == ByteLength(a) + ByteLength(b)
  {
    if b == [] {
      assert a + b == a;
    } else {
      assert (a + b)[..|a + b| - 1] == a + b[..|b| - 1];
      ByteLengthConcat(a, b[..|b| - 1]);
    }
  }

  lemma ByteLengthOne(c: char)
    ensures ByteLength([c]) == if c <= '\U{007F}' then 1 else if c <= '\U{07FF}' then 2
                               else if c <= '\U{FFFF}' then 3 else 4
  {
    assert [c][..0] == [];
  }

  function Push(codec: Codec, a: Assembler, payload: bytes): (Assembler, Result<Option<string>, BackupError>) {
    match codec.decode(payload)
    case None => (a, Err(Undecodable))
    case Some((text, terminal)) =>
      if !a.started && !Opens(text) then
        (a.(ignoredChunks := a.ignoredChunks + (if text != [] || terminal then 1 else 0),
            ignoredTerminators := a.ignoredTerminators + (if terminal then 1 else 0)), Ok(None))
      else
        var b := a.(started := true, chunks := a.chunks + 1, document := a.document + text);
        if ByteLength(b.document) > MAXIMUM_DOCUMENT_BYTES then (EMPTY, Err(Oversized))
        else if !terminal then (b, Ok(None))
        else if !codec.valid(b.document) then (EMPTY, Err(InvalidDocument))
        else (b.(document := "", started := false, chunks := 0), Ok(Some(b.document)))
  }

  function PushAll(codec: Codec, payloads: seq<bytes>): Assembler {
    if payloads == [] then EMPTY
    else Push(codec, PushAll(codec, payloads[..|payloads| - 1]), payloads[|payloads| - 1]).0
  }

  /** Every chunk so far was taken or ignored, and none finished or broke the document. */
  predicate AllPending(codec: Codec, payloads: seq<bytes>) {
    payloads == []
    || (AllPending(codec, payloads[..|payloads| - 1])
        && Push(codec, PushAll(codec, payloads[..|payloads| - 1]), payloads[|payloads| - 1]).1 == Ok(None))
  }

  function Text(codec: Codec, payload: bytes): string {
    match codec.decode(payload) case Some((text, _)) => text case None => ""
  }

  function Joined(codec: Codec, payloads: seq<bytes>): string {
    if payloads == [] then "" else Joined(codec, payloads[..|payloads| - 1]) + Text(codec, payloads[|payloads| - 1])
  }

  /** `k` is the first of the chunks that opens a document. */
  predicate FirstOpening(codec: Codec, payloads: seq<bytes>, k: nat) {
    && k < |payloads| && Opens(Text(codec, payloads[k]))
    && forall j :: 0 <= j < k ==> !Opens(Text(codec, payloads[j]))
  }

  predicate NoneOpens(codec: Codec, payloads: seq<bytes>) {
    forall j :: 0 <= j < |payloads| ==> !Opens(Text(codec, payloads[j]))
  }

  /** The document under assembly is every chunk from the first opening one on, in order:
      stale prefixes are dropped, and nothing later is. */
  lemma {:induction false} DocumentStartsAtOpening(codec: Codec, payloads: seq<bytes>) returns (k: nat)
    requires AllPending(codec, payloads)
    ensures PushAll(codec, payloads).started ==>
              FirstOpening(codec, payloads, k) && PushAll(codec, payloads).document == Joined(codec, payloads[k..])
    ensures !PushAll(codec, payloads).started ==>
              PushAll(codec, payloads).document == "" && NoneOpens(codec, payloads)
  {
    hide *;
    k := 0;
    if payloads == [] {
      NothingAssembled(codec);
    } else {
      var n := |payloads| - 1;
      var before := payloads[..n];
      PendingStep(codec, payloads);
      k := DocumentStartsAtOpening(codec, before);
      PushTakesText(codec, PushAll(codec, before), payloads[n]);
      if PushAll(codec, before).started {
        OpeningStays(codec, payloads, k);
        JoinedGrows(codec, payloads, k);
      } else if Opens(Text(codec, payloads[n])) {
        k := n;
        JoinedGrows(codec, payloads, n);
        OpeningHere(codec, payloads);
      } else {
        StillNoneOpens(codec, payloads);
      }
    }
  }

  lemma StillNoneOpens(codec: Codec, payloads: seq<bytes>)
    requires payloads != [] && NoneOpens(codec, payloads[..|payloads| - 1])
            && !Opens(Text(codec, payloads[|payloads| - 1]))
    ensures NoneOpens(codec, payloads)
  {
    hide Opens, Text;
    var before := payloads[..|payloads| - 1];
    assert forall j :: 0 <= j < |before| ==> payloads[j] == before[j];
  }

  lemma NothingAssembled(codec: Codec)
    ensures !PushAll(codec, []).started && PushAll(codec, []).document == "" && NoneOpens(codec, [])
  {
  }

  lemma PendingStep(codec: Codec, payloads: seq<bytes>)
    requires payloads != [] && AllPending(codec, payloads)
    ensures var n := |payloads| - 1;
            && AllPending(codec, payloads[..n])
            && PushAll(codec, payloads) == Push(codec, PushAll(codec, payloads[..n]), payloads[n]).0
            && Push(codec, PushAll(codec, payloads[..n]), payloads[n]).1 == Ok(None)
  {
  }

  lemma OpeningStays(codec: Codec, payloads: seq<bytes>, k: nat)
    requires payloads != [] && FirstOpening(codec, payloads[..|payloads| - 1], k)
    ensures FirstOpening(codec, payloads, k) && k < |payloads| - 1
  {
    hide Opens, Text;
    var before := payloads[..|payloads| - 1];
    assert forall j :: 0 <= j < |before| ==> payloads[j] == before[j];
  }

  lemma OpeningHere(codec: Codec, payloads: seq<bytes>)
    requires payloads != [] && Opens(Text(codec, payloads[|payloads| - 1]))
    requires NoneOpens(codec, payloads[..|payloads| - 1])
    ensures FirstOpening(codec, payloads, |payloads| - 1)
    ensures Joined(codec, payloads[..|payloads| - 1][|payloads| - 1..]) == ""
  {
    hide Opens, Text;
    var before := payloads[..|payloads| - 1];
    assert forall j :: 0 <= j < |before| ==> payloads[j] == before[j];
  }

  lemma PushTakesText(codec: Codec, a: Assembler, payload: bytes)
    requires Push(codec, a, payload).1 == Ok(None)
    ensures var b := Push(codec, a, payload).0;
            if a.started || Opens(Text(codec, payload))
            then b.started && b.document == a.document + Text(codec, payload)
            else !b.started && b.document == a.document
  {
    hide Opens, ByteLength;
  }

  lemma JoinedGrows(codec: Codec, payloads: seq<bytes>, k: nat)
    requires k < |payloads|
    ensures var n := |payloads| - 1;
            Joined(codec, payloads[k..]) == Joined(codec, payloads[..n][k..]) + Text(codec, payloads[n])
  {
    var n := |payloads| - 1;
    assert payloads[k..][..|payloads[k..]| - 1] == payloads[..n][k..];
  }

  /** The last of the chunks finished the document the earlier ones began. */
  predicate Finished(codec: Codec, chunks: seq<bytes>, document: string) {
    && chunks != [] && AllPending(codec, chunks[..|chunks| - 1])
    && Push(codec, PushAll(codec, chunks[..|chunks| - 1]), chunks[|chunks| - 1]).1 == Ok(Some(document))
  }

  /** The last of the chunks was refused, with this error. */
  predicate BrokenByLast(codec: Codec, chunks: seq<bytes>, error: BackupError) {
    && chunks != [] && AllPending(codec, chunks[..|chunks| - 1])
    && Push(codec, PushAll(codec, chunks[..|chunks| - 1]), chunks[|chunks| - 1]).1 == Err(error)
  }

  predicate Terminal(codec: Codec, payload: bytes) {
    match codec.decode(payload) case Some((_, terminal)) => terminal case None => false
  }

  /** One chunk, told by what it decodes to and by the text the document comes to with it. */
  lemma PushDecides(codec: Codec, a: Assembler, payload: bytes)
    ensures var r, text := Push(codec, a, payload).1, a.document + Text(codec, payload);
            if codec.decode(payload).None? then r == Err(Undecodable)
            else if !a.started && !Opens(Text(codec, payload)) then r == Ok(None)
            else if ByteLength(text) > 33554432 then r == Err(Oversized)
            else if !Terminal(codec, payload) then r == Ok(None)
            else if codec.valid(text) then r == Ok(Some(text))
            else r == Err(InvalidDocument)
  {
    hide Opens, ByteLength;
  }

  lemma OpeningUnique(codec: Codec, chunks: seq<bytes>, i: nat, k: nat)
    requires FirstOpening(codec, chunks, i) && FirstOpening(codec, chunks, k)
    ensures i == k
  {
  }

  /** The collection at the last chunk: the text it brings the document to, or nothing opened yet. */
  lemma AtLastChunk(codec: Codec, chunks: seq<bytes>, k: nat)
    requires chunks != [] && AllPending(codec, chunks[..|chunks| - 1])
    ensures var a, last := PushAll(codec, chunks[..|chunks| - 1]), chunks[|chunks| - 1];
            && (FirstOpening(codec, chunks, k) ==>
                  && (a.started || Opens(Text(codec, last)))
                  && a.document + Text(codec, last) == Joined(codec, chunks[k..]))
            && (NoneOpens(codec, chunks) ==> !a.started && !Opens(Text(codec, last)))
  {
    var n := |chunks| - 1;
    var before := chunks[..n];
    var i := DocumentStartsAtOpening(codec, before);
    assert forall j :: 0 <= j < n ==> chunks[j] == before[j];
    hide Opens, Push, PushAll, AllPending, Text, Joined;
    if PushAll(codec, before).started { OpeningStays(codec, chunks, i); }
    if FirstOpening(codec, chunks, k) {
      JoinedGrows(codec, chunks, k);
      if PushAll(codec, before).started {
        OpeningUnique(codec, chunks, i, k);
      } else if k == n {
        OpeningHere(codec, chunks);
      }
    }
  }

  /** The four ways a collection can go at a chunk that brings its document to `text`. */
  ghost predicate DecidedBy(codec: Codec, chunks: seq<bytes>, text: string)
    requires chunks != []
  {
    var terminal, fits := Terminal(codec, chunks[|chunks| - 1]), ByteLength(text) <= 33554432;
    && (BrokenByLast(codec, chunks, Oversized) <==> !fits)
    && (AllPending(codec, chunks) <==> fits && !terminal)
    && (BrokenByLast(codec, chunks, InvalidDocument) <==> fits && terminal && !codec.valid(text))
    && forall d :: Finished(codec, chunks, d) <==> fits && terminal && codec.valid(text) && d == text
  }

  /** What the last chunk does to a collection that was still under way. Text before the opening chunk
      is passed over. From the opening chunk on the collection waits for the terminal one, within the
      limit, and there it ends with all the text in between if that is a valid document. */
  lemma LastChunkDecides(codec: Codec, chunks: seq<bytes>, k: nat)
    requires chunks != [] && AllPending(codec, chunks[..|chunks| - 1])
    ensures BrokenByLast(codec, chunks, Undecodable) <==> codec.decode(chunks[|chunks| - 1]).None?
    ensures NoneOpens(codec, chunks) ==> (AllPending(codec, chunks) <==> codec.decode(chunks[|chunks| - 1]).Some?)
    ensures FirstOpening(codec, chunks, k) && codec.decode(chunks[|chunks| - 1]).Some? ==>
              DecidedBy(codec, chunks, Joined(codec, chunks[k..]))
  {
    AtLastChunk(codec, chunks, k);
    PushDecides(codec, PushAll(codec, chunks[..|chunks| - 1]), chunks[|chunks| - 1]);
    hide Opens, ByteLength, Push, PushAll, Text, Joined, Terminal, FirstOpening, NoneOpens;
  }

  /** Every chunk decodes, and since the first that opened a document none has been terminal and the
      text has stayed within the limit. */
  ghost predicate StillWaiting(codec: Codec, chunks: seq<bytes>) {
    && (forall j :: 0 <= j < |chunks| ==> codec.decode(chunks[j]).Some?)
    && forall k :: FirstOpening(codec, chunks, k) ==> RunsOn(codec, chunks, k)
  }

  /** The chunk at `j` is not terminal and keeps the text from `k` on within the limit. */
  ghost predicate GoesOn(codec: Codec, chunks: seq<bytes>, k: nat, j: nat)
    requires k <= j < |chunks|
  {
    !Terminal(codec, chunks[j]) && ByteLength(Joined(codec, chunks[..j + 1][k..])) <= 33554432
  }

  ghost predicate RunsOn(codec: Codec, chunks: seq<bytes>, k: nat) {
    forall j :: k <= j < |chunks| ==> GoesOn(codec, chunks, k, j)
  }

  lemma GoesOnBefore(codec: Codec, chunks: seq<bytes>, k: nat, j: nat)
    requires k <= j < |chunks|
    ensures j < |chunks| - 1 ==> (GoesOn(codec, chunks[..|chunks| - 1], k, j) <==> GoesOn(codec, chunks, k, j))
    ensures j == |chunks| - 1 ==>
              (GoesOn(codec, chunks, k, j) <==>
                 !Terminal(codec, chunks[j]) && ByteLength(Joined(codec, chunks[k..])) <= 33554432)
  {
    hide ByteLength, Joined, Terminal;
    if j < |chunks| - 1 { assert chunks[..|chunks| - 1][..j + 1] == chunks[..j + 1]; }
    if j == |chunks| - 1 { assert chunks[..j + 1] == chunks; }
  }

  lemma RunsOnGrows(codec: Codec, chunks: seq<bytes>, k: nat)
    requires k < |chunks|
    ensures RunsOn(codec, chunks, k) <==>
            && (k < |chunks| - 1 ==> RunsOn(codec, chunks[..|chunks| - 1], k))
            && !Terminal(codec, chunks[|chunks| - 1]) && ByteLength(Joined(codec, chunks[k..])) <= 33554432
  {
    var n := |chunks| - 1;
    var before := chunks[..n];
    hide ByteLength, Joined, Terminal, GoesOn;
    GoesOnBefore(codec, chunks, k, n);
    forall j | k <= j < n ensures GoesOn(codec, before, k, j) <==> GoesOn(codec, chunks, k, j) {
      GoesOnBefore(codec, chunks, k, j);
    }
  }

  lemma OpeningBefore(codec: Codec, chunks: seq<bytes>, k: nat)
    requires chunks != []
    ensures FirstOpening(codec, chunks[..|chunks| - 1], k) <==> FirstOpening(codec, chunks, k) && k < |chunks| - 1
  {
    hide Opens, Text;
    var before := chunks[..|chunks| - 1];
    assert forall j :: 0 <= j < |before| ==> chunks[j] == before[j];
  }

  lemma {:induction false} OpeningExists(codec: Codec, chunks: seq<bytes>) returns (k: nat)
    ensures NoneOpens(codec, chunks) || FirstOpening(codec, chunks, k)
  {
    hide Opens, Text;
    k := 0;
    if chunks != [] {
      var before := chunks[..|chunks| - 1];
      k := OpeningExists(codec, before);
      OpeningBefore(codec, chunks, k);
      assert forall j :: 0 <= j < |before| ==> chunks[j] == before[j];
      if NoneOpens(codec, before) { k := |before|; }
    }
  }

  /** A collection is under way exactly as long as the chunks alone say so. */
  lemma {:induction false} PendingIff(codec: Codec, chunks: seq<bytes>)
    ensures AllPending(codec, chunks) <==> StillWaiting(codec, chunks)
  {
    if chunks != [] {
      PendingIff(codec, chunks[..|chunks| - 1]);
      var k := OpeningExists(codec, chunks);
      WaitsOn(codec, chunks, k);
      PendingBefore(codec, chunks);
      if AllPending(codec, chunks[..|chunks| - 1]) { LastChunkDecides(codec, chunks, k); }
      hide StillWaiting, AllPending, BrokenByLast, Finished, FirstOpening, NoneOpens;
    }
  }

  lemma PendingBefore(codec: Codec, chunks: seq<bytes>)
    requires chunks != []
    ensures AllPending(codec, chunks) ==>
              AllPending(codec, chunks[..|chunks| - 1]) && codec.decode(chunks[|chunks| - 1]).Some?
  {
  }

  /** Waiting goes on with a chunk exactly if the chunk lets it. */
  lemma WaitsOn(codec: Codec, chunks: seq<bytes>, k: nat)
    requires chunks != [] && (NoneOpens(codec, chunks) || FirstOpening(codec, chunks, k))
    ensures StillWaiting(codec, chunks) <==>
            && StillWaiting(codec, chunks[..|chunks| - 1]) && codec.decode(chunks[|chunks| - 1]).Some?
            && (FirstOpening(codec, chunks, k) ==>
                  !Terminal(codec, chunks[|chunks| - 1]) && ByteLength(Joined(codec, chunks[k..])) <= 33554432)
  {
    var before := chunks[..|chunks| - 1];
    assert forall j :: 0 <= j < |before| ==> chunks[j] == before[j];
    hide Opens, Text, ByteLength, Joined, Terminal;
    forall i ensures FirstOpening(codec, chunks, i) ==> i == k && FirstOpening(codec, chunks, k) {
      if FirstOpening(codec, chunks, i) && FirstOpening(codec, chunks, k) { OpeningUnique(codec, chunks, i, k); }
    }
    forall i: nat ensures FirstOpening(codec, before, i) <==> FirstOpening(codec, chunks, i) && i < |before| {
      OpeningBefore(codec, chunks, i);
    }
    hide FirstOpening, RunsOn;
    if k < |chunks| { RunsOnGrows(codec, chunks, k); }
  }

  /** A document is finished exactly by chunks all of which decode, the last being the first terminal
      one since a document opened, with the text from the opening chunk on within the limit all along
      and valid in the end; and that text is the document. */
  lemma FinishedIff(codec: Codec, chunks: seq<bytes>, k: nat, document: string)
    requires FirstOpening(codec, chunks, k)
    ensures Finished(codec, chunks, document) <==>
            && document == Joined(codec, chunks[k..]) && codec.valid(document) && ByteLength(document) <= 33554432
            && Terminal(codec, chunks[|chunks| - 1]) && StillWaiting(codec, chunks[..|chunks| - 1])
  {
    var before := chunks[..|chunks| - 1];
    PendingIff(codec, before);
    TerminalDecodes(codec, chunks[|chunks| - 1]);
    if AllPending(codec, before) { LastChunkDecides(codec, chunks, k); }
    hide Push, PushAll, Joined, Terminal, StillWaiting, FirstOpening, NoneOpens, ByteLength, AllPending;
    if Finished(codec, chunks, document) { FinishedDecodes(codec, chunks, document); }
  }

  lemma TerminalDecodes(codec: Codec, payload: bytes)
    ensures Terminal(codec, payload) ==> codec.decode(payload).Some?
  {
  }

  lemma FinishedDecodes(codec: Codec, chunks: seq<bytes>, document: string)
    requires Finished(codec, chunks, document)
    ensures AllPending(codec, chunks[..|chunks| - 1]) && codec.decode(chunks[|chunks| - 1]).Some?
  {
  }

  /** A finished document is the text of every chunk from the first opening one through the terminal
      one, which is the last; none between them is terminal. */
  lemma FinishedDocument(codec: Codec, chunks: seq<bytes>, document: string) returns (k: nat)
    requires Finished(codec, chunks, document)
    ensures FirstOpening(codec, chunks, k)
    ensures document == Joined(codec, chunks[k..]) && codec.valid(document)
    ensures Terminal(codec, chunks[|chunks| - 1]) && forall j :: k <= j < |chunks| - 1 ==> !Terminal(codec, chunks[j])
  {
    k := OpeningExists(codec, chunks);
    FinishedDecodes(codec, chunks, document);
    LastChunkDecides(codec, chunks, k);
    if NoneOpens(codec, chunks) { FinishedIsNotPending(codec, chunks, document); }
    FinishedIff(codec, chunks, k, document);
    OpeningBefore(codec, chunks, k);
    hide Opens, Push, PushAll, Joined, Terminal, Text, ByteLength, AllPending, Finished;
    var before := chunks[..|chunks| - 1];
    assert forall j :: 0 <= j < |before| ==> chunks[j] == before[j];
    forall j | k <= j < |before| ensures !Terminal(codec, chunks[j]) {
      assert RunsOn(codec, before, k) && GoesOn(codec, before, k, j);
    }
  }

  lemma FinishedIsNotPending(codec: Codec, chunks: seq<bytes>, document: string)
    requires Finished(codec, chunks, document)
    ensures !AllPending(codec, chunks)
  {
  }

  // ----------------------------------------------------------------------- traces

  /** What the collection does, in order, and when. */
  datatype Action = Create(at: nat) | Keepalive(at: nat) | Wait(at: nat, window: nat) | Read(at: nat, message: Msg)

  function Creates(trace: seq<Action>): nat {
    if trace == [] then 0 else Creates(trace[..|trace| - 1]) + (if trace[|trace| - 1].Create? then 1 else 0)
  }

  function Waits(trace: seq<Action>): nat {
    if trace == [] then 0 else Waits(trace[..|trace| - 1]) + (if trace[|trace| - 1].Wait? then 1 else 0)
  }

  lemma WaitsAppend(trace: seq<Action>, a: Action)
    ensures Waits(trace + [a]) == Waits(trace) + (if a.Wait? then 1 else 0)
  {
    assert (trace + [a])[..|trace|] == trace;
  }

  function Reads(trace: seq<Action>): (r: seq<Msg>)
    ensures |r| <= |trace|
  {
    if trace == [] then []
    else Reads(trace[..|trace| - 1]) + (if trace[|trace| - 1].Read? then [trace[|trace| - 1].message] else [])
  }

  function Chunks(messages: seq<Msg>): seq<bytes> {
    if messages == [] then []
    else
      var m := messages[|messages| - 1];
      Chunks(messages[..|messages| - 1]) + (if m.kind == BACKUP_KIND then [m.payload] else [])
  }

  function AssembledBy(codec: Codec, trace: seq<Action>): Assembler {
    PushAll(codec, Chunks(Reads(trace)))
  }

  /** No request is sent once a document has started. */
  ghost predicate NoRetryIntoDocument(codec: Codec, trace: seq<Action>) {
    forall k :: 0 <= k < |trace| && trace[k].Create? ==> !AssembledBy(codec, trace[..k]).started
  }

  /** A read waits for at most its slice, and not past the deadline, but for a millisecond at least. */
  predicate WaitWithin(a: Action, deadline: nat) {
    a.Wait? ==> 1 <= a.window <= READ_SLICE && (a.at + a.window <= deadline || a.window == 1)
  }

  ghost predicate WaitsWithin(trace: seq<Action>, deadline: nat) {
    forall k :: 0 <= k < |trace| ==> WaitWithin(trace[k], deadline)
  }

  lemma TraceAppend(codec: Codec, trace: seq<Action>, a: Action, deadline: nat)
    ensures var t := trace + [a];
            && Creates(t) == Creates(trace) + (if a.Create? then 1 else 0)
            && Reads(t) == Reads(trace) + (if a.Read? then [a.message] else [])
            && (NoRetryIntoDocument(codec, trace) && (a.Create? ==> !AssembledBy(codec, trace).started) ==>
                NoRetryIntoDocument(codec, t))
            && (WaitsWithin(trace, deadline) && WaitWithin(a, deadline) ==> WaitsWithin(t, deadline))
            && (!a.Read? ==> AssembledBy(codec, t) == AssembledBy(codec, trace))
  {
    var t := trace + [a];
    assert t[..|t| - 1] == trace;
    assert Reads(trace) + [] == Reads(trace);
    assert forall k :: 0 <= k < |trace| ==> t[..k] == trace[..k];
    hide PushAll, Creates, Reads, Chunks;
  }

  /** Requests are at least a first-chunk timeout apart, and keepalives at least their interval. */
  ghost predicate Spaced(trace: seq<Action>, profile: Profile) {
    forall i, j :: 0 <= i < j < |trace| ==>
      && (trace[i].Create? && trace[j].Create? ==> trace[j].at >= trace[i].at + profile.firstChunkTimeout)
      && (trace[i].Keepalive? && trace[j].Keepalive? ==> trace[j].at >= trace[i].at + profile.keepaliveInterval)
  }

  predicate IsChunk(a: Action) {
    a.Read? && a.message.kind == BACKUP_KIND
  }

  predicate IsRequest(a: Action) {
    a.Create?
  }

  /** Every chunk, or every request, of the trace is at least so long ago. */
  ghost predicate QuietFor(trace: seq<Action>, kind: Action -> bool, clock: nat, timeout: nat) {
    forall k :: 0 <= k < |trace| && kind(trace[k]) ==> clock >= trace[k].at + timeout
  }

  /** The loop's clock and timers. */
  datatype Timers = Timers(clock: nat, deadline: nat, firstChunk: int, progress: int, keepalive: int)

  /** The three timers stand no earlier than the trace calls for. */
  ghost predicate Paced(trace: seq<Action>, profile: Profile, t: Timers, started: bool) {
    && Spaced(trace, profile)
    && t.firstChunk <= t.deadline && t.progress <= t.deadline
    && (forall k :: 0 <= k < |trace| ==> trace[k].at <= t.clock)
    && (forall k :: 0 <= k < |trace| && trace[k].Create? ==>
          Min(trace[k].at + profile.firstChunkTimeout, t.deadline) <= t.firstChunk)
    && (forall k :: 0 <= k < |trace| && trace[k].Keepalive? ==>
          trace[k].at + profile.keepaliveInterval <= t.keepalive)
    && (started ==> forall k :: 0 <= k < |trace| && IsChunk(trace[k]) ==>
          Min(trace[k].at + profile.stallTimeout, t.deadline) <= t.progress)
  }

  lemma PacedStart(profile: Profile, clock: nat, deadline: nat)
    requires clock <= deadline
    ensures Paced([Create(clock)], profile,
                  Timers(clock, deadline, Min(clock + profile.firstChunkTimeout, deadline), deadline,
                         clock + profile.keepaliveInterval), false)
  {
  }

  lemma PacedLater(trace: seq<Action>, profile: Profile, t: Timers, started: bool, later: nat)
    requires Paced(trace, profile, t, started) && t.clock <= later
    ensures Paced(trace, profile, t.(clock := later), started)
  {
    hide Spaced;
  }

  lemma PacedKeepalive(trace: seq<Action>, profile: Profile, t: Timers, started: bool)
    requires Paced(trace, profile, t, started) && t.clock >= t.keepalive
    ensures Paced(trace + [Keepalive(t.clock)], profile, t.(keepalive := t.clock + profile.keepaliveInterval), started)
  {
  }

  lemma PacedRetry(trace: seq<Action>, profile: Profile, t: Timers, now: nat)
    requires Paced(trace, profile, t, false) && t.firstChunk <= now < t.deadline && now <= t.clock
    ensures var restarted := Min(t.clock + profile.firstChunkTimeout, t.deadline);
            Paced(trace + [Create(t.clock)], profile, t.(firstChunk := restarted), false)
    ensures QuietFor(trace, IsRequest, now, profile.firstChunkTimeout)
  {
  }

  lemma PacedStall(trace: seq<Action>, profile: Profile, t: Timers, now: nat)
    requires Paced(trace, profile, t, true) && t.progress <= now < t.deadline
    ensures QuietFor(trace, IsChunk, now, profile.stallTimeout)
  {
  }

  lemma StillQuiet(trace: seq<Action>, kind: Action -> bool, now: nat, later: nat, timeout: nat)
    requires QuietFor(trace, kind, now, timeout) && now <= later
    ensures QuietFor(trace, kind, later, timeout)
  {
  }

  lemma SpacedByOther(trace: seq<Action>, profile: Profile, a: Action)
    requires Spaced(trace, profile) && (a.Wait? || a.Read?)
    ensures Spaced(trace + [a], profile)
  {
  }

  lemma PacedWait(trace: seq<Action>, profile: Profile, t: Timers, started: bool, window: nat)
    requires Paced(trace, profile, t, started)
    ensures Paced(trace + [Wait(t.clock, window)], profile, t, started)
  {
    hide Spaced;
    SpacedByOther(trace, profile, Wait(t.clock, window));
  }

  lemma PacedSide(trace: seq<Action>, profile: Profile, t: Timers, started: bool, m: Msg)
    requires Paced(trace, profile, t, started) && m.kind != BACKUP_KIND
    ensures Paced(trace + [Read(t.clock, m)], profile, t, started)
  {
    hide Spaced;
    SpacedByOther(trace, profile, Read(t.clock, m));
  }

  /** A chunk taken restarts the stall timer. */
  lemma PacedTaken(trace: seq<Action>, profile: Profile, t: Timers, was: bool, m: Msg)
    requires Paced(trace, profile, t, was)
    ensures var restarted := Min(t.clock + profile.stallTimeout, t.deadline);
            Paced(trace + [Read(t.clock, m)], profile, t.(progress := restarted), true)
    ensures Spaced(trace + [Read(t.clock, m)], profile)
  {
    hide Spaced;
    SpacedByOther(trace, profile, Read(t.clock, m));
  }

  /** A chunk ignored may restart the first-chunk timer. */
  lemma PacedIgnored(trace: seq<Action>, profile: Profile, t: Timers, m: Msg)
    requires Paced(trace, profile, t, false)
    ensures Paced(trace + [Read(t.clock, m)], profile, t, false)
    ensures var restarted := Min(t.clock + profile.firstChunkTimeout, t.deadline);
            Paced(trace + [Read(t.clock, m)], profile, t.(firstChunk := restarted), false)
  {
    hide Spaced;
    SpacedByOther(trace, profile, Read(t.clock, m));
  }

  // --------------------------------------------------------------------- the loop

  datatype Transfer = Transfer(document: string, sideMessages: seq<Msg>)

  /** One turn of the loop: the time between its first reading of the clock and the later ones, what
      its read comes to if it gets to one, and how long that takes. */
  datatype TimedReading = TimedReading(lag: nat, reading: Reading, elapsed: nat)

  /** What the loop keeps of what it has read and asked: the next message is numbered `next`. */
  datatype Ledger = Ledger(assembler: Assembler, side: seq<Msg>, attempts: nat, next: nat)

  /** What holds of the trace at every head of the loop. */
  ghost predicate Collecting(codec: Codec, trace: seq<Action>, l: Ledger, deadline: nat, first: nat) {
    && Creates(trace) == l.attempts
    && NoRetryIntoDocument(codec, trace)
    && WaitsWithin(trace, deadline)
    && AllPending(codec, Chunks(Reads(trace)))
    && l.assembler == AssembledBy(codec, trace)
    && l.side == WithoutKind(Reads(trace), BACKUP_KIND)
    && Numbered(Reads(trace), first) && l.next == first + |Reads(trace)|
  }

  lemma CollectingQuietly(codec: Codec, trace: seq<Action>, l: Ledger, deadline: nat, first: nat, action: Action)
    requires Collecting(codec, trace, l, deadline, first) && !action.Read?
    requires (action.Create? ==> !l.assembler.started) && (action.Wait? ==> WaitWithin(action, deadline))
    ensures var attempts := l.attempts + (if action.Create? then 1 else 0);
            Collecting(codec, trace + [action], l.(attempts := attempts), deadline, first)
  {
    TraceAppend(codec, trace, action, deadline);
    assert Reads(trace) + [] == Reads(trace);
    hide Creates, Reads, NoRetryIntoDocument, WaitsWithin, WaitWithin, AllPending, AssembledBy, WithoutKind;
  }

  lemma CollectingSide(codec: Codec, trace: seq<Action>, l: Ledger, deadline: nat, first: nat, at: nat, m: Msg)
    requires Collecting(codec, trace, l, deadline, first) && m.sequence == l.next && m.kind != BACKUP_KIND
    ensures Collecting(codec, trace + [Read(at, m)], l.(side := l.side + [m], next := l.next + 1), deadline, first)
  {
    TraceAppend(codec, trace, Read(at, m), deadline);
    assert Chunks(Reads(trace)) + [] == Chunks(Reads(trace));
    hide Creates, Reads, NoRetryIntoDocument, WaitsWithin, AllPending, PushAll, Chunks, WithoutKind;
  }

  lemma CollectingChunk(codec: Codec, trace: seq<Action>, l: Ledger, deadline: nat, first: nat, at: nat, m: Msg)
    requires Collecting(codec, trace, l, deadline, first) && m.sequence == l.next && m.kind == BACKUP_KIND
    ensures NoRetryIntoDocument(codec, trace + [Read(at, m)]) && WaitsWithin(trace + [Read(at, m)], deadline)
    ensures Creates(trace + [Read(at, m)]) == l.attempts
    ensures Chunks(Reads(trace + [Read(at, m)])) == Chunks(Reads(trace)) + [m.payload]
    ensures l.side == WithoutKind(Reads(trace + [Read(at, m)]), BACKUP_KIND)
    ensures Numbered(Reads(trace + [Read(at, m)]), first)
    ensures |Reads(trace + [Read(at, m)])| == |Reads(trace)| + 1
    ensures var (pushed, result) := Push(codec, l.assembler, m.payload);
            result == Ok(None) ==>
              Collecting(codec, trace + [Read(at, m)], l.(assembler := pushed, next := l.next + 1), deadline, first)
  {
    TraceAppend(codec, trace, Read(at, m), deadline);
    assert WithoutKind(Reads(trace), BACKUP_KIND) + [] == WithoutKind(Reads(trace), BACKUP_KIND);
    hide Creates, Reads, NoRetryIntoDocument, WaitsWithin, AllPending, PushAll, Chunks, WithoutKind, Push;
  }

  /** `wait_ms`: up to the deadline, in slices, and never less than a millisecond. */
  function Window(active: int, clock: nat): (w: nat)
    ensures 1 <= w <= READ_SLICE && (clock + w <= active || w == 1)
  {
    Max(1, Min(active - clock, READ_SLICE))
  }

  /** Whatever becomes of a backup: at least one request is sent, at most the maximum, and none into a
      started document; requests and keepalives keep their distance; no read waits past the overall
      deadline; and every message read is numbered. */
  ghost predicate WellBehaved(codec: Codec, profile: Profile, trace: seq<Action>, deadline: nat, first: nat,
        next: nat) {
    && 1 <= Creates(trace) <= Max(1, profile.maximumAttempts)
    && NoRetryIntoDocument(codec, trace)
    && Spaced(trace, profile)
    && WaitsWithin(trace, deadline)
    && Numbered(Reads(trace), first) && next == first + |Reads(trace)|
  }

  /** What holds of the trace, the ledger and the timers at every head of the loop. */
  ghost predicate Underway(codec: Codec, profile: Profile, trace: seq<Action>, l: Ledger, t: Timers, first: nat) {
    && Collecting(codec, trace, l, t.deadline, first) && Paced(trace, profile, t, l.assembler.started)
    && 1 <= l.attempts <= Max(1, profile.maximumAttempts)
  }

  lemma UnderwayParts(codec: Codec, profile: Profile, trace: seq<Action>, l: Ledger, t: Timers, first: nat)
    ensures Underway(codec, profile, trace, l, t, first) <==>
            && Collecting(codec, trace, l, t.deadline, first) && Paced(trace, profile, t, l.assembler.started)
            && 1 <= l.attempts <= Max(1, profile.maximumAttempts)
  {
  }

  lemma UnderwayBehaves(codec: Codec, profile: Profile, trace: seq<Action>, l: Ledger, t: Timers, first: nat)
    requires Underway(codec, profile, trace, l, t, first)
    ensures WellBehaved(codec, profile, trace, t.deadline, first, l.next)
    ensures l.side == WithoutKind(Reads(trace), BACKUP_KIND)
    ensures Creates(trace) == l.attempts && l.assembler == AssembledBy(codec, trace)
    ensures 1 <= l.attempts <= Max(1, profile.maximumAttempts)
    ensures AllPending(codec, Chunks(Reads(trace)))
  {
    hide Creates, Reads, NoRetryIntoDocument, WaitsWithin, AllPending, PushAll, Chunks, WithoutKind, Spaced,
        AssembledBy;
  }

  lemma UnderwayLater(codec: Codec, profile: Profile, trace: seq<Action>, l: Ledger, t: Timers, first: nat, later: nat)
    requires Underway(codec, profile, trace, l, t, first) && t.clock <= later
    ensures Underway(codec, profile, trace, l, t.(clock := later), first)
  {
    hide Collecting, Paced;
    PacedLater(trace, profile, t, l.assembler.started, later);
  }

  lemma UnderwayKeepalive(codec: Codec, profile: Profile, trace: seq<Action>, l: Ledger, t: Timers, first: nat)
    requires Underway(codec, profile, trace, l, t, first) && t.clock >= t.keepalive
    ensures Underway(codec, profile, trace + [Keepalive(t.clock)], l,
                     t.(keepalive := t.clock + profile.keepaliveInterval), first)
  {
    hide Collecting, Paced;
    CollectingQuietly(codec, trace, l, t.deadline, first, Keepalive(t.clock));
    PacedKeepalive(trace, profile, t, l.assembler.started);
  }

  lemma UnderwayRetry(codec: Codec, profile: Profile, trace: seq<Action>, l: Ledger, t: Timers, first: nat, now: nat)
    requires Underway(codec, profile, trace, l, t, first) && !l.assembler.started
    requires t.firstChunk <= now < t.deadline && now <= t.clock
    ensures l.attempts >= profile.maximumAttempts ==> EndsFor(codec, profile, trace, t.clock, t.deadline, NoDocument)
    ensures l.attempts < profile.maximumAttempts ==>
              Underway(codec, profile, trace + [Create(t.clock)], l.(attempts := l.attempts + 1),
                       t.(firstChunk := Min(t.clock + profile.firstChunkTimeout, t.deadline)), first)
  {
    UnderwayBehaves(codec, profile, trace, l, t, first);
    hide Collecting, Paced, QuietFor, Creates, AssembledBy;
    PacedRetry(trace, profile, t, now);
    StillQuiet(trace, IsRequest, now, t.clock, profile.firstChunkTimeout);
    CollectingQuietly(codec, trace, l, t.deadline, first, Create(t.clock));
  }

  lemma UnderwayStall(codec: Codec, profile: Profile, trace: seq<Action>, l: Ledger, t: Timers, first: nat, now: nat)
    requires Underway(codec, profile, trace, l, t, first) && l.assembler.started
    requires t.progress <= now < t.deadline && now <= t.clock
    ensures EndsFor(codec, profile, trace, t.clock, t.deadline, Stalled)
  {
    UnderwayBehaves(codec, profile, trace, l, t, first);
    hide Collecting, Paced, QuietFor, Creates, AssembledBy;
    PacedStall(trace, profile, t, now);
    StillQuiet(trace, IsChunk, now, t.clock, profile.stallTimeout);
  }

  /** The timer that stands for what the collection waits for. */
  function ActiveDeadline(l: Ledger, t: Timers): int {
    Min(if l.assembler.started then t.progress else t.firstChunk, t.deadline)
  }

  lemma WindowTold(l: Ledger, t: Timers)
    ensures var left := Min(if l.assembler.started then t.progress else t.firstChunk, t.deadline) - t.clock;
            Window(ActiveDeadline(l, t), t.clock) == if left < 1 then 1 else if left > 200 then 200 else left
  {
  }

  lemma UnderwayWait(codec: Codec, profile: Profile, trace: seq<Action>, l: Ledger, t: Timers, first: nat)
    requires Underway(codec, profile, trace, l, t, first)
    ensures Underway(codec, profile, trace + [Wait(t.clock, Window(ActiveDeadline(l, t), t.clock))], l, t, first)
  {
    hide Collecting, Paced;
    var window := Window(ActiveDeadline(l, t), t.clock);
    CollectingQuietly(codec, trace, l, t.deadline, first, Wait(t.clock, window));
    PacedWait(trace, profile, t, l.assembler.started, window);
  }

  lemma UnderwaySide(codec: Codec, profile: Profile, trace: seq<Action>, l: Ledger, t: Timers, first: nat, m: Msg)
    requires Underway(codec, profile, trace, l, t, first) && m.sequence == l.next && m.kind != BACKUP_KIND
    ensures Underway(codec, profile, trace + [Read(t.clock, m)], l.(side := l.side + [m], next := l.next + 1), t, first)
  {
    hide Collecting, Paced;
    CollectingSide(codec, trace, l, t.deadline, first, t.clock, m);
    PacedSide(trace, profile, t, l.assembler.started, m);
  }

  lemma UnderwayStart(codec: Codec, profile: Profile, clock: nat, deadline: nat, first: nat)
    requires clock <= deadline
    ensures Underway(codec, profile, [Create(clock)], Ledger(EMPTY, [], 1, first),
                     Timers(clock, deadline, Min(clock + profile.firstChunkTimeout, deadline), deadline,
                            clock + profile.keepaliveInterval), first)
  {
    hide Collecting, Paced;
    FirstRequest(codec, clock, deadline, first);
    PacedStart(profile, clock, deadline);
  }

  lemma BehavesOn(codec: Codec, profile: Profile, trace: seq<Action>, deadline: nat, first: nat, next: nat)
    requires 1 <= Creates(trace) <= Max(1, profile.maximumAttempts) && NoRetryIntoDocument(codec, trace)
    requires Spaced(trace, profile) && WaitsWithin(trace, deadline)
    requires Numbered(Reads(trace), first) && next == first + |Reads(trace)|
    ensures WellBehaved(codec, profile, trace, deadline, first, next)
  {
  }

  /** Hands one chunk to the assembler and restarts the timer that stands for it. */
  method TakeChunk(codec: Codec, profile: Profile, ghost trace: seq<Action>, l: Ledger, t: Timers, first: nat, m: Msg)
    returns (result: Result<Option<string>, BackupError>, after: Ledger, timers: Timers)
    requires Underway(codec, profile, trace, l, t, first) && m.sequence == l.next && m.kind == BACKUP_KIND
    ensures result == Push(codec, l.assembler, m.payload).1
    ensures var grown := trace + [Read(t.clock, m)];
            && (result == Ok(None) ==> Underway(codec, profile, grown, after, timers, first))
            && (result.Err? ==>
                  && result.error in {Undecodable, Oversized, InvalidDocument}
                  && BrokenByLast(codec, Chunks(Reads(grown)), result.error))
            && (result.Ok? && result.value.Some? ==> Finished(codec, Chunks(Reads(grown)), result.value.value))
            && WellBehaved(codec, profile, grown, t.deadline, first, after.next)
            && after.side == WithoutKind(Reads(grown), BACKUP_KIND)
    ensures after.attempts == l.attempts && timers.clock == t.clock && timers.deadline == t.deadline
    // a chunk of the document restarts the stall timer, stale traffic before it the first-chunk timer
    ensures result == Ok(None) ==>
              var text, stale := Text(codec, m.payload), !l.assembler.started && !Opens(Text(codec, m.payload));
              timers == if !stale then t.(progress := Min(t.clock + profile.stallTimeout, t.deadline))
                        else if text != "" || Terminal(codec, m.payload)
                        then t.(firstChunk := Min(t.clock + profile.firstChunkTimeout, t.deadline))
                        else t
  {
    UnderwayParts(codec, profile, trace, l, t, first);
    hide *;
    CollectedSoFar(codec, trace, l, t.deadline, first);
    CollectingChunk(codec, trace, l, t.deadline, first, t.clock, m);
    PacedTaken(trace, profile, t, l.assembler.started, m);
    BehavesOn(codec, profile, trace + [Read(t.clock, m)], t.deadline, first, l.next + 1);
    if !l.assembler.started { PacedIgnored(trace, profile, t, m); }
    ghost var chunks, grown := Chunks(Reads(trace)), trace + [Read(t.clock, m)];
    var was := l.assembler;
    var (pushed, outcome) := Push(codec, was, m.payload);
    result := outcome;
    after, timers := l.(assembler := pushed, next := l.next + 1), t;
    if result.Err? {
      BrokenBy(codec, chunks, m.payload, result.error);
      return;
    }
    if result.value.Some? {
      FinishedByLast(codec, chunks, m.payload, result.value.value);
      return;
    }
    PushCounts(codec, was, m.payload);
    if pushed.chunks > was.chunks {
      timers := t.(progress := Min(t.clock + profile.stallTimeout, t.deadline));
    } else if !was.started && pushed.ignoredChunks > was.ignoredChunks {
      timers := t.(firstChunk := Min(t.clock + profile.firstChunkTimeout, t.deadline));
    }
    UnderwayParts(codec, profile, grown, after, timers, first);
  }

  /** How many of the first `n` reads take no time at all. */
  function Instant(turns: seq<TimedReading>, n: nat): nat
    requires n <= |turns|
  {
    if n == 0 then 0 else Instant(turns, n - 1) + (if turns[n - 1].elapsed == 0 then 1 else 0)
  }

  lemma {:induction false} InstantGrows(turns: seq<TimedReading>, n: nat, more: nat)
    requires n <= more <= |turns|
    ensures Instant(turns, n) <= Instant(turns, more)
    ensures (forall i :: 0 <= i < |turns| ==> turns[i].elapsed >= 1) ==> Instant(turns, more) == 0
  {
    if n < more {
      InstantGrows(turns, n, more - 1);
    } else if more > 0 {
      InstantGrows(turns, n - 1, more - 1);
    }
  }

  /** What a turn comes to before its read: the collection ends, a request is sent once more, or the
      turn goes on to wait for so long. */
  datatype Before = Ended(error: BackupError) | Requested | Waiting(window: nat)

  /** Why a collection may end before a read: the deadline, a stalled document, or no document after the
      last request. */
  ghost predicate EndsFor(codec: Codec, profile: Profile, trace: seq<Action>, clock: nat, deadline: nat,
        error: BackupError) {
    match error
    case OverallTimeout => clock >= deadline
    case Stalled => AssembledBy(codec, trace).started && QuietFor(trace, IsChunk, clock, profile.stallTimeout)
    case NoDocument =>
      && !AssembledBy(codec, trace).started && Creates(trace) == Max(1, profile.maximumAttempts)
      && QuietFor(trace, IsRequest, clock, profile.firstChunkTimeout)
    case _ => false
  }

  lemma EndsInTime(codec: Codec, profile: Profile, trace: seq<Action>, clock: nat, deadline: nat)
    requires clock >= deadline
    ensures EndsFor(codec, profile, trace, clock, deadline, OverallTimeout)
  {
  }

  /** The turn up to its read. */
  method BeforeRead(codec: Codec, profile: Profile, trace: seq<Action>, l: Ledger, t: Timers, first: nat, lag: nat)
    returns (before: Before, grown: seq<Action>, after: Ledger, timers: Timers)
    requires Underway(codec, profile, trace, l, t, first)
    ensures Underway(codec, profile, grown, after, timers, first) && Waits(grown) == Waits(trace)
    ensures timers.deadline == t.deadline && timers.clock == t.clock + lag
    // what the first reading of the clock calls for is done, and nothing else
    ensures var overdue := t.clock >= if l.assembler.started then t.progress else t.firstChunk;
            var reminds := t.clock < t.deadline && t.clock >= t.keepalive;
            var kept := if reminds then trace + [Keepalive(timers.clock)] else trace;
            && (before == Ended(OverallTimeout) <==> t.clock >= t.deadline)
            && (before.Requested? <==>
                  t.clock < t.deadline && overdue && !l.assembler.started && l.attempts < profile.maximumAttempts)
            && (before.Waiting? <==> t.clock < t.deadline && !overdue)
            && grown == (if before.Requested? then kept + [Create(timers.clock)] else kept)
            && timers.keepalive == (if reminds then timers.clock + profile.keepaliveInterval else t.keepalive)
            && timers.progress == t.progress
            && timers.firstChunk == (if before.Requested? then
                 Min(timers.clock + profile.firstChunkTimeout, t.deadline) else t.firstChunk)
    ensures before.Ended? ==>
              && before.error in {OverallTimeout, Stalled, NoDocument}
              && EndsFor(codec, profile, grown, timers.clock, t.deadline, before.error)
    ensures before.Requested? ==> l.attempts < after.attempts <= profile.maximumAttempts
    ensures !before.Requested? ==> after == l
    ensures before.Waiting? ==>
              t.clock < t.deadline && before.window == Window(ActiveDeadline(l, timers), timers.clock)
    // it waits as long as the timer and the deadline leave, but never for more than 200 milliseconds
    ensures before.Waiting? ==>
              var left := Min(if l.assembler.started then t.progress else t.firstChunk, t.deadline) - timers.clock;
              before.window == if left < 1 then 1 else if left > 200 then 200 else left
  {
    hide *;
    var now := t.clock;
    UnderwayLater(codec, profile, trace, l, t, first, now + lag);
    grown, after, timers := trace, l, t.(clock := now + lag);
    if now >= t.deadline {
      EndsInTime(codec, profile, grown, timers.clock, t.deadline);
      return Ended(OverallTimeout), grown, after, timers;
    }
    if now >= timers.keepalive {
      UnderwayKeepalive(codec, profile, trace, l, timers, first);
      WaitsAppend(trace, Keepalive(timers.clock));
      grown := trace + [Keepalive(timers.clock)];
      timers := timers.(keepalive := timers.clock + profile.keepaliveInterval);
    }
    if l.assembler.started && now >= timers.progress {
      UnderwayStall(codec, profile, grown, l, timers, first, now);
      return Ended(Stalled), grown, after, timers;
    }
    if !l.assembler.started && now >= timers.firstChunk {
      UnderwayRetry(codec, profile, grown, l, timers, first, now);
      if l.attempts >= profile.maximumAttempts { return Ended(NoDocument), grown, after, timers; }
      WaitsAppend(grown, Create(timers.clock));
      after := l.(attempts := l.attempts + 1);
      grown := grown + [Create(timers.clock)];
      timers := timers.(firstChunk := Min(timers.clock + profile.firstChunkTimeout, timers.deadline));
      return Requested, grown, after, timers;
    }
    before := Waiting(Window(ActiveDeadline(l, timers), timers.clock));
    WindowTold(l, timers);
  }

  /** The loop waits for a read no more often than the timeout has milliseconds, if each read moves the
      clock; in any case no more often beyond that than there are instant reads. */
  predicate WaitsBounded(trace: seq<Action>, turns: seq<TimedReading>, timeout: nat) {
    && ((forall i :: 0 <= i < |turns| ==> turns[i].elapsed >= 1) ==> Waits(trace) <= timeout)
    && Waits(trace) <= timeout + Instant(turns, |turns|)
  }

  lemma WaitsAreBounded(trace: seq<Action>, turns: seq<TimedReading>, i: nat, timeout: nat)
    requires i <= |turns| && Waits(trace) <= timeout + Instant(turns, i)
    ensures WaitsBounded(trace, turns, timeout)
  {
    hide Waits, Instant;
    InstantGrows(turns, i, |turns|);
  }

  /** Collects one backup. `turns` says how the device and the clock behave, turn by turn; after them
      the device is silent and every read takes its whole window. */
  method CreateBackup(
    codec: Codec, profile: Profile, timeout: nat, start: nat, first: nat, turns: seq<TimedReading>
  ) returns (r: Result<Transfer, BackupError>, trace: seq<Action>, clock: nat, next: nat)
    ensures WellBehaved(codec, profile, trace, start + timeout, first, next) && clock >= start
    // however long the device goes on talking, the loop ends
    ensures WaitsBounded(trace, turns, timeout)
    // on success the document spans the chunks from its opening to the last one read, and the
    // side messages are exactly the other messages read, in order
    ensures r.Ok? ==> Finished(codec, Chunks(Reads(trace)), r.value.document)
    ensures r.Ok? ==> r.value.sideMessages == WithoutKind(Reads(trace), BACKUP_KIND)
    // each refusal has its reason, and none throws away a document that was complete
    ensures r.Err? && r.error in {OverallTimeout, Stalled, NoDocument} ==>
              EndsFor(codec, profile, trace, clock, start + timeout, r.error)
    ensures r.Err? && r.error in {OverallTimeout, Stalled, NoDocument, ReadFailed} ==>
              AllPending(codec, Chunks(Reads(trace)))
    ensures r == Err(ReadFailed) ==> exists i :: 0 <= i < |turns| && turns[i].reading == Failed
    ensures r.Err? && r.error in {Undecodable, Oversized, InvalidDocument} ==>
              BrokenByLast(codec, Chunks(Reads(trace)), r.error)
  {
    hide *;
    var t := Timers(start, start + timeout, Min(start + profile.firstChunkTimeout, start + timeout),
                    start + timeout, start + profile.keepaliveInterval);
    var l := Ledger(EMPTY, [], 1, first);
    var i := 0;
    trace := [Create(start)];
    UnderwayStart(codec, profile, start, t.deadline, first);
    NoWaitYet(turns, start);
    while true
      invariant i <= |turns| && start <= t.clock && t.deadline == start + timeout
      invariant Underway(codec, profile, trace, l, t, first)
      invariant Waits(trace) <= t.clock - start + Instant(turns, i)
      invariant Waits(trace) <= timeout + Instant(turns, i)
      decreases |turns| - i, t.deadline - t.clock, profile.maximumAttempts - l.attempts
    {
      var turn := if i < |turns| then turns[i] else TimedReading(0, Nothing, 0);
      ghost var scripted := i < |turns|;
      var before;
      before, trace, l, t := BeforeRead(codec, profile, trace, l, t, first, turn.lag);
      UnderwayBehaves(codec, profile, trace, l, t, first);
      WaitsAreBounded(trace, turns, i, timeout);
      if before.Ended? { return Err(before.error), trace, t.clock, l.next; }
      if before.Requested? {
        InstantGrows(turns, i, Min(i + 1, |turns|));
        i := Min(i + 1, |turns|);
        continue;
      }
      UnderwayWait(codec, profile, trace, l, t, first);
      WaitsAppend(trace, Wait(t.clock, before.window));
      trace := trace + [Wait(t.clock, before.window)];
      var elapsed := if i < |turns| then turn.elapsed else before.window;
      UnderwayLater(codec, profile, trace, l, t, first, t.clock + elapsed);
      t := t.(clock := t.clock + elapsed);
      InstantCounts(turns, i, elapsed);
      i := Min(i + 1, |turns|);
      WaitsAreBounded(trace, turns, i, timeout);
      if turn.reading.Failed? {
        UnderwayBehaves(codec, profile, trace, l, t, first);
        assert scripted && turns[i - 1].reading == Failed;
        return Err(ReadFailed), trace, t.clock, l.next;
      }
      if turn.reading.Nothing? { continue; }
      var message := Msg(l.next, turn.reading.kind, turn.reading.payload);
      WaitsAppend(trace, Read(t.clock, message));
      if message.kind != BACKUP_KIND {
        UnderwaySide(codec, profile, trace, l, t, first, message);
        trace := trace + [Read(t.clock, message)];
        l := l.(side := l.side + [message], next := l.next + 1);
        continue;
      }
      var result;
      result, l, t := TakeChunk(codec, profile, trace, l, t, first, message);
      trace := trace + [Read(t.clock, message)];
      WaitsAreBounded(trace, turns, i, timeout);
      if result.Err? { return Err(result.error), trace, t.clock, l.next; }
      if result.value.Some? { return Ok(Transfer(result.value.value, l.side)), trace, t.clock, l.next; }
    }
  }

  lemma NoWaitYet(turns: seq<TimedReading>, start: nat)
    ensures Waits([Create(start)]) == 0 && Instant(turns, 0) == 0
  {
  }

  /** A read moves the clock or is counted as instant. */
  lemma InstantCounts(turns: seq<TimedReading>, i: nat, elapsed: nat)
    requires i <= |turns| && if i < |turns| then elapsed == turns[i].elapsed else elapsed >= 1
    ensures elapsed + Instant(turns, Min(i + 1, |turns|)) >= 1 + Instant(turns, i)
    ensures Instant(turns, i) <= Instant(turns, Min(i + 1, |turns|))
  {
  }

  lemma FinishedByLast(codec: Codec, before: seq<bytes>, last: bytes, document: string)
    requires AllPending(codec, before) && Push(codec, PushAll(codec, before), last).1 == Ok(Some(document))
    ensures Finished(codec, before + [last], document)
  {
    assert (before + [last])[..|before|] == before;
  }

  lemma BrokenBy(codec: Codec, before: seq<bytes>, last: bytes, error: BackupError)
    requires AllPending(codec, before) && Push(codec, PushAll(codec, before), last).1 == Err(error)
    ensures BrokenByLast(codec, before + [last], error) && error in {Undecodable, Oversized, InvalidDocument}
  {
    assert (before + [last])[..|before|] == before;
    hide Opens, ByteLength, PushAll, AllPending;
  }

  /** A chunk taken into a document is counted; a document once begun goes on. */
  lemma PushCounts(codec: Codec, a: Assembler, payload: bytes)
    requires Push(codec, a, payload).1 == Ok(None)
    ensures var b, text := Push(codec, a, payload).0, Text(codec, payload);
            && (b.started <==> a.started || Opens(text))
            && (b.chunks > a.chunks <==> a.started || Opens(text))
            && (b.ignoredChunks > a.ignoredChunks <==>
                  !a.started && !Opens(text) && (text != "" || Terminal(codec, payload)))
  {
    hide Opens, ByteLength;
  }

  lemma FirstRequest(codec: Codec, at: nat, deadline: nat, first: nat)
    ensures Collecting(codec, [Create(at)], Ledger(EMPTY, [], 1, first), deadline, first) && !EMPTY.started
  {
    assert [Create(at)][..0] == [];
  }

  lemma CollectedSoFar(codec: Codec, trace: seq<Action>, l: Ledger, deadline: nat, first: nat)
    requires Collecting(codec, trace, l, deadline, first)
    ensures Creates(trace) == l.attempts && NoRetryIntoDocument(codec, trace) && WaitsWithin(trace, deadline)
    ensures AllPending(codec, Chunks(Reads(trace)))
    ensures l.assembler == PushAll(codec, Chunks(Reads(trace))) == AssembledBy(codec, trace)
    ensures l.side == WithoutKind(Reads(trace), BACKUP_KIND)
    ensures Numbered(Reads(trace), first) && l.next == first + |Reads(trace)|
  {
    hide Creates, Reads, NoRetryIntoDocument, WaitsWithin, AllPending, PushAll, Chunks, WithoutKind;
  }
}
