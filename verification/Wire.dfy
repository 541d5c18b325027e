/** The protobuf wire scanner that finds a request id before a message is decoded
    (packages/rust/qc-protocol/src/wire.rs). */
module Wire {
  import opened Prelude

  datatype WireError = TruncatedVarint | UnsupportedWire(wire: nat) | TruncatedField

  const U32: nat := 0x1_0000_0000
  const U64: nat := 0x1_0000_0000_0000_0000

  // ---------------------------------------------------------------- u64 words

  function Pow2(n: nat): (p: nat)
    ensures p >= 1
  {
    if n == 0 then 1 else 2 * Pow2(n - 1)
  }

  /** Bitwise or of two words. */
  function BitOr(a: nat, b: nat): nat {
    if a == 0 && b == 0 then 0
    else 2 * BitOr(a / 2, b / 2) + (if a % 2 == 1 || b % 2 == 1 then 1 else 0)
  }

  /** `x << n` on a 64-bit word: bits shifted past the top are lost. */
  function ShiftLeft64(x: nat, n: nat): nat {
    x * Pow2(n) % U64
  }

  lemma {:induction false} Pow2Sum(m: nat, n: nat)
    ensures Pow2(m + n) == Pow2(m) * Pow2(n)
  {
    if m > 0 {
      Pow2Sum(m - 1, n);
      assert Pow2(m + n) == 2 * Pow2(m - 1 + n);
    }
  }

  lemma Pow2Of64()
    ensures Pow2(64) == U64 && Pow2(7) == 128
  {
    assert Pow2(8) == 256 && Pow2(7) == 128;
    hide Pow2;
    Pow2Sum(8, 8); Pow2Sum(16, 16); Pow2Sum(32, 32);
  }

  lemma {:induction false} OrZero(a: nat)
    ensures BitOr(a, 0) == a
  {
    if a > 0 { OrZero(a / 2); }
  }

  lemma {:induction false} OrZeroLeft(b: nat)
    ensures BitOr(0, b) == b
  {
    if b > 0 { OrZeroLeft(b / 2); }
  }

  /** Or of words with no common bit is their sum. */
  lemma {:induction false} OrOfDisjointBits(a: nat, b: nat, n: nat)
    requires a < Pow2(n)
    ensures BitOr(a, b * Pow2(n)) == a + b * Pow2(n)
  {
    if n == 0 {
      OrZeroLeft(b);
    } else {
      var c := b * Pow2(n - 1);
      assert b * Pow2(n) == 2 * c;
      OrOfDisjointBits(a / 2, b, n - 1);
      if a == 0 && c == 0 {
      } else {
        assert (2 * c) / 2 == c && (2 * c) % 2 == 0;
      }
    }
  }

  lemma ModUnique(x: int, m: int, q: int, r: int)
    requires m > 0 && x == q * m + r && 0 <= r < m
    ensures x % m == r && x / m == q
  {
    var d := q - x / m;
    assert x == m * (x / m) + x % m;
    assert d * m == x % m - r by {
      assert d * m == q * m - (x / m) * m;
    }
    assert d >= 1 ==> d * m >= m;
    assert d <= -1 ==> d * m <= -m;
  }

  /** Adding a multiple of `low` to a word below `low`, cut to `low * high`. */
  lemma AddScaled(v: nat, x: nat, low: nat, high: nat)
    requires v < low && high > 0
    ensures (v + x * low) % (low * high) == v + x % high * low
  {
    var q, r := x / high, x % high;
    calc {
      x * low;
      (q * high + r) * low;
      (q * high) * low + r * low;
      q * (low * high) + r * low;
    }
    assert r * low <= (high - 1) * low;
    assert (high - 1) * low == low * high - low;
    ModUnique(v + x * low, low * high, q, v + r * low);
  }

  lemma ShiftKeepsLowBits(x: nat, n: nat)
    requires n <= 64
    ensures ShiftLeft64(x, n) == x % Pow2(64 - n) * Pow2(n)
  {
    Pow2Sum(n, 64 - n);
    Pow2Of64();
    AddScaled(0, x, Pow2(n), Pow2(64 - n));
  }

  // ------------------------------------------------------------------ varints

  /** How many leading bytes carry the continuation bit. */
  function GroupLength(s: bytes): (n: nat)
    ensures n <= |s|
    ensures forall i :: 0 <= i < n ==> s[i] >= 128
    ensures n < |s| ==> s[n] < 128
  {
    if s == [] || s[0] < 128 then 0 else 1 + GroupLength(s[1..])
  }

  /** Little-endian base-128 value of the low seven bits of every byte. */
  function VarintValue(s: bytes): nat {
    if s == [] then 0 else s[0] % 128 + 128 * VarintValue(s[1..])
  }

  /** The varint at the head of `s`: its value as a 64-bit word and its length. */
  function VarintAt(s: bytes): (r: Option<(nat, nat)>)
    ensures r.Some? ==> 0 < r.value.1 <= |s| && r.value.1 <= 10 && r.value.0 < U64
  {
    var n := GroupLength(s);
    if n < |s| && n < 10 then Some((VarintValue(s[..n + 1]) % U64, n + 1)) else None
  }

  lemma {:induction false} GroupLengthUnique(s: bytes, n: nat)
    requires n <= |s| && (forall i :: 0 <= i < n ==> s[i] >= 128) && (n < |s| ==> s[n] < 128)
    ensures GroupLength(s) == n
  {
    var g := GroupLength(s);
    assert !(g < n);
    assert !(n < g);
  }

  lemma GroupStep(x: nat, v: nat, c: nat, p: nat)
    requires v < p && x < 128
    ensures x + 128 * (v + c * p) == (x + 128 * v) + c * (128 * p)
    ensures x + 128 * v < 128 * p
  {
    assert 128 * (c * p) == c * (128 * p);
  }

  lemma {:induction false} VarintValueAppend(s: bytes, b: byte)
    ensures VarintValue(s + [b]) == VarintValue(s) + b % 128 * Pow2(7 * |s|)
    ensures VarintValue(s) < Pow2(7 * |s|)
  {
    if s == [] {
      assert s + [b] == [b] && [b][1..] == [];
    } else {
      var t := s[1..];
      assert VarintValue(s) == s[0] % 128 + 128 * VarintValue(t);
      assert (s + [b])[1..] == t + [b];
      assert VarintValue(s + [b]) == s[0] % 128 + 128 * VarintValue(t + [b]);
      hide *;
      VarintValueAppend(t, b);
      Pow2Of64();
      Pow2Sum(7, 7 * |t|);
      GroupStep(s[0] % 128, VarintValue(t), b % 128, Pow2(7 * |t|));
    }
  }

  lemma OneMoreGroup(v: nat, x: nat, n: nat)
    requires v < Pow2(n) && n <= 64
    ensures v % U64 == v
    ensures BitOr(v, ShiftLeft64(x, n)) == (v + x * Pow2(n)) % U64
  {
    hide *;
    Pow2Sum(n, 64 - n);
    Pow2Of64();
    ShiftKeepsLowBits(x, n);
    OrOfDisjointBits(v, x % Pow2(64 - n), n);
    AddScaled(v, x, Pow2(n), Pow2(64 - n));
    AddScaled(v, 0, Pow2(n), Pow2(64 - n));
  }

  lemma OneMoreByte(s: bytes, b: byte)
    requires |s| < 10
    ensures BitOr(VarintValue(s) % U64, ShiftLeft64(b % 128, 7 * |s|)) == VarintValue(s + [b]) % U64
  {
    hide *;
    VarintValueAppend(s, b);
    OneMoreGroup(VarintValue(s), b % 128, 7 * |s|);
  }

  /** Reads one varint and moves past it. Ten groups are the most a 64-bit word
      takes; an eleventh, or the end of the payload, is an error. */
  method ReadVarint(payload: bytes, offset: nat) returns (r: Result<nat, WireError>, next: nat)
    requires offset <= |payload|
    ensures offset <= next <= |payload|
    ensures match VarintAt(payload[offset..])
            case Some((v, n)) => r == Ok(v) && next == offset + n
            case None => r == Err(TruncatedVarint)
  {
    hide BitOr, ShiftLeft64, VarintValue;
    var value := 0;
    next := offset;
    var shift := 0;
    ghost var rest, n := payload[offset..], 0;
    NoGroupYet(rest);
    while shift < 64
      invariant shift == 7 * n && n <= 10 && next == offset + n <= |payload|
      invariant forall i :: 0 <= i < n ==> rest[i] >= 128
      invariant value == VarintValue(rest[..n]) % U64
      decreases 10 - n
    {
      if next >= |payload| {
        GroupLengthUnique(rest, n);
        return Err(TruncatedVarint), next;
      }
      var b := payload[next];
      next := next + 1;
      OneMoreByte(rest[..n], b);
      assert rest[..n] + [b] == rest[..n + 1];
      value := BitOr(value, ShiftLeft64(b % 128, shift));
      if b < 128 {
        GroupLengthUnique(rest, n);
        return Ok(value), next;
      }
      shift, n := shift + 7, n + 1;
    }
    assert forall i :: 0 <= i < 10 ==> rest[i] >= 128;
    assert GroupLength(rest) >= 10;
    r := Err(TruncatedVarint);
  }

  lemma NoGroupYet(s: bytes)
    ensures VarintValue(s[..0]) % U64 == 0
  {
  }

  // ------------------------------------------------------------------ fields

  /** The bytes a field of wire type `wire` occupies after its tag. */
  function SkipLength(s: bytes, wire: nat): (r: Result<nat, WireError>)
    ensures r.Ok? ==> r.value <= |s|
  {
    match wire
    case 0 => (match VarintAt(s) case None => Err(TruncatedVarint) case Some((_, n)) => Ok(n))
    case 1 => if |s| < 8 then Err(TruncatedField) else Ok(8)
    case 2 =>
      (match VarintAt(s)
       case None => Err(TruncatedVarint)
       case Some((length, n)) => if |s| - n < length then Err(TruncatedField) else Ok(n + length))
    case 5 => if |s| < 4 then Err(TruncatedField) else Ok(4)
    case _ => Err(UnsupportedWire(wire))
  }

  /** What the scan makes of the bytes at its offset: the wanted value, a field to pass
      over, or an error. The field number is the tag without its wire type, cut to 32 bits. */
  datatype Head = Found(word: nat) | Passed(length: nat) | Failed(error: WireError)

  function HeadAt(s: bytes, wanted: nat): (h: Head)
    ensures h.Passed? ==> 0 < h.length <= |s|
  {
    match VarintAt(s)
    case None => Failed(TruncatedVarint)
    case Some((tag, n)) =>
      if tag / 8 % U32 == wanted && tag % 8 == 0 then
        (match VarintAt(s[n..]) case None => Failed(TruncatedVarint) case Some((v, _)) => Found(v))
      else
        (match SkipLength(s[n..], tag % 8) case Err(e) => Failed(e) case Ok(k) => Passed(n + k))
  }

  function Scan(s: bytes, wanted: nat): Result<Option<nat>, WireError>
    decreases |s|
  {
    if s == [] then Ok(None) else
    match HeadAt(s, wanted)
    case Found(v) => Ok(Some(v))
    case Failed(e) => Err(e)
    case Passed(n) => Scan(s[n..], wanted)
  }

  method Skip(payload: bytes, offset: nat, wire: nat) returns (r: Result<(), WireError>, next: nat)
    requires offset <= |payload|
    ensures offset <= next <= |payload|
    ensures match SkipLength(payload[offset..], wire)
            case Ok(k) => r == Ok(()) && next == offset + k
            case Err(e) => r == Err(e)
  {
    next := offset;
    var length := 0;
    var word;
    if wire == 0 {
      word, next := ReadVarint(payload, next);
      return if word.Ok? then Ok(()) else Err(word.error), next;
    } else if wire == 1 {
      length := 8;
    } else if wire == 2 {
      word, next := ReadVarint(payload, next);
      if word.Err? { return Err(word.error), next; }
      length := word.value;
    } else if wire == 5 {
      length := 4;
    } else {
      return Err(UnsupportedWire(wire)), next;
    }
    if |payload| - next < length { return Err(TruncatedField), next; }
    next := next + length;
    r := Ok(());
  }

  /** Scans a payload for the first varint field with number `wanted`. */
  method VarintField(payload: bytes, wanted: nat) returns (r: Result<Option<nat>, WireError>)
    ensures r == Scan(payload, wanted)
  {
    hide VarintAt, SkipLength;
    var offset := 0;
    assert payload[0..] == payload;
    while offset < |payload|
      invariant offset <= |payload|
      invariant Scan(payload, wanted) == Scan(payload[offset..], wanted)
      decreases |payload| - offset
    {
      ghost var s := payload[offset..];
      ghost var start := offset;
      var tag, next := ReadVarint(payload, offset);
      if tag.Err? { return Err(tag.error); }
      offset := next;
      assert payload[offset..] == s[offset - start..];
      var field, wire := tag.value / 8 % U32, tag.value % 8;
      if field == wanted && wire == 0 {
        var value, _ := ReadVarint(payload, offset);
        return if value.Ok? then Ok(Some(value.value)) else Err(value.error);
      }
      ghost var afterTag := offset;
      var skipped, beyond := Skip(payload, offset, wire);
      if skipped.Err? { return Err(skipped.error); }
      offset := beyond;
      assert payload[offset..] == payload[afterTag..][offset - afterTag..];
    }
    r := Ok(None);
  }

  // --------------------------------------------------- concrete field syntax

  /** One well-formed varint: terminated by its last byte, within ten bytes. Leading
      zero groups (non-minimal encodings) are allowed. */
  predicate IsVarint(s: bytes) {
    0 < |s| <= 10 && GroupLength(s) == |s| - 1
  }

  function Word(s: bytes): (w: nat)
    ensures w < U64
  {
    VarintValue(s) % U64
  }

  /** A field as it stands in a payload, by the "Message Structure" section of the
      Protocol Buffers Encoding specification. */
  datatype Field =
    | VarintF(tag: bytes, body: bytes)
    | Fixed64F(tag: bytes, body: bytes)
    | DelimitedF(tag: bytes, length: bytes, body: bytes)
    | Fixed32F(tag: bytes, body: bytes)
  {
    function WireType(): nat {
      match this case VarintF(_, _) => 0 case Fixed64F(_, _) => 1 case DelimitedF(_, _, _) => 2 case Fixed32F(_, _) => 5
    }

    function Number(): nat {
      Word(tag) / 8 % U32
    }

    predicate Valid() {
      && IsVarint(tag)
      && Word(tag) % 8 == WireType()
      && match this
         case VarintF(_, v) => IsVarint(v)
         case Fixed64F(_, b) => |b| == 8
         case DelimitedF(_, n, b) => IsVarint(n) && Word(n) == |b|
         case Fixed32F(_, b) => |b| == 4
    }

    function Payload(): bytes {
      match this
      case DelimitedF(_, n, b) => n + b
      case _ => body
    }

    function Bytes(): bytes {
      tag + Payload()
    }
  }

  predicate AllValid(fields: seq<Field>) {
    fields == [] || (fields[0].Valid() && AllValid(fields[1..]))
  }

  function Flatten(fields: seq<Field>): bytes {
    if fields == [] then [] else fields[0].Bytes() + Flatten(fields[1..])
  }

  /** The answer the scan owes its caller, read off the list of fields. */
  function FirstVarint(fields: seq<Field>, wanted: nat): Option<nat> {
    if fields == [] then None
    else if fields[0].VarintF? && fields[0].Number() == wanted then Some(Word(fields[0].body))
    else FirstVarint(fields[1..], wanted)
  }

  lemma VarintAtHead(v: bytes, rest: bytes)
    requires IsVarint(v)
    ensures VarintAt(v + rest) == Some((Word(v), |v|))
    ensures (v + rest)[|v|..] == rest
  {
    GroupLengthUnique(v + rest, |v| - 1);
    assert (v + rest)[..|v|] == v;
  }

  lemma HeadOfVarint(s: bytes)
    requires VarintAt(s).Some?
    ensures var (w, n) := VarintAt(s).value; IsVarint(s[..n]) && Word(s[..n]) == w
  {
    var n := VarintAt(s).value.1;
    GroupLengthUnique(s[..n], n - 1);
  }

  lemma SkipsPayload(f: Field, rest: bytes)
    requires f.Valid()
    ensures SkipLength(f.Payload() + rest, f.WireType()) == Ok(|f.Payload()|)
    ensures (f.Payload() + rest)[|f.Payload()|..] == rest
  {
    match f
    case VarintF(_, v) => VarintAtHead(v, rest);
    case DelimitedF(_, n, b) => SkipsDelimited(n, b, rest);
    case Fixed64F(_, b) =>
    case Fixed32F(_, b) =>
  }

  lemma SkipsDelimited(n: bytes, b: bytes, rest: bytes)
    requires IsVarint(n) && Word(n) == |b|
    ensures SkipLength(n + b + rest, 2) == Ok(|n + b|)
  {
    VarintAtHead(n, b + rest);
    assert n + b + rest == n + (b + rest);
  }

  lemma HeadOfField(f: Field, rest: bytes, wanted: nat)
    requires f.Valid()
    ensures HeadAt(f.Bytes() + rest, wanted) ==
            if f.VarintF? && f.Number() == wanted then Found(Word(f.body)) else Passed(|f.Bytes()|)
  {
    hide IsVarint, VarintAt, Word, SkipLength;
    assert f.Bytes() + rest == f.tag + (f.Payload() + rest);
    VarintAtHead(f.tag, f.Payload() + rest);
    SkipsPayload(f, rest);
    if f.VarintF? { VarintAtHead(f.body, rest); }
  }

  lemma ScanOfField(f: Field, rest: bytes, wanted: nat)
    requires f.Valid()
    ensures Scan(f.Bytes() + rest, wanted) ==
            if f.VarintF? && f.Number() == wanted then Ok(Some(Word(f.body))) else Scan(rest, wanted)
  {
    HeadOfField(f, rest, wanted);
    assert (f.Bytes() + rest)[|f.Bytes()|..] == rest;
  }

  /** Completeness: on the bytes of any list of well-formed fields, in any encoding of
      their varints and whatever follows, the scan answers the first varint field with
      the wanted number; the contents of other fields are never taken for a field. */
  lemma {:induction false} ScanFindsFirst(fields: seq<Field>, rest: bytes, wanted: nat)
    requires AllValid(fields)
    ensures FirstVarint(fields, wanted).Some? ==>
              Scan(Flatten(fields) + rest, wanted) == Ok(FirstVarint(fields, wanted))
    ensures FirstVarint(fields, wanted).None? ==> Scan(Flatten(fields) + rest, wanted) == Scan(rest, wanted)
  {
    if fields == [] {
      assert Flatten(fields) + rest == rest;
    } else {
      var f := fields[0];
      assert Flatten(fields) + rest == f.Bytes() + (Flatten(fields[1..]) + rest);
      ScanOfField(f, Flatten(fields[1..]) + rest, wanted);
      ScanFindsFirst(fields[1..], rest, wanted);
    }
  }

  /** The field a tag and a successful skip over what follows it delimit. */
  lemma FieldOfSkip(tag: bytes, body: bytes) returns (f: Field, rest: bytes)
    requires IsVarint(tag) && SkipLength(body, Word(tag) % 8).Ok?
    ensures f.Valid() && f.tag == tag && body == f.Payload() + rest
  {
    var wire := Word(tag) % 8;
    var k := SkipLength(body, wire).value;
    rest := body[k..];
    if wire == 0 {
      HeadOfVarint(body);
      f := VarintF(tag, body[..k]);
    } else if wire == 2 {
      var m := VarintAt(body).value.1;
      HeadOfVarint(body);
      f := DelimitedF(tag, body[..m], body[m..k]);
      assert body[..m] + body[m..k] == body[..k];
    } else if wire == 1 {
      f := Fixed64F(tag, body[..8]);
    } else {
      f := Fixed32F(tag, body[..4]);
    }
  }

  lemma SkippableHead(s: bytes, wanted: nat) returns (n: nat)
    requires !HeadAt(s, wanted).Failed?
    ensures n <= |s| && IsVarint(s[..n]) && SkipLength(s[n..], Word(s[..n]) % 8).Ok?
  {
    hide IsVarint, GroupLength, VarintValue;
    n := VarintAt(s).value.1;
    HeadOfVarint(s);
  }

  lemma BytesOfField(f: Field)
    ensures f.Bytes() == f.tag + f.Payload()
    ensures f.Valid() ==> |f.tag| > 0
  {
  }

  /** The field at the head of a payload that the scan has passed over or answered from. */
  lemma FieldAtHead(s: bytes, wanted: nat) returns (f: Field, rest: bytes)
    requires !HeadAt(s, wanted).Failed?
    ensures f.Valid() && s == f.Bytes() + rest && |rest| < |s|
  {
    hide *;
    var n := SkippableHead(s, wanted);
    f, rest := FieldOfSkip(s[..n], s[n..]);
    assert s == f.tag + (f.Payload() + rest);
    BytesOfField(f);
  }

  lemma PrependField(f: Field, more: seq<Field>, rest: bytes, wanted: nat)
    requires f.Valid()
    ensures AllValid(more) ==> AllValid([f] + more)
    ensures AllValid([])
    ensures Flatten([f] + more) + rest == f.Bytes() + (Flatten(more) + rest)
    ensures Flatten([]) + rest == rest
    ensures FirstVarint([f] + more, wanted) ==
            if f.VarintF? && f.Number() == wanted then Some(Word(f.body)) else FirstVarint(more, wanted)
  {
    assert ([f] + more)[1..] == more;
  }

  /** Soundness: an answer, of a value or of none, is always backed by a split of the
      payload into well-formed fields; "none" means the whole payload was fields. */
  lemma {:induction false} ScanAnswersAreFields(s: bytes, wanted: nat) returns (fields: seq<Field>, rest: bytes)
    requires Scan(s, wanted).Ok?
    ensures AllValid(fields) && s == Flatten(fields) + rest
    ensures Scan(s, wanted) == Ok(FirstVarint(fields, wanted))
    ensures FirstVarint(fields, wanted).None? ==> rest == []
    decreases |s|
  {
    if s == [] {
      fields, rest := [], [];
    } else {
      assert !HeadAt(s, wanted).Failed?;
      hide *;
      var f, tail := FieldAtHead(s, wanted);
      ScanOfField(f, tail, wanted);
      if f.VarintF? && f.Number() == wanted {
        fields, rest := [f], tail;
        PrependField(f, [], tail, wanted);
      } else {
        var more;
        more, rest := ScanAnswersAreFields(tail, wanted);
        fields := [f] + more;
        PrependField(f, more, rest, wanted);
      }
    }
  }

  /** The scan answers exactly when some prefix of the payload is a list of fields that
      either holds the wanted one or is the whole payload. */
  lemma ScanSucceedsIff(s: bytes, wanted: nat)
    ensures Scan(s, wanted).Ok? <==>
            exists fields: seq<Field>, rest: bytes ::
              && AllValid(fields) && s == Flatten(fields) + rest
              && (FirstVarint(fields, wanted).None? ==> rest == [])
  {
    if Scan(s, wanted).Ok? {
      var fields, rest := ScanAnswersAreFields(s, wanted);
    }
    forall fields: seq<Field>, rest: bytes | AllValid(fields) && s == Flatten(fields) + rest
                                           && (FirstVarint(fields, wanted).None? ==> rest == [])
      ensures Scan(s, wanted).Ok?
    {
      ScanFindsFirst(fields, rest, wanted);
    }
  }

  /** A found value does not depend on what follows it in the payload. */
  lemma FoundValueIgnoresSuffix(s: bytes, suffix: bytes, wanted: nat, v: nat)
    requires Scan(s, wanted) == Ok(Some(v))
    ensures Scan(s + suffix, wanted) == Ok(Some(v))
  {
    hide *;
    var fields, rest := ScanAnswersAreFields(s, wanted);
    assert s + suffix == Flatten(fields) + (rest + suffix);
    ScanFindsFirst(fields, rest + suffix, wanted);
  }

  // -------------------------------------------------------- canonical printer

  /** The minimal base-128 varint of a word ("Base 128 Varints"). */
  function EncodeVarint(v: nat): (s: bytes)
    ensures |s| > 0
  {
    if v < 128 then [v] else [v % 128 + 128] + EncodeVarint(v / 128)
  }

  /** An example: 150 is the two bytes 0x96 and 0x01. */
  lemma VarintExample()
    ensures EncodeVarint(150) == [0x96, 0x01] && IsVarint([0x96, 0x01]) && Word([0x96, 0x01]) == 150
  {
    assert EncodeVarint(150) == [0x96] + EncodeVarint(1);
    hide IsVarint, Word;
    WordRoundTrip(150);
  }

  lemma {:induction false} EncodedVarint(v: nat, k: nat)
    requires 0 < k && v < Pow2(7 * k)
    ensures |EncodeVarint(v)| <= k && GroupLength(EncodeVarint(v)) == |EncodeVarint(v)| - 1
    ensures VarintValue(EncodeVarint(v)) == v
    decreases v
  {
    var s := EncodeVarint(v);
    if v < 128 {
      assert s[1..] == [];
    } else {
      assert s[1..] == EncodeVarint(v / 128);
      assert k > 1 && v / 128 < Pow2(7 * (k - 1)) by {
        Pow2Of64();
        Pow2Sum(7, 7 * (k - 1));
      }
      hide Pow2;
      EncodedVarint(v / 128, k - 1);
    }
  }

  lemma WordRoundTrip(v: nat)
    requires v < U64
    ensures IsVarint(EncodeVarint(v)) && Word(EncodeVarint(v)) == v
  {
    assert v < Pow2(7 * 10) by {
      hide *;
      Pow2Of64();
      Pow2Sum(64, 6);
      AddScaled(v, 0, Pow2(64), Pow2(6));
    }
    hide Pow2, EncodeVarint, GroupLength, VarintValue;
    EncodedVarint(v, 10);
  }

  /** A field as a sender thinks of it. */
  datatype Item =
    | Varint(number: nat, word: nat)
    | Fixed64(number: nat, content: bytes)
    | Delimited(number: nat, content: bytes)
    | Fixed32(number: nat, content: bytes)
  {
    predicate Sendable() {
      && number < U32
      && match this
         case Varint(_, w) => w < U64
         case Fixed64(_, b) => |b| == 8
         case Delimited(_, b) => |b| < U64
         case Fixed32(_, b) => |b| == 4
    }

    function Print(): Field {
      match this
      case Varint(n, w) => VarintF(EncodeVarint(8 * n), EncodeVarint(w))
      case Fixed64(n, b) => Fixed64F(EncodeVarint(8 * n + 1), b)
      case Delimited(n, b) => DelimitedF(EncodeVarint(8 * n + 2), EncodeVarint(|b|), b)
      case Fixed32(n, b) => Fixed32F(EncodeVarint(8 * n + 5), b)
    }
  }

  function PrintAll(items: seq<Item>): bytes {
    if items == [] then [] else items[0].Print().Bytes() + PrintAll(items[1..])
  }

  function FirstWord(items: seq<Item>, wanted: nat): Option<nat> {
    if items == [] then None
    else if items[0].Varint? && items[0].number == wanted then Some(items[0].word)
    else FirstWord(items[1..], wanted)
  }

  lemma PrintedTag(number: nat, wire: nat)
    requires number < U32 && wire < 8
    ensures var tag := EncodeVarint(8 * number + wire);
            IsVarint(tag) && Word(tag) % 8 == wire && Word(tag) / 8 % U32 == number
  {
    WordRoundTrip(8 * number + wire);
  }

  lemma PrintedField(i: Item)
    requires i.Sendable()
    ensures i.Print().Valid() && i.Print().Number() == i.number
    ensures i.Varint? ==> Word(i.Print().body) == i.word
  {
    hide IsVarint, Word, EncodeVarint;
    match i
    case Varint(n, w) => PrintedTag(n, 0); WordRoundTrip(w);
    case Fixed64(n, b) => PrintedTag(n, 1);
    case Delimited(n, b) => PrintedTag(n, 2); WordRoundTrip(|b|);
    case Fixed32(n, b) => PrintedTag(n, 5);
  }

  /** The scan inverts the printer on every list of fields. */
  lemma {:induction false} ScanInvertsPrinter(items: seq<Item>, wanted: nat)
    requires forall i :: i in items ==> i.Sendable()
    ensures Scan(PrintAll(items), wanted) == Ok(FirstWord(items, wanted))
  {
    if items != [] {
      PrintedField(items[0]);
      ScanOfField(items[0].Print(), PrintAll(items[1..]), wanted);
      ScanInvertsPrinter(items[1..], wanted);
    }
  }

  /** Field numbers are compared modulo 2^32: a varint field numbered 2^32 + n, which no
      conforming sender writes, is answered in place of field n. */
  lemma OversizedNumberAliases(n: nat, w: nat)
    requires n < U32 && w < U64
    ensures Scan(VarintF(EncodeVarint(8 * (U32 + n)), EncodeVarint(w)).Bytes(), n) == Ok(Some(w))
  {
    hide IsVarint, Word, EncodeVarint, HeadAt, Scan;
    WordRoundTrip(8 * (U32 + n));
    WordRoundTrip(w);
    var f := VarintF(EncodeVarint(8 * (U32 + n)), EncodeVarint(w));
    ScanOfField(f, [], n);
    assert f.Bytes() + [] == f.Bytes();
  }
}
