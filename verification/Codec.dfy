/**
 The network codec: frames are printed into one buffer with a size field patched in afterwards,
 and parsed back from a read buffer that is filled in chunks of any size.
 */
module Codec {
  import opened Prelude

  type Byte = x: int | 0 <= x < 256
  type U64 = x: int | 0 <= x < 0x1_0000_0000_0000_0000

  const U32_SIZE := 0x1_0000_0000
  const U32_MAX := 0xFFFF_FFFF
  const GROUP_NO_UNIT := 0x100_0000_0000
  const NODE_NO_UNIT := 0x1_0000_0000_0000

  const FLAG_IS_LAST_RESPONSE := 0x80
  const KIND_REGULAR := 0
  const KIND_REQUEST_ANY := 1
  const KIND_REQUEST_ALL := 2
  const KIND_RESPONSE_OK := 3
  const KIND_RESPONSE_FAILED := 4
  const KIND_RESPONSE_IGNORED := 5

  // === Envelopes ===

  datatype Message = Message(protocol: seq<Byte>, name: seq<Byte>, content: nat)

  datatype RequestError = Failed | Ignored

  datatype Payload =
    | Regular(message: Message)
    | RequestAny(requestId: U64, message: Message)
    | RequestAll(requestId: U64, message: Message)
    | Response(requestId: U64, result: Result<Message, RequestError>, isLast: bool)

  datatype Envelope = Envelope(sender: U64, recipient: U64, traceId: U64, payload: Payload)

  /** Addresses on the wire are null or name a node and a group. */
  predicate NetworkAddr(bits: U64) {
    bits == 0 || ((bits / GROUP_NO_UNIT) % 256 != 0 && bits / NODE_NO_UNIT != 0)
  }

  /** Reading a request id forces the lowest bit of its version, which issued ids always have. */
  function RequestIdFromBits(bits: U64): (id: U64)
    ensures IsRequestId(id) && (id == bits <==> IsRequestId(bits))
  {
    if IsRequestId(bits) then bits else bits + U32_SIZE
  }

  predicate IsRequestId(bits: U64) {
    (bits / U32_SIZE) % 2 == 1
  }

  /** The serializer and the message table, as seen by the codec. */
  datatype Wire = Wire(
    writes: Message -> seq<seq<Byte>>,                          // the buffers it hands to the writer
    serializes: Message -> bool,                                // whether it then succeeds
    parses: (seq<Byte>, seq<Byte>, seq<Byte>) -> Option<Message>, // by protocol, name and rest of input
    isUtf8: seq<Byte> -> bool)

  function Flatten(parts: seq<seq<Byte>>): seq<Byte> {
    if parts == [] then [] else Flatten(parts[..|parts| - 1]) + parts[|parts| - 1]
  }

  predicate ValidMessage(w: Wire, m: Message) {
    |m.protocol| <= 255 && |m.name| <= 255 && w.isUtf8(m.protocol) && w.isUtf8(m.name)
  }

  function MessageOf(p: Payload): Option<Message> {
    match p
    case Response(_, result, _) => if result.Ok? then Some(result.value) else None
    case _ => Some(p.message)
  }

  function RequestIdOf(p: Payload): Option<U64> {
    match p
    case Regular(_) => None
    case RequestAny(id, _) => Some(id)
    case RequestAll(id, _) => Some(id)
    case Response(id, _, _) => Some(id)
  }

  predicate ValidEnvelope(w: Wire, e: Envelope) {
    && NetworkAddr(e.sender) && NetworkAddr(e.recipient) && e.traceId != 0
    && (RequestIdOf(e.payload).Some? ==> IsRequestId(RequestIdOf(e.payload).value))
    && (MessageOf(e.payload).Some? ==> ValidMessage(w, MessageOf(e.payload).value))
  }

  /** A serialized message is read back whatever follows it. */
  ghost predicate PrefixDecodable(w: Wire) {
    forall m: Message, rest: seq<Byte> :: ReadsBack(w, m, rest)
  }

  predicate ReadsBack(w: Wire, m: Message, rest: seq<Byte>) {
    w.serializes(m) ==> w.parses(m.protocol, m.name, Flatten(w.writes(m)) + rest) == Some(m)
  }

  // === Little-endian integers ===

  function Pow256(width: nat): nat {
    if width == 0 then 1 else 256 * Pow256(width - 1)
  }

  function ToLe(n: nat, width: nat): (s: seq<Byte>)
    ensures |s| == width
  {
    if width == 0 then [] else [n % 256] + ToLe(n / 256, width - 1)
  }

  function FromLe(s: seq<Byte>): nat {
    if s == [] then 0 else s[0] + 256 * FromLe(s[1..])
  }

  lemma {:induction false} LeRoundTrip(n: nat, width: nat)
    requires n < Pow256(width)
    ensures FromLe(ToLe(n, width)) == n
  {
    if width > 0 {
      assert ToLe(n, width)[1..] == ToLe(n / 256, width - 1);
      LeRoundTrip(n / 256, width - 1);
    }
  }

  lemma {:induction false} FromLeIsBounded(s: seq<Byte>)
    ensures FromLe(s) < Pow256(|s|)
  {
    if s != [] { FromLeIsBounded(s[1..]); }
  }

  lemma Widths()
    ensures Pow256(1) == 256 && Pow256(4) == U32_SIZE && Pow256(8) == 0x1_0000_0000_0000_0000
  {
    assert Pow256(2) == 0x1_0000 && Pow256(3) == 0x100_0000;
    assert Pow256(5) == 0x100_0000_0000 && Pow256(6) == 0x1_0000_0000_0000;
  }

  // === Printing ===

  function KindOf(p: Payload): Byte {
    match p
    case Regular(_) => KIND_REGULAR
    case RequestAny(_, _) => KIND_REQUEST_ANY
    case RequestAll(_, _) => KIND_REQUEST_ALL
    case Response(_, Ok(_), _) => KIND_RESPONSE_OK
    case Response(_, Err(Failed), _) => KIND_RESPONSE_FAILED
    case Response(_, Err(Ignored), _) => KIND_RESPONSE_IGNORED
  }

  function FlagsAndKind(p: Payload): (b: Byte)
    ensures b % 16 == KindOf(p) && (b >= FLAG_IS_LAST_RESPONSE <==> p.Response? && p.isLast)
  {
    (if p.Response? && p.isLast then FLAG_IS_LAST_RESPONSE else 0) + KindOf(p)
  }

  function Str(s: seq<Byte>): seq<Byte>
    requires |s| <= 255
  {
    [|s|] + s
  }

  function RequestIdBytes(p: Payload): seq<Byte> {
    if RequestIdOf(p).Some? then ToLe(RequestIdOf(p).value, 8) else []
  }

  function Names(w: Wire, e: Envelope): seq<Byte>
    requires ValidEnvelope(w, e)
  {
    var message := MessageOf(e.payload);
    if message.Some? then Str(message.value.protocol) + Str(message.value.name) else []
  }

  function FixedPart(flags: Byte, sender: U64, recipient: U64, trace: U64): seq<Byte> {
    [flags] + ToLe(sender, 8) + ToLe(recipient, 8) + ToLe(trace, 8)
  }

  /** Everything between the size field and the message payload. */
  function Header(w: Wire, e: Envelope): seq<Byte>
    requires ValidEnvelope(w, e)
  {
    FixedPart(FlagsAndKind(e.payload), e.sender, e.recipient, e.traceId) + RequestIdBytes(e.payload) + Names(w, e)
  }

  function Content(w: Wire, e: Envelope): seq<Byte> {
    if MessageOf(e.payload).Some? then Flatten(w.writes(MessageOf(e.payload).value)) else []
  }

  /** How long the payload of this envelope may be: the frame size must fit in 32 bits. */
  function Allowed(w: Wire, e: Envelope, limit: Option<nat>): int
    requires ValidEnvelope(w, e)
  {
    var most := U32_MAX - (4 + |Header(w, e)|);
    if limit.Some? then Min(limit.value, most) else most
  }

  predicate Encodable(w: Wire, e: Envelope, limit: Option<nat>)
    requires ValidEnvelope(w, e)
  {
    MessageOf(e.payload).Some? ==>
      w.serializes(MessageOf(e.payload).value) && |Content(w, e)| <= Allowed(w, e, limit)
  }

  /** The size field counts the whole frame. */
  function Sized(body: seq<Byte>): seq<Byte> {
    ToLe(4 + |body|, 4) + body
  }

  function Frame(w: Wire, e: Envelope): seq<Byte>
    requires ValidEnvelope(w, e)
  {
    Sized(Header(w, e) + Content(w, e))
  }

  // === Parsing ===

  datatype Parsed<+T> = Got(value: T, next: nat) | Malformed

  function GetU64(input: seq<Byte>, pos: nat): Parsed<U64> {
    if pos + 8 <= |input| then
      FromLeIsBounded(input[pos..pos + 8]); Widths();
      Got(FromLe(input[pos..pos + 8]), pos + 8)
    else Malformed
  }

  function GetAddr(input: seq<Byte>, pos: nat): Parsed<U64> {
    var bits := GetU64(input, pos);
    if bits.Got? && NetworkAddr(bits.value) then bits else Malformed
  }

  function GetRequestId(input: seq<Byte>, pos: nat): Parsed<U64> {
    var bits := GetU64(input, pos);
    if bits.Got? then Got(RequestIdFromBits(bits.value), bits.next) else Malformed
  }

  function GetStr(w: Wire, input: seq<Byte>, pos: nat): (r: Parsed<seq<Byte>>)
    ensures r.Got? ==> r.next <= |input|
  {
    if pos >= |input| then Malformed
    else
      var end := pos + 1 + input[pos];
      if |input| >= end && w.isUtf8(input[pos + 1..end]) then Got(input[pos + 1..end], end) else Malformed
  }

  /** The payload is read from the rest of the input, not from the rest of the frame. */
  function GetMessage(w: Wire, input: seq<Byte>, pos: nat): Option<Message> {
    var protocol := GetStr(w, input, pos);
    if protocol.Malformed? then None
    else
      var name := GetStr(w, input, protocol.next);
      if name.Malformed? then None else w.parses(protocol.value, name.value, input[name.next..])
  }

  /** What is known about an envelope whose message cannot be read. */
  datatype Details = Details(kind: Byte, sender: U64, recipient: U64, requestId: Option<U64>, traceId: U64)

  function ParsePayload(w: Wire, input: seq<Byte>, pos: nat, flags: Byte, head: Details)
    : Result<Payload, Option<Details>>
  {
    var kind := flags % 16;
    if kind == KIND_REGULAR then
      var message := GetMessage(w, input, pos);
      if message.Some? then Ok(Regular(message.value)) else Err(Some(head))
    else if kind > KIND_RESPONSE_IGNORED then Err(None)
    else
      var id := GetRequestId(input, pos);
      if id.Malformed? then Err(None)
      else if kind == KIND_RESPONSE_FAILED then
        Ok(Response(id.value, Err(Failed), flags >= FLAG_IS_LAST_RESPONSE))
      else if kind == KIND_RESPONSE_IGNORED then
        Ok(Response(id.value, Err(Ignored), flags >= FLAG_IS_LAST_RESPONSE))
      else
        var message := GetMessage(w, input, id.next);
        if message.None? then Err(Some(head.(requestId := Some(id.value))))
        else if kind == KIND_REQUEST_ANY then Ok(RequestAny(id.value, message.value))
        else if kind == KIND_REQUEST_ALL then Ok(RequestAll(id.value, message.value))
        else Ok(Response(id.value, Result.Ok(message.value), flags >= FLAG_IS_LAST_RESPONSE))
  }

  function ParseEnvelope(w: Wire, input: seq<Byte>, pos: nat): Result<Envelope, Option<Details>> {
    if pos >= |input| then Err(None)
    else
      var sender := GetAddr(input, pos + 1);
      if sender.Malformed? then Err(None)
      else
        var recipient := GetAddr(input, sender.next);
        if recipient.Malformed? then Err(None)
        else
          var trace := GetU64(input, recipient.next);
          if trace.Malformed? || trace.value == 0 then Err(None)
          else
            var head := Details(input[pos] % 16, sender.value, recipient.value, None, trace.value);
            var payload := ParsePayload(w, input, trace.next, input[pos], head);
            if payload.Err? then Err(payload.error)
            else Ok(Envelope(sender.value, recipient.value, trace.value, payload.value))
  }

  datatype DecodeState =
    | NeedMoreData(total: nat)
    | Skipped(consumed: nat, details: Option<Details>)
    | Done(consumed: nat, decoded: Envelope)

  /** The size a frame at the start of the input declares. */
  function Declared(input: seq<Byte>): nat
    requires |input| >= 4
  {
    FromLe(input[..4])
  }

  function DecodeFrame(w: Wire, input: seq<Byte>): DecodeState {
    if |input| < 4 then NeedMoreData(4)
    else if |input| < Declared(input) then NeedMoreData(Declared(input))
    else
      var parsed := ParseEnvelope(w, input, 4);
      if parsed.Ok? then Done(Declared(input), parsed.value) else Skipped(Declared(input), parsed.error)
  }

  // === One frame ===

  lemma U64At(before: seq<Byte>, n: U64, after: seq<Byte>)
    ensures GetU64(before + ToLe(n, 8) + after, |before|) == Got(n, |before| + 8)
  {
    var input := before + ToLe(n, 8) + after;
    Widths();
    LeRoundTrip(n, 8);
    assert input[|before|..|before| + 8] == ToLe(n, 8);
  }

  lemma StrAt(w: Wire, before: seq<Byte>, s: seq<Byte>, after: seq<Byte>)
    requires |s| <= 255 && w.isUtf8(s)
    ensures GetStr(w, before + Str(s) + after, |before|) == Got(s, |before| + 1 + |s|)
  {
    var input := before + Str(s) + after;
    assert input[|before| + 1..|before| + 1 + |s|] == s;
  }

  lemma NamesAt(w: Wire, before: seq<Byte>, m: Message, tail: seq<Byte>)
    requires ValidMessage(w, m)
    ensures GetMessage(w, before + (Str(m.protocol) + Str(m.name)) + tail, |before|) == w.parses(m.protocol, m.name, tail)
  {
    var input := before + (Str(m.protocol) + Str(m.name)) + tail;
    assert input == before + Str(m.protocol) + (Str(m.name) + tail);
    StrAt(w, before, m.protocol, Str(m.name) + tail);
    assert input == (before + Str(m.protocol)) + Str(m.name) + tail;
    StrAt(w, before + Str(m.protocol), m.name, tail);
    assert input[|before| + 2 + |m.protocol| + |m.name|..] == tail;
  }

  lemma MessageAt(w: Wire, before: seq<Byte>, m: Message, after: seq<Byte>)
    requires PrefixDecodable(w) && ValidMessage(w, m) && w.serializes(m)
    ensures GetMessage(w, before + (Str(m.protocol) + Str(m.name)) + (Flatten(w.writes(m)) + after), |before|) == Some(m)
  {
    NamesAt(w, before, m, Flatten(w.writes(m)) + after);
    assert ReadsBack(w, m, after);
  }

  lemma PayloadAt(w: Wire, e: Envelope, before: seq<Byte>, after: seq<Byte>, head: Details)
    requires PrefixDecodable(w) && ValidEnvelope(w, e)
    requires MessageOf(e.payload).Some? ==> w.serializes(MessageOf(e.payload).value)
    ensures ParsePayload(w, before + RequestIdBytes(e.payload) + (Names(w, e) + (Content(w, e) + after)),
                         |before|, FlagsAndKind(e.payload), head) == Ok(e.payload)
  {
    var id, names, content := RequestIdBytes(e.payload), Names(w, e), Content(w, e);
    var input := before + id + (names + (content + after));
    if RequestIdOf(e.payload).Some? {
      U64At(before, RequestIdOf(e.payload).value, names + (content + after));
    } else {
      assert before + id == before;
    }
    if MessageOf(e.payload).Some? {
      assert input == (before + id) + names + (content + after);
      MessageAt(w, before + id, MessageOf(e.payload).value, after);
      assert GetMessage(w, input, |before + id|) == MessageOf(e.payload);
    }
    if RequestIdOf(e.payload).Some? {
      assert GetRequestId(input, |before|) == Got(RequestIdOf(e.payload).value, |before + id|);
    }
    match e.payload
    case Regular(_) =>
    case RequestAny(_, _) =>
    case RequestAll(_, _) =>
    case Response(_, Ok(_), _) =>
    case Response(_, Err(Failed), _) =>
    case Response(_, Err(Ignored), _) =>
  }

  lemma FixedPartAt(before: seq<Byte>, flags: Byte, sender: U64, recipient: U64, trace: U64, tail: seq<Byte>)
    ensures var input := before + FixedPart(flags, sender, recipient, trace) + tail;
            && input[|before|] == flags
            && GetU64(input, |before| + 1) == Got(sender, |before| + 9)
            && GetU64(input, |before| + 9) == Got(recipient, |before| + 17)
            && GetU64(input, |before| + 17) == Got(trace, |before| + 25)
  {
    var f, s, r, t := [flags], ToLe(sender, 8), ToLe(recipient, 8), ToLe(trace, 8);
    var input := before + FixedPart(flags, sender, recipient, trace) + tail;
    assert input == (before + f) + s + (r + t + tail);
    U64At(before + f, sender, r + t + tail);
    assert input == (before + f + s) + r + (t + tail);
    U64At(before + f + s, recipient, t + tail);
    assert input == (before + f + s + r) + t + tail;
    U64At(before + f + s + r, trace, tail);
  }

  /** Any envelope printed at any place of the input is parsed back from there. */
  lemma EnvelopeAt(w: Wire, e: Envelope, before: seq<Byte>, after: seq<Byte>)
    requires PrefixDecodable(w) && ValidEnvelope(w, e)
    requires MessageOf(e.payload).Some? ==> w.serializes(MessageOf(e.payload).value)
    ensures ParseEnvelope(w, before + Header(w, e) + (Content(w, e) + after), |before|) == Ok(e)
  {
    var flags := FlagsAndKind(e.payload);
    var head := FixedPart(flags, e.sender, e.recipient, e.traceId);
    var id, names, tail := RequestIdBytes(e.payload), Names(w, e), Content(w, e) + after;
    Reassociate(before, head, id, names, tail);
    FixedPartAt(before, flags, e.sender, e.recipient, e.traceId, id + (names + tail));
    PayloadAt(w, e, before + head, after, Details(flags % 16, e.sender, e.recipient, None, e.traceId));
  }

  /** What the receiver still learns of an envelope whose message it cannot read. */
  function DetailsOf(e: Envelope): Details {
    Details(KindOf(e.payload), e.sender, e.recipient, RequestIdOf(e.payload), e.traceId)
  }

  /** The receiver does not know the message, or cannot read this content, whatever follows it. */
  ghost predicate Unreadable(w: Wire, e: Envelope, content: seq<Byte>) {
    && ValidEnvelope(w, e) && MessageOf(e.payload).Some?
    && forall rest: seq<Byte> :: ParsesNot(w, MessageOf(e.payload).value, content + rest)
  }

  predicate ParsesNot(w: Wire, m: Message, tail: seq<Byte>) {
    w.parses(m.protocol, m.name, tail) == None
  }

  lemma UnreadablePayloadAt(w: Wire, e: Envelope, content: seq<Byte>, before: seq<Byte>, after: seq<Byte>, head: Details)
    requires Unreadable(w, e, content)
    ensures ParsePayload(w, before + RequestIdBytes(e.payload) + (Names(w, e) + (content + after)),
                         |before|, FlagsAndKind(e.payload), head.(requestId := None))
         == Err(Some(head.(requestId := RequestIdOf(e.payload))))
  {
    var id, names := RequestIdBytes(e.payload), Names(w, e);
    var input := before + id + (names + (content + after));
    assert input == (before + id) + names + (content + after);
    NamesAt(w, before + id, MessageOf(e.payload).value, content + after);
    assert ParsesNot(w, MessageOf(e.payload).value, content + after);
    if RequestIdOf(e.payload).Some? {
      U64At(before, RequestIdOf(e.payload).value, names + (content + after));
      assert GetRequestId(input, |before|) == Got(RequestIdOf(e.payload).value, |before + id|);
    } else {
      assert before + id == before;
    }
    match e.payload
    case Regular(_) =>
    case RequestAny(_, _) =>
    case RequestAll(_, _) =>
    case Response(_, Ok(_), _) =>
  }

  /** Of an unreadable message everything but the message is known. */
  lemma UnreadableAt(w: Wire, e: Envelope, content: seq<Byte>, before: seq<Byte>, after: seq<Byte>)
    requires Unreadable(w, e, content)
    ensures ParseEnvelope(w, before + Header(w, e) + (content + after), |before|) == Err(Some(DetailsOf(e)))
  {
    var flags := FlagsAndKind(e.payload);
    var head := FixedPart(flags, e.sender, e.recipient, e.traceId);
    var id, names, tail := RequestIdBytes(e.payload), Names(w, e), content + after;
    Reassociate(before, head, id, names, tail);
    FixedPartAt(before, flags, e.sender, e.recipient, e.traceId, id + (names + tail));
    UnreadablePayloadAt(w, e, content, before + head, after, Details(flags % 16, e.sender, e.recipient, None, e.traceId));
  }

  lemma Reassociate(a: seq<Byte>, b: seq<Byte>, c: seq<Byte>, d: seq<Byte>, e: seq<Byte>)
    ensures a + (b + c + d) + e == a + b + (c + (d + e)) == (a + b) + c + (d + e)
  {
  }

  lemma HeaderIsShort(w: Wire, e: Envelope)
    requires ValidEnvelope(w, e)
    ensures 25 <= |Header(w, e)| <= 545
  {
  }

  lemma SizedReads(body: seq<Byte>)
    requires 4 + |body| <= U32_MAX
    ensures Declared(Sized(body)) == |Sized(body)| == 4 + |body|
  {
    Widths();
    LeRoundTrip(4 + |body|, 4);
    assert Sized(body)[..4] == ToLe(4 + |body|, 4);
  }

  /** The size field never truncates: what may be encoded has a size that fits, and reads back. */
  lemma SizeFits(w: Wire, e: Envelope, limit: Option<nat>)
    requires ValidEnvelope(w, e) && Encodable(w, e, limit)
    ensures |Frame(w, e)| <= U32_MAX && Declared(Frame(w, e)) == |Frame(w, e)|
  {
    BodyFits(w, e, limit);
    SizedReads(Header(w, e) + Content(w, e));
  }

  lemma BodyFits(w: Wire, e: Envelope, limit: Option<nat>)
    requires ValidEnvelope(w, e) && Encodable(w, e, limit)
    ensures 4 + |Header(w, e) + Content(w, e)| <= U32_MAX
  {
    HeaderIsShort(w, e);
  }

  lemma SizedThen(header: seq<Byte>, content: seq<Byte>, rest: seq<Byte>)
    ensures var size, input := ToLe(4 + |header + content|, 4), Sized(header + content) + rest;
            input[..4] == Sized(header + content)[..4] && input == size + header + (content + rest)
  {
  }

  /** Whatever follows a frame in the buffer, decoding returns its envelope and consumes just the frame. */
  lemma RoundTrip(w: Wire, e: Envelope, limit: Option<nat>, rest: seq<Byte>)
    requires PrefixDecodable(w) && ValidEnvelope(w, e) && Encodable(w, e, limit)
    ensures DecodeFrame(w, Frame(w, e) + rest) == Done(|Frame(w, e)|, e)
  {
    BodyFits(w, e, limit);
    BodyParses(w, e, rest);
    DecodeSized(w, Frame(w, e), Header(w, e), Content(w, e), rest, Ok(e));
  }

  /** The frame of an unreadable message is skipped with the details of its envelope. */
  lemma UnreadableIsSkipped(w: Wire, e: Envelope, content: seq<Byte>, rest: seq<Byte>)
    requires Unreadable(w, e, content) && 4 + |Header(w, e) + content| <= U32_MAX
    ensures var frame := Sized(Header(w, e) + content);
            DecodeFrame(w, frame + rest) == Skipped(|frame|, Some(DetailsOf(e)))
  {
    UnreadableAt(w, e, content, ToLe(4 + |Header(w, e) + content|, 4), rest);
    DecodeSized(w, Sized(Header(w, e) + content), Header(w, e), content, rest, Err(Some(DetailsOf(e))));
  }

  predicate BodyReads(w: Wire, header: seq<Byte>, content: seq<Byte>, rest: seq<Byte>,
                      parsed: Result<Envelope, Option<Details>>) {
    ParseEnvelope(w, ToLe(4 + |header + content|, 4) + header + (content + rest), 4) == parsed
  }

  lemma BodyParses(w: Wire, e: Envelope, rest: seq<Byte>)
    requires PrefixDecodable(w) && ValidEnvelope(w, e)
    requires MessageOf(e.payload).Some? ==> w.serializes(MessageOf(e.payload).value)
    ensures BodyReads(w, Header(w, e), Content(w, e), rest, Ok(e))
  {
    EnvelopeAt(w, e, ToLe(4 + |Header(w, e) + Content(w, e)|, 4), rest);
  }

  lemma DecodeSized(w: Wire, frame: seq<Byte>, header: seq<Byte>, content: seq<Byte>, rest: seq<Byte>,
                    parsed: Result<Envelope, Option<Details>>)
    requires frame == Sized(header + content) && 4 + |header + content| <= U32_MAX
    requires BodyReads(w, header, content, rest, parsed)
    ensures DecodeFrame(w, frame + rest)
         == if parsed.Ok? then Done(|frame|, parsed.value) else Skipped(|frame|, parsed.error)
  {
    SizedReads(header + content);
    SizedThen(header, content, rest);
  }

  /** The byte of the kind, as a number. */
  lemma FlagsByKind(p: Payload)
    ensures FlagsAndKind(p) ==
            match p
            case Regular(_) => 0
            case RequestAny(_, _) => 1
            case RequestAll(_, _) => 2
            case Response(_, result, isLast) =>
              (if isLast then 0x80 else 0) + if result.Ok? then 3 else if result.error.Failed? then 4 else 5
  {
    match p
    case Response(_, Ok(_), _) =>
    case Response(_, Err(Failed), _) =>
    case Response(_, Err(Ignored), _) =>
    case _ =>
  }

  lemma PiecesAt(size: seq<Byte>, head: seq<Byte>, id: seq<Byte>, tail: seq<Byte>)
    requires |size| == 4 && |head| == 25
    ensures var f := size + head + (id + tail);
            && f[..4] == size && f[4] == head[0]
            && f[5..13] == head[1..9] && f[13..21] == head[9..17] && f[21..29] == head[17..]
            && (|id| == 8 ==> f[29..37] == id)
  {
  }

  lemma FixedPieces(flags: Byte, sender: U64, recipient: U64, trace: U64)
    ensures var h := FixedPart(flags, sender, recipient, trace);
            && |h| == 25 && h[0] == flags
            && FromLe(h[1..9]) == sender && FromLe(h[9..17]) == recipient && FromLe(h[17..]) == trace
  {
    var h := FixedPart(flags, sender, recipient, trace);
    Widths();
    LeRoundTrip(sender, 8);
    LeRoundTrip(recipient, 8);
    LeRoundTrip(trace, 8);
    assert h[1..9] == ToLe(sender, 8) && h[9..17] == ToLe(recipient, 8) && h[17..] == ToLe(trace, 8);
  }

  /** Where everything is in a frame: size, kind, sender, recipient, trace and request id. */
  lemma FrameLayout(w: Wire, e: Envelope)
    requires ValidEnvelope(w, e) && |Frame(w, e)| <= 0xFFFF_FFFF
    ensures var f := Frame(w, e);
            && |f| >= 29 && FromLe(f[..4]) == |f| && f[4] == FlagsAndKind(e.payload)
            && FromLe(f[5..13]) == e.sender && FromLe(f[13..21]) == e.recipient && FromLe(f[21..29]) == e.traceId
            && (!e.payload.Regular? ==> |f| >= 37 && FromLe(f[29..37]) == e.payload.requestId)
  {
    var size := ToLe(4 + |Header(w, e) + Content(w, e)|, 4);
    var head := FixedPart(FlagsAndKind(e.payload), e.sender, e.recipient, e.traceId);
    var id, tail := RequestIdBytes(e.payload), Names(w, e) + Content(w, e);
    assert Frame(w, e) == size + head + (id + tail) by {
      Reassociate(size, head, id, Names(w, e), Content(w, e));
      Associate(size, Header(w, e), Content(w, e));
    }
    SizedReads(Header(w, e) + Content(w, e));
    FixedPieces(FlagsAndKind(e.payload), e.sender, e.recipient, e.traceId);
    PiecesAt(size, head, id, tail);
    if !e.payload.Regular? { Widths(); LeRoundTrip(e.payload.requestId, 8); }
  }

  /** Whatever the input, what is decoded has addresses that are null or name a node and a group, and a trace. */
  lemma DecodedIsValid(w: Wire, input: seq<Byte>)
    requires DecodeFrame(w, input).Done?
    ensures var e := DecodeFrame(w, input).decoded;
            && (e.sender == 0 || (e.sender / 0x1_0000_0000_0000 != 0 && (e.sender / 0x100_0000_0000) % 0x100 != 0))
            && (e.recipient == 0 || (e.recipient / 0x1_0000_0000_0000 != 0 && (e.recipient / 0x100_0000_0000) % 0x100 != 0))
            && e.traceId != 0
            && (!e.payload.Regular? ==> (e.payload.requestId / 0x1_0000_0000) % 2 == 1)
  {
    var sender := GetAddr(input, 5);
    var recipient := GetAddr(input, sender.next);
    var trace := GetU64(input, recipient.next);
    PayloadIsValid(w, input, trace.next, input[4], Details(input[4] % 16, sender.value, recipient.value, None, trace.value));
  }

  lemma PayloadIsValid(w: Wire, input: seq<Byte>, pos: nat, flags: Byte, head: Details)
    requires ParsePayload(w, input, pos, flags, head).Ok?
    ensures var p := ParsePayload(w, input, pos, flags, head).value;
            !p.Regular? ==> IsRequestId(p.requestId)
  {
  }

  // === Streams of frames, cut anywhere ===

  /** Bytes whose first four say how many there are. */
  predicate WellSized(bytes: seq<Byte>) {
    |bytes| >= 4 && Declared(bytes) == |bytes|
  }

  /** What is sent: an envelope, one whose message the receiver cannot read, or some other frame of the right size. */
  datatype Item = Good(envelope: Envelope) | Foreign(envelope: Envelope, content: seq<Byte>) | Other(bytes: seq<Byte>)

  ghost predicate Sendable(w: Wire, item: Item) {
    match item
    case Good(e) => ValidEnvelope(w, e) && exists limit :: Encodable(w, e, limit)
    case Foreign(e, content) => Unreadable(w, e, content) && 4 + |Header(w, e) + content| <= U32_MAX
    case Other(bytes) => WellSized(bytes)
  }

  function BytesOf(w: Wire, item: Item): seq<Byte>
    requires Sendable(w, item)
  {
    match item
    case Good(e) => Frame(w, e)
    case Foreign(e, content) => Sized(Header(w, e) + content)
    case Other(bytes) => bytes
  }

  ghost predicate AllSendable(w: Wire, items: seq<Item>) {
    forall i :: 0 <= i < |items| ==> Sendable(w, items[i])
  }

  function Stream(w: Wire, items: seq<Item>): seq<Byte>
    requires AllSendable(w, items)
  {
    if items == [] then [] else BytesOf(w, items[0]) + Stream(w, items[1..])
  }

  /** What the decoder may say about an item. */
  predicate Answers(answer: DecodeState, item: Item, size: nat) {
    match item
    case Good(e) => answer == Done(size, e)
    case Foreign(e, _) => answer == Skipped(size, Some(DetailsOf(e)))
    case Other(_) => !answer.NeedMoreData? && answer.consumed == size
  }

  lemma ItemIsWellSized(w: Wire, item: Item)
    requires Sendable(w, item)
    ensures WellSized(BytesOf(w, item))
  {
    if item.Good? {
      var limit :| Encodable(w, item.envelope, limit);
      SizeFits(w, item.envelope, limit);
    } else if item.Foreign? {
      SizedReads(Header(w, item.envelope) + item.content);
    }
  }

  /** One complete item at the front of the buffer is answered and consumed, whatever follows. */
  lemma DecodesFirst(w: Wire, item: Item, rest: seq<Byte>)
    requires PrefixDecodable(w) && Sendable(w, item)
    ensures Answers(DecodeFrame(w, BytesOf(w, item) + rest), item, |BytesOf(w, item)|)
  {
    ItemIsWellSized(w, item);
    if item.Good? {
      var limit :| Encodable(w, item.envelope, limit);
      RoundTrip(w, item.envelope, limit, rest);
    } else if item.Foreign? {
      UnreadableIsSkipped(w, item.envelope, item.content, rest);
    } else {
      assert (item.bytes + rest)[..4] == item.bytes[..4];
    }
  }

  /** A strict prefix of an item is answered by asking for more, and never for too much. */
  lemma PrefixNeedsMore(w: Wire, item: Item, prefix: seq<Byte>)
    requires Sendable(w, item) && prefix < BytesOf(w, item)
    ensures DecodeFrame(w, prefix) == NeedMoreData(if |prefix| < 4 then 4 else |BytesOf(w, item)|)
    ensures |prefix| < DecodeFrame(w, prefix).total <= |BytesOf(w, item)|
  {
    ItemIsWellSized(w, item);
    if |prefix| >= 4 { assert prefix[..4] == BytesOf(w, item)[..4]; }
  }

  /** The reader: bytes received and not yet consumed, and what was decoded so far. */
  datatype Reader = Reader(buffered: seq<Byte>, answers: seq<DecodeState>)

  datatype ReadEvent = Arrive(chunk: seq<Byte>) | Poll

  function Read(w: Wire, r: Reader, ev: ReadEvent): Reader {
    match ev
    case Arrive(chunk) => r.(buffered := r.buffered + chunk)
    case Poll =>
      var answer := DecodeFrame(w, r.buffered);
      if answer.NeedMoreData? || answer.consumed > |r.buffered| then r
      else Reader(r.buffered[answer.consumed..], r.answers + [answer])
  }

  function ReadAll(w: Wire, r: Reader, events: seq<ReadEvent>): Reader
    decreases |events|
  {
    if events == [] then r else ReadAll(w, Read(w, r, events[0]), events[1..])
  }

  function Arrived(events: seq<ReadEvent>): seq<Byte> {
    if events == [] then []
    else (if events[0].Arrive? then events[0].chunk else []) + Arrived(events[1..])
  }

  /** The answers so far are those of the first items, and the buffer starts with the next one. */
  ghost predicate InStep(w: Wire, items: seq<Item>, r: Reader, coming: seq<Byte>)
    requires AllSendable(w, items)
  {
    && |r.answers| <= |items|
    && (forall i :: 0 <= i < |r.answers| ==> Answers(r.answers[i], items[i], |BytesOf(w, items[i])|))
    && r.buffered + coming <= Stream(w, items[|r.answers|..])
  }

  /** The buffer against the next item of the stream. */
  lemma PollOnItem(w: Wire, item: Item, rest: seq<Byte>, buffered: seq<Byte>, coming: seq<Byte>)
    requires PrefixDecodable(w) && Sendable(w, item) && buffered + coming <= BytesOf(w, item) + rest
    ensures if |buffered| < |BytesOf(w, item)|
            then DecodeFrame(w, buffered).NeedMoreData? && buffered < BytesOf(w, item)
            else && Answers(DecodeFrame(w, buffered), item, |BytesOf(w, item)|)
                 && !DecodeFrame(w, buffered).NeedMoreData? && DecodeFrame(w, buffered).consumed == |BytesOf(w, item)|
                 && buffered[|BytesOf(w, item)|..] + coming <= rest
  {
    var bytes := BytesOf(w, item);
    PrefixOfTwo(buffered, coming, bytes, rest);
    ItemIsWellSized(w, item);
    if |buffered| < |bytes| {
      PrefixNeedsMore(w, item, buffered);
    } else {
      DecodesFirst(w, item, buffered[|bytes|..]);
    }
  }

  /** A prefix of two pieces is a prefix of the first, or the first and a prefix of the second. */
  lemma PrefixOfTwo(a: seq<Byte>, b: seq<Byte>, x: seq<Byte>, y: seq<Byte>)
    requires a + b <= x + y
    ensures if |a| < |x| then a < x else a == x + a[|x|..] && a[|x|..] + b <= y
  {
    assert a == (x + y)[..|a|];
    if |a| < |x| {
      assert a == x[..|a|];
    } else {
      assert x == (x + y)[..|x|] == a[..|x|];
      assert a[|x|..] + b == (a + b)[|x|..] && y == (x + y)[|x|..];
    }
  }

  lemma PollKeepsStep(w: Wire, items: seq<Item>, r: Reader, coming: seq<Byte>)
    requires PrefixDecodable(w) && AllSendable(w, items) && InStep(w, items, r, coming)
    ensures InStep(w, items, Read(w, r, Poll), coming)
    ensures Read(w, r, Poll) == r <==> DecodeFrame(w, r.buffered).NeedMoreData?
    ensures Read(w, r, Poll) == r && |r.answers| < |items| ==> r.buffered < BytesOf(w, items[|r.answers|])
  {
    var n := |r.answers|;
    var stream := Stream(w, items[n..]);
    if n == |items| {
      assert items[n..] == [];
      assert r.buffered == [];
    } else {
      assert items[n..][1..] == items[n + 1..];
      PollOnItem(w, items[n], Stream(w, items[n + 1..]), r.buffered, coming);
      ItemIsWellSized(w, items[n]);
    }
  }

  lemma {:induction false} RunKeepsStep(w: Wire, items: seq<Item>, r: Reader, events: seq<ReadEvent>)
    requires PrefixDecodable(w) && AllSendable(w, items) && InStep(w, items, r, Arrived(events))
    ensures InStep(w, items, ReadAll(w, r, events), [])
    decreases |events|
  {
    if events != [] {
      var next, coming := Read(w, r, events[0]), Arrived(events[1..]);
      if events[0].Arrive? {
        assert next.buffered + coming == r.buffered + Arrived(events);
      } else {
        assert [] + coming == coming;
        PollKeepsStep(w, items, r, coming);
      }
      RunKeepsStep(w, items, next, events[1..]);
    } else {
      assert r.buffered + [] == r.buffered;
    }
  }

  /**
   However the bytes of a stream are cut into chunks and whenever the reader looks at its buffer,
   the answers are those of the first items in order, with every envelope intact and every other
   frame stepped over. When the reader asks for more, it has answered all items that arrived whole.
   */
  lemma StreamRoundTrip(w: Wire, items: seq<Item>, events: seq<ReadEvent>)
    requires PrefixDecodable(w) && AllSendable(w, items) && Arrived(events) <= Stream(w, items)
    ensures var r := ReadAll(w, Reader([], []), events);
            && |r.answers| <= |items|
            && (forall i :: 0 <= i < |r.answers| ==> Answers(r.answers[i], items[i], |BytesOf(w, items[i])|))
            && r.buffered <= Stream(w, items[|r.answers|..])
            && (DecodeFrame(w, r.buffered).NeedMoreData? && |r.answers| < |items| ==>
                  r.buffered < BytesOf(w, items[|r.answers|]))
  {
    assert [] + Arrived(events) == Arrived(events) && items[0..] == items;
    RunKeepsStep(w, items, Reader([], []), events);
    var r := ReadAll(w, Reader([], []), events);
    assert r.buffered + [] == r.buffered;
    PollKeepsStep(w, items, r, []);
  }

  // === Any input ===

  /** A decoding step leaves the buffer shorter exactly when the frame does not declare size zero. */
  lemma ProgressIff(w: Wire, r: Reader)
    requires !DecodeFrame(w, r.buffered).NeedMoreData?
    ensures |Read(w, r, Poll).buffered| < |r.buffered| <==> Declared(r.buffered) != 0
  {
  }

  // === The framed reader ===

  datatype FramedReadState =
    | WantsMore(total: nat)
    | EnvelopeSkipped(details: Details)
    | Decoded(envelope: Envelope)
    | Spins                              // the loop repeats the same step forever

  /** What one `read` reports and leaves in the buffer: frames without readable details are passed over. */
  function NextEnvelope(w: Wire, bytes: seq<Byte>): (FramedReadState, seq<Byte>)
    decreases |bytes|
  {
    match DecodeFrame(w, bytes)
    case NeedMoreData(total) => (WantsMore(total), bytes)
    case Done(consumed, e) => (Decoded(e), bytes[consumed..])
    case Skipped(consumed, Some(details)) => (EnvelopeSkipped(details), bytes[consumed..])
    case Skipped(consumed, None) =>
      if consumed == 0 then (Spins, bytes) else NextEnvelope(w, bytes[consumed..])
  }

  /** With a frame in front, the next `read` reports its envelope and leaves what follows. */
  lemma NextIsDecoded(w: Wire, e: Envelope, limit: Option<nat>, rest: seq<Byte>)
    requires PrefixDecodable(w) && ValidEnvelope(w, e) && Encodable(w, e, limit)
    ensures NextEnvelope(w, Frame(w, e) + rest) == (Decoded(e), rest)
  {
    RoundTrip(w, e, limit, rest);
    assert (Frame(w, e) + rest)[|Frame(w, e)|..] == rest;
  }

  // === What a sequence of reads reports ===

  /** A frame that carries nothing readable, whatever follows. */
  ghost predicate Silent(w: Wire, bytes: seq<Byte>) {
    forall rest: seq<Byte> :: ReadsNothing(w, bytes + rest)
  }

  predicate ReadsNothing(w: Wire, bytes: seq<Byte>) {
    ParseEnvelope(w, bytes, 4) == Err(None)
  }

  ghost predicate OthersAreSilent(w: Wire, items: seq<Item>) {
    forall i :: 0 <= i < |items| && items[i].Other? ==> Silent(w, items[i].bytes)
  }

  function Report(item: Item): seq<FramedReadState> {
    match item
    case Good(e) => [Decoded(e)]
    case Foreign(e, _) => [EnvelopeSkipped(DetailsOf(e))]
    case Other(_) => []
  }

  function Reports(items: seq<Item>): seq<FramedReadState> {
    if items == [] then [] else Reports(items[..|items| - 1]) + Report(items[|items| - 1])
  }

  datatype ReadCall = Receive(chunk: seq<Byte>) | Next

  /** The bytes received and not yet consumed, and what the calls of `read` reported so far. */
  datatype Session = Session(buffered: seq<Byte>, reports: seq<FramedReadState>)

  function Call(w: Wire, s: Session, call: ReadCall): Session {
    match call
    case Receive(chunk) => s.(buffered := s.buffered + chunk)
    case Next => Session(NextEnvelope(w, s.buffered).1, s.reports + [NextEnvelope(w, s.buffered).0])
  }

  function CallAll(w: Wire, s: Session, calls: seq<ReadCall>): Session
    decreases |calls|
  {
    if calls == [] then s else CallAll(w, Call(w, s, calls[0]), calls[1..])
  }

  function Received(calls: seq<ReadCall>): seq<Byte> {
    if calls == [] then []
    else (if calls[0].Receive? then calls[0].chunk else []) + Received(calls[1..])
  }

  /** The reports other than that more is wanted. */
  function Found(reports: seq<FramedReadState>): seq<FramedReadState> {
    if reports == [] then []
    else Found(reports[..|reports| - 1])
         + if reports[|reports| - 1].WantsMore? then [] else [reports[|reports| - 1]]
  }

  /** No whole item is left in front of the buffer. */
  ghost predicate NothingWhole(w: Wire, items: seq<Item>, buffered: seq<Byte>)
    requires AllSendable(w, items)
  {
    if items == [] then buffered == [] else buffered < BytesOf(w, items[0])
  }

  lemma SilentIsSkipped(w: Wire, bytes: seq<Byte>, rest: seq<Byte>)
    requires WellSized(bytes) && Silent(w, bytes)
    ensures DecodeFrame(w, bytes + rest) == Skipped(|bytes|, None)
  {
    assert (bytes + rest)[..4] == bytes[..4];
    assert ReadsNothing(w, bytes + rest);
  }

  ghost predicate Fits(w: Wire, items: seq<Item>) {
    AllSendable(w, items) && OthersAreSilent(w, items)
  }

  lemma {:induction false} ReportsAppend(a: seq<Item>, b: seq<Item>)
    ensures Reports(a + b) == Reports(a) + Reports(b)
    decreases |b|
  {
    if b == [] {
      assert a + b == a;
    } else {
      var n := |b| - 1;
      assert (a + b)[..|a + b| - 1] == a + b[..n];
      ReportsAppend(a, b[..n]);
    }
  }

  lemma ReportsOfOne(item: Item)
    ensures Reports([item]) == Report(item)
  {
    assert [item][..0] == [];
  }

  /** After a call that reports `r` and leaves `rest`, these items are passed and those are left. */
  ghost predicate Passes(w: Wire, items: seq<Item>, r: FramedReadState, rest: seq<Byte>, coming: seq<Byte>,
                         passed: seq<Item>, left: seq<Item>) {
    && items == passed + left && Fits(w, left) && rest + coming <= Stream(w, left)
    && Reports(passed) == (if r.WantsMore? then [] else [r])
    && (r.WantsMore? ==> NothingWhole(w, left, rest))
  }

  lemma PassesSilent(w: Wire, items: seq<Item>, r: FramedReadState, rest: seq<Byte>, coming: seq<Byte>,
                     passed: seq<Item>, left: seq<Item>)
    requires items != [] && items[0].Other? && Passes(w, items[1..], r, rest, coming, passed, left)
    ensures Passes(w, items, r, rest, coming, [items[0]] + passed, left)
  {
    SilentReports(items[0], passed);
    FirstOfItems(items, passed, left);
  }

  lemma SilentReports(item: Item, items: seq<Item>)
    requires item.Other?
    ensures Reports([item] + items) == Reports(items)
  {
    ReportsAppend([item], items);
    ReportsOfOne(item);
  }

  lemma FirstOfItems(items: seq<Item>, a: seq<Item>, b: seq<Item>)
    requires items != [] && items[1..] == a + b
    ensures items == [items[0]] + a + b
  {
    assert items == [items[0]] + items[1..];
  }

  lemma AppendItems(a: seq<Item>, b: seq<Item>, c: seq<Item>)
    ensures a + b + c == a + (b + c)
  {
  }

  /** One call passes the silent items and reports the next one, or finds none that is whole. */
  lemma {:induction false} NextReports(w: Wire, items: seq<Item>, buffered: seq<Byte>, coming: seq<Byte>)
    returns (passed: seq<Item>, left: seq<Item>)
    requires PrefixDecodable(w) && Fits(w, items) && buffered + coming <= Stream(w, items)
    ensures Passes(w, items, NextEnvelope(w, buffered).0, NextEnvelope(w, buffered).1, coming, passed, left)
    decreases |items|
  {
    passed, left := [], items;
    if items == [] {
      assert buffered == [];
    } else {
      var bytes := BytesOf(w, items[0]);
      PollOnItem(w, items[0], Stream(w, items[1..]), buffered, coming);
      ItemIsWellSized(w, items[0]);
      if |buffered| < |bytes| {
        assert Reports(passed) == [];
      } else if items[0].Other? {
        PrefixOfTwo(buffered, coming, bytes, Stream(w, items[1..]));
        SilentIsSkipped(w, bytes, buffered[|bytes|..]);
        assert buffered == bytes + buffered[|bytes|..];
        assert NextEnvelope(w, buffered) == NextEnvelope(w, buffered[|bytes|..]);
        passed, left := NextReports(w, items[1..], buffered[|bytes|..], coming);
        PassesSilent(w, items, NextEnvelope(w, buffered).0, NextEnvelope(w, buffered).1, coming, passed, left);
        passed := [items[0]] + passed;
      } else {
        passed, left := [items[0]], items[1..];
        ReportsOfOne(items[0]);
      }
    }
  }

  /** The reports so far are those of the items done, and the buffer starts with those left. */
  ghost predicate Reported(w: Wire, s: Session, coming: seq<Byte>, done: seq<Item>, left: seq<Item>) {
    Fits(w, left) && Found(s.reports) == Reports(done) && s.buffered + coming <= Stream(w, left)
  }

  lemma NextKeepsReported(w: Wire, s: Session, coming: seq<Byte>, done: seq<Item>, left: seq<Item>,
                          passed: seq<Item>, left': seq<Item>)
    requires Reported(w, s, coming, done, left)
    requires Passes(w, left, NextEnvelope(w, s.buffered).0, NextEnvelope(w, s.buffered).1, coming, passed, left')
    ensures Reported(w, Call(w, s, Next), coming, done + passed, left')
  {
    var reports := Call(w, s, Next).reports;
    assert reports[..|reports| - 1] == s.reports;
    ReportsAppend(done, passed);
  }

  lemma CallKeepsReported(w: Wire, s: Session, call: ReadCall, coming: seq<Byte>, done: seq<Item>, left: seq<Item>)
    returns (done': seq<Item>, left': seq<Item>)
    requires PrefixDecodable(w) && Reported(w, s, (if call.Receive? then call.chunk else []) + coming, done, left)
    ensures Reported(w, Call(w, s, call), coming, done', left') && done' + left' == done + left
  {
    if call.Receive? {
      Associate(s.buffered, call.chunk, coming);
      done', left' := done, left;
    } else {
      assert [] + coming == coming;
      var passed;
      passed, left' := NextReports(w, left, s.buffered, coming);
      NextKeepsReported(w, s, coming, done, left, passed, left');
      done' := done + passed;
      AppendItems(done, passed, left');
    }
  }

  lemma {:induction false} CallsKeepReported(w: Wire, s: Session, calls: seq<ReadCall>, done: seq<Item>, left: seq<Item>)
    returns (done': seq<Item>, left': seq<Item>)
    requires PrefixDecodable(w) && Reported(w, s, Received(calls), done, left)
    ensures Reported(w, CallAll(w, s, calls), [], done', left') && done' + left' == done + left
    decreases |calls|
  {
    if calls == [] {
      done', left' := done, left;
      assert s.buffered + [] == s.buffered;
    } else {
      done', left' := CallKeepsReported(w, s, calls[0], Received(calls[1..]), done, left);
      done', left' := CallsKeepReported(w, Call(w, s, calls[0]), calls[1..], done', left');
    }
  }

  /**
   However a stream of frames is cut into chunks and whenever `read` is called, what it reports are
   the first items, in order: every envelope as it was sent, and of those whose message cannot be
   read the details. The next call wants more only if no whole item is left but silent ones.
   */
  lemma ReaderRoundTrip(w: Wire, items: seq<Item>, calls: seq<ReadCall>)
    returns (done: seq<Item>, passed: seq<Item>, left: seq<Item>)
    requires PrefixDecodable(w) && AllSendable(w, items) && OthersAreSilent(w, items)
    requires Received(calls) <= Stream(w, items)
    ensures var s := CallAll(w, Session([], []), calls);
            var next := NextEnvelope(w, s.buffered);
            && items == done + passed + left && Found(s.reports) == Reports(done)
            && Reports(passed) == (if next.0.WantsMore? then [] else [next.0])
            && AllSendable(w, left) && next.1 <= Stream(w, left)
            && (next.0.WantsMore? ==> NothingWhole(w, left, next.1))
  {
    var rest;
    assert [] + Received(calls) == Received(calls);
    done, rest := CallsKeepReported(w, Session([], []), calls, [], items);
    var s := CallAll(w, Session([], []), calls);
    passed, left := NextReports(w, rest, s.buffered, []);
    assert NextEnvelope(w, s.buffered).1 + [] == NextEnvelope(w, s.buffered).1;
    assert [] + items == items;
    AppendItems(done, passed, left);
  }

  function Polls(n: nat): seq<ReadEvent> {
    seq(n, _ => Poll)
  }

  /** One `read` is a number of decoding steps on the same buffer. */
  lemma {:induction false} ReadIsPolls(w: Wire, r: Reader) returns (n: nat)
    ensures ReadAll(w, r, Polls(n)).buffered == NextEnvelope(w, r.buffered).1
    decreases |r.buffered|
  {
    var answer := DecodeFrame(w, r.buffered);
    if answer.NeedMoreData? || answer == Skipped(0, None) {
      n := 0;
    } else {
      var next := Read(w, r, Poll);
      if answer.Skipped? && answer.details.None? {
        n := ReadIsPolls(w, next);
      } else {
        n := 0;
      }
      assert Polls(n + 1)[1..] == Polls(n) && Polls(n + 1)[0] == Poll;
      n := n + 1;
    }
  }

  /** The frame at the start is not consumed, and nothing about it is reported. */
  predicate IsStuck(w: Wire, bytes: seq<Byte>) {
    |bytes| >= 4 && Declared(bytes) == 0 && ParseEnvelope(w, bytes, 4) == Err(None)
  }

  /** What is left when all leading frames that are skipped in silence are stepped over. */
  function AfterSilent(w: Wire, bytes: seq<Byte>): seq<Byte>
    decreases |bytes|
  {
    var answer := DecodeFrame(w, bytes);
    if answer.Skipped? && answer.details.None? && answer.consumed > 0 then AfterSilent(w, bytes[answer.consumed..])
    else bytes
  }

  /** On any input, the reading loop never ends exactly if it comes to a frame of size zero without readable details. */
  lemma {:induction false} SpinsIff(w: Wire, bytes: seq<Byte>)
    ensures NextEnvelope(w, bytes).0 == Spins <==> IsStuck(w, AfterSilent(w, bytes))
    decreases |bytes|
  {
    var answer := DecodeFrame(w, bytes);
    if answer.Skipped? && answer.details.None? && answer.consumed > 0 {
      SpinsIff(w, bytes[answer.consumed..]);
    }
  }

  /** At such a frame any number of decoding steps leaves the buffer as it is. */
  lemma {:induction false} StuckForEver(w: Wire, r: Reader, n: nat)
    requires IsStuck(w, r.buffered)
    ensures ReadAll(w, r, Polls(n)).buffered == r.buffered
    decreases n
  {
    if n > 0 {
      assert Polls(n)[0] == Poll && Polls(n)[1..] == Polls(n - 1);
      StuckForEver(w, Read(w, r, Poll), n - 1);
    }
  }

  /** Four zero bytes are enough. */
  lemma FourZerosSpin(w: Wire)
    ensures NextEnvelope(w, [0, 0, 0, 0]).0 == Spins
  {
    var zeros: seq<Byte> := [0, 0, 0, 0];
    assert zeros[..4] == zeros && zeros[1..] == [0, 0, 0] && zeros[1..][1..] == [0, 0];
    assert FromLe([0]) == 0 && FromLe([0, 0]) == 0 by { assert [0, 0][1..] == [0]; }
    assert FromLe([0, 0, 0]) == 0 by { assert [0, 0, 0][1..] == [0, 0]; }
    assert IsStuck(w, zeros);
  }

  /** On a stream of frames the reader never spins. */
  lemma {:induction false} NeverSpins(w: Wire, items: seq<Item>, r: Reader, coming: seq<Byte>)
    requires PrefixDecodable(w) && AllSendable(w, items) && InStep(w, items, r, coming)
    ensures NextEnvelope(w, r.buffered).0 != Spins
    decreases |r.buffered|
  {
    var answer := DecodeFrame(w, r.buffered);
    PollKeepsStep(w, items, r, coming);
    if answer.Skipped? && answer.details.None? {
      ItemIsWellSized(w, items[|r.answers|]);
      NeverSpins(w, items, Read(w, r, Poll), coming);
    }
  }

  // === The code ===

  /** The bytes being parsed and how far the parser got. */
  class Cursor {
    const input: seq<Byte>
    var position: nat

    constructor (input: seq<Byte>, position: nat)
      requires position <= |input|
      ensures this.input == input && this.position == position
    {
      this.input, this.position := input, position;
    }

    method ReadU64() returns (r: Option<U64>)
      requires position <= |input|
      modifies this
      ensures position <= |input|
      ensures var spec := GetU64(input, old(position));
              if spec.Got? then r == Some(spec.value) && position == spec.next else r == None
    {
      if |input| - position < 8 {
        position := |input|;
        return None;
      }
      var bytes := input[position..position + 8];
      FromLeIsBounded(bytes);
      Widths();
      r := Some(FromLe(bytes));
      position := position + 8;
    }

    method GetNetworkAddr() returns (r: Option<U64>)
      requires position <= |input|
      modifies this
      ensures position <= |input|
      ensures var spec := GetAddr(input, old(position));
              if spec.Got? then r == Some(spec.value) && position == spec.next else r == None
    {
      r := ReadU64();
      if r.Some? && !NetworkAddr(r.value) { r := None; }
    }

    method GetString(w: Wire) returns (r: Option<seq<Byte>>)
      requires position <= |input|
      modifies this
      ensures position <= |input|
      ensures var spec := GetStr(w, input, old(position));
              if spec.Got? then r == Some(spec.value) && position == spec.next else r == None
    {
      if position == |input| { return None; }
      var len: nat := input[position];
      position := position + 1;
      var end := position + len;
      if |input| < end { return None; }
      var bytes := input[position..end];
      if !w.isUtf8(bytes) { return None; }
      position := end;
      r := Some(bytes);
    }

    method GetAnyMessage(w: Wire) returns (r: Option<Message>)
      requires position <= |input|
      modifies this
      ensures position <= |input|
      ensures r == GetMessage(w, input, old(position))
    {
      var protocol := GetString(w);
      if protocol.None? { return None; }
      var name := GetString(w);
      if name.None? { return None; }
      r := w.parses(protocol.value, name.value, input[position..]);
      if r.Some? { position := |input|; }
    }

    method DecodePayload(w: Wire, flags: Byte, head: Details) returns (r: Result<Payload, Option<Details>>)
      requires position <= |input|
      modifies this
      ensures r == ParsePayload(w, input, old(position), flags, head)
    {
      var kind := flags % 16;
      var isLast := flags >= FLAG_IS_LAST_RESPONSE;
      if kind == KIND_REGULAR {
        var message := GetAnyMessage(w);
        return if message.Some? then Ok(Regular(message.value)) else Err(Some(head));
      }
      if kind > KIND_RESPONSE_IGNORED { return Err(None); }
      var bits := ReadU64();
      if bits.None? { return Err(None); }
      var id := RequestIdFromBits(bits.value);
      if kind == KIND_RESPONSE_FAILED { return Ok(Response(id, Err(Failed), isLast)); }
      if kind == KIND_RESPONSE_IGNORED { return Ok(Response(id, Err(Ignored), isLast)); }
      var message := GetAnyMessage(w);
      if message.None? { return Err(Some(head.(requestId := Some(id)))); }
      if kind == KIND_REQUEST_ANY { return Ok(RequestAny(id, message.value)); }
      if kind == KIND_REQUEST_ALL { return Ok(RequestAll(id, message.value)); }
      return Ok(Response(id, Result.Ok(message.value), isLast));
    }

    method DoDecode(w: Wire) returns (r: Result<Envelope, Option<Details>>)
      requires position <= |input|
      modifies this
      ensures r == ParseEnvelope(w, input, old(position))
    {
      if position == |input| { return Err(None); }
      var flags := input[position];
      position := position + 1;
      var sender := GetNetworkAddr();
      if sender.None? { return Err(None); }
      var recipient := GetNetworkAddr();
      if recipient.None? { return Err(None); }
      var trace := ReadU64();
      if trace.None? || trace.value == 0 { return Err(None); }
      var payload := DecodePayload(w, flags, Details(flags % 16, sender.value, recipient.value, None, trace.value));
      match payload
      case Ok(p) => r := Ok(Envelope(sender.value, recipient.value, trace.value, p));
      case Err(details) => r := Err(details);
    }
  }

  /** Decodes one frame; the counters say how many were decoded and how many skipped. */
  class Decoder {
    var decoded: nat
    var skipped: nat

    method Decode(w: Wire, input: seq<Byte>) returns (r: DecodeState)
      modifies this
      ensures r == DecodeFrame(w, input)
      ensures decoded == old(decoded) + (if r.Done? then 1 else 0)
      ensures skipped == old(skipped) + (if r.Skipped? then 1 else 0)
    {
      if |input| < 4 { return NeedMoreData(4); }
      var size := FromLe(input[..4]);
      if |input| < size { return NeedMoreData(size); }
      var cursor := new Cursor(input, 4);
      var parsed := cursor.DoDecode(w);
      if parsed.Ok? {
        decoded := decoded + 1;
        return Done(size, parsed.value);
      }
      skipped := skipped + 1;
      return Skipped(size, parsed.error);
    }
  }

  /** A growing buffer with the filled bytes somewhere inside. */
  class ReadBuffer {
    var buffer: array<Byte>
    var start: nat
    var end: nat

    ghost predicate Valid()
      reads this
    {
      start <= end <= buffer.Length
    }

    function Filled(): seq<Byte>
      requires Valid()
      reads this, buffer
    {
      buffer[start..end]
    }

    constructor (capacity: nat)
      ensures Valid() && fresh(buffer) && Filled() == []
    {
      buffer := new Byte[capacity](_ => 0);
      start, end := 0, 0;
    }

    /** The bytes behind the filled ones become filled. */
    method ExtendFilled(count: nat)
      requires Valid() && end + count <= buffer.Length
      modifies this`end
      ensures Valid() && Filled() == old(Filled()) + buffer[old(end)..old(end) + count]
    {
      end := end + count;
    }

    method ConsumeFilled(count: nat)
      requires Valid() && count <= end - start
      modifies this`start, this`end
      ensures Valid() && Filled() == old(Filled())[count..]
    {
      start := start + count;
      if start == end { start, end := 0, 0; }
    }

    /** Moves the filled bytes to the front and makes room; they stay the same. */
    method ExtendToContain(capacity: nat)
      requires Valid()
      modifies this, buffer
      ensures Valid() && Filled() == old(Filled()) && start == 0
      ensures buffer.Length >= capacity && (buffer == old(buffer) || fresh(buffer))
    {
      ghost var filled := Filled();
      var len := end - start;
      var i := 0;
      while i < len
        invariant 0 <= i <= len
        invariant forall k :: 0 <= k < i ==> buffer[k] == filled[k]
        invariant forall k :: i <= k < len ==> buffer[start + k] == filled[k]
        modifies buffer
      {
        buffer[i] := buffer[start + i];
        i := i + 1;
      }
      start, end := 0, len;
      assert buffer[..len] == filled;
      if capacity > buffer.Length {
        var contents := buffer[..];
        buffer := new Byte[capacity](k requires k >= 0 => if k < |contents| then contents[k] else 0);
        assert buffer[..len] == contents[..len];
      }
    }

    /** What the socket does with the room: writes some bytes behind the filled ones. */
    method Fill(bytes: seq<Byte>)
      requires Valid() && end + |bytes| <= buffer.Length
      modifies buffer
      ensures Filled() == old(Filled()) && buffer[end..end + |bytes|] == bytes
    {
      var i := 0;
      while i < |bytes|
        invariant 0 <= i <= |bytes|
        invariant buffer[..end] == old(buffer[..end])
        invariant buffer[end..end + i] == bytes[..i]
      {
        buffer[end + i] := bytes[i];
        i := i + 1;
      }
      assert buffer[start..end] == buffer[..end][start..];
      assert old(buffer[start..end]) == old(buffer[..end])[start..];
    }
  }

  /** Reads envelopes from uncompressed chunks. */
  class FramedReader {
    const w: Wire
    const buffer: ReadBuffer
    const decoder: Decoder

    ghost predicate Valid()
      reads this, buffer
    {
      buffer.Valid()
    }

    constructor (w: Wire, capacity: nat)
      ensures Valid() && this.w == w && buffer.Filled() == []
      ensures fresh(buffer) && fresh(buffer.buffer) && fresh(decoder)
    {
      this.w := w;
      buffer := new ReadBuffer(capacity);
      decoder := new Decoder;
    }

    /** A chunk of any size that fits in the room offered by the last `Next`. */
    method Receive(chunk: seq<Byte>)
      requires Valid() && buffer.end + |chunk| <= buffer.buffer.Length
      modifies buffer, buffer.buffer
      ensures Valid() && buffer.Filled() == old(buffer.Filled()) + chunk
      ensures buffer.buffer == old(buffer.buffer)
    {
      buffer.Fill(chunk);
      buffer.ExtendFilled(|chunk|);
    }

    method Next() returns (r: FramedReadState)
      requires Valid()
      modifies buffer, buffer.buffer, decoder
      ensures Valid() && (r, buffer.Filled()) == NextEnvelope(w, old(buffer.Filled()))
      ensures r.WantsMore? ==> buffer.end < r.total <= buffer.buffer.Length
      ensures buffer.buffer == old(buffer.buffer) || fresh(buffer.buffer)
    {
      while true
        invariant Valid() && buffer.buffer == old(buffer.buffer)
        invariant NextEnvelope(w, buffer.Filled()) == NextEnvelope(w, old(buffer.Filled()))
        decreases |buffer.Filled()|
      {
        var answer := decoder.Decode(w, buffer.Filled());
        match answer {
          case NeedMoreData(total) =>
            buffer.ExtendToContain(total);
            return WantsMore(total);
          case Skipped(consumed, details) =>
            if consumed == 0 && details.None? { return Spins; }
            buffer.ConsumeFilled(consumed);
            if details.Some? { return EnvelopeSkipped(details.value); }
          case Done(consumed, decoded) =>
            buffer.ConsumeFilled(consumed);
            return Decoded(decoded);
        }
      }
    }
  }

  const OUTPUT_FLUSH_THRESHOLD := 64 * 1024

  datatype FrameState = Accumulating | FlushAdvised

  /** Collects frames of envelopes until they are taken. */
  class FramedWriter {
    const w: Wire
    const limit: Option<nat>
    var buffer: seq<Byte>
    var afterFinalize: bool
    var encoded: nat
    var skipped: nat

    constructor (w: Wire, limit: Option<nat>)
      ensures this.w == w && this.limit == limit && buffer == [] && !afterFinalize
    {
      this.w, this.limit, buffer, afterFinalize, encoded, skipped := w, limit, [], false, 0, 0;
    }

    /** Passes on the serializer's writes until one of them exceeds what is left of the limit. */
    method WriteMsgpack(m: Message, allowed: nat) returns (ok: bool)
      modifies this`buffer
      ensures ok <==> w.serializes(m) && |Flatten(w.writes(m))| <= allowed
      ensures old(buffer) <= buffer
      ensures ok ==> buffer == old(buffer) + Flatten(w.writes(m))
    {
      var parts, left, i := w.writes(m), allowed, 0;
      while i < |parts|
        invariant 0 <= i <= |parts|
        invariant 0 <= left && left + |Flatten(parts[..i])| == allowed
        invariant buffer == old(buffer) + Flatten(parts[..i])
      {
        assert parts[..i + 1][..i] == parts[..i];
        if |parts[i]| > left {
          FlattenGrows(parts, i + 1);
          return false;
        }
        left := left - |parts[i]|;
        buffer := buffer + parts[i];
        i := i + 1;
      }
      assert parts[..i] == parts;
      ok := w.serializes(m);
    }

    method PutFixedPart(flags: Byte, sender: U64, recipient: U64, trace: U64)
      modifies this`buffer
      ensures buffer == old(buffer) + FixedPart(flags, sender, recipient, trace)
    {
      buffer := buffer + [flags];
      buffer := buffer + ToLe(sender, 8);
      buffer := buffer + ToLe(recipient, 8);
      buffer := buffer + ToLe(trace, 8);
    }

    method PutStr(s: seq<Byte>)
      requires |s| <= 255
      modifies this`buffer
      ensures buffer == old(buffer) + Str(s)
    {
      buffer := buffer + [|s|];
      buffer := buffer + s;
    }

    method PutHeader(e: Envelope)
      requires ValidEnvelope(w, e)
      modifies this`buffer
      ensures buffer == old(buffer) + Header(w, e)
    {
      PutFixedPart(FlagsAndKind(e.payload), e.sender, e.recipient, e.traceId);
      PutRequestId(e.payload);
      PutNames(e);
      ghost var head := FixedPart(FlagsAndKind(e.payload), e.sender, e.recipient, e.traceId);
      Assemble(old(buffer), head, RequestIdBytes(e.payload), Names(w, e));
    }

    method PutRequestId(p: Payload)
      modifies this`buffer
      ensures buffer == old(buffer) + RequestIdBytes(p)
    {
      var id := RequestIdOf(p);
      if id.Some? { buffer := buffer + ToLe(id.value, 8); }
    }

    method PutNames(e: Envelope)
      requires ValidEnvelope(w, e)
      modifies this`buffer
      ensures buffer == old(buffer) + Names(w, e)
    {
      var message := MessageOf(e.payload);
      if message.Some? {
        PutStr(message.value.protocol);
        PutStr(message.value.name);
        Associate(old(buffer), Str(message.value.protocol), Str(message.value.name));
      }
    }

    method DoEncode(e: Envelope, startPos: nat) returns (ok: bool)
      requires ValidEnvelope(w, e) && startPos + 4 == |buffer|
      modifies this`buffer
      ensures old(buffer) <= buffer
      ensures ok <==> Encodable(w, e, limit)
      ensures ok ==> buffer == old(buffer) + (Header(w, e) + Content(w, e))
    {
      PutHeader(e);
      var message := MessageOf(e.payload);
      if message.None? { return true; }
      HeaderIsShort(w, e);
      var most := U32_MAX - (|buffer| - startPos);
      ok := WriteMsgpack(message.value, if limit.Some? then Min(limit.value, most) else most);
      Associate(old(buffer), Header(w, e), Content(w, e));
    }

    /** Rewrites the size field of the frame that starts at `startPos`. */
    method PatchSize(startPos: nat)
      requires startPos + 4 <= |buffer| && |buffer| - startPos <= U32_MAX
      modifies this`buffer
      ensures buffer == old(buffer[..startPos]) + Sized(old(buffer[startPos + 4..]))
    {
      var size := |buffer| - startPos;
      var before, body := buffer[..startPos], buffer[startPos + 4..];
      assert size % U32_SIZE == size == 4 + |body|;
      Associate(before, ToLe(size, 4), body);
      buffer := before + ToLe(size % U32_SIZE, 4) + body;
    }

    /** Appends the frame, or leaves the buffer as it was. */
    method Encode(e: Envelope) returns (ok: bool)
      requires ValidEnvelope(w, e)
      modifies this`buffer, this`encoded, this`skipped
      ensures ok <==> Encodable(w, e, limit)
      ensures ok <==> match MessageOf(e.payload)
                      case None => true
                      case Some(m) =>
                        && w.serializes(m) && |Frame(w, e)| <= 0xFFFF_FFFF
                        && (limit.Some? ==> |Flatten(w.writes(m))| <= limit.value)
      ensures buffer == old(buffer) + (if ok then Frame(w, e) else [])
      ensures encoded == old(encoded) + (if ok then 1 else 0) && skipped == old(skipped) + (if ok then 0 else 1)
    {
      var startPos := |buffer|;
      buffer := buffer + ToLe(0, 4);
      ok := DoEncode(e, startPos);
      if ok {
        SizeFits(w, e, limit);
        Undo(old(buffer), ToLe(0, 4), Header(w, e) + Content(w, e));
        PatchSize(startPos);
        encoded := encoded + 1;
      } else {
        skipped := skipped + 1;
        buffer := buffer[..startPos];
      }
    }

    /** After a frame was added, says whether there is enough in the buffer to flush it. */
    method Write(e: Envelope) returns (state: Option<FrameState>)
      requires ValidEnvelope(w, e)
      modifies this
      ensures state.Some? <==> Encodable(w, e, limit)
      ensures !afterFinalize
      ensures buffer == (if old(afterFinalize) then [] else old(buffer)) + (if state.Some? then Frame(w, e) else [])
      ensures state.Some? ==> (state.value == FlushAdvised <==> |buffer| > OUTPUT_FLUSH_THRESHOLD)
    {
      if afterFinalize { buffer, afterFinalize := [], false; }
      var ok := Encode(e);
      if !ok { return None; }
      return Some(if |buffer| > OUTPUT_FLUSH_THRESHOLD then FlushAdvised else Accumulating);
    }

    method Finalize() returns (bytes: seq<Byte>)
      modifies this`afterFinalize
      ensures afterFinalize && bytes == buffer
    {
      afterFinalize := true;
      bytes := buffer;
    }
  }

  lemma {:induction false} FlattenGrows(parts: seq<seq<Byte>>, n: nat)
    requires n <= |parts|
    ensures |Flatten(parts[..n])| <= |Flatten(parts)|
    decreases |parts|
  {
    if n < |parts| {
      var m := |parts| - 1;
      FlattenGrows(parts[..m], n);
      assert parts[..m][..n] == parts[..n];
    } else {
      assert parts[..n] == parts;
    }
  }

  lemma Assemble(before: seq<Byte>, head: seq<Byte>, id: seq<Byte>, names: seq<Byte>)
    ensures before + head + id + names == before + (head + id + names)
  {
  }

  lemma Undo(before: seq<Byte>, size: seq<Byte>, body: seq<Byte>)
    ensures (before + size + body)[..|before|] == before && (before + size + body)[|before| + |size|..] == body
  {
  }

  lemma Associate(a: seq<Byte>, b: seq<Byte>, c: seq<Byte>)
    ensures a + b + c == a + (b + c)
  {
  }

}
