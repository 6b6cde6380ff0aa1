/**
 * The Diameter wire format: messages (section 3 of RFC 6733), AVPs with zero padding
 * (section 4.1) and grouped AVPs (section 4.4). `Wire` and `Parse` say what the encoder
 * and the decoder compute; the buffer-filling methods are proved against them.
 */
module Codec {
  import opened Bytes

  const DIAMETER_VERSION: byte := 1
  const DIAMETER_HEADER_SIZE := 20
  const AVP_HEADER_SIZE := 8
  const AVP_HEADER_SIZE_VENDOR := 12
  const AVP_FLAG_VENDOR := 0x80
  const MAX_MESSAGE := 0xFF_FFFF

  datatype Avp = Avp(code: u32, flags: byte, vendor: u32, data: Text, children: seq<Avp>)

  datatype Message = Message(
    version: byte, flags: byte, command: u32, application: u32, hopByHop: u32, endToEnd: u32, avps: seq<Avp>)

  datatype Error =
    | TooLarge | TooShort | BadVersion | BadLength | LengthExceedsData
    | AvpTooShort | VendorTooShort | AvpBadLength | AvpExceedsBuffer | PaddingExceedsBuffer | NonZeroPadding
    | ReadFailed

  datatype Result<+T> = Ok(value: T) | Err(error: Error)

  predicate IsVendor(a: Avp) { a.flags >= AVP_FLAG_VENDOR }   // the top bit of the flags

  predicate IsGrouped(a: Avp) { a.children != [] }

  function HeaderSize(a: Avp): nat { if IsVendor(a) then AVP_HEADER_SIZE_VENDOR else AVP_HEADER_SIZE }

  function Pad(n: nat): (p: nat)
    ensures p < 4 && (n + p) % 4 == 0
  {
    (4 - n % 4) % 4
  }

  // ---------------------------------------------------------------- the wire image

  function AvpHeader(a: Avp, avpLen: nat): (s: seq<byte>)
    ensures |s| == HeaderSize(a)
  {
    BE(a.code, 4) + [a.flags] + BE(avpLen, 3) + if IsVendor(a) then BE(a.vendor, 4) else []
  }

  function Body(a: Avp): Text
    decreases a, 0
  {
    if IsGrouped(a) then WireAll(a.children) else a.data
  }

  function Wire(a: Avp): seq<byte>
    decreases a, 1
  {
    var len := HeaderSize(a) + |Body(a)|;
    AvpHeader(a, len) + Body(a) + Zeros(Pad(len))
  }

  function WireAll(avps: seq<Avp>): seq<byte>
    decreases avps, 0
  {
    if avps == [] then [] else Wire(avps[0]) + WireAll(avps[1..])
  }

  function MessageHeader(m: Message, msgLen: nat): (s: seq<byte>)
    ensures |s| == DIAMETER_HEADER_SIZE
  {
    [m.version] + BE(msgLen, 3) + [m.flags] + BE(m.command, 3) + BE(m.application, 4) + BE(m.hopByHop, 4)
      + BE(m.endToEnd, 4)
  }

  function WireMessage(m: Message): seq<byte> {
    MessageHeader(m, DIAMETER_HEADER_SIZE + |WireAll(m.avps)|) + WireAll(m.avps)
  }

  function EncodedLen(a: Avp): (n: nat)
    decreases a, 0
  {
    var len := HeaderSize(a) + if IsGrouped(a) then EncodedLenAll(a.children) else |a.data|;
    len + Pad(len)
  }

  function EncodedLenAll(avps: seq<Avp>): nat
    decreases avps, 0
  {
    if avps == [] then 0 else EncodedLen(avps[0]) + EncodedLenAll(avps[1..])
  }

  /** The computed length is the length of the image, a multiple of four and at least a header. */
  lemma {:induction false} WireLength(a: Avp)
    ensures |Wire(a)| == EncodedLen(a) && EncodedLen(a) % 4 == 0
    ensures EncodedLen(a) >= HeaderSize(a) + |Body(a)|
    decreases a, 1
  {
    if IsGrouped(a) {
      WireAllLength(a.children);
    }
  }

  lemma {:induction false} WireAllLength(avps: seq<Avp>)
    ensures |WireAll(avps)| == EncodedLenAll(avps) && EncodedLenAll(avps) % 4 == 0
    decreases avps, 0
  {
    hide Wire, EncodedLen;
    if avps != [] {
      WireLength(avps[0]);
      WireAllLength(avps[1..]);
    }
  }

  lemma Assoc<T>(a: seq<T>, b: seq<T>, c: seq<T>)
    ensures a + (b + c) == (a + b) + c
  {
  }

  lemma {:induction false} WireAllAppend(xs: seq<Avp>, ys: seq<Avp>)
    ensures WireAll(xs + ys) == WireAll(xs) + WireAll(ys)
  {
    hide Wire;
    if xs == [] {
      assert xs + ys == ys;
    } else {
      WireAllAppend(xs[1..], ys);
      assert (xs + ys)[1..] == xs[1..] + ys;
      Assoc(Wire(xs[0]), WireAll(xs[1..]), WireAll(ys));
    }
  }

  // ---------------------------------------------------------------- what the decoder computes

  datatype Parsed = Parsed(avp: Avp, consumed: nat)

  function PaddedLen(avpLen: nat): nat {
    if avpLen % 4 != 0 then avpLen + (4 - avpLen % 4) else avpLen
  }

  function ParseAvp(data: seq<byte>): (r: Result<Parsed>)
    ensures r.Ok? ==> AVP_HEADER_SIZE <= r.value.consumed <= |data|
  {
    if |data| < AVP_HEADER_SIZE then Err(AvpTooShort) else
    var avp := Avp(U(data[0..4]), data[4], 0, [], []);
    var avpLen := U(data[5..8]);
    if IsVendor(avp) && |data| < AVP_HEADER_SIZE_VENDOR then Err(VendorTooShort) else
    var avp := if IsVendor(avp) then avp.(vendor := U(data[8..12])) else avp;
    if avpLen < HeaderSize(avp) then Err(AvpBadLength)
    else if avpLen > |data| then Err(AvpExceedsBuffer)
    else if PaddedLen(avpLen) > |data| then Err(PaddingExceedsBuffer)
    else if exists i :: avpLen <= i < PaddedLen(avpLen) && data[i] != 0 then Err(NonZeroPadding)
    else Ok(Parsed(avp.(data := data[HeaderSize(avp)..avpLen]), PaddedLen(avpLen)))
  }

  function ParseAll(data: seq<byte>): Result<seq<Avp>> {
    if data == [] then Ok([]) else
    match ParseAvp(data)
    case Err(e) => Err(e)
    case Ok(p) =>
      match ParseAll(data[p.consumed..])
      case Err(e) => Err(e)
      case Ok(rest) => Ok([p.avp] + rest)
  }

  function ParseMessage(data: seq<byte>): Result<Message> {
    if |data| < DIAMETER_HEADER_SIZE then Err(TooShort)
    else if data[0] != DIAMETER_VERSION then Err(BadVersion) else
    var msgLen := U(data[1..4]);
    if msgLen < DIAMETER_HEADER_SIZE then Err(BadLength)
    else if msgLen > |data| then Err(LengthExceedsData) else
    match ParseAll(data[DIAMETER_HEADER_SIZE..msgLen])
    case Err(e) => Err(e)
    case Ok(avps) =>
      Ok(Message(data[0], data[4], U(data[5..8]), U(data[8..12]),
                 U(data[12..16]), U(data[16..20]), avps))
  }

  // ---------------------------------------------------------------- decoding is canonical

  /** A Vendor-ID that the encoder would not write is lost, so it has to be zero to survive. */
  predicate VendorOk(a: Avp) { IsVendor(a) || a.vendor == 0 }

  lemma WireIs(a: Avp, data: seq<byte>)
    requires data == Body(a)
    ensures Wire(a) == AvpHeader(a, HeaderSize(a) + |data|) + data + Zeros(Pad(HeaderSize(a) + |data|))
  {
  }

  /** What decoding produces: no children, and nothing the encoder would drop. */
  predicate Flat(a: Avp) { a.children == [] && VendorOk(a) }

  predicate AllFlat(avps: seq<Avp>) { forall i :: 0 <= i < |avps| ==> Flat(avps[i]) }

  lemma PaddedIs(n: nat)
    ensures PaddedLen(n) == n + Pad(n)
  {
  }

  /** A header whose fields are read off the buffer is what the buffer starts with. */
  lemma HeaderReads(data: seq<byte>, a: Avp, len: nat)
    requires AVP_HEADER_SIZE <= HeaderSize(a) <= |data| && U(data[0..4]) == a.code && data[4] == a.flags
    requires U(data[5..8]) == len && (IsVendor(a) ==> U(data[8..12]) == a.vendor)
    ensures AvpHeader(a, len) == data[..HeaderSize(a)]
  {
    hide U, BE;
    BEofU(data[0..4]);
    BEofU(data[5..8]);
    if IsVendor(a) {
      BEofU(data[8..12]);
    }
  }

  lemma Cut<T>(s: seq<T>, a: nat, b: nat, c: nat)
    requires a <= b <= c <= |s|
    ensures s[..c] == s[..a] + s[a..b] + s[b..c]
  {
  }

  /** Every accepted AVP re-encodes to exactly the bytes it was read from. */
  lemma ParseAvpCanonical(data: seq<byte>)
    requires ParseAvp(data).Ok?
    ensures var p := ParseAvp(data).value;
            Wire(p.avp) == data[..p.consumed] && Flat(p.avp)
  {
    hide U, BE, AvpHeader;
    var p := ParseAvp(data).value;
    var a := p.avp;
    var avpLen := U(data[5..8]);
    HeaderReads(data, a, avpLen);
    PaddedIs(avpLen);
    hide PaddedLen, Pad;
    assert Zeros(Pad(avpLen)) == data[avpLen..p.consumed];
    hide ParseAvp;
    WireIs(a, a.data);
    Cut(data, HeaderSize(a), avpLen, p.consumed);
  }

  lemma {:induction false} ParseAllCanonical(data: seq<byte>)
    requires ParseAll(data).Ok?
    ensures WireAll(ParseAll(data).value) == data && AllFlat(ParseAll(data).value)
  {
    hide U, BE, Wire, ParseAvp;
    if data != [] {
      ParseAvpCanonical(data);
      var p := ParseAvp(data).value;
      ParseAllCanonical(data[p.consumed..]);
      var rest := ParseAll(data[p.consumed..]).value;
      assert ([p.avp] + rest)[1..] == rest;
    }
  }

  /** Every accepted message re-encodes to exactly its first msgLen bytes. */
  lemma DecodeIsCanonical(data: seq<byte>)
    requires ParseMessage(data).Ok?
    ensures var m := ParseMessage(data).value;
            && WireMessage(m) == data[..U(data[1..4])]
            && m.version == 1 && m.command < 0x100_0000 && AllFlat(m.avps)
  {
    hide U, BE, ParseAll, WireAll;
    var m := ParseMessage(data).value;
    var msgLen := U(data[1..4]);
    ParseAllCanonical(data[DIAMETER_HEADER_SIZE..msgLen]);
    BEofU(data[1..4]);
    BEofU(data[5..8]);
    BEofU(data[8..12]);
    BEofU(data[12..16]);
    BEofU(data[16..20]);
    assert MessageHeader(m, msgLen) == data[..DIAMETER_HEADER_SIZE];
  }

  // ---------------------------------------------------------------- round trip

  /** A grouped AVP comes back as a plain one whose data are its encoded children. */
  function Flatten(a: Avp): Avp {
    Avp(a.code, a.flags, a.vendor, Body(a), [])
  }

  function FlattenAll(avps: seq<Avp>): (r: seq<Avp>)
    ensures |r| == |avps|
  {
    seq(|avps|, i requires 0 <= i < |avps| => Flatten(avps[i]))
  }

  function DropVendor(a: Avp): Avp {
    if IsVendor(a) then a else a.(vendor := 0)
  }

  lemma AvpHeaderSlices(a: Avp, len: nat)
    ensures var h := AvpHeader(a, len);
            && h[0..4] == BE(a.code, 4) && h[4] == a.flags && h[5..8] == BE(len, 3)
            && (IsVendor(a) ==> h[8..12] == BE(a.vendor, 4))
  {
    hide BE;
  }

  /** Where the parts of an image lie. */
  lemma PartsLie(head: seq<byte>, body: seq<byte>, pad: seq<byte>, rest: seq<byte>)
    ensures var data := head + body + pad + rest;
            && data[..|head|] == head && data[|head|..|head| + |body|] == body
            && (forall i :: 0 <= i < |pad| ==> data[|head| + |body| + i] == pad[i])
            && data[|head + body + pad|..] == rest
  {
  }

  /** Where the fields of an image lie, with anything behind it. */
  lemma WireSlices(a: Avp, rest: seq<byte>)
    ensures var len := HeaderSize(a) + |Body(a)|;
            var data := Wire(a) + rest;
            && len + Pad(len) == |Wire(a)| <= |data|
            && data[0..4] == BE(a.code, 4) && data[4] == a.flags && data[5..8] == BE(len, 3)
            && (IsVendor(a) ==> data[8..12] == BE(a.vendor, 4))
            && data[HeaderSize(a)..len] == Body(a)
            && (forall i :: len <= i < len + Pad(len) ==> data[i] == 0)
            && data[|Wire(a)|..] == rest
  {
    hide BE, Body;
    var len := HeaderSize(a) + |Body(a)|;
    var h := AvpHeader(a, len);
    AvpHeaderSlices(a, len);
    PartsLie(h, Body(a), Zeros(Pad(len)), rest);
    hide AvpHeader;
    var data := Wire(a) + rest;
    assert data[0..4] == data[..|h|][0..4] && data[5..8] == data[..|h|][5..8];
    assert IsVendor(a) ==> data[8..12] == data[..|h|][8..12];
    forall i | len <= i < len + Pad(len)
      ensures data[i] == 0
    {
      assert data[len + (i - len)] == Zeros(Pad(len))[i - len];
    }
  }

  /** What the decoder makes of a buffer whose fields are known. */
  lemma ParseAvpFields(data: seq<byte>, a: Avp, len: nat)
    requires AVP_HEADER_SIZE <= |data| && HeaderSize(a) <= len && len + Pad(len) <= |data|
    requires U(data[0..4]) == a.code && data[4] == a.flags && U(data[5..8]) == len
    requires if IsVendor(a) then U(data[8..12]) == a.vendor else a.vendor == 0
    requires a.children == [] && data[HeaderSize(a)..len] == a.data
    requires forall i :: len <= i < len + Pad(len) ==> data[i] == 0
    ensures ParseAvp(data) == Ok(Parsed(a, len + Pad(len)))
  {
    assert PaddedLen(len) == len + Pad(len);
  }

  /** Decoding reads one image off the front of any buffer, whatever follows it. */
  lemma ParseAvpOfWire(a: Avp, rest: seq<byte>)
    requires HeaderSize(a) + |Body(a)| < 0x100_0000
    ensures ParseAvp(Wire(a) + rest) == Ok(Parsed(DropVendor(Flatten(a)), |Wire(a)|))
  {
    hide U, BE, Body, Wire, ParseAvp;
    WireSlices(a, rest);
    UofBE4(a.code);
    UofBE3(HeaderSize(a) + |Body(a)|);
    UofBE4(a.vendor);
    ParseAvpFields(Wire(a) + rest, DropVendor(Flatten(a)), HeaderSize(a) + |Body(a)|);
  }

  /** An AVP as the receiver decodes it. */
  function CarriedAvp(a: Avp): Avp { DropVendor(Flatten(a)) }

  function CarriedAll(avps: seq<Avp>): (r: seq<Avp>)
    ensures |r| == |avps|
  {
    seq(|avps|, i requires 0 <= i < |avps| => CarriedAvp(avps[i]))
  }

  /** Decoding an encoded list flattens each AVP and forgets a Vendor-ID written without its flag. */
  lemma {:induction false} ParseAllOfWire(avps: seq<Avp>)
    requires EncodedLenAll(avps) < 0x100_0000
    ensures ParseAll(WireAll(avps)) == Ok(CarriedAll(avps))
  {
    hide U, BE, Wire, ParseAvp;
    if avps != [] {
      var rest := WireAll(avps[1..]);
      WireLength(avps[0]);
      ParseAvpOfWire(avps[0], rest);
      ParseAllOfWire(avps[1..]);
      assert (Wire(avps[0]) + rest)[|Wire(avps[0])|..] == rest;
      assert CarriedAll(avps) == [DropVendor(Flatten(avps[0]))] + CarriedAll(avps[1..]);
    }
  }

  predicate CanEncode(m: Message) { DIAMETER_HEADER_SIZE + EncodedLenAll(m.avps) <= MAX_MESSAGE }

  function FlattenMessage(m: Message): Message { m.(avps := FlattenAll(m.avps)) }

  predicate Portable(m: Message) {
    m.version == DIAMETER_VERSION && m.command < 0x100_0000 && forall i :: 0 <= i < |m.avps| ==> VendorOk(m.avps[i])
  }

  function Carried(m: Message): Message {
    m.(command := m.command % 0x100_0000, avps := CarriedAll(m.avps))
  }

  lemma HeaderSlices(m: Message, msgLen: nat, rest: seq<byte>)
    ensures var data := MessageHeader(m, msgLen) + rest;
            && data[0] == m.version && data[1..4] == BE(msgLen, 3) && data[4] == m.flags
               && data[5..8] == BE(m.command, 3)
            && data[8..12] == BE(m.application, 4) && data[12..16] == BE(m.hopByHop, 4)
               && data[16..20] == BE(m.endToEnd, 4)
            && data[20..] == rest
  {
    var h := MessageHeader(m, msgLen);
    var data := h + rest;
    assert h[1..4] == BE(msgLen, 3) && h[5..8] == BE(m.command, 3) && h[8..12] == BE(m.application, 4);
    assert h[12..16] == BE(m.hopByHop, 4) && h[16..20] == BE(m.endToEnd, 4);
    assert data[..20] == h && data[1..4] == h[1..4] && data[5..8] == h[5..8] && data[8..12] == h[8..12];
    assert data[12..16] == h[12..16] && data[16..20] == h[16..20];
  }

  lemma ParseMessageFields(data: seq<byte>, m: Message, msgLen: nat)
    requires DIAMETER_HEADER_SIZE <= msgLen <= |data|
    requires data[0] == m.version == DIAMETER_VERSION && U(data[1..4]) == msgLen && data[4] == m.flags
    requires U(data[5..8]) == m.command && U(data[8..12]) == m.application
    requires U(data[12..16]) == m.hopByHop && U(data[16..20]) == m.endToEnd
    requires ParseAll(data[DIAMETER_HEADER_SIZE..msgLen]) == Ok(m.avps)
    ensures ParseMessage(data) == Ok(m)
  {
  }

  /** Decoding what was encoded, with anything behind it. */
  lemma ParseOfWireMessage(m: Message, rest: seq<byte>)
    requires CanEncode(m)
    ensures m.version != DIAMETER_VERSION ==> ParseMessage(WireMessage(m) + rest) == Err(BadVersion)
    ensures m.version == DIAMETER_VERSION ==> ParseMessage(WireMessage(m) + rest) == Ok(Carried(m))
    ensures |WireMessage(m)| == DIAMETER_HEADER_SIZE + EncodedLenAll(m.avps)
  {
    hide U, BE, WireAll, ParseAll;
    WireAllLength(m.avps);
    var len := DIAMETER_HEADER_SIZE + |WireAll(m.avps)|;
    var data := WireMessage(m) + rest;
    var tail := WireAll(m.avps) + rest;
    assert data == MessageHeader(m, len) + tail;
    HeaderSlices(m, len, tail);
    assert data[DIAMETER_HEADER_SIZE..len] == tail[..len - DIAMETER_HEADER_SIZE] == WireAll(m.avps);
    if m.version == DIAMETER_VERSION {
      UofBE3(len);
      UofBE3(m.command);
      UofBE4(m.application);
      UofBE4(m.hopByHop);
      UofBE4(m.endToEnd);
      ParseAllOfWire(m.avps);
      ParseMessageFields(data, Carried(m), len);
    }
  }

  /** The round trip returns the flattened message exactly for the messages the format can carry. */
  lemma RoundTrip(m: Message)
    requires CanEncode(m)
    ensures ParseMessage(WireMessage(m)) == Ok(FlattenMessage(m)) <==> Portable(m)
  {
    hide ParseMessage, WireMessage;
    ParseOfWireMessage(m, []);
    assert WireMessage(m) + [] == WireMessage(m);
    var back := CarriedAll(m.avps);
    if ParseMessage(WireMessage(m)) == Ok(FlattenMessage(m)) {
      forall i | 0 <= i < |m.avps| ensures VendorOk(m.avps[i]) {
        assert back[i] == FlattenAll(m.avps)[i];
      }
    }
    if Portable(m) {
      assert back == FlattenAll(m.avps);
    }
  }

  /** The decoder accepts a buffer exactly when it starts with the encoding of some version 1 message. */
  lemma AcceptsExactlyEncodings(data: seq<byte>)
    ensures ParseMessage(data).Ok? <==>
            exists m :: CanEncode(m) && m.version == DIAMETER_VERSION && WireMessage(m) <= data
  {
    hide ParseMessage, WireMessage, EncodedLenAll;
    if ParseMessage(data).Ok? {
      var m := ParseMessage(data).value;
      DecodeIsCanonical(data);
      WireMessageFits(data);
      assert WireMessage(m) <= data;
    }
    if m :| CanEncode(m) && m.version == DIAMETER_VERSION && WireMessage(m) <= data {
      ParseOfWireMessage(m, data[|WireMessage(m)|..]);
      assert WireMessage(m) + data[|WireMessage(m)|..] == data;
    }
  }

  lemma WireMessageFits(data: seq<byte>)
    requires ParseMessage(data).Ok?
    ensures CanEncode(ParseMessage(data).value)
    ensures U(data[1..4]) <= |data|
  {
    hide U, ParseAll, WireAll;
    var m := ParseMessage(data).value;
    ParseAllCanonical(data[DIAMETER_HEADER_SIZE..U(data[1..4])]);
    WireAllLength(m.avps);
  }

  // ---------------------------------------------------------------- streams

  /** One ReadMessage on a byte stream: the result and what is left to read. */
  function ReadOne(s: seq<byte>): (Result<Message>, seq<byte>) {
    if |s| < DIAMETER_HEADER_SIZE then (Err(ReadFailed), [])
    else if s[0] != DIAMETER_VERSION then (Err(BadVersion), s[DIAMETER_HEADER_SIZE..]) else
    var msgLen := U(s[1..4]);
    if msgLen < DIAMETER_HEADER_SIZE then (Err(BadLength), s[DIAMETER_HEADER_SIZE..])
    else if |s| < msgLen then (Err(ReadFailed), [])
    else (ParseMessage(s[..msgLen]), s[msgLen..])
  }

  function ReadMany(s: seq<byte>, n: nat): (seq<Result<Message>>, seq<byte>)
    decreases n
  {
    if n == 0 then ([], s) else
    var (r, rest) := ReadOne(s);
    var (rs, end) := ReadMany(rest, n - 1);
    ([r] + rs, end)
  }

  function StreamOf(ms: seq<Message>): seq<byte> {
    if ms == [] then [] else WireMessage(ms[0]) + StreamOf(ms[1..])
  }

  function Decoded(ms: seq<Message>): seq<Result<Message>> {
    seq(|ms|, i requires 0 <= i < |ms| => Ok(FlattenMessage(ms[i])))
  }

  lemma Front<T>(w: seq<T>, rest: seq<T>, i: nat, j: nat)
    requires i <= j <= |w|
    ensures (w + rest)[i..j] == w[i..j]
  {
  }

  /** The length field of an encoded message is its length. */
  lemma LengthField(m: Message)
    requires CanEncode(m)
    ensures |WireMessage(m)| >= DIAMETER_HEADER_SIZE && WireMessage(m)[0] == m.version
    ensures U(WireMessage(m)[1..4]) == |WireMessage(m)|
  {
    hide U, BE, WireAll, EncodedLenAll;
    WireAllLength(m.avps);
    var len := DIAMETER_HEADER_SIZE + |WireAll(m.avps)|;
    HeaderSlices(m, len, WireAll(m.avps));
    UofBE3(len);
  }

  lemma ReadOneOfWire(m: Message, rest: seq<byte>)
    requires CanEncode(m) && Portable(m)
    ensures ReadOne(WireMessage(m) + rest) == (Ok(FlattenMessage(m)), rest)
  {
    hide U, BE, WireAll, ParseMessage, WireMessage;
    RoundTrip(m);
    LengthField(m);
    var w := WireMessage(m);
    Front(w, rest, 1, 4);
    Front(w, rest, 0, |w|);
    assert w[0..|w|] == w && (w + rest)[..|w|] == (w + rest)[0..|w|] && (w + rest)[|w|..] == rest;
  }

  /** A stream of encoded messages is read back one by one, in order, leaving exactly what follows it. */
  lemma {:induction false} StreamRoundTrip(ms: seq<Message>, rest: seq<byte>)
    requires forall i :: 0 <= i < |ms| ==> CanEncode(ms[i]) && Portable(ms[i])
    ensures ReadMany(StreamOf(ms) + rest, |ms|) == (Decoded(ms), rest)
  {
    hide ReadOne, WireMessage, Portable, CanEncode;
    if ms != [] {
      ReadOneOfWire(ms[0], StreamOf(ms[1..]) + rest);
      StreamRoundTrip(ms[1..], rest);
      Assoc(WireMessage(ms[0]), StreamOf(ms[1..]), rest);
      assert Decoded(ms) == [Ok(FlattenMessage(ms[0]))] + Decoded(ms[1..]);
    } else {
      assert StreamOf(ms) + rest == rest;
    }
  }

  // ---------------------------------------------------------------- grouped AVPs decoded on demand

  /** DecodeGrouped: the children are replaced only when the data decode; the data stay. */
  function DecodeGrouped(a: Avp): Avp {
    if a.data == [] then a else
    match ParseAll(a.data)
    case Ok(children) => a.(children := children)
    case Err(_) => a
  }

  lemma SameHeader(a: Avp, b: Avp, len: nat)
    requires a.code == b.code && a.flags == b.flags && a.vendor == b.vendor
    ensures AvpHeader(a, len) == AvpHeader(b, len)
  {
  }

  /** On a childless AVP, decoding the group leaves the wire image as it was, whether it succeeds or not. */
  lemma DecodeGroupedKeepsWire(a: Avp)
    requires a.children == []
    ensures Wire(DecodeGrouped(a)) == Wire(a) && EncodedLen(DecodeGrouped(a)) == EncodedLen(a)
  {
    hide ParseAll, WireAll, AvpHeader, Wire, EncodedLen;
    if a.data != [] && ParseAll(a.data).Ok? {
      ParseAllCanonical(a.data);
    }
    WireIs(a, a.data);
    var d := DecodeGrouped(a);
    WireIs(d, a.data);
    assert AvpHeader(d, HeaderSize(d) + |a.data|) == AvpHeader(a, HeaderSize(a) + |a.data|)
           by { SameHeader(a, d, HeaderSize(a) + |a.data|); }
    WireLength(a);
    WireLength(d);
  }

  /** The AVP after screening has looked for its children. */
  function Opened(a: Avp): Avp {
    if IsGrouped(a) || |a.data| < AVP_HEADER_SIZE then a else DecodeGrouped(a)
  }

  lemma OpenedShrinks(a: Avp)
    ensures Wire(Opened(a)) == Wire(a) && EncodedLenAll(Opened(a).children) < EncodedLen(a)
  {
    hide Wire, ParseAll, WireAll;
    if !IsGrouped(a) {
      DecodeGroupedKeepsWire(a);
    }
    WireLength(Opened(a));
    WireAllLength(Opened(a).children);
    WireLength(a);
  }

  datatype Selector = Selector(code: u32, vendor: u32)

  predicate Denied(a: Avp, deny: seq<Selector>) { Selector(a.code, a.vendor) in deny }

  /** findDeniedAVP on one AVP: what it finds, and the AVP as it leaves it. */
  function ScreenOne(a: Avp, deny: seq<Selector>): (Option<Avp>, Avp)
    decreases EncodedLen(a), 0
  {
    if Denied(a, deny) then (Some(a), a) else
    OpenedShrinks(a);
    var o := Opened(a);
    if o.children == [] then (None, o) else
    var (found, kids) := Screen(o.children, deny);
    (found, o.(children := kids))
  }

  /** findDeniedAVP on a list: the walk stops at the first hit and leaves the rest untouched. */
  function Screen(avps: seq<Avp>, deny: seq<Selector>): (r: (Option<Avp>, seq<Avp>))
    ensures |r.1| == |avps|
    decreases EncodedLenAll(avps), 1 + |avps|
  {
    if avps == [] then (None, []) else
    var (found, a) := ScreenOne(avps[0], deny);
    if found.Some? then (found, [a] + avps[1..]) else
    var (later, rest) := Screen(avps[1..], deny);
    (later, [a] + rest)
  }

  lemma {:induction false} ScreenOneKeepsWire(a: Avp, deny: seq<Selector>)
    ensures Wire(ScreenOne(a, deny).1) == Wire(a)
    decreases EncodedLen(a), 0
  {
    hide WireAll, Opened, EncodedLen;
    OpenedShrinks(a);
    var o := Opened(a);
    if !Denied(a, deny) && o.children != [] {
      ScreenKeepsWire(o.children, deny);
      SameBodySameWire(o, Screen(o.children, deny).1);
    }
  }

  lemma SameBodySameWire(a: Avp, kids: seq<Avp>)
    requires a.children != [] && kids != [] && WireAll(kids) == WireAll(a.children)
    ensures Wire(a.(children := kids)) == Wire(a)
  {
    hide WireAll;
  }

  /** The walk for denied AVPs, decoding as deep as it goes, never changes what will be sent. */
  lemma {:induction false} ScreenKeepsWire(avps: seq<Avp>, deny: seq<Selector>)
    ensures WireAll(Screen(avps, deny).1) == WireAll(avps)
    decreases EncodedLenAll(avps), 1 + |avps|
  {
    hide Wire, ScreenOne, EncodedLen;
    if avps != [] {
      var (found, a) := ScreenOne(avps[0], deny);
      assert EncodedLen(avps[0]) <= EncodedLenAll(avps);
      ScreenOneKeepsWire(avps[0], deny);
      if found.Some? {
        assert ([a] + avps[1..])[1..] == avps[1..];
      } else {
        ScreenKeepsWire(avps[1..], deny);
        var rest := Screen(avps[1..], deny).1;
        assert ([a] + rest)[1..] == rest;
      }
    }
  }

  /** The AVP at a path of positions, opening groups on the way down: what a receiver could read. */
  function Lookup(avps: seq<Avp>, path: seq<nat>): Option<Avp>
    decreases |path|
  {
    if path == [] || path[0] >= |avps| then None
    else if |path| == 1 then Some(avps[path[0]])
    else Lookup(Opened(avps[path[0]]).children, path[1..])
  }

  predicate DeniedAt(avps: seq<Avp>, deny: seq<Selector>, path: seq<nat>) {
    Lookup(avps, path).Some? && Denied(Lookup(avps, path).value, deny)
  }

  /** A hit is a denied AVP that really sits at some depth of the message. */
  lemma {:induction false} ScreenIsSound(avps: seq<Avp>, deny: seq<Selector>) returns (path: seq<nat>)
    requires Screen(avps, deny).0.Some?
    ensures DeniedAt(avps, deny, path) && Lookup(avps, path) == Screen(avps, deny).0
    decreases EncodedLenAll(avps), |avps|
  {
    var a := avps[0];
    OpenedShrinks(a);
    if Denied(a, deny) {
      path := [0];
    } else if ScreenOne(a, deny).0.Some? {
      var sub := ScreenIsSound(Opened(a).children, deny);
      path := [0] + sub;
      assert path[1..] == sub;
    } else {
      var sub := ScreenIsSound(avps[1..], deny);
      path := [sub[0] + 1] + sub[1..];
      assert path[1..] == sub[1..];
    }
  }

  /** The walk finds something in a list exactly when it does at the head, below the head or behind it. */
  lemma ScreenFinds(avps: seq<Avp>, deny: seq<Selector>)
    requires avps != []
    ensures Screen(avps, deny).0.Some? <==>
            Denied(avps[0], deny) || Screen(Opened(avps[0]).children, deny).0.Some? || Screen(avps[1..], deny).0.Some?
    ensures EncodedLenAll(Opened(avps[0]).children) < EncodedLenAll(avps)
            && EncodedLenAll(avps[1..]) <= EncodedLenAll(avps)
  {
    hide EncodedLen, Opened;
    OpenedShrinks(avps[0]);
  }

  /** No denied AVP at any depth escapes the walk. */
  lemma {:induction false} ScreenIsComplete(avps: seq<Avp>, deny: seq<Selector>, path: seq<nat>)
    requires DeniedAt(avps, deny, path)
    ensures Screen(avps, deny).0.Some?
    decreases EncodedLenAll(avps), |avps|
  {
    hide Screen, ScreenOne, EncodedLenAll, EncodedLen, Opened, Denied;
    ScreenFinds(avps, deny);
    if path[0] > 0 {
      var sub := [path[0] - 1] + path[1..];
      assert sub[1..] == path[1..];
      ScreenIsComplete(avps[1..], deny, sub);
    } else if |path| > 1 {
      ScreenIsComplete(Opened(avps[0]).children, deny, path[1..]);
    }
  }

  /** Screening rejects exactly the messages with a denied AVP at some depth. */
  lemma ScreenExactly(avps: seq<Avp>, deny: seq<Selector>)
    ensures Screen(avps, deny).0.Some? <==> exists path :: DeniedAt(avps, deny, path)
  {
    hide Screen, Lookup;
    if Screen(avps, deny).0.Some? {
      var path := ScreenIsSound(avps, deny);
    }
    if path :| DeniedAt(avps, deny, path) {
      ScreenIsComplete(avps, deny, path);
    }
  }

  // ---------------------------------------------------------------- children that encode the data

  /** At every depth, the children an AVP has are those its data decode to. */
  predicate Coherent(a: Avp) {
    IsGrouped(a) ==>
      && ParseAll(a.data) == Ok(FlattenAll(a.children))
      && forall i :: 0 <= i < |a.children| ==> Coherent(a.children[i])
  }

  lemma FlattenKeepsWire(a: Avp)
    ensures Wire(Flatten(a)) == Wire(a)
  {
    WireIs(a, Body(a));
    WireIs(Flatten(a), Body(a));
    SameHeader(a, Flatten(a), HeaderSize(a) + |Body(a)|);
  }

  lemma {:induction false} FlattenAllKeepsWire(avps: seq<Avp>)
    ensures WireAll(FlattenAll(avps)) == WireAll(avps)
  {
    hide Wire, Flatten;
    if avps != [] {
      FlattenKeepsWire(avps[0]);
      FlattenAllKeepsWire(avps[1..]);
      assert FlattenAll(avps)[1..] == FlattenAll(avps[1..]);
    }
  }

  /** So its data are what is sent. */
  lemma CoherentBody(a: Avp)
    requires Coherent(a)
    ensures Body(a) == a.data
    ensures IsGrouped(a) ==> |a.data| >= AVP_HEADER_SIZE
  {
    if IsGrouped(a) {
      ParseAllCanonical(a.data);
      FlattenAllKeepsWire(a.children);
      assert a.data != [] && ParseAvp(a.data).Ok?;
    }
  }

  /** Opening an AVP keeps it coherent. */
  lemma OpenedCoherent(a: Avp)
    requires Coherent(a)
    ensures Coherent(Opened(a)) && Opened(a).data == a.data
  {
    hide ParseAvp;
    if !IsGrouped(a) && a.data != [] && ParseAll(a.data).Ok? {
      ParseAllCanonical(a.data);
      var kids := ParseAll(a.data).value;
      assert forall i :: 0 <= i < |kids| ==> Flat(kids[i]);
      FlatStays(kids);
    }
  }

  lemma FlatStays(avps: seq<Avp>)
    requires AllFlat(avps)
    ensures FlattenAll(avps) == avps
  {
    assert forall i :: 0 <= i < |avps| ==> Flat(avps[i]);
  }

  /** So does the walk for denied AVPs. */
  lemma {:induction false} ScreenOneCoherent(a: Avp, deny: seq<Selector>)
    requires Coherent(a)
    ensures Coherent(ScreenOne(a, deny).1) && ScreenOne(a, deny).1.data == a.data
            && Flatten(ScreenOne(a, deny).1) == Flatten(a)
    decreases EncodedLen(a), 0
  {
    hide EncodedLen, ParseAll, Opened, Body, Screen;
    OpenedShrinks(a);
    OpenedCoherent(a);
    OpenedNames(a);
    var o := Opened(a);
    if !Denied(a, deny) && o.children != [] {
      ScreenCoherent(o.children, deny);
    }
    CoherentBody(a);
    CoherentBody(ScreenOne(a, deny).1);
  }

  lemma OpenedNames(a: Avp)
    ensures Opened(a) == a.(children := Opened(a).children)
  {
  }

  lemma {:induction false} ScreenCoherent(avps: seq<Avp>, deny: seq<Selector>)
    requires forall i :: 0 <= i < |avps| ==> Coherent(avps[i])
    ensures forall i :: 0 <= i < |avps| ==> Coherent(Screen(avps, deny).1[i])
    ensures FlattenAll(Screen(avps, deny).1) == FlattenAll(avps)
    decreases EncodedLenAll(avps), 1 + |avps|
  {
    hide Coherent, ScreenOne, EncodedLen, Flatten;
    if avps != [] {
      assert EncodedLen(avps[0]) <= EncodedLenAll(avps);
      ScreenOneCoherent(avps[0], deny);
      if ScreenOne(avps[0], deny).0 == None {
        ScreenCoherent(avps[1..], deny);
        assert forall i :: 0 <= i < |avps[1..]| ==> FlattenAll(avps[1..])[i] == Flatten(avps[i + 1]);
        var rest := Screen(avps[1..], deny).1;
        assert forall i :: 0 <= i < |rest| ==> FlattenAll(rest)[i] == Flatten(rest[i]);
      }
    }
  }

  // ---------------------------------------------------------------- the round trip at every depth

  /** Decodes groups on demand wherever the shape has children. */
  function OpenAlong(shape: Avp, a: Avp): Avp
    decreases shape
  {
    var d := DecodeGrouped(a);
    if shape.children == [] then a
    else if |d.children| != |shape.children| then d
    else d.(children := OpenAllAlong(shape.children, d.children))
  }

  function OpenAllAlong(shapes: seq<Avp>, avps: seq<Avp>): (r: seq<Avp>)
    requires |shapes| == |avps|
    ensures |r| == |avps|
    decreases shapes
  {
    seq(|avps|, i requires 0 <= i < |avps| => OpenAlong(shapes[i], avps[i]))
  }

  /** The tree as it is sent: the data of each group are the octets of its children. */
  function AsSent(a: Avp): Avp
    decreases a
  {
    Avp(a.code, a.flags, a.vendor, Body(a), AllAsSent(a.children))
  }

  function AllAsSent(avps: seq<Avp>): (r: seq<Avp>)
    ensures |r| == |avps|
    decreases avps
  {
    seq(|avps|, i requires 0 <= i < |avps| => AsSent(avps[i]))
  }

  /** No AVP at any depth has a Vendor-ID that would not be sent. */
  predicate VendorsOk(a: Avp)
    decreases a
  {
    VendorOk(a) && forall i :: 0 <= i < |a.children| ==> VendorsOk(a.children[i])
  }

  lemma {:induction false} ShorterWithin(avps: seq<Avp>, i: nat)
    requires i < |avps|
    ensures EncodedLen(avps[i]) <= EncodedLenAll(avps)
  {
    hide EncodedLen;
    if i > 0 {
      ShorterWithin(avps[1..], i - 1);
    }
  }

  /** What the receiver decodes and then opens along the tree is the tree, but for the Vendor-IDs lost. */
  lemma {:induction false} OpenedIsSent(a: Avp)
    requires EncodedLen(a) < 0x100_0000
    ensures OpenAlong(a, CarriedAvp(a)) == AsSent(a) <==> VendorsOk(a)
    decreases a
  {
    GroupDecodes(a);
    hide DecodeGrouped, Body;
    forall i | 0 <= i < |a.children|
      ensures OpenAlong(a.children[i], CarriedAvp(a.children[i])) == AsSent(a.children[i]) <==> VendorsOk(a.children[i])
    {
      ChildIsShorter(a, i);
      OpenedIsSent(a.children[i]);
    }
    var there, here := OpenAllAlong(a.children, CarriedAll(a.children)), AllAsSent(a.children);
    assert forall i :: 0 <= i < |there| ==> there[i] == OpenAlong(a.children[i], CarriedAvp(a.children[i]));
    hide VendorOk, OpenAlong, AsSent, VendorsOk, CarriedAvp;
    assert there == here <==> forall i :: 0 <= i < |there| ==> there[i] == here[i];
  }

  lemma ChildIsShorter(a: Avp, i: nat)
    requires i < |a.children|
    ensures EncodedLen(a.children[i]) <= EncodedLen(a)
  {
    hide EncodedLenAll;
    ShorterWithin(a.children, i);
  }

  /** The data of a group as received decode to its children as received. */
  lemma GroupDecodes(a: Avp)
    requires EncodedLen(a) < 0x100_0000
    ensures a.children != [] ==> DecodeGrouped(CarriedAvp(a)) == CarriedAvp(a).(children := CarriedAll(a.children))
  {
    hide ParseAll, Wire, EncodedLenAll;
    if a.children != [] {
      WireAllLength(a.children);
      ParseAllOfWire(a.children);
      assert Body(a) == WireAll(a.children) != [] by { SomethingSent(a.children); }
    }
  }

  lemma SomethingSent(avps: seq<Avp>)
    requires avps != []
    ensures WireAll(avps) != []
  {
    hide Wire;
    WireLength(avps[0]);
  }

  /**
   * Opening what was received along the message that was encoded gives the whole tree back, at every
   * depth, exactly when no AVP in it has a Vendor-ID without its flag.
   */
  lemma DeepRoundTrip(m: Message)
    requires CanEncode(m) && m.version == DIAMETER_VERSION
    ensures var r := ParseMessage(WireMessage(m));
            && r.Ok? && |r.value.avps| == |m.avps|
            && (OpenAllAlong(m.avps, r.value.avps) == AllAsSent(m.avps)
                <==> forall i :: 0 <= i < |m.avps| ==> VendorsOk(m.avps[i]))
  {
    hide ParseMessage, WireMessage, OpenAlong, AsSent, VendorsOk, CarriedAvp, EncodedLen, EncodedLenAll;
    ParseOfWireMessage(m, []);
    assert WireMessage(m) + [] == WireMessage(m);
    forall i | 0 <= i < |m.avps|
      ensures OpenAlong(m.avps[i], CarriedAvp(m.avps[i])) == AsSent(m.avps[i]) <==> VendorsOk(m.avps[i])
    {
      ShorterWithin(m.avps, i);
      OpenedIsSent(m.avps[i]);
    }
    var there, here := OpenAllAlong(m.avps, CarriedAll(m.avps)), AllAsSent(m.avps);
    assert forall i :: 0 <= i < |there| ==> there[i] == OpenAlong(m.avps[i], CarriedAvp(m.avps[i]));
    assert there == here <==> forall i :: 0 <= i < |there| ==> there[i] == here[i];
  }

  /** For coherent AVPs, as decoding and screening leave them, the tree sent is the very tree. */
  lemma {:induction false} CoherentIsAsSent(a: Avp)
    requires Coherent(a)
    ensures AsSent(a) == a
    decreases a
  {
    CoherentBody(a);
    hide Body, ParseAll;
    forall i | 0 <= i < |a.children|
      ensures AsSent(a.children[i]) == a.children[i]
    {
      CoherentIsAsSent(a.children[i]);
    }
    hide AsSent, Coherent;
    assert AllAsSent(a.children) == a.children;
  }
}
