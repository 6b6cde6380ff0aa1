/**
 * The encoder and the decoder as they run: buffers filled in place, offsets, loops, a
 * pooled scratch buffer with leftovers in it. Each method is proved against `Codec`.
 */
module CodecBuffers {
  import opened Bytes
  import opened Codec

  function Splice(b: seq<byte>, at: nat, s: seq<byte>): (r: seq<byte>)
    requires at + |s| <= |b|
    ensures |r| == |b|
  {
    b[..at] + s + b[at + |s|..]
  }

  lemma SpliceNext(b: seq<byte>, at: nat, s: seq<byte>, t: seq<byte>)
    requires at + |s| + |t| <= |b|
    ensures Splice(Splice(b, at, s), at + |s|, t) == Splice(b, at, s + t)
  {
  }

  /** Writes octets at an offset, like PutUint32 and copy do. */
  method Put(buf: array<byte>, at: nat, s: seq<byte>)
    requires at + |s| <= buf.Length
    modifies buf
    ensures buf[..] == Splice(old(buf[..]), at, s)
  {
    ghost var was := buf[..];
    forall i | 0 <= i < |s| {
      buf[at + i] := s[i];
    }
    assert buf[..] == Splice(was, at, s);
  }

  method ZeroFill(buf: array<byte>, at: nat, n: nat)
    requires at + n <= buf.Length
    modifies buf
    ensures buf[..] == Splice(old(buf[..]), at, Zeros(n))
  {
    for i := 0 to n
      invariant forall j :: at <= j < at + i ==> buf[j] == 0
      invariant forall j :: 0 <= j < at || at + i <= j < buf.Length ==> buf[j] == old(buf[j])
    {
      buf[at + i] := 0;
    }
    assert buf[..] == Splice(old(buf[..]), at, Zeros(n));
  }

  method ChildSize(children: seq<Avp>) returns (n: nat)
    ensures n == EncodedLenAll(children)
  {
    n := 0;
    for i := 0 to |children|
      invariant n + EncodedLenAll(children[i..]) == EncodedLenAll(children)
    {
      n := n + EncodedLen(children[i]);
    }
  }

  /** EncodeTo on `buf[off..]`. It fails, writing nothing, exactly when the image does not fit. */
  method EncodeTo(a: Avp, buf: array<byte>, off: nat) returns (n: nat, ok: bool)
    requires off <= buf.Length
    modifies buf
    ensures ok <==> EncodedLen(a) <= buf.Length - off
    ensures ok ==> n == EncodedLen(a) == |Wire(a)| && buf[..] == Splice(old(buf[..]), off, Wire(a))
    ensures !ok ==> n == 0 && buf[..] == old(buf[..])
    decreases a, 1
  {
    hide Wire, WireAll, EncodedLenAll, EncodedLen, BE, Splice, AvpHeader;
    WireLength(a);
    var data := a.data;
    if IsGrouped(a) {
      data := EncodeChildren(a);
    }
    var avpLen := HeaderSize(a) + |data|;
    var padding := Pad(avpLen);
    WireIs(a, data);
    if buf.Length - off < avpLen + padding {
      return 0, false;
    }
    ghost var was := buf[..];
    PutAvpHeader(a, avpLen, buf, off);
    Put(buf, off + HeaderSize(a), data);
    SpliceNext(was, off, AvpHeader(a, avpLen), data);
    ZeroFill(buf, off + avpLen, padding);
    SpliceNext(was, off, AvpHeader(a, avpLen) + data, Zeros(padding));
    return avpLen + padding, true;
  }

  method PutAvpHeader(a: Avp, avpLen: nat, buf: array<byte>, off: nat)
    requires off + HeaderSize(a) <= buf.Length
    modifies buf
    ensures buf[..] == Splice(old(buf[..]), off, AvpHeader(a, avpLen))
  {
    hide BE, Splice;
    ghost var was := buf[..];
    Put(buf, off, BE(a.code, 4));
    Put(buf, off + 4, [a.flags]);
    SpliceNext(was, off, BE(a.code, 4), [a.flags]);
    Put(buf, off + 5, BE(avpLen, 3));
    SpliceNext(was, off, BE(a.code, 4) + [a.flags], BE(avpLen, 3));
    ghost var head := BE(a.code, 4) + [a.flags] + BE(avpLen, 3);
    if IsVendor(a) {
      Put(buf, off + 8, BE(a.vendor, 4));
      SpliceNext(was, off, head, BE(a.vendor, 4));
    } else {
      assert head + [] == head;
    }
  }

  /** The children of a grouped AVP, encoded into a scratch buffer whose old contents do not matter. */
  method EncodeChildren(a: Avp) returns (data: seq<byte>)
    requires IsGrouped(a)
    ensures data == Body(a)
    decreases a, 0
  {
    hide Wire, BE, EncodedLen;
    var childSize := ChildSize(a.children);
    WireAllLength(a.children);
    var childBuf := new byte[childSize];
    var offset: nat := 0;
    for i := 0 to |a.children|
      invariant offset <= childSize && offset + EncodedLenAll(a.children[i..]) == childSize
      invariant childBuf[..offset] + WireAll(a.children[i..]) == WireAll(a.children)
    {
      var child := a.children[i];
      ghost var was := childBuf[..];
      WireLength(child);
      var n, ok := EncodeTo(child, childBuf, offset);
      assert EncodedLenAll(a.children[i..]) == EncodedLen(child) + EncodedLenAll(a.children[i + 1..]);
      assert childBuf[..offset + n] == was[..offset] + Wire(child);
      assert a.children[i..][1..] == a.children[i + 1..];
      Assoc(was[..offset], Wire(child), WireAll(a.children[i + 1..]));
      offset := offset + n;
    }
    data := childBuf[..offset];
    assert data + [] == data;
  }

  lemma AllAhead(avps: seq<Avp>)
    ensures avps[0..] == avps && EncodedLenAll(avps[|avps|..]) == 0 && WireAll(avps[|avps|..]) == []
  {
  }

  lemma NextAhead(avps: seq<Avp>, i: nat)
    requires i < |avps|
    ensures EncodedLenAll(avps[i..]) == EncodedLen(avps[i]) + EncodedLenAll(avps[i + 1..])
    ensures WireAll(avps[i..]) == Wire(avps[i]) + WireAll(avps[i + 1..])
  {
    hide EncodedLen, Wire;
    assert avps[i..][1..] == avps[i + 1..];
  }

  /** The buffer holds the header and the body up to the offset; `ahead` is what is missing. */
  predicate Written(buf: seq<byte>, head: seq<byte>, offset: nat, ahead: seq<byte>, body: seq<byte>) {
    && |head| == DIAMETER_HEADER_SIZE <= offset <= |buf|
    && buf[..|head|] == head && buf[|head|..offset] + ahead == body
  }

  lemma WrittenStart(blank: seq<byte>, head: seq<byte>, body: seq<byte>)
    requires |head| == DIAMETER_HEADER_SIZE <= |blank|
    ensures Written(Splice(blank, 0, head), head, |head|, body, body)
  {
    var b := Splice(blank, 0, head);
    assert b[..|head|] == head && b[|head|..|head|] == [];
    assert [] + body == body;
  }

  lemma WrittenNext(buf: seq<byte>, head: seq<byte>, offset: nat, next: seq<byte>, ahead: seq<byte>, body: seq<byte>)
    requires Written(buf, head, offset, next + ahead, body) && offset + |next| <= |buf|
    ensures Written(Splice(buf, offset, next), head, offset + |next|, ahead, body)
  {
    var b := Splice(buf, offset, next);
    assert b[..|head|] == buf[..|head|];
    assert b[|head|..offset + |next|] == buf[|head|..offset] + next;
    Assoc(buf[|head|..offset], next, ahead);
  }

  lemma WrittenEnd(buf: seq<byte>, head: seq<byte>, body: seq<byte>)
    requires Written(buf, head, |buf|, [], body)
    ensures buf == head + body
  {
    assert buf[|head|..] + [] == buf[|head|..];
    assert buf == buf[..|head|] + buf[|head|..];
  }

  /** Message.Encode: the image, or an error exactly when it would exceed 24 bits of length. */
  method Encode(m: Message) returns (r: Result<seq<byte>>)
    ensures r == if CanEncode(m) then Ok(WireMessage(m)) else Err(TooLarge)
  {
    hide Wire, BE, EncodedLen, MessageHeader, Splice, WireAll, EncodedLenAll, Written;
    var size := ChildSize(m.avps);
    var msgLen := DIAMETER_HEADER_SIZE + size;
    if msgLen > MAX_MESSAGE {
      return Err(TooLarge);
    }
    WireAllLength(m.avps);
    var buf := new byte[msgLen];
    ghost var head := MessageHeader(m, msgLen);
    WrittenStart(buf[..], head, WireAll(m.avps));
    Put(buf, 0, MessageHeader(m, msgLen));
    var offset: nat := DIAMETER_HEADER_SIZE;
    AllAhead(m.avps);
    for i := 0 to |m.avps|
      invariant 20 <= offset <= msgLen && offset + EncodedLenAll(m.avps[i..]) == msgLen
      invariant Written(buf[..], head, offset, WireAll(m.avps[i..]), WireAll(m.avps))
    {
      var avp := m.avps[i];
      WireLength(avp);
      NextAhead(m.avps, i);
      WrittenNext(buf[..], head, offset, Wire(avp), WireAll(m.avps[i + 1..]), WireAll(m.avps));
      var n, ok := EncodeTo(avp, buf, offset);
      offset := offset + n;
    }
    WrittenEnd(buf[..], head, WireAll(m.avps));
    return Ok(buf[..]);
  }

  method DecodeAvp(data: seq<byte>) returns (r: Result<Parsed>)
    ensures r == ParseAvp(data)
  {
    hide U;
    if |data| < AVP_HEADER_SIZE {
      return Err(AvpTooShort);
    }
    var avp := Avp(U(data[0..4]), data[4], 0, [], []);
    var avpLen := U(data[5..8]);
    var headerSize := AVP_HEADER_SIZE;
    if IsVendor(avp) {
      headerSize := AVP_HEADER_SIZE_VENDOR;
      if |data| < headerSize {
        return Err(VendorTooShort);
      }
      avp := avp.(vendor := U(data[8..12]));
    }
    if avpLen < headerSize {
      return Err(AvpBadLength);
    }
    if avpLen > |data| {
      return Err(AvpExceedsBuffer);
    }
    avp := avp.(data := data[headerSize..avpLen]);
    var paddedLen := avpLen;
    if avpLen % 4 != 0 {
      paddedLen := avpLen + (4 - avpLen % 4);
    }
    if paddedLen > |data| {
      return Err(PaddingExceedsBuffer);
    }
    var i := avpLen;
    while i < paddedLen
      invariant avpLen <= i <= paddedLen
      invariant forall j :: avpLen <= j < i ==> data[j] == 0
    {
      if data[i] != 0 {
        return Err(NonZeroPadding);
      }
      i := i + 1;
    }
    return Ok(Parsed(avp, paddedLen));
  }

  function Prepend(avps: seq<Avp>, r: Result<seq<Avp>>): Result<seq<Avp>> {
    match r
    case Ok(rest) => Ok(avps + rest)
    case Err(e) => Err(e)
  }

  method DecodeAvps(data: seq<byte>) returns (r: Result<seq<Avp>>)
    ensures r == ParseAll(data)
  {
    hide ParseAvp;
    var avps: seq<Avp> := [];
    var offset := 0;
    assert data[0..] == data && Prepend([], ParseAll(data)) == ParseAll(data) by {
      if ParseAll(data).Ok? {
        assert [] + ParseAll(data).value == ParseAll(data).value;
      }
    }
    while offset < |data|
      invariant offset <= |data|
      invariant ParseAll(data) == Prepend(avps, ParseAll(data[offset..]))
    {
      var p := DecodeAvp(data[offset..]);
      if p.Err? {
        return Err(p.error);
      }
      assert data[offset..][p.value.consumed..] == data[offset + p.value.consumed..];
      ghost var rest := ParseAll(data[offset + p.value.consumed..]);
      if rest.Ok? {
        Assoc(avps, [p.value.avp], rest.value);
      }
      avps := avps + [p.value.avp];
      offset := offset + p.value.consumed;
    }
    assert data[offset..] == [] && avps + [] == avps;
    return Ok(avps);
  }

  method DecodeMessage(data: seq<byte>) returns (r: Result<Message>)
    ensures r == ParseMessage(data)
  {
    hide U, ParseAll;
    if |data| < DIAMETER_HEADER_SIZE {
      return Err(TooShort);
    }
    if data[0] != DIAMETER_VERSION {
      return Err(BadVersion);
    }
    var msgLen := U(data[1..4]);
    if msgLen < DIAMETER_HEADER_SIZE {
      return Err(BadLength);
    }
    if msgLen > |data| {
      return Err(LengthExceedsData);
    }
    var avps := DecodeAvps(data[DIAMETER_HEADER_SIZE..msgLen]);
    if avps.Err? {
      return Err(avps.error);
    }
    return Ok(Message(data[0], data[4], U(data[5..8]), U(data[8..12]), U(data[12..16]), U(data[16..20]), avps.value));
  }

  /** A byte source that may end at any point. */
  class Reader {
    var input: seq<byte>

    constructor (input: seq<byte>)
      ensures this.input == input
    {
      this.input := input;
    }

    /** io.ReadFull into buf[lo..hi]; a short read consumes what there is and fails. */
    method ReadFull(buf: array<byte>, lo: nat, hi: nat) returns (ok: bool)
      requires lo <= hi <= buf.Length
      modifies this, buf
      ensures ok == (hi - lo <= |old(input)|)
      ensures ok ==> input == old(input)[hi - lo..] && buf[..] == Splice(old(buf[..]), lo, old(input)[..hi - lo])
      ensures !ok ==> input == []
    {
      if hi - lo > |input| {
        input := [];
        return false;
      }
      Put(buf, lo, input[..hi - lo]);
      input := input[hi - lo..];
      return true;
    }
  }

  /** ReadMessage with its pooled buffer: whatever an earlier message left there has no effect. */
  method ReadMessage(r: Reader, pool: array<byte>) returns (m: Result<Message>)
    requires pool.Length == 4096
    modifies r, pool
    ensures (m, r.input) == ReadOne(old(r.input))
  {
    hide U, ParseMessage;
    ghost var s := r.input;
    var ok := r.ReadFull(pool, 0, DIAMETER_HEADER_SIZE);
    if !ok {
      return Err(ReadFailed);
    }
    assert pool[..20] == s[..20];
    assert pool[1..4] == pool[..20][1..4] == s[1..4];
    if pool[0] != DIAMETER_VERSION {
      return Err(BadVersion);
    }
    var msgLen := U(pool[1..4]);
    if msgLen < DIAMETER_HEADER_SIZE {
      return Err(BadLength);
    }
    var data := pool;
    if msgLen > pool.Length {
      data := new byte[msgLen];
      Put(data, 0, pool[..20]);
    }
    assert data[..20] == s[..20];
    if msgLen > DIAMETER_HEADER_SIZE {
      ghost var was := data[..];
      ok := r.ReadFull(data, DIAMETER_HEADER_SIZE, msgLen);
      if !ok {
        return Err(ReadFailed);
      }
      assert data[..msgLen] == was[..20] + s[20..][..msgLen - 20];
      assert was[..20] == s[..20];
      assert s[..msgLen] == s[..20] + s[20..][..msgLen - 20];
      assert s[20..][msgLen - 20..] == s[msgLen..];
    }
    assert data[..msgLen] == s[..msgLen];
    m := DecodeMessage(data[..msgLen]);
  }

  /** groupedChildren on one AVP, then the walk over a list, stopping at the first denied AVP. */
  method FindDenied(avps: seq<Avp>, deny: seq<Selector>) returns (found: Option<Avp>, after: seq<Avp>)
    ensures (found, after) == Screen(avps, deny)
    decreases EncodedLenAll(avps)
  {
    hide Wire, WireAll, Opened, EncodedLen;
    after := [];
    assert avps[0..] == avps && [] + Screen(avps, deny).1 == Screen(avps, deny).1;
    for i := 0 to |avps|
      invariant |after| == i
      invariant Screen(avps, deny) == var (f, rest) := Screen(avps[i..], deny); (f, after + rest)
      invariant EncodedLenAll(avps[i..]) <= EncodedLenAll(avps)
    {
      var a := avps[i];
      assert avps[i..][1..] == avps[i + 1..];
      if Denied(a, deny) {
        Assoc(after, [a], avps[i + 1..]);
        return Some(a), after + [a] + avps[i + 1..];
      }
      OpenedShrinks(a);
      var o := Opened(a);
      if o.children != [] {
        var hit, kids := FindDenied(o.children, deny);
        o := o.(children := kids);
        if hit.Some? {
          Assoc(after, [o], avps[i + 1..]);
          return hit, after + [o] + avps[i + 1..];
        }
      }
      Assoc(after, [o], Screen(avps[i + 1..], deny).1);
      after := after + [o];
    }
    found := None;
    assert after + [] == after;
  }
}
