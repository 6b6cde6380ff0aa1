/**
 * Where every octet of an AVP and of a message lies, in numbers: the headers of sections 3 and 4.1 of
 * RFC 6733 as the encoder writes them and the decoder reads them.
 */
module CodecLayout {
  import opened Bytes
  import opened Codec

  function Value3(s: seq<byte>): nat
    requires |s| == 3
  {
    0x1_0000 * s[0] as int + 0x100 * s[1] as int + s[2] as int
  }

  function Value4(s: seq<byte>): nat
    requires |s| == 4
  {
    0x100_0000 * s[0] as int + 0x1_0000 * s[1] as int + 0x100 * s[2] as int + s[3] as int
  }

  /** The next multiple of four. */
  function Rounded(n: nat): (r: nat)
    ensures n <= r < n + 4 && r % 4 == 0
  {
    (n + 3) / 4 * 4
  }

  lemma WrittenOctets(v: nat)
    ensures BE(v, 3) == [v / 0x1_0000 % 0x100, v / 0x100 % 0x100, v % 0x100]
    ensures v < 0x1_0000_0000 ==> Value4(BE(v, 4)) == v
    ensures v < 0x100_0000 ==> Value3(BE(v, 3)) == v
  {
    OctetsByValue(v);
    ValueByOctets(BE(v, 4));
    ValueByOctets(BE(v, 3));
    if v < 0x1_0000_0000 {
      UofBE4(v);
    }
    if v < 0x100_0000 {
      UofBE3(v);
    }
  }

  /**
   * The AVP written: code, flags, a 24-bit length without the padding; then, if the flags are 128 or
   * more, four octets of Vendor-ID; then the data, or the children one after the other; then zeros up to
   * a multiple of four.
   */
  lemma AvpOctets(a: Avp)
    ensures var w := Wire(a);
            var body := if a.children == [] then a.data else WireAll(a.children);
            var start := if a.flags < 128 then 8 else 12;
            var len := start + |body|;
      && |w| == Rounded(len)
      && Value4(w[0..4]) == a.code && w[4] == a.flags
      && w[5..8] == [len / 0x1_0000 % 0x100, len / 0x100 % 0x100, len % 0x100]
      && (a.flags >= 128 ==> Value4(w[8..12]) == a.vendor)
      && w[start..len] == body
      && forall i :: len <= i < |w| ==> w[i] == 0
  {
    WireSlices(a, []);
    PartsAre(a);
    WrittenOctets(a.code);
    WrittenOctets(a.vendor);
    WrittenOctets(HeaderSize(a) + |Body(a)|);
    RoundedUp(HeaderSize(a) + |Body(a)|);
    hide BE, WireAll, Wire, Body, HeaderSize, IsVendor, Pad, PaddedLen, Rounded, Value3, Value4;
    assert Wire(a) + [] == Wire(a);
  }

  lemma PartsAre(a: Avp)
    ensures HeaderSize(a) == if a.flags < 128 then 8 else 12
    ensures IsVendor(a) <==> a.flags >= 128
    ensures Body(a) == if a.children == [] then a.data else WireAll(a.children)
  {
    hide WireAll;
  }

  lemma RoundedUp(n: nat)
    ensures n + Pad(n) == Rounded(n) && PaddedLen(n) == Rounded(n)
  {
  }

  /** The children of a group, and the AVPs of a message, lie one after the other. */
  lemma {:induction false} ListOctets(avps: seq<Avp>, i: nat)
    requires i < |avps|
    ensures WireAll([]) == [] && WireAll([avps[i]]) == Wire(avps[i])
    ensures WireAll(avps) == WireAll(avps[..i]) + Wire(avps[i]) + WireAll(avps[i + 1..])
  {
    hide Wire;
    assert WireAll([avps[i]]) == Wire(avps[i]) + [] == Wire(avps[i]);
    assert avps == avps[..i] + [avps[i]] + avps[i + 1..];
    WireAllAppend(avps[..i] + [avps[i]], avps[i + 1..]);
    WireAllAppend(avps[..i], [avps[i]]);
  }

  /** The message written: a header of 20 octets, then the AVPs. */
  lemma MessageOctets(m: Message)
    requires CanEncode(m)
    ensures var w := WireMessage(m);
      && |w| == 20 + |WireAll(m.avps)| && w[20..] == WireAll(m.avps)
      && w[0] == m.version && Value3(w[1..4]) == |w| && w[4] == m.flags
      && Value3(w[5..8]) == m.command % 0x100_0000
      && Value4(w[8..12]) == m.application && Value4(w[12..16]) == m.hopByHop && Value4(w[16..20]) == m.endToEnd
  {
    hide BE, WireAll;
    var len := DIAMETER_HEADER_SIZE + |WireAll(m.avps)|;
    HeaderSlices(m, len, WireAll(m.avps));
    WireAllLength(m.avps);
    WrittenOctets(len);
    WrittenOctets(m.application);
    WrittenOctets(m.hopByHop);
    WrittenOctets(m.endToEnd);
    UofBE3(m.command);
    ValueByOctets(BE(m.command, 3));
  }

  /** A message can be encoded exactly when it takes no more octets than 24 bits can count. */
  lemma FitsExactly(m: Message)
    ensures CanEncode(m) <==> |WireMessage(m)| <= 16_777_215
  {
    hide WireAll, EncodedLenAll;
    WireAllLength(m.avps);
  }

  /** When a buffer starts with an AVP, in numbers. */
  predicate AvpAhead(data: seq<byte>) {
    && |data| >= 8 && (data[4] >= 128 ==> |data| >= 12)
    && var len := Value3(data[5..8]);
       var end := Rounded(len);
       && (if data[4] < 128 then 8 else 12) <= len && end <= |data|
       && forall i :: len <= i < end ==> data[i] == 0
  }

  /**
   * The AVP read: the data start behind 8 octets, or behind 12 when the flags are 128 or more and the
   * Vendor-ID is there; nothing but a complete AVP with zero padding is accepted.
   */
  lemma AvpRead(data: seq<byte>)
    ensures ParseAvp(data).Ok? <==> AvpAhead(data)
    ensures AvpAhead(data) ==>
      var len := Value3(data[5..8]);
      ParseAvp(data).value == Parsed(
        if data[4] < 128 then Avp(Value4(data[0..4]), data[4], 0, data[8..len], [])
        else Avp(Value4(data[0..4]), data[4], Value4(data[8..12]), data[12..len], []),
        Rounded(len))
  {
    hide U;
    if |data| >= 8 {
      ValueByOctets(data[0..4]);
      ValueByOctets(data[5..8]);
      if |data| >= 12 {
        ValueByOctets(data[8..12]);
      }
      RoundedUp(Value3(data[5..8]));
    }
    hide PaddedLen, Rounded;
  }

  /** What the decoder complains of first. */
  lemma AvpComplaint(data: seq<byte>)
    requires !AvpAhead(data)
    ensures ParseAvp(data) == Err(
      if |data| < 8 then AvpTooShort
      else if data[4] >= 128 && |data| < 12 then VendorTooShort
      else if Value3(data[5..8]) < (if data[4] < 128 then 8 else 12) then AvpBadLength
      else if Value3(data[5..8]) > |data| then AvpExceedsBuffer
      else if Rounded(Value3(data[5..8])) > |data| then PaddingExceedsBuffer
      else NonZeroPadding)
  {
    if |data| >= 8 {
      ValueByOctets(data[5..8]);
      RoundedUp(Value3(data[5..8]));
    }
    hide U, PaddedLen, Rounded;
  }

  /** The message read, or what the decoder complains of first before it comes to the AVPs. */
  lemma MessageRead(data: seq<byte>)
    ensures ParseMessage(data) ==
      if |data| < 20 then Err(TooShort)
      else if data[0] != 1 then Err(BadVersion)
      else
        var len := Value3(data[1..4]);
        if len < 20 then Err(BadLength)
        else if len > |data| then Err(LengthExceedsData)
        else
          var avps := ParseAll(data[20..len]);
          if avps.Err? then Err(avps.error)
          else Ok(Message(data[0], data[4], Value3(data[5..8]), Value4(data[8..12]), Value4(data[12..16]),
                          Value4(data[16..20]), avps.value))
  {
    hide U, ParseAll;
    if |data| >= 20 {
      ValueByOctets(data[1..4]);
      ValueByOctets(data[5..8]);
      ValueByOctets(data[8..12]);
      ValueByOctets(data[12..16]);
      ValueByOctets(data[16..20]);
    }
  }

  // ---------------------------------------------------------------- denied AVPs in the octets

  /**
   * The AVP at a path of positions in an octet string: the string is read as a list of AVPs, the data of
   * the AVP there as another, and so on.
   */
  function Within(octets: seq<byte>, path: seq<nat>): Option<Avp>
    decreases |path|
  {
    match ParseAll(octets)
    case Err(_) => None
    case Ok(avps) =>
      if path == [] || path[0] >= |avps| then None
      else if |path| == 1 then Some(avps[path[0]])
      else Within(avps[path[0]].data, path[1..])
  }

  predicate AllCoherent(avps: seq<Avp>) { forall i :: 0 <= i < |avps| ==> Coherent(avps[i]) }

  /** Opening on demand finds the AVPs that the octets hold. */
  lemma {:induction false} LookupReads(avps: seq<Avp>, octets: seq<byte>, path: seq<nat>)
    requires AllCoherent(avps) && ParseAll(octets) == Ok(FlattenAll(avps))
    ensures Within(octets, path) == match Lookup(avps, path) { case None => None case Some(a) => Some(Flatten(a)) }
    decreases |path|
  {
    hide Coherent, ParseAll, Body;
    if |path| > 1 && path[0] < |avps| {
      var a := avps[path[0]];
      OpenedCoherent(a);
      CoherentBody(a);
      var kids := Opened(a).children;
      if kids != [] {
        CoherentChildren(Opened(a));
        LookupReads(kids, a.data, path[1..]);
      } else {
        NothingInside(a);
      }
    }
  }

  lemma CoherentChildren(a: Avp)
    requires Coherent(a) && a.children != []
    ensures AllCoherent(a.children) && ParseAll(a.data) == Ok(FlattenAll(a.children))
  {
  }

  /** Data that are not opened hold no AVP. */
  lemma NothingInside(a: Avp)
    requires Opened(a).children == []
    ensures ParseAll(a.data).Ok? ==> ParseAll(a.data).value == []
  {
    AvpRead(a.data);
  }

  /** An AVP just decoded has no children, so it is coherent. */
  lemma ReceivedCoherent(octets: seq<byte>)
    requires ParseAll(octets).Ok?
    ensures AllCoherent(ParseAll(octets).value) && FlattenAll(ParseAll(octets).value) == ParseAll(octets).value
  {
    hide ParseAll, WireAll;
    ParseAllCanonical(octets);
    FlatStays(ParseAll(octets).value);
    assert forall i :: 0 <= i < |ParseAll(octets).value| ==> Flat(ParseAll(octets).value[i]);
  }

  /**
   * A received list is rejected exactly when some reading of its octets, at any depth, gives an AVP with
   * a code and Vendor-ID on the list of the denied.
   */
  lemma ScreenReadsOctets(octets: seq<byte>, deny: seq<Selector>)
    requires ParseAll(octets).Ok?
    ensures Screen(ParseAll(octets).value, deny).0.Some? <==>
            exists path, hit :: Within(octets, path) == Some(hit) && Selector(hit.code, hit.vendor) in deny
  {
    hide ParseAll, Screen, Lookup, Within, Body;
    var avps := ParseAll(octets).value;
    ReceivedCoherent(octets);
    ScreenExactly(avps, deny);
    if path :| DeniedAt(avps, deny, path) {
      LookupReads(avps, octets, path);
      assert Within(octets, path) == Some(Flatten(Lookup(avps, path).value));
    }
    if path, hit :| Within(octets, path) == Some(hit) && Selector(hit.code, hit.vendor) in deny {
      LookupReads(avps, octets, path);
      assert DeniedAt(avps, deny, path);
    }
  }
}
