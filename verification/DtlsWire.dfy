/** The two DTLS framings: handshake fragments inside a record, and records inside a packet.
    RFC 6347, sections 4.1 and 4.2.2. */
module DtlsWire {
  import opened Bytes
  import opened Options

  const HM_HEADER_LENGTH: nat := 12
  const RT_HEADER_LENGTH: nat := 13
  const RT_MAX_PLAIN_LENGTH: nat := 16384
  const RT_MAX_ENCRYPTED_LENGTH: nat := 16384 + 320

  const RT_CHANGE_CIPHER_SPEC: byte := 20
  const RT_ALERT: byte := 21
  const RT_HANDSHAKE: byte := 22
  const RT_APPLICATION_DATA: byte := 23
  const MT_CCS: byte := 1

  datatype HmHeader = HmHeader(typ: byte, msgLen: nat, seqNo: nat, fragOff: nat, fragLen: nat) {
    /** The values the u8, u24, u16, u24, u24 fields can carry. */
    predicate Fits() {
      msgLen < 0x100_0000 && seqNo < 0x1_0000 && fragOff < 0x100_0000 && fragLen < 0x100_0000
    }
  }

  function SerializeHeader(h: HmHeader): (s: seq<byte>)
    ensures |s| == HM_HEADER_LENGTH
  {
    [h.typ] + BigEndian(h.msgLen, 3) + BigEndian(h.seqNo, 2) + BigEndian(h.fragOff, 3) + BigEndian(h.fragLen, 3)
  }

  datatype Fragment = Fragment(hdr: HmHeader, body: seq<byte>, rest: seq<byte>)

  function ParseHeader(s: seq<byte>): HmHeader
    requires |s| >= HM_HEADER_LENGTH
  {
    HmHeader(s[0], Value(s[1..4]), Value(s[4..6]), Value(s[6..9]), Value(s[9..12]))
  }

  /** dtls1_parse_fragment: one header, its body, and what follows; None when the input is cut short. */
  function ParseFragment(s: seq<byte>): Option<Fragment> {
    if |s| < HM_HEADER_LENGTH then None
    else
      var h := ParseHeader(s);
      if |s| - HM_HEADER_LENGTH < h.fragLen then None
      else Some(Fragment(h, s[12..12 + h.fragLen], s[12 + h.fragLen..]))
  }

  /** Type, length, number, offset and length of the fragment, in this order, the most significant octet first. */
  lemma HeaderLayout(h: HmHeader)
    requires h.Fits()
    ensures var s := SerializeHeader(h);
            && s[0] == h.typ && 0x1_0000 * s[1] as nat + 0x100 * s[2] as nat + s[3] as nat == h.msgLen
            && 0x100 * s[4] as nat + s[5] as nat == h.seqNo
            && 0x1_0000 * s[6] as nat + 0x100 * s[7] as nat + s[8] as nat == h.fragOff
            && 0x1_0000 * s[9] as nat + 0x100 * s[10] as nat + s[11] as nat == h.fragLen
  {
    hide BigEndian;
    ThreeOctets(h.msgLen);
    TwoOctets(h.seqNo);
    ThreeOctets(h.fragOff);
    ThreeOctets(h.fragLen);
  }

  /** What was serialized is what is parsed, whatever follows it. */
  lemma ParseSerialized(h: HmHeader, body: seq<byte>, rest: seq<byte>)
    requires h.Fits() && |body| == h.fragLen
    ensures ParseFragment(SerializeHeader(h) + body + rest) == Some(Fragment(h, body, rest))
  {
    PowersUsed();
    var s := SerializeHeader(h) + body + rest;
    assert s[1..4] == BigEndian(h.msgLen, 3);
    assert s[4..6] == BigEndian(h.seqNo, 2);
    assert s[6..9] == BigEndian(h.fragOff, 3);
    assert s[9..12] == BigEndian(h.fragLen, 3);
    ValueOfBigEndian(h.msgLen, 3);
    ValueOfBigEndian(h.seqNo, 2);
    ValueOfBigEndian(h.fragOff, 3);
    ValueOfBigEndian(h.fragLen, 3);
    assert s[12..12 + h.fragLen] == body;
    assert s[12 + h.fragLen..] == rest;
  }

  /** Conversely a successful parse determines its input: no two byte strings parse alike. */
  lemma SerializeParsed(s: seq<byte>)
    requires ParseFragment(s).Some?
    ensures var f := ParseFragment(s).value;
            f.hdr.Fits() && |f.body| == f.hdr.fragLen && s == SerializeHeader(f.hdr) + f.body + f.rest
  {
    PowersUsed();
    BigEndianOfValue(s[1..4]);
    BigEndianOfValue(s[4..6]);
    BigEndianOfValue(s[6..9]);
    BigEndianOfValue(s[9..12]);
    var f := ParseFragment(s).value;
    assert s[..12] == [s[0]] + s[1..4] + s[4..6] + s[6..9] + s[9..12];
    assert s == s[..12] + f.body + f.rest;
  }

  /** A sealed record as it travels: number is the 16-bit epoch followed by the 48-bit sequence number. */
  datatype Record = Record(typ: byte, version: nat, number: seq<byte>, body: seq<byte>)

  function RecordNumber(epoch: nat, seqNo: nat): (s: seq<byte>)
    ensures |s| == 8
  {
    BigEndian(epoch, 2) + BigEndian(seqNo, 6)
  }

  function SerializeRecord(r: Record): (s: seq<byte>)
    requires |r.number| == 8
    ensures |s| == RT_HEADER_LENGTH + |r.body|
  {
    [r.typ] + BigEndian(r.version, 2) + r.number + BigEndian(|r.body|, 2) + r.body
  }

  /** Type, version, number and length, in this order, and then the body. */
  lemma RecordLayout(r: Record)
    requires |r.number| == 8 && r.version < 0x1_0000 && |r.body| < 0x1_0000
    ensures var s := SerializeRecord(r);
            && s[0] == r.typ && 0x100 * s[1] as nat + s[2] as nat == r.version && s[3..11] == r.number
            && 0x100 * s[11] as nat + s[12] as nat == |r.body| && s[13..] == r.body
  {
    hide BigEndian;
    TwoOctets(r.version);
    TwoOctets(|r.body|);
  }

  /** The epoch is the upper 16 bits of the number, and the sequence number the lower 48. */
  lemma NumberLayout(epoch: nat, seqNo: nat)
    requires epoch < 0x1_0000 && seqNo < 0x1_0000_0000_0000
    ensures Value(RecordNumber(epoch, seqNo)) == epoch * 0x1_0000_0000_0000 + seqNo
  {
    PowersUsed();
    ValueOfConcat(BigEndian(epoch, 2), BigEndian(seqNo, 6));
    ValueOfBigEndian(epoch, 2);
    ValueOfBigEndian(seqNo, 6);
  }

  /** The record at the front of a packet and the bytes after it; None when the header is malformed. */
  function ParseRecord(s: seq<byte>): Option<(Record, seq<byte>)> {
    if |s| < RT_HEADER_LENGTH then None
    else
      var len := Value(s[11..13]);
      if |s| - RT_HEADER_LENGTH < len || len > RT_MAX_ENCRYPTED_LENGTH then None
      else Some((Record(s[0], Value(s[1..3]), s[3..11], s[13..13 + len]), s[13 + len..]))
  }

  /** A record is found exactly if its header is there, and announces no more than is there or is allowed. */
  lemma ParsesExactly(s: seq<byte>)
    ensures ParseRecord(s).Some? <==>
            && |s| >= 13
            && var len := 0x100 * s[11] as nat + s[12] as nat; len <= 16384 + 320 && 13 + len <= |s|
    ensures ParseRecord(s).Some? ==> ParseRecord(s).value.1 == s[13 + |ParseRecord(s).value.0.body|..]
    ensures ParseFragment(s).Some? <==>
            && |s| >= 12
            && 12 + 0x1_0000 * s[9] as nat + 0x100 * s[10] as nat + s[11] as nat <= |s|
  {
    if |s| >= 12 {
      ThreeDigits(s[9..12]);
    }
    if |s| >= 13 {
      TwoDigits(s[11..13]);
    }
  }

  lemma ParseSerializedRecord(r: Record, rest: seq<byte>)
    requires |r.number| == 8 && r.version < 0x1_0000 && |r.body| <= RT_MAX_ENCRYPTED_LENGTH
    ensures ParseRecord(SerializeRecord(r) + rest) == Some((r, rest))
  {
    PowersUsed();
    var s := SerializeRecord(r) + rest;
    ValueOfBigEndian(r.version, 2);
    ValueOfBigEndian(|r.body|, 2);
    assert s[1..3] == BigEndian(r.version, 2);
    assert s[3..11] == r.number;
    assert s[11..13] == BigEndian(|r.body|, 2);
    assert s[13..13 + |r.body|] == r.body;
    assert s[13 + |r.body|..] == rest;
  }

  /** Records with different epochs or sequence numbers have different numbers on the wire. */
  lemma RecordNumberInjective(e1: nat, n1: nat, e2: nat, n2: nat)
    requires e1 < 0x1_0000 && e2 < 0x1_0000 && n1 < 0x1_0000_0000_0000 && n2 < 0x1_0000_0000_0000
    requires RecordNumber(e1, n1) == RecordNumber(e2, n2)
    ensures e1 == e2 && n1 == n2
  {
    PowersUsed();
    assert RecordNumber(e1, n1)[..2] == BigEndian(e1, 2) && RecordNumber(e2, n2)[..2] == BigEndian(e2, 2);
    assert RecordNumber(e1, n1)[2..] == BigEndian(n1, 6) && RecordNumber(e2, n2)[2..] == BigEndian(n2, 6);
    ValueOfBigEndian(e1, 2);
    ValueOfBigEndian(e2, 2);
    ValueOfBigEndian(n1, 6);
    ValueOfBigEndian(n2, 6);
  }
}
