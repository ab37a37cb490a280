/** One incoming handshake message, assembled in place from fragments that come in any order.
    The bit mask is shown to stand for the set of body positions received so far. */
module Reassembly {
  import opened Bytes
  import opened DtlsWire
  import opened Options

  /** Bit k of a mask octet. */
  predicate Bit(b: bv8, k: nat)
    requires k < 8
  {
    (b >> k) & 1 == 1
  }

  /** The octet with bits start (included) to end (excluded) set, computed on 32-bit words and truncated. */
  function BitRange(start: nat, end: nat): bv8
    requires start <= 8 && end <= 8
  {
    var one: bv32 := 1;
    ((!((one << start) - 1) & ((one << end) - 1)) & 0xff) as bv8
  }

  lemma BitRangeBits(start: nat, end: nat, k: nat)
    requires start <= end <= 8 && k < 8
    ensures Bit(BitRange(start, end), k) <==> start <= k < end
  {
  }

  lemma OrBits(a: bv8, b: bv8, k: nat)
    requires k < 8
    ensures Bit(a | b, k) <==> Bit(a, k) || Bit(b, k)
  {
  }

  lemma FullBits(k: nat)
    requires k < 8
    ensures Bit(0xff, k) && !Bit(0, k)
  {
  }

  lemma EqualBits(a: bv8, b: bv8)
    requires forall k: nat | k < 8 :: Bit(a, k) <==> Bit(b, k)
    ensures a == b
  {
    assert Bit(a, 0) <==> Bit(b, 0);
    assert Bit(a, 1) <==> Bit(b, 1);
    assert Bit(a, 2) <==> Bit(b, 2);
    assert Bit(a, 3) <==> Bit(b, 3);
    assert Bit(a, 4) <==> Bit(b, 4);
    assert Bit(a, 5) <==> Bit(b, 5);
    assert Bit(a, 6) <==> Bit(b, 6);
    assert Bit(a, 7) <==> Bit(b, 7);
  }

  /** Bit i of a whole mask. */
  predicate Has(mask: seq<bv8>, i: nat)
    requires i < 8 * |mask|
  {
    Bit(mask[i / 8], i % 8)
  }

  /** The positions a mask marks. */
  ghost function Marked(mask: seq<bv8>): set<nat> {
    set i: nat | i < 8 * |mask| && Has(mask, i)
  }

  predicate Within(i: nat, start: nat, end: nat) {
    start <= i < end
  }

  function Interval(start: nat, end: nat): set<nat> {
    set i: nat | i < end && Within(i, start, end)
  }

  /** What marking from bit lo of octet first up to bit hi of octet last makes of octet k. */
  function MarkedOctet(b: bv8, k: nat, first: nat, lo: nat, last: nat, hi: nat): bv8
    requires lo < 8 && hi < 8 && 8 * first + lo < 8 * last + hi
  {
    if k < first || k > last || (k == last && hi == 0) then b
    else if first == last then b | BitRange(lo, hi)
    else if k == first then b | BitRange(lo, 8)
    else if k < last then 0xff
    else b | BitRange(0, hi)
  }

  lemma MarkedOctetBits(b: bv8, k: nat, first: nat, lo: nat, last: nat, hi: nat, bit: nat)
    requires lo < 8 && hi < 8 && bit < 8 && 8 * first + lo < 8 * last + hi
    ensures Bit(MarkedOctet(b, k, first, lo, last, hi), bit)
            <==> Bit(b, bit) || 8 * first + lo <= 8 * k + bit < 8 * last + hi
  {
    hide BitRange, Bit;
    if k < first || k > last || (k == last && hi == 0) {
    } else if first == last {
      OrBits(b, BitRange(lo, hi), bit);
      BitRangeBits(lo, hi, bit);
    } else if k == first {
      OrBits(b, BitRange(lo, 8), bit);
      BitRangeBits(lo, 8, bit);
    } else if k < last {
      FullBits(bit);
    } else {
      OrBits(b, BitRange(0, hi), bit);
      BitRangeBits(0, hi, bit);
    }
  }

  /** Sets bits start to end, touching no other bit: first octet, whole octets, last octet. */
  method SetRange(was: seq<bv8>, start: nat, end: nat) returns (mask: seq<bv8>)
    requires start < end <= 8 * |was|
    ensures |mask| == |was|
    ensures forall i: nat | i < 8 * |mask| :: Has(mask, i) <==> Has(was, i) || start <= i < end
  {
    var first, last := start / 8, end / 8;
    if first == last {
      mask := was[first := was[first] | BitRange(start % 8, end % 8)];
    } else {
      mask := was[first := was[first] | BitRange(start % 8, 8)];
      for j := first + 1 to last
        invariant |mask| == |was|
        invariant forall k | 0 <= k < |mask| ::
                    mask[k] == if k < j then MarkedOctet(was[k], k, first, start % 8, last, end % 8) else was[k]
      {
        mask := mask[j := 0xff];
      }
      if end % 8 != 0 {
        mask := mask[last := mask[last] | BitRange(0, end % 8)];
      }
    }
    assert forall k | 0 <= k < |mask| :: mask[k] == MarkedOctet(was[k], k, first, start % 8, last, end % 8);
    forall i: nat | i < 8 * |mask|
      ensures Has(mask, i) <==> Has(was, i) || start <= i < end
    {
      MarkedOctetBits(was[i / 8], i / 8, first, start % 8, last, end % 8, i % 8);
    }
  }

  /** Whether the first msgLen bits are all set, the remaining bits of the last octet being clear. */
  method AllSet(mask: seq<bv8>, msgLen: nat) returns (all: bool)
    requires |mask| == (msgLen + 7) / 8
    requires forall i: nat | msgLen <= i < 8 * |mask| :: !Has(mask, i)
    ensures all <==> forall i: nat | i < msgLen :: Has(mask, i)
  {
    var whole := msgLen / 8;
    for j := 0 to whole
      invariant forall k | 0 <= k < j :: mask[k] == 0xff
    {
      if mask[j] != 0xff {
        if forall i: nat | i < msgLen :: Has(mask, i) {
          forall k: nat | k < 8 ensures Bit(mask[j], k) <==> Bit(0xff, k) {
            FullBits(k);
            assert Has(mask, 8 * j + k);
          }
          EqualBits(mask[j], 0xff);
        }
        return false;
      }
    }
    if msgLen % 8 != 0 && mask[whole] != BitRange(0, msgLen % 8) {
      if forall i: nat | i < msgLen :: Has(mask, i) {
        forall k: nat | k < 8 ensures Bit(mask[whole], k) <==> Bit(BitRange(0, msgLen % 8), k) {
          BitRangeBits(0, msgLen % 8, k);
          assert Has(mask, 8 * whole + k) <==> 8 * whole + k < msgLen;
        }
        EqualBits(mask[whole], BitRange(0, msgLen % 8));
      }
      return false;
    }
    forall i: nat | i < msgLen ensures Has(mask, i) {
      FullBits(i % 8);
      if i / 8 == whole {
        BitRangeBits(0, msgLen % 8, i % 8);
      }
    }
    return true;
  }

  /** What a partly assembled message stands for: the body octets received so far, by position. */
  datatype Partial = Partial(typ: byte, msgLen: nat, got: map<nat, byte>) {
    predicate Complete() {
      got.Keys == Interval(0, msgLen)
    }

    /** The body of a complete message. */
    function Body(): (s: seq<byte>)
      requires Complete()
      ensures |s| == msgLen
    {
      assert forall i: nat :: i < msgLen ==> i in Interval(0, msgLen);
      seq(msgLen, i requires 0 <= i < msgLen => got[i])
    }

    /** A fragment's octets placed at off; a later octet for a position replaces an earlier one. */
    function Absorb(off: nat, bytes: seq<byte>): Partial {
      Partial(typ, msgLen, got + Placed(off, bytes))
    }
  }

  function Placed(off: nat, bytes: seq<byte>): (m: map<nat, byte>)
    ensures m.Keys == Interval(off, off + |bytes|)
  {
    var positions := Interval(off, off + |bytes|);
    map i | i in positions :: bytes[i - off]
  }

  /** The body octets at the given positions of a message buffer. */
  ghost function At(buffer: seq<byte>, have: set<nat>): map<nat, byte> {
    map i | i in have && i < |buffer| - HM_HEADER_LENGTH :: buffer[HM_HEADER_LENGTH + i]
  }

  class HmFragment {
    const typ: byte
    const seqNo: nat
    const msgLen: nat
    var data: seq<byte>                 // the 12-octet header of the whole message, then its body
    var reassembly: Option<seq<bv8>>    // None once the message is complete

    ghost predicate Valid()
      reads this
    {
      && |data| == HM_HEADER_LENGTH + msgLen
      && data[..HM_HEADER_LENGTH] == SerializeHeader(HmHeader(typ, msgLen, seqNo, 0, msgLen))
      && (reassembly.Some? ==>
            && |reassembly.value| == (msgLen + 7) / 8
            && (forall i: nat | msgLen <= i < 8 * |reassembly.value| :: !Has(reassembly.value, i))
            && Received() != Interval(0, msgLen))
    }

    ghost function Received(): set<nat>
      reads this
    {
      match reassembly
      case None => Interval(0, msgLen)
      case Some(mask) => Marked(mask)
    }

    ghost function Value(): (p: Partial)
      requires Valid()
      reads this
      ensures p.typ == typ && p.msgLen == msgLen && p.got.Keys == Received()
    {
      Partial(typ, msgLen, At(data, Received()))
    }

    /** The mask is gone exactly when every octet has come. */
    lemma MaskGoneIffComplete()
      requires Valid()
      ensures reassembly == None <==> Value().Complete()
    {
    }

    /** The whole message, header included, once complete. */
    lemma CompleteData()
      requires Valid() && reassembly == None
      ensures Value().Complete()
      ensures data == SerializeHeader(HmHeader(typ, msgLen, seqNo, 0, msgLen)) + Value().Body()
    {
      assert data[HM_HEADER_LENGTH..] == Value().Body();
    }

    /** dtls1_hm_fragment_new. */
    constructor (h: HmHeader)
      ensures Valid() && seqNo == h.seqNo && Value() == Partial(h.typ, h.msgLen, map[])
      ensures reassembly == None <==> h.msgLen == 0
    {
      typ, seqNo, msgLen := h.typ, h.seqNo, h.msgLen;
      data := SerializeHeader(HmHeader(h.typ, h.msgLen, h.seqNo, 0, h.msgLen)) + seq(h.msgLen, _ => 0);
      reassembly := if h.msgLen > 0 then Some(seq((h.msgLen + 7) / 8, _ => 0)) else None;
      new;
      if reassembly.Some? {
        forall i: nat | i < 8 * |reassembly.value| ensures !Has(reassembly.value, i) {
          FullBits(i % 8);
        }
        assert 0 in Interval(0, msgLen);
      }
    }

    /** dtls1_hm_fragment_mark: records start to end as received, and drops the mask when that
        completes the message. */
    method Mark(start: nat, end: nat)
      requires Valid() && reassembly.Some? && start <= end <= msgLen
      modifies this`reassembly
      ensures Valid()
      ensures Received() == old(Received()) + Interval(start, end)
    {
      if start == end {
        return;
      }
      var mask := SetRange(reassembly.value, start, end);
      assert Marked(mask) == Received() + Interval(start, end);
      var all := AllSet(mask, msgLen);
      if all {
        forall i: nat ensures i in Marked(mask) <==> i in Interval(0, msgLen) {
          if i < 8 * |mask| {
            assert Has(mask, i) <==> i < msgLen;
          }
        }
        reassembly := None;
      } else {
        ghost var i: nat :| i < msgLen && !Has(mask, i);
        assert i in Interval(0, msgLen) && i !in Marked(mask);
        reassembly := Some(mask);
      }
    }

    /** Copies a fragment's body into place and marks it. */
    method Store(off: nat, bytes: seq<byte>)
      requires Valid() && reassembly.Some? && off + |bytes| <= msgLen
      modifies this
      ensures Valid()
      ensures Value() == old(Value()).Absorb(off, bytes)
    {
      hide Has, Marked;
      ghost var was, have := data, Received();
      var at := HM_HEADER_LENGTH + off;
      data := data[..at] + bytes + data[at + |bytes|..];
      assert data[..HM_HEADER_LENGTH] == was[..HM_HEADER_LENGTH];
      OverlayAt(was, data, have, off, bytes);
      Mark(off, off + |bytes|);
    }
  }

  lemma OverlayAt(was: seq<byte>, now: seq<byte>, have: set<nat>, off: nat, bytes: seq<byte>)
    requires HM_HEADER_LENGTH + off + |bytes| <= |was|
    requires now == was[..HM_HEADER_LENGTH + off] + bytes + was[HM_HEADER_LENGTH + off + |bytes|..]
    ensures At(now, have + Interval(off, off + |bytes|)) == At(was, have) + Placed(off, bytes)
  {
  }
}
