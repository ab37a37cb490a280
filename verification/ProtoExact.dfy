/** The wire format octet by octet, and exactly which octets the decoders refuse. */
module ProtoExact {
  import opened Bytes
  import opened Options
  import opened Varints
  import opened ProtoMessage
  import opened ProtoWire
  import opened ProtoRoundTrip

  // Layout.

  /** The number whose groups of seven bits are the octets, the least significant first. */
  function Groups(s: seq<byte>): nat {
    if s == [] then 0 else s[0] as nat % 128 + 128 * Groups(s[1..])
  }

  /** Seven bits an octet, the least significant first; all octets but the last are marked, and the last is
      zero only for zero. */
  lemma {:induction false} VarintLayout(v: nat)
    ensures var s := Encode(v);
            && s != [] && Groups(s) == v && s[|s| - 1] < 128 && (s[|s| - 1] == 0 ==> v == 0)
            && forall i | 0 <= i < |s| - 1 :: s[i] >= 128
    decreases v
  {
    if v >= 128 {
      VarintLayout(v / 128);
      var tail := Encode(v / 128);
      assert Encode(v)[1..] == tail;
      assert forall i | 1 <= i < |tail| :: Encode(v)[i] == tail[i - 1];
    }
  }

  /** The least significant octet first. */
  lemma FixedLayout(n: nat)
    requires n < U32
    ensures var s := LittleEndian(n, 4);
            s[0] as nat + 0x100 * s[1] as nat + 0x1_0000 * s[2] as nat + 0x100_0000 * s[3] as nat == n
  {
    var n1, n2, n3 := n / 0x100, n / 0x1_0000, n / 0x100_0000;
    assert LittleEndian(n, 4) == [(n % 256) as byte] + LittleEndian(n1, 3);
    assert n1 / 256 == n2 && LittleEndian(n1, 3) == [(n1 % 256) as byte] + LittleEndian(n2, 2);
    assert n2 / 256 == n3 && LittleEndian(n2, 2) == [(n2 % 256) as byte] + LittleEndian(n3, 1);
    assert LittleEndian(n3, 1) == [(n3 % 256) as byte] + LittleEndian(n3 / 256, 0);
  }

  /** The eight octets of a 64-bit number are those of its low and then of its high half. */
  lemma DoubleLayout(n: nat)
    requires n < U64
    ensures LittleEndian(n, 8) == LittleEndian(n % U32, 4) + LittleEndian(n / U32, 4)
  {
    hide LittleEndian;
    var low, high := n % U32, n / U32;
    OneStep(low, 4, 0x100_0000 * high, 8);
    OneStep(low / 0x100, 3, 0x1_0000 * high, 7);
    OneStep(low / 0x1_0000, 2, 0x100 * high, 6);
    OneStep(low / 0x100_0000, 1, high, 5);
  }

  lemma OneStep(low: nat, k: nat, high: nat, n: nat)
    requires 0 < k && 0 < n
    ensures LittleEndian(low + 256 * high, n) == [(low % 256) as byte] + LittleEndian(low / 256 + high, n - 1)
    ensures LittleEndian(low, k) == [(low % 256) as byte] + LittleEndian(low / 256, k - 1)
  {
    Carried(low / 256 + high, low % 256);
    assert low + 256 * high == 256 * (low / 256 + high) + low % 256;
  }

  lemma Carried(q: nat, r: nat)
    requires r < 256
    ensures (256 * q + r) / 256 == q && (256 * q + r) % 256 == r
  {
  }

  /** Every key says type and number of its field: 0 varints, 1 eight octets, 2 octets with a length, 5 four. */
  lemma KeyLayout(f: Field, v: Value)
    requires GoodField(f) && EncodeValue(f, v).Some?
    ensures f.ltype.Extension? ==> EncodeTagged(f, v) == None
    ensures !f.ltype.Extension? ==>
              var w := match f.ltype
                       case Varint => 0
                       case UVarint => 0
                       case SVarint => 0
                       case Fixed64 => 1
                       case Fixed32 => 5
                       case _ => 2;
              EncodeTagged(f, v) == Some(Encode(8 * f.tag + w) + EncodeValue(f, v).value)
  {
    hide EncodeValue, Encode;
  }

  /** An array of numbers is one field of wire type 2 with all of them in it, any other array a field for each item;
      an empty one is nothing, and one with more items than its storage has an error. */
  lemma ArrayLayout(f: Field, max: nat, items: seq<Value>)
    requires GoodField(f) && !f.ltype.Extension?
    ensures items == [] ==> EncodeArray(f, max, items) == Some([])
    ensures |items| > max ==> EncodeArray(f, max, items) == None
    ensures 0 < |items| <= max && Packable(f.ltype) && EncodeItems(f, items, 0, []).Some? ==>
              var b := EncodeItems(f, items, 0, []).value;
              |b| < U32 ==> EncodeArray(f, max, items) == Some(Encode(8 * f.tag + 2) + Encode(|b|) + b)
    ensures 0 < |items| <= max && !Packable(f.ltype) ==>
              EncodeArray(f, max, items) == EncodeItems(f, items, 0, Encode(8 * f.tag + 2))
  {
    hide Encode, EncodeItems;
  }

  /** The items in their order, each behind the prefix. */
  lemma {:induction false} ItemsInOrder(f: Field, items: seq<Value>, k: nat, prefix: seq<byte>)
    requires k < |items| && EncodeItems(f, items, k, prefix).Some?
    ensures EncodeItems(f, items, k, prefix).value
         == prefix + EncodeValue(f, items[k]).value + EncodeItems(f, items, k + 1, prefix).value
    ensures EncodeItems(f, items, |items|, prefix) == Some([])
  {
    hide EncodeValue;
  }

  lemma ZigZagIs(n: int)
    requires -(U64 as int) <= 2 * n < U64
    ensures ZigZag(n) == if n >= 0 then 2 * n else -2 * n - 1
  {
    if n < 0 {
      assert 2 * n % U64 == 2 * n + U64;
    }
  }

  /** In proto3 zero and empty values are not written, and only these. */
  lemma ZeroIsLeftOut(f: Field, v: Value)
    requires GoodField(f) && HasLess(f) && GoodValue(f, v) && !f.ltype.Submessage?
    ensures EncodeField(f, One(v)) == Some([])
       <==> v == Num(0) || v == Data([])
  {
    hide EncodeValue, Encode, IsZeroValue, GoodValue;
    ZeroValues(f, v);
    assert EncodeTagged(f, v) != Some([]);
  }

  lemma ZeroValues(f: Field, v: Value)
    requires GoodValue(f, v) && !f.ltype.Submessage?
    ensures !f.ltype.Extension? && (IsZeroValue(f, v) <==> v == Num(0) || v == Data([]))
  {
  }

  // Numbers.

  predicate InRange(n: int, size: nat) {
    -Bits(size) <= 2 * n < Bits(size)
  }

  lemma ClampExactly(n: int, signed: bool, size: nat)
    requires size in {1, 2, 4, 8}
    ensures Clamp(n, signed, size)
         == if (if signed then InRange(n, size) else 0 <= n < Bits(size)) then Some(Num(n)) else None
  {
    if signed && InRange(n, size) {
      ClampKeeps(n, size);
    }
  }

  /** An unsigned number is taken exactly if it fits the field's memory. */
  lemma UnsignedThatFits(f: Field, w: nat, rest: seq<byte>)
    requires GoodField(f) && w < U64 && f.ltype.UVarint?
    ensures DecodeNumber(f, Encode(w) + rest) == if w < Bits(f.dataSize) then Some((Num(w), rest)) else None
  {
    hide Encode, Decode64, Clamp;
    Decoded64(w, rest);
    ClampExactly(w, false, f.dataSize);
  }

  /** A zigzag number is taken exactly if what it stands for fits the field's memory. */
  lemma ZigZagThatFits(f: Field, n: int, rest: seq<byte>)
    requires GoodField(f) && InRange(n, 8) && f.ltype.SVarint?
    ensures ZigZag(n) < U64
    ensures DecodeNumber(f, Encode(ZigZag(n)) + rest)
         == if InRange(n, f.dataSize) then Some((Num(n), rest)) else None
  {
    hide Encode, Decode64, Clamp, ZigZag, UnZigZag;
    ZigZagRoundTrip(n, 0);
    Decoded64(ZigZag(n), rest);
    ClampExactly(n, true, f.dataSize);
  }

  /** A signed number is read as 64 bits for memory of that size, and otherwise as its low 32 bits, which must fit. */
  lemma SignedThatFits(f: Field, w: nat, n: int, rest: seq<byte>)
    requires GoodField(f) && w < U64 && f.ltype.Varint?
    requires if f.dataSize == 8 then w == n % U64 && InRange(n, 8) else w % U32 == n % U32 && InRange(n, 4)
    ensures DecodeNumber(f, Encode(w) + rest) == if InRange(n, f.dataSize) then Some((Num(n), rest)) else None
  {
    hide Encode, Decode64, Clamp, Signed;
    Decoded64(w, rest);
    SignedReading(n, if f.dataSize == 8 then 8 else 4);
    ClampExactly(n, true, f.dataSize);
  }

  lemma SignedReading(n: int, size: nat)
    requires size in {4, 8} && InRange(n, size)
    ensures Signed(n % Bits(size), Bits(size)) == n
  {
    assert n % Bits(size) == if n >= 0 then n else n + Bits(size);
  }

  /** Fixed width numbers take their octets, and nothing less. */
  lemma FixedNumbers(f: Field, b: seq<byte>, rest: seq<byte>)
    requires f.ltype.Fixed32? || f.ltype.Fixed64?
    ensures var k := if f.ltype.Fixed32? then 4 else 8;
            && (|b| == k ==> DecodeNumber(f, b + rest) == Some((Num(LittleValue(b)), rest)))
            && (|b| < k ==> DecodeNumber(f, b) == None)
  {
    hide LittleValue;
    assert (b + rest)[..|b|] == b && (b + rest)[|b|..] == rest;
  }

  // Octets and strings.

  /** What comes before the first zero octet, or everything. */
  lemma {:induction false} UpToNulIs(s: seq<byte>)
    ensures var t := UpToNul(s); t <= s && (forall b | b in t :: b != 0) && (|t| < |s| ==> s[|t|] == 0)
  {
    if s != [] && s[0] != 0 {
      UpToNulIs(s[1..]);
    }
  }

  /** Octets are taken exactly if they fit the field's memory: octets beside their count of four octets, a string
      with a zero octet behind it, and those of fixed length if there are as many, or none at all for zeros. */
  lemma OctetsThatFit(f: Field, s: seq<byte>, rest: seq<byte>)
    requires |s| < U32
    ensures var r := DecodeData(f, Size(|s|) + s + rest);
            && (f.ltype.Octets? ==> r == if |s| + 4 <= f.dataSize then Some((Data(s), rest)) else None)
            && (f.ltype.Text? ==>
                  r == if |s| + 1 < U32 && |s| < f.dataSize then Some((Data(UpToNul(s)), rest)) else None)
            && (f.ltype.FixedOctets? ==> r == if |s| == f.dataSize then Some((Data(s), rest))
                                              else if s == [] then Some((Data(seq(f.dataSize, _ => 0)), rest))
                                              else None)
  {
    hide Encode, Decode32;
    Decoded32(|s|, s + rest);
    assert Size(|s|) + s + rest == Encode(|s|) + (s + rest);
    assert (s + rest)[..|s|] == s && (s + rest)[|s|..] == rest;
    if s == [] {
      assert s + rest == rest && (f.dataSize == 0 ==> s == seq(f.dataSize, _ => 0));
    }
  }

  /** A string that is cut short is refused. */
  lemma CutShort(f: Field, n: nat, s: seq<byte>)
    requires |s| < n < U32
    ensures TakeString(Encode(n) + s) == None
    ensures f.ltype.Octets? || f.ltype.Text? || f.ltype.FixedOctets? ==> DecodeData(f, Encode(n) + s) == None
  {
    hide Encode, Decode32;
    Decoded32(n, s);
  }

  // Arrays.

  /** A packed array is taken exactly if there is room for all its items. */
  lemma {:induction false} PackedThatFits(f: Field, max: nat, items: seq<Value>, k: nat)
    requires GoodField(f) && Packable(f.ltype) && k <= |items| && k <= max
             && forall j | 0 <= j < |items| :: GoodValue(f, items[j])
    requires EncodeItems(f, items, k, []).Some?
    ensures DecodePacked(f, max, items[..k], EncodeItems(f, items, k, []).value)
         == if |items| <= max then Some(items) else None
    decreases |items| - k
  {
    hide EncodeNumber, DecodeNumber;
    if k == |items| {
      assert items[..k] == items;
    } else {
      var b := EncodeNumber(f, items[k].n).value;
      var tail := EncodeItems(f, items, k + 1, []).value;
      NumberRoundTrip(f, items[k].n, tail);
      assert [] + b == b;
      assert items[..k] + [items[k]] == items[..k + 1];
      if k < max {
        PackedThatFits(f, max, items, k + 1);
      }
    }
  }

  /** One more item of an array that is full is an error, and so is the end of a message while an array of fixed
      count is not full. */
  lemma FullArray(fields: seq<Field>, i: nat, slots: seq<Slot>, filling: Option<Filling>, wireType: nat, s: seq<byte>)
    requires i < |fields| == |slots| && fields[i].htype.Repeated? && wireType != 2
    ensures !FixedCount(fields[i]) && slots[i].Many? && |slots[i].items| >= fields[i].htype.max ==>
              DecodeAny(fields, i, slots, filling, wireType, s) == None
    ensures FixedCount(fields[i]) && slots[i].Fixed? && filling == Some(Filling(i, |slots[i].places|)) ==>
              DecodeAny(fields, i, slots, filling, wireType, s) == None
  {
  }

  lemma EndsFull(fields: seq<Field>, slots: seq<Slot>, seen: set<nat>, i: nat, count: nat, s: seq<byte>)
    requires i < |fields| == |slots| && FixedCount(fields[i]) && s in {[], [0]}
    ensures DecodeLoop(fields, slots, seen, Some(Filling(i, count)), s).Some? <==>
            count == fields[i].htype.max && RequiredSeen(fields, seen)
  {
    hide RequiredSeen;
    assert Decode32([0]) == Some((0, [0][1..]));
  }
}
