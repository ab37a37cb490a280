/** The integers of the Protocol Buffers wire format: base 128 varints, zigzag and fixed width.
    Machine words are numbers below a power of two; shifts multiply and truncate. */
module Varints {
  import opened Bytes
  import opened Options

  const U32: nat := 0x1_0000_0000
  const U64: nat := 0x1_0000_0000_0000_0000

  function Pow2(k: nat): (p: nat)
    ensures p >= 1
  {
    if k == 0 then 1 else 2 * Pow2(k - 1)
  }

  /** Bitwise or. */
  function Or(a: nat, b: nat): nat
    decreases a + b
  {
    if a == 0 && b == 0 then 0
    else (if a % 2 == 1 || b % 2 == 1 then 1 else 0) + 2 * Or(a / 2, b / 2)
  }

  lemma {:induction false} OrZero(b: nat)
    ensures Or(0, b) == b
  {
    if b > 0 {
      OrZero(b / 2);
    }
  }

  lemma Halve(c: nat, p: nat)
    ensures c * (2 * p) == 2 * (c * p)
  {
  }

  /** Or-ing above the bits in use is adding. */
  lemma {:induction false} OrAbove(a: nat, c: nat, k: nat)
    requires a < Pow2(k)
    ensures Or(a, c * Pow2(k)) == a + c * Pow2(k)
  {
    if k == 0 {
      OrZero(c);
    } else {
      Halve(c, Pow2(k - 1));
      OrAbove(a / 2, c, k - 1);
    }
  }

  lemma {:induction false} Pow2Sum(j: nat, k: nat)
    ensures Pow2(j + k) == Pow2(j) * Pow2(k)
  {
    if j > 0 {
      Pow2Sum(j - 1, k);
      Associate(Pow2(j - 1), Pow2(k));
    }
  }

  lemma Associate(a: nat, b: nat)
    ensures (2 * a) * b == 2 * (a * b)
  {
  }

  lemma Powers()
    ensures Pow2(56) == 0x100_0000_0000_0000 && Pow2(63) == U64 / 2
  {
    hide Pow2;
    SmallPowers();
    Pow2Sum(28, 28);
    NextPower(56);
  }

  /** The octets of a value, least significant seven bits first, each but the last with its top bit set. */
  function Encode(v: nat): (s: seq<byte>)
    ensures s != []
  {
    if v < 128 then [v as byte] else [(128 + v % 128) as byte] + Encode(v / 128)
  }

  /** A value of at most 7k bits takes at most k octets. */
  lemma {:induction false} EncodeLength(v: nat, k: nat)
    requires v < Pow2(7 * k) && k >= 1
    ensures |Encode(v)| <= k
  {
    if v >= 128 {
      NextPower(7 * (k - 1));
      EncodeLength(v / 128, k - 1);
    }
  }

  /** Every 64-bit value takes at most ten octets. */
  lemma AtMostTen(v: nat)
    requires v < U64
    ensures |Encode(v)| <= 10
  {
    Powers();
    NextPower(63);
    EncodeLength(v, 10);
  }

  /** The octets while the encoder's loop runs: all have their top bit set. */
  function Continued(v: nat): seq<byte> {
    if v == 0 then [] else [(128 + v % 128) as byte] + Continued(v / 128)
  }

  function ClearLast(s: seq<byte>): seq<byte>
    requires s != []
  {
    s[|s| - 1 := (s[|s| - 1] as nat % 128) as byte]
  }

  lemma {:induction false} EncodeClearsLast(v: nat)
    requires v > 0
    ensures Continued(v) != [] && Encode(v) == ClearLast(Continued(v))
  {
    if v >= 128 {
      EncodeClearsLast(v / 128);
    } else {
      assert Continued(v / 128) == [];
    }
  }

  /** The loop of pb_encode_varint. */
  method EncodeLoop(v: nat) returns (s: seq<byte>)
    requires v < U64
    ensures s == Encode(v) && 1 <= |s| <= 10
  {
    AtMostTen(v);
    if v <= 0x7f {
      return [v as byte];
    }
    var value, buffer := v, [];
    while value != 0
      invariant buffer + Continued(value) == Continued(v)
      decreases value
    {
      buffer := buffer + [(128 + value % 128) as byte];
      value := value / 128;
    }
    EncodeClearsLast(v);
    return ClearLast(buffer);
  }

  /** Seven bits or-ed into a word of m values at a position; what does not fit is lost. */
  function Placed(result: nat, bits: nat, bitpos: nat, m: nat): nat
    requires m > 0
  {
    Or(result, bits * Pow2(bitpos) % m)
  }

  /** pb_decode_varint from bit position bitpos on, with result read so far. */
  function Decode64(s: seq<byte>, bitpos: nat, result: nat): (r: Option<(nat, seq<byte>)>)
    ensures r.Some? ==> |r.value.1| < |s|
    decreases |s|
  {
    if bitpos >= 64 || s == [] then None
    else
      var b := s[0] as nat;
      var next := Placed(result, b % 128, bitpos, U64);
      if b >= 128 then Decode64(s[1..], bitpos + 7, next) else Some((next, s[1..]))
  }

  /** The first octet of an encoding, and what follows it. */
  lemma FirstOctet(v: nat, rest: seq<byte>)
    ensures var s := Encode(v) + rest;
            && s[0] as nat == (if v < 128 then v else 128 + v % 128)
            && s[1..] == if v < 128 then rest else Encode(v / 128) + rest
  {
    if v < 128 {
      assert (Encode(v) + rest)[1..] == rest;
    } else {
      var tail := Encode(v / 128);
      assert Encode(v)[0] as nat == 128 + v % 128 && Encode(v)[1..] == tail;
      assert (Encode(v) + rest)[1..] == tail + rest;
    }
  }

  /** A value comes back, and exactly its octets are used up. */
  lemma {:induction false} RoundTrip64(v: nat, bitpos: nat, result: nat, rest: seq<byte>)
    requires bitpos <= 63 && result < Pow2(bitpos) && v * Pow2(bitpos) < U64
    requires v >= 1 || bitpos == 0
    ensures Decode64(Encode(v) + rest, bitpos, result) == Some((result + v * Pow2(bitpos), rest))
    decreases v
  {
    hide Pow2, Placed, Encode;
    var p := Pow2(bitpos);
    var next := result + v % 128 * p;
    PlacedAbove(v, bitpos, result);
    FirstOctet(v, rest);
    if v >= 128 {
      NotLast(v, bitpos);
      NextPower(bitpos);
      Split(v, p);
      Below(result, v % 128, p);
      RoundTrip64(v / 128, bitpos + 7, next, rest);
    }
  }

  lemma PlacedAbove(v: nat, bitpos: nat, result: nat)
    requires result < Pow2(bitpos) && v * Pow2(bitpos) < U64
    ensures Placed(result, v % 128, bitpos, U64) == result + v % 128 * Pow2(bitpos)
  {
    hide Pow2, Or;
    Product(v % 128, v, Pow2(bitpos));
    NoWrap(v % 128 * Pow2(bitpos), U64);
    OrAbove(result, v % 128, bitpos);
  }

  lemma NoWrap(x: nat, m: nat)
    requires x < m
    ensures x % m == x
  {
  }

  lemma NotLast(v: nat, bitpos: nat)
    requires v >= 128 && bitpos <= 63 && v * Pow2(bitpos) < U64
    ensures bitpos + 7 <= 63
  {
    if bitpos > 56 {
      Powers();
      Pow2Sum(57, bitpos - 57);
      Product(1, Pow2(bitpos - 57), Pow2(57));
      assert Pow2(57) == 2 * Pow2(56) && Pow2(bitpos) >= Pow2(57);
      Product(128, v, Pow2(bitpos));
    }
  }

  lemma NextPower(k: nat)
    ensures Pow2(k + 7) == 128 * Pow2(k)
  {
    assert Pow2(k + 7) == 2 * Pow2(k + 6) == 4 * Pow2(k + 5) == 8 * Pow2(k + 4);
    assert Pow2(k + 4) == 2 * Pow2(k + 3) == 4 * Pow2(k + 2) == 8 * Pow2(k + 1);
  }

  lemma Product(a: nat, b: nat, p: nat)
    requires a <= b
    ensures a * p <= b * p
  {
  }

  lemma Split(v: nat, p: nat)
    ensures v * p == v % 128 * p + v / 128 * (128 * p)
  {
    assert v == 128 * (v / 128) + v % 128;
    Regroup128(v / 128, p);
    Distribute(128 * (v / 128), v % 128, p);
  }

  lemma Regroup128(a: nat, p: nat)
    ensures (128 * a) * p == a * (128 * p)
  {
  }

  lemma Distribute(a: nat, b: nat, p: nat)
    ensures (a + b) * p == a * p + b * p
  {
  }

  lemma Below(result: nat, d: nat, p: nat)
    requires result < p && d < 128
    ensures result + d * p < 128 * p
  {
    Product(d + 1, 128, p);
    Distribute(d, 1, p);
  }

  /** pb_decode_varint32_eof: the first octet, then the loop over the others. */
  function Decode32(s: seq<byte>): (r: Option<(nat, seq<byte>)>)
    ensures r.Some? ==> |r.value.1| < |s|
  {
    if s == [] then None
    else if s[0] < 128 then Some((s[0] as nat, s[1..]))
    else More32(s[1..], 7, s[0] as nat % 128)
  }

  /** Beyond 32 bits an octet must carry nothing or continue a sign; what an octet at position 28
      carries above bit 31 is checked only if it is the last. The position is kept in eight bits. */
  function More32(s: seq<byte>, bitpos: nat, result: nat): (r: Option<(nat, seq<byte>)>)
    ensures r.Some? ==> |r.value.1| < |s|
    decreases |s|
  {
    if s == [] then None
    else
      var b := s[0] as nat;
      var sign := if bitpos < 63 then 0xff else 0x01;
      var after := (bitpos + 7) % 256;
      if bitpos >= 32 && b % 128 != 0 && (result / 0x8000_0000 == 0 || b != sign) then None
      else
        var next := if bitpos >= 32 then result else Placed(result, b % 128, bitpos, U32);
        if b >= 128 then More32(s[1..], after, next)
        else if after == 35 && b / 16 % 8 != 0 then None
        else Some((next, s[1..]))
  }

  predicate AllAlike(group: nat) {
    group == 0 || group == 127
  }

  /** The values above 32 bits that the 32-bit decoder lets through: bits 63 and 31 are set, and each
      of the four seven-bit groups from bit 35 on is all zeros or all ones. */
  predicate Lenient(v: nat) {
    && v >= U64 / 2 && v / 0x8000_0000 % 2 == 1
    && AllAlike(v / 0x8_0000_0000 % 128) && AllAlike(v / 0x400_0000_0000 % 128)
    && AllAlike(v / 0x2_0000_0000_0000 % 128) && AllAlike(v / 0x100_0000_0000_0000 % 128)
  }

  function Narrowed(v: nat): Option<nat> {
    if v < U32 then Some(v) else if Lenient(v) then Some(v % U32) else None
  }

  function Tagged(v: Option<nat>, rest: seq<byte>): Option<(nat, seq<byte>)> {
    if v == None then None else Some((v.value, rest))
  }

  /** What the groups from bit 35 on come to, after the value so far. */
  function SignTail(w: nat, groups: nat, result: nat): Option<nat> {
    var negative := result / 0x8000_0000 != 0;
    if groups == 0 then if negative then Some(result) else None
    else if w < 128 then None
    else if w % 128 != 0 && !(negative && w % 128 == 127) then None
    else SignTail(w / 128, groups - 1, result)
  }

  /** An octet from position 35 on adds nothing. */
  lemma TailOctet(w: nat, bitpos: nat, result: nat, rest: seq<byte>)
    requires bitpos in {35, 42, 49, 56, 63} && 1 <= w
    ensures var octet := if w < 128 then w else 128 + w % 128;
            More32(Encode(w) + rest, bitpos, result) ==
            if w % 128 != 0 && !(result / 0x8000_0000 != 0 && octet == if bitpos < 63 then 0xff else 0x01) then None
            else if w < 128 then Some((result, rest))
            else More32(Encode(w / 128) + rest, bitpos + 7, result)
  {
    hide Placed, Encode;
    FirstOctet(w, rest);
  }

  lemma {:induction false} Tail32(w: nat, groups: nat, result: nat, rest: seq<byte>)
    requires groups <= 4 && 1 <= w < 2 * Pow2(7 * groups)
    ensures More32(Encode(w) + rest, 63 - 7 * groups, result) == Tagged(SignTail(w, groups, result), rest)
    decreases groups
  {
    hide More32, Encode, Pow2;
    TailOctet(w, 63 - 7 * groups, result, rest);
    if groups == 0 {
      assert Pow2(0) == 1 by { LeastPower(); }
    } else if w >= 128 {
      NextPower(7 * (groups - 1));
      Tail32(w / 128, groups - 1, result, rest);
    }
  }

  lemma LeastPower()
    ensures Pow2(0) == 1
  {
  }

  lemma SmallIsKept(v: nat)
    requires v < U32
    ensures Narrowed(v) == Some(v)
  {
  }

  /** An octet below position 35 is shifted in. */
  lemma HeadOctet(w: nat, bitpos: nat, result: nat, rest: seq<byte>)
    requires bitpos in {7, 14, 21, 28} && 1 <= w
    ensures More32(Encode(w) + rest, bitpos, result) ==
            if w >= 128 then More32(Encode(w / 128) + rest, bitpos + 7, Placed(result, w % 128, bitpos, U32))
            else if bitpos == 28 && w / 16 != 0 then None
            else Some((Placed(result, w % 128, bitpos, U32), rest))
  {
    hide Placed, Encode;
    FirstOctet(w, rest);
  }

  /** The octets at positions 7, 14 and 21 are added like those of any varint. */
  lemma Octet32(w: nat, bitpos: nat, p: nat, result: nat, rest: seq<byte>) returns (next: nat, q: nat)
    requires bitpos in {7, 14, 21} && p == Pow2(bitpos) && result < p && 1 <= w
    ensures q == 128 * p == Pow2(bitpos + 7) && next == result + w % 128 * p && next < q <= 0x1000_0000
    ensures More32(Encode(w) + rest, bitpos, result)
         == if w < 128 then Some((next, rest)) else More32(Encode(w / 128) + rest, bitpos + 7, next)
  {
    hide Pow2, Placed, Encode, More32;
    next, q := AddOctet(w, bitpos, p, result);
    HeadOctet(w, bitpos, result, rest);
  }

  lemma AddOctet(w: nat, bitpos: nat, p: nat, result: nat) returns (next: nat, q: nat)
    requires bitpos in {7, 14, 21} && p == Pow2(bitpos) && result < p
    ensures q == 128 * p == Pow2(bitpos + 7) && next == result + w % 128 * p && next < q <= 0x1000_0000
    ensures Placed(result, w % 128, bitpos, U32) == next
  {
    hide Pow2, Or;
    SmallPowers();
    next, q := result + w % 128 * p, 128 * p;
    NextPower(bitpos);
    BelowU32(result, w % 128, p);
    OrAbove(result, w % 128, bitpos);
  }

  lemma BelowU32(result: nat, d: nat, p: nat)
    requires result < p <= 0x20_0000 && d < 128
    ensures result + d * p < 128 * p && d * p % U32 == d * p
  {
    Below(result, d, p);
    NoWrap(d * p, U32);
  }

  /** What is left of a value when one octet of it has been added. */
  lemma Carry(w: nat, p: nat, result: nat, v: nat, next: nat, q: nat)
    requires w * p < U64 && v == result + w * p && next == result + w % 128 * p && q == 128 * p
    ensures w / 128 * q < U64 && v == next + w / 128 * q
  {
    Split(w, p);
  }

  /** p is the power of the position, and v the value that result and the octets to come make up. */
  lemma {:induction false} Head32(w: nat, bitpos: nat, p: nat, result: nat, v: nat, rest: seq<byte>)
    requires bitpos in {7, 14, 21, 28} && p == Pow2(bitpos) && result < p
    requires 1 <= w && w * p < U64 && v == result + w * p
    ensures More32(Encode(w) + rest, bitpos, result) == Tagged(Narrowed(v), rest)
    decreases w
  {
    hide Pow2, Narrowed, More32, Encode;
    if bitpos == 28 {
      SmallPowers();
      Octet28(w, result, v, rest);
    } else {
      var next, q := Octet32(w, bitpos, p, result, rest);
      Carry(w, p, result, v, next, q);
      if w < 128 {
        SmallIsKept(v);
      } else {
        Head32(w / 128, bitpos + 7, q, next, v, rest);
      }
    }
  }

  /** The octet at position 28 is added in part. */
  lemma Octet28(w: nat, result: nat, v: nat, rest: seq<byte>)
    requires result < 0x1000_0000 && 1 <= w && v == result + w * 0x1000_0000 < U64
    ensures More32(Encode(w) + rest, 28, result) == Tagged(Narrowed(v), rest)
  {
    hide Placed, Narrowed, Encode, More32;
    HeadOctet(w, 28, result, rest);
    AddPartOfOctet(w, result);
    if w < 128 {
      NarrowedTo35(w, result);
    } else {
      Tail32Of(w, result, rest);
    }
  }

  lemma AddPartOfOctet(w: nat, result: nat)
    requires result < 0x1000_0000
    ensures Placed(result, w % 128, 28, U32) == result + w % 16 * 0x1000_0000
  {
    hide Pow2, Or;
    assert Pow2(28) == 0x1000_0000 by { SmallPowers(); }
    ShiftedOut(w % 128);
    LowFour(w);
    OrAbove(result, w % 16, 28);
  }

  lemma LowFour(w: nat)
    ensures w % 128 % 16 == w % 16
  {
  }

  /** Of seven bits shifted by 28, the upper three leave a 32-bit word. */
  lemma ShiftedOut(d: nat)
    requires d < 128
    ensures d * 0x1000_0000 % U32 == d % 16 * 0x1000_0000
  {
    var high, low := d / 16, d % 16 * 0x1000_0000;
    assert d * 0x1000_0000 == high * U32 + low && low < U32;
  }

  lemma NarrowedTo35(w: nat, result: nat)
    requires result < 0x1000_0000 && w < 128
    ensures Narrowed(result + w * 0x1000_0000) == if w / 16 != 0 then None else Some(result + w % 16 * 0x1000_0000)
  {
    hide Lenient;
    TooSmallToBeLenient(result + w * 0x1000_0000);
  }

  lemma TooSmallToBeLenient(v: nat)
    requires v < U64 / 2
    ensures !Lenient(v)
  {
  }

  lemma SmallPowers()
    ensures Pow2(7) == 128 && Pow2(14) == 0x4000 && Pow2(21) == 0x20_0000 && Pow2(28) == 0x1000_0000
  {
    NextPower(0);
    NextPower(7);
    NextPower(14);
    NextPower(21);
  }

  /** The last five octets of a value of more than 35 bits. */
  lemma Tail32Of(w: nat, result: nat, rest: seq<byte>)
    requires result < 0x1000_0000 && 128 <= w && w * 0x1000_0000 < U64
    ensures More32(Encode(w / 128) + rest, 35, result + w % 16 * 0x1000_0000)
         == Tagged(Narrowed(result + w * 0x1000_0000), rest)
  {
    hide More32, Encode, Narrowed, SignTail, Pow2;
    var v := result + w * 0x1000_0000;
    assert v % U32 == result + w % 16 * 0x1000_0000;
    assert v / 0x8_0000_0000 == w / 128;
    SmallPowers();
    Tail32(w / 128, 4, v % U32, rest);
    TailIsLenient(v);
  }

  lemma TailIsLenient(v: nat)
    requires 0x8_0000_0000 <= v < U64
    ensures SignTail(v / 0x8_0000_0000, 4, v % U32) == Narrowed(v)
  {
    var w, low := v / 0x8_0000_0000, v % U32;
    var negative := low / 0x8000_0000 != 0;
    assert negative <==> v / 0x8000_0000 % 2 == 1;
    GroupsOf(v);
    SignTailUnrolled(w, low);
  }

  lemma GroupsOf(v: nat)
    ensures var w := v / 0x8_0000_0000;
            && w / 128 == v / 0x400_0000_0000 && w / 128 / 128 == v / 0x2_0000_0000_0000
            && w / 128 / 128 / 128 == v / 0x100_0000_0000_0000
            && w / 128 / 128 / 128 / 128 == v / 0x8000_0000_0000_0000
  {
  }

  lemma SignTailUnrolled(w: nat, low: nat)
    requires w < 0x2000_0000
    ensures var negative := low / 0x8000_0000 != 0;
            SignTail(w, 4, low) ==
            if && w >= 0x1000_0000 && negative && AllAlike(w % 128) && AllAlike(w / 128 % 128)
               && AllAlike(w / 128 / 128 % 128) && AllAlike(w / 128 / 128 / 128 % 128)
            then Some(low) else None
  {
    var w1, w2, w3 := w / 128, w / 128 / 128, w / 128 / 128 / 128;
    assert SignTail(w3 / 128, 0, low) == if low / 0x8000_0000 != 0 then Some(low) else None;
    assert SignTail(w3, 1, low) ==
           if low / 0x8000_0000 != 0 && w3 >= 128 && AllAlike(w3 % 128) then Some(low) else None;
    assert SignTail(w2, 2, low) ==
           if w2 < 128 || (w2 % 128 != 0 && !(low / 0x8000_0000 != 0 && w2 % 128 == 127)) then None
             else SignTail(w3, 1, low);
    assert SignTail(w1, 3, low) ==
           if w1 < 128 || (w1 % 128 != 0 && !(low / 0x8000_0000 != 0 && w1 % 128 == 127)) then None
             else SignTail(w2, 2, low);
  }

  /** What the 32-bit decoder makes of each 64-bit value's own encoding: exact below 2^32, its low 32
      bits for the lenient ones, an error for all others. */
  lemma Exact32(v: nat, rest: seq<byte>)
    requires v < U64
    ensures Decode32(Encode(v) + rest) == Tagged(Narrowed(v), rest)
  {
    hide More32, Narrowed, Pow2, Encode;
    FirstOctet(v, rest);
    if v < 128 {
      SmallIsKept(v);
    } else {
      SmallPowers();
      Head32(v / 128, 7, 128, v % 128, v, rest);
    }
  }

  /** A negative 32-bit number, extended to 64 bits for the wire, comes back as its low 32 bits. */
  lemma SignExtended(m: nat, rest: seq<byte>)
    requires 1 <= m <= 0x8000_0000
    ensures Decode32(Encode(U64 - m) + rest) == Some((U32 - m, rest))
  {
    hide Decode32, Encode, Lenient;
    Exact32(U64 - m, rest);
    NegativeIsLenient(U64 - m);
  }

  lemma NegativeIsLenient(v: nat)
    requires U64 - 0x8000_0000 <= v < U64
    ensures Lenient(v) && v % U32 == v - (U64 - U32)
  {
    assert v / 0x8_0000_0000 == 0x1fff_ffff;
    GroupsOf(v);
    assert v / 0x8000_0000 == 0x1_ffff_ffff;
  }
}
