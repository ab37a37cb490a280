/** Choosing the RSA premaster secret without a branch on secret data: RFC 3447 section 7.2.2 and
    RFC 5246 section 7.4.7.1. */
module Premaster {
  import opened Options

  const PREMASTER_LENGTH: nat := 48

  // Masks: all ones for true, all zeros for false.

  function MsbW(a: bv64): bv64 {
    0 - (a >> 63)
  }

  function IsZeroW(a: bv64): bv64 {
    MsbW(!a & (a - 1))
  }

  function Low(a: bv64): bv8 {
    (a & 0xff) as bv8
  }

  function IsZero8(a: bv64): bv8 {
    Low(IsZeroW(a))
  }

  function Eq8(a: bv64, b: bv64): bv8 {
    Low(IsZeroW(a ^ b))
  }

  function SelectW(mask: bv64, a: bv64, b: bv64): bv64 {
    (mask & a) | (!mask & b)
  }

  function Select8(mask: bv8, a: bv8, b: bv8): bv8 {
    Low(SelectW(mask as bv64, a as bv64, b as bv64))
  }

  function Mask(b: bool): bv8 {
    if b then 0xff else 0
  }

  lemma MsbCopies(a: bv64)
    ensures MsbW(a) == if a >= 0x8000_0000_0000_0000 then 0xffff_ffff_ffff_ffff else 0
  {
  }

  lemma OnlyZeroBorrows(a: bv64)
    ensures !a & (a - 1) >= 0x8000_0000_0000_0000 <==> a == 0
  {
  }

  lemma IsZeroMask(a: bv64)
    ensures IsZero8(a) == Mask(a == 0)
  {
    hide MsbW;
    OnlyZeroBorrows(a);
    MsbCopies(!a & (a - 1));
  }

  lemma EqMask(a: bv64, b: bv64)
    ensures Eq8(a, b) == Mask(a == b)
  {
    hide IsZeroW;
    IsZeroMask(a ^ b);
    assert a ^ b == 0 <==> a == b;
  }

  lemma SelectMask(c: bool, a: bv8, b: bv8)
    ensures Select8(Mask(c), a, b) == if c then a else b
  {
  }

  lemma Widen(a: bv8)
    ensures a as bv64 == 0 <==> a == 0
    ensures a as bv64 == 2 <==> a == 2
  {
  }

  lemma WidenBoth(a: bv8, b: bv8)
    ensures a as bv64 == b as bv64 <==> a == b
  {
  }

  lemma AndMask(c: bool, d: bool)
    ensures Mask(c) & Mask(d) == Mask(c && d)
    ensures Mask(c) & !Mask(d) == Mask(c && !d)
  {
  }

  /** The decrypted block is properly padded and begins with the version the client offered. */
  predicate Proper(block: seq<bv8>, major: bv8, minor: bv8)
    requires |block| >= 11 + PREMASTER_LENGTH
  {
    var pad := |block| - PREMASTER_LENGTH;
    && block[0] == 0 && block[1] == 2
    && (forall i | 2 <= i < pad - 1 :: block[i] != 0) && block[pad - 1] == 0
    && block[pad] == major && block[pad + 1] == minor
  }

  /** The end of an RSA ClientKeyExchange: a short block is refused openly; for any other the secret is
      its last 48 octets or the random ones. */
  method SelectPremaster(block: seq<bv8>, major: bv8, minor: bv8, random: seq<bv8>) returns (secret: Option<seq<bv8>>)
    requires |random| == PREMASTER_LENGTH
    ensures secret == if |block| < 11 + PREMASTER_LENGTH then None
                      else Some(if Proper(block, major, minor) then block[|block| - PREMASTER_LENGTH..] else random)
  {
    if |block| < 11 + PREMASTER_LENGTH {
      return None;
    }
    var pad := |block| - PREMASTER_LENGTH;
    var good := CheckBlock(block, major, minor);
    var chosen := Choose(good, Proper(block, major, minor), block[pad..], random);
    return Some(chosen);
  }

  /** The mask of a proper block, collected over the whole padding. */
  method CheckBlock(block: seq<bv8>, major: bv8, minor: bv8) returns (good: bv8)
    requires |block| >= 11 + PREMASTER_LENGTH
    ensures good == Mask(Proper(block, major, minor))
  {
    hide IsZero8, Eq8, Mask;
    var pad := |block| - PREMASTER_LENGTH;
    good := Eq8(block[0] as bv64, 0) & Eq8(block[1] as bv64, 2);
    EqMask(block[0] as bv64, 0);
    EqMask(block[1] as bv64, 2);
    Widen(block[0]);
    Widen(block[1]);
    AndMask(block[0] == 0, block[1] == 2);
    ghost var fine := block[0] == 0 && block[1] == 2;
    for i := 2 to pad - 1
      invariant good == Mask(fine)
      invariant fine <==> block[0] == 0 && block[1] == 2 && forall k | 2 <= k < i :: block[k] != 0
    {
      good := good & !IsZero8(block[i] as bv64);
      IsZeroMask(block[i] as bv64);
      Widen(block[i]);
      AndMask(fine, block[i] == 0);
      fine := fine && block[i] != 0;
    }
    good, fine := AndZero(good, fine, block[pad - 1]);
    good, fine := AndEqual(good, fine, block[pad], major);
    good, fine := AndEqual(good, fine, block[pad + 1], minor);
  }

  /** Octet by octet, without a branch. */
  method Choose(good: bv8, ghost fine: bool, a: seq<bv8>, b: seq<bv8>) returns (s: seq<bv8>)
    requires good == Mask(fine) && |a| == |b|
    ensures s == if fine then a else b
  {
    hide Select8, Mask;
    s := b;
    for i := 0 to |b|
      invariant |s| == |b|
      invariant forall k | 0 <= k < |b| :: s[k] == if k < i && fine then a[k] else b[k]
    {
      SelectMask(fine, a[i], s[i]);
      s := s[i := Select8(good, a[i], s[i])];
    }
  }

  method AndZero(good: bv8, ghost fine: bool, a: bv8) returns (r: bv8, ghost f: bool)
    requires good == Mask(fine)
    ensures r == Mask(f) && (f <==> fine && a == 0)
  {
    hide IsZero8, Mask;
    r, f := good & IsZero8(a as bv64), fine && a == 0;
    IsZeroMask(a as bv64);
    Widen(a);
    AndMask(fine, a == 0);
  }

  method AndEqual(good: bv8, ghost fine: bool, a: bv8, b: bv8) returns (r: bv8, ghost f: bool)
    requires good == Mask(fine)
    ensures r == Mask(f) && (f <==> fine && a == b)
  {
    hide Eq8, Mask;
    r, f := good & Eq8(a as bv64, b as bv64), fine && a == b;
    EqMask(a as bv64, b as bv64);
    WidenBoth(a, b);
    AndMask(fine, a == b);
  }
}
