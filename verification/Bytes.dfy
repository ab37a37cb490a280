/** Octets and the big-endian integers that the TLS and DTLS wire formats are built from. */
module Bytes {
  newtype byte = x: int | 0 <= x < 256

  /** 256 to the power k: the number of values k octets can hold. */
  function Pow256(k: nat): (p: nat)
    ensures p >= 1
  {
    if k == 0 then 1 else 256 * Pow256(k - 1)
  }

  /** The k octets of n, most significant first. */
  function BigEndian(n: nat, k: nat): (s: seq<byte>)
    ensures |s| == k
  {
    if k == 0 then [] else BigEndian(n / 256, k - 1) + [(n % 256) as byte]
  }

  /** The number whose big-endian octets are s. */
  function Value(s: seq<byte>): nat {
    if s == [] then 0 else 256 * Value(s[..|s| - 1]) + s[|s| - 1] as nat
  }

  lemma {:induction false} ValueOfBigEndian(n: nat, k: nat)
    requires n < Pow256(k)
    ensures Value(BigEndian(n, k)) == n
  {
    if k > 0 {
      var s := BigEndian(n, k);
      assert s[..|s| - 1] == BigEndian(n / 256, k - 1);
      assert n / 256 < Pow256(k - 1);
      ValueOfBigEndian(n / 256, k - 1);
    }
  }

  lemma {:induction false} BigEndianOfValue(s: seq<byte>)
    ensures Value(s) < Pow256(|s|)
    ensures BigEndian(Value(s), |s|) == s
  {
    if s != [] {
      var init := s[..|s| - 1];
      BigEndianOfValue(init);
      assert s == init + [s[|s| - 1]];
    }
  }

  /** Leading octets count for the powers of 256 above those of the octets that follow. */
  lemma {:induction false} ValueOfConcat(s: seq<byte>, t: seq<byte>)
    ensures Value(s + t) == Value(s) * Pow256(|t|) + Value(t)
  {
    if t == [] {
      assert s + t == s;
    } else {
      var init := t[..|t| - 1];
      assert (s + t)[..|s + t| - 1] == s + init && (s + t)[|s + t| - 1] == t[|t| - 1];
      ValueOfConcat(s, init);
      Regroup(Value(s), Pow256(|t| - 1));
    }
  }

  /** The most significant octet comes first. */
  lemma TwoOctets(n: nat)
    requires n < 0x1_0000
    ensures var s := BigEndian(n, 2); 256 * s[0] as nat + s[1] as nat == n
  {
    assert BigEndian(n / 256, 1) == BigEndian(n / 256 / 256, 0) + [(n / 256 % 256) as byte];
  }

  lemma ThreeOctets(n: nat)
    requires n < 0x100_0000
    ensures var s := BigEndian(n, 3); 0x1_0000 * s[0] as nat + 256 * s[1] as nat + s[2] as nat == n
  {
    TwoOctets(n / 256);
  }

  lemma TwoDigits(s: seq<byte>)
    requires |s| == 2
    ensures Value(s) == 256 * s[0] as nat + s[1] as nat
  {
    assert s[..1][..0] == [] && Value(s[..1]) == s[0] as nat;
  }

  lemma ThreeDigits(s: seq<byte>)
    requires |s| == 3
    ensures Value(s) == 0x1_0000 * s[0] as nat + 256 * s[1] as nat + s[2] as nat
  {
    TwoDigits(s[..2]);
  }

  lemma Regroup(a: nat, b: nat)
    ensures 256 * (a * b) == a * (256 * b)
  {
  }

  lemma PowersUsed()
    ensures Pow256(1) == 0x100 && Pow256(2) == 0x1_0000 && Pow256(3) == 0x100_0000
    ensures Pow256(6) == 0x1_0000_0000_0000
  {
    assert Pow256(4) == 256 * Pow256(3);
    assert Pow256(6) == 256 * Pow256(5);
  }

  // Parts of arrays.

  lemma SliceIs(a: array<byte>, i: nat, s: seq<byte>)
    requires i + |s| <= a.Length && forall k | i <= k < i + |s| :: a[k] == s[k - i]
    ensures a[i..i + |s|] == s
  {
  }

  lemma Concatenated(a: array<byte>, i: nat, j: nat, k: nat)
    requires i <= j <= k <= a.Length
    ensures a[i..j] + a[j..k] == a[i..k]
  {
  }

  /** memcpy. */
  method CopyInto(a: array<byte>, at: nat, data: seq<byte>)
    requires at + |data| <= a.Length
    modifies a
    ensures a[at..at + |data|] == data
    ensures forall k | 0 <= k < a.Length && !(at <= k < at + |data|) :: a[k] == old(a[k])
  {
    for i := 0 to |data|
      invariant forall k | 0 <= k < a.Length && !(at <= k < at + i) :: a[k] == old(a[k])
      invariant forall k | at <= k < at + i :: a[k] == data[k - at]
    {
      a[at + i] := data[i];
    }
    SliceIs(a, at, data);
  }
}
