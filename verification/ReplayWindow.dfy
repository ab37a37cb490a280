/** The sliding window of 64 record numbers that DTLS uses to drop replays: RFC 6347, section 4.1.2.6.
    Record numbers are 64-bit words, the epoch in the upper 16 bits. */
module ReplayWindow {
  const WINDOW: nat := 64

  // Shift amounts: indices below 64 as machine words.

  function Word(k: nat): bv7
  {
    if k == 0 then 0 else Word(k - 1) + 1
  }

  lemma {:induction false} WordSum(a: nat, b: nat)
    ensures Word(a + b) == Word(a) + Word(b)
  {
    if b > 0 {
      WordSum(a, b - 1);
    }
  }

  /** Doubling a range in which words do not overflow. */
  lemma Double(n: nat, w: bv7, k: nat)
    requires Word(n) == w && w <= 32 && k < 2 * n
    requires k < n ==> Word(k) < w
    requires k >= n ==> Word(k - n) < w
    ensures Word(n + n) == w + w && Word(k) < w + w
  {
    WordSum(n, n);
    if k >= n {
      WordSum(n, k - n);
    }
  }

  lemma {:induction false} Bounded(k: nat, n: nat, w: bv7)
    requires k < n && (n, w) in {(1, 1), (2, 2), (4, 4), (8, 8), (16, 16), (32, 32), (64, 64)}
    ensures Word(n) == w && Word(k) < w
    decreases n
  {
    if n > 1 {
      var half, v := n / 2, w / 2;
      if k < half {
        Bounded(k, half, v);
      } else {
        Bounded(k - half, half, v);
      }
      Double(half, v, k);
    }
  }

  function Amount(k: nat): (w: bv7)
    requires k < WINDOW
    ensures w < 64
  {
    Bounded(k, 64, 64);
    Word(k)
  }

  lemma Order(a: nat, b: nat)
    requires a <= b < WINDOW
    ensures Amount(a) <= Amount(b) && Amount(b - a) == Amount(b) - Amount(a)
    ensures a < b ==> Amount(a) < Amount(b)
  {
    Bounded(a, 64, 64);
    Bounded(b, 64, 64);
    Bounded(b - a, 64, 64);
    WordSum(a, b - a);
    if a < b {
      Bounded(b - a - 1, 64, 64);
    }
  }

  // Bits of the 64-bit map, each read by shifting it to the top of the word.

  function Top(m: bv64, t: bv7): bv64
    requires t < 64
  {
    (m << t) & 0x8000_0000_0000_0000
  }

  function TopAt(m: bv64, k: bv7): bv64
    requires k < 64
  {
    Top(m, 63 - k)
  }

  function WordShift(m: bv64, s: bv7): bv64
    requires s < 64
  {
    m << s
  }

  function WordJoin(m: bv64, j: bv7): bv64
    requires j < 64
  {
    m | (1 << j)
  }

  predicate Bit(m: bv64, k: nat)
    requires k < WINDOW
  {
    TopAt(m, Amount(k)) != 0
  }

  lemma ShiftsAdd(m: bv64, s: bv7, t: bv7)
    requires s < 64 && t < 64 && s + t < 64
    ensures (m << s) << t == m << (s + t)
  {
  }

  lemma TopOfShifted(m: bv64, s: bv7, k: bv7)
    requires s < 64 && k < 64
    ensures Top(m << s, 63 - k) == if k >= s then Top(m, 63 - (k - s)) else 0
  {
    if k >= s {
      ShiftsAdd(m, s, 63 - k);
    }
  }

  lemma WordShiftBits(m: bv64, s: bv7, k: bv7)
    requires s < 64 && k < 64
    ensures TopAt(WordShift(m, s), k) == if k >= s then TopAt(m, k - s) else 0
  {
    hide Top;
    TopOfShifted(m, s, k);
  }

  lemma TopOfJoined(m: bv64, j: bv7, t: bv7)
    requires t < 64 && j < 64
    ensures Top(m | (1 << j), t) == if t == 63 - j then 0x8000_0000_0000_0000 else Top(m, t)
  {
  }

  lemma WordJoinBits(m: bv64, j: bv7, k: bv7)
    requires j < 64 && k < 64
    ensures TopAt(WordJoin(m, j), k) == if k == j then 0x8000_0000_0000_0000 else TopAt(m, k)
  {
    hide Top;
    TopOfJoined(m, j, 63 - k);
  }

  lemma TopTested(m: bv64, k: bv7)
    requires k < 64
    ensures Top(m, 63 - k) != 0 ==> m & (1 << k) != 0
  {
  }

  lemma TopTestedClear(m: bv64, k: bv7)
    requires k < 64
    ensures Top(m, 63 - k) == 0 ==> m & (1 << k) == 0
  {
  }

  // The three operations the window makes on its map.

  function Shifted(m: bv64, n: nat): bv64
    requires n < WINDOW
  {
    WordShift(m, Amount(n))
  }

  function Joined(m: bv64, j: nat): bv64
    requires j < WINDOW
  {
    WordJoin(m, Amount(j))
  }

  predicate Tested(m: bv64, k: nat)
    requires k < WINDOW
  {
    m & (1 << Amount(k)) != 0
  }

  /** Shifting the map up moves every bit up and brings in zeros. */
  lemma ShiftBits(m: bv64, shift: nat, k: nat)
    requires shift < WINDOW && k < WINDOW
    ensures Bit(Shifted(m, shift), k) <==> k >= shift && Bit(m, k - shift)
  {
    hide Amount, TopAt, WordShift;
    if k >= shift {
      Order(shift, k);
    } else {
      Order(k, shift);
    }
    WordShiftBits(m, Amount(shift), Amount(k));
  }

  /** Or-ing in one bit sets that bit and no other. */
  lemma SetBits(m: bv64, j: nat, k: nat)
    requires j < WINDOW && k < WINDOW
    ensures Bit(Joined(m, j), k) <==> k == j || Bit(m, k)
  {
    hide Amount, TopAt, WordJoin;
    if j <= k {
      Order(j, k);
    } else {
      Order(k, j);
    }
    WordJoinBits(m, Amount(j), Amount(k));
  }

  lemma TestBits(m: bv64, k: nat)
    requires k < WINDOW
    ensures Tested(m, k) <==> Bit(m, k)
  {
    hide Amount, Top;
    TopTested(m, Amount(k));
    TopTestedClear(m, Amount(k));
  }

  lemma NoBits(k: nat)
    requires k < WINDOW
    ensures !Bit(0, k)
  {
    hide Amount;
  }

  /** A number is stale when it is 64 or more below the largest number accepted so far. */
  predicate Stale(n: nat, max: nat) {
    n + WINDOW <= max
  }

  class Bitmap {
    var map64: bv64
    var max: nat
    ghost var accepted: set<nat>   // every number recorded since the last reset

    /** Bit k stands for the number max - k: it is set exactly when that number was accepted. */
    ghost predicate Valid()
      reads this
    {
      && (forall n | n in accepted :: n <= max)
      && (forall k: nat | k < WINDOW && k <= max :: Bit(map64, k) <==> max - k in accepted)
      && (max != 0 ==> max in accepted)
    }

    constructor ()
      ensures Valid() && accepted == {} && max == 0
    {
      map64, max, accepted := 0, 0, {};
      new;
      NoBits(0);
    }

    /** Zeroes every field: done when the read epoch changes. */
    method Reset()
      modifies this
      ensures Valid() && accepted == {} && max == 0
    {
      map64, max, accepted := 0, 0, {};
      NoBits(0);
    }

    /** dtls1_bitmap_should_discard. */
    method ShouldDiscard(n: nat) returns (discard: bool)
      requires Valid()
      ensures discard <==> n in accepted || n + 64 <= max
    {
      hide Bit, Shifted, Joined, Tested;
      if n > max {
        return false;
      }
      var idx := max - n;
      if idx >= WINDOW {
        return true;
      }
      TestBits(map64, idx);
      assert max - idx == n;
      return Tested(map64, idx);
    }

    /** dtls1_bitmap_record. */
    method Record(n: nat)
      requires Valid() && !Stale(n, max)
      modifies this
      ensures Valid() && accepted == old(accepted) + {n}
      ensures max == if n > old(max) then n else old(max)
    {
      hide Bit, Shifted, Joined, Tested;
      if n > max {
        Slide(n);
      }
      var idx := max - n;
      ghost var slid := map64;
      if idx < WINDOW {
        map64 := Joined(map64, idx);
      }
      accepted := accepted + {n};
      forall k: nat | k < WINDOW && k <= max ensures Bit(map64, k) <==> max - k in accepted {
        SetBits(slid, idx, k);
      }
    }

    /** Moves the window forward so that it ends at n. */
    method Slide(n: nat)
      requires Valid() && n > max
      modifies this`map64, this`max
      ensures max == n
      ensures forall k: nat | k < WINDOW && k <= max :: Bit(map64, k) <==> max - k in accepted
    {
      hide Bit, Shifted, Joined, Tested;
      ghost var was := map64;
      var shift := n - max;
      if shift >= WINDOW {
        map64 := 0;
      } else {
        map64 := Shifted(map64, shift);
      }
      max := n;
      forall k: nat | k < WINDOW && k <= max ensures Bit(map64, k) <==> max - k in accepted {
        if shift < WINDOW {
          ShiftBits(was, shift, k);
        } else {
          NoBits(k);
        }
        assert k >= shift ==> max - k == old(max) - (k - shift);
      }
    }
  }
}
