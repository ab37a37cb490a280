/** The wrapping field iterator and the bitmap of required fields seen. */
module ProtoIterator {
  import opened Options
  import opened Varints
  import opened ProtoMessage
  import opened ProtoWire

  const SIZE_MAX: nat := 0xffff_ffff

  // What a fresh pass from the first field computes.

  function FieldSpan(f: Field): nat {
    match f.htype
    case Repeated(max) => f.dataSize * max
    case _ => f.dataSize
  }

  /** A later member of a union lies where the member before it does. */
  predicate SharesPrevious(fields: seq<Field>, i: nat)
    requires i < |fields|
  {
    i > 0 && fields[i - 1].htype.Oneof? && fields[i].htype.Oneof? && fields[i].dataOffset == SIZE_MAX
  }

  function DataAt(fields: seq<Field>, i: nat): nat
    requires i < |fields|
  {
    if i == 0 then fields[0].dataOffset
    else if SharesPrevious(fields, i) then DataAt(fields, i - 1)
    else DataAt(fields, i - 1) + FieldSpan(fields[i - 1]) + fields[i].dataOffset
  }

  function SizeAt(fields: seq<Field>, i: nat): int
    requires i < |fields|
  {
    if SharesPrevious(fields, i) then SizeAt(fields, i - 1) else DataAt(fields, i) + fields[i].sizeOffset
  }

  /** From one field to the next. */
  lemma Advanced(fields: seq<Field>, i: nat)
    requires i + 1 < |fields|
    ensures DataAt(fields, i + 1) ==
            if SharesPrevious(fields, i + 1) then DataAt(fields, i)
            else DataAt(fields, i) + FieldSpan(fields[i]) + fields[i + 1].dataOffset
    ensures SizeAt(fields, i + 1) ==
            if SharesPrevious(fields, i + 1) then SizeAt(fields, i)
            else DataAt(fields, i + 1) + fields[i + 1].sizeOffset
    ensures RequiredBefore(fields, i + 1) == RequiredBefore(fields, i) + if fields[i].htype == Required then 1 else 0
  {
    hide FieldSpan;
  }

  predicate Match(f: Field, tag: nat) {
    f.tag == tag && !f.ltype.Extension?
  }

  /** A find that starts at any field succeeds exactly when the first-to-last search does. */
  lemma {:induction false} FindExact(fields: seq<Field>, tag: nat, from: nat)
    requires from <= |fields|
    ensures Find(fields, tag, from).Some? <==> exists i | from <= i < |fields| :: Match(fields[i], tag)
    decreases |fields| - from
  {
    if from < |fields| {
      FindExact(fields, tag, from + 1);
      if Match(fields[from], tag) {
      } else if i :| from <= i < |fields| && Match(fields[i], tag) {
        assert from + 1 <= i;
      }
    }
  }

  class FieldIter {
    const fields: seq<Field>
    var pos: nat
    var data: nat           // offset of the field's data in the struct
    var size: int           // offset of its count, flag or selector
    var requiredIndex: nat

    /** However it got there, the iterator is where a fresh pass to the same field would be. */
    ghost predicate Valid()
      reads this
    {
      if fields == [] then pos == 0 && requiredIndex == 0
      else
        && pos < |fields| && data == DataAt(fields, pos) && size == SizeAt(fields, pos)
        && requiredIndex == RequiredBefore(fields, pos)
    }

    /** Whether the field at hand is an array without a counter: pSize == pData. */
    predicate IsFixedCount()
      requires Valid() && fields != []
      reads this
      ensures IsFixedCount() == FixedCount(fields[pos])
    {
      fields[pos].htype.Repeated? && size == data
    }

    constructor (fields: seq<Field>)
      ensures Valid() && this.fields == fields && pos == 0
    {
      this.fields := fields;
      pos, requiredIndex := 0, 0;
      data := if fields == [] then 0 else fields[0].dataOffset;
      size := if fields == [] then 0 else fields[0].dataOffset + fields[0].sizeOffset;
    }

    method Begin() returns (nonempty: bool)
      modifies this
      ensures Valid() && pos == 0 && nonempty == (fields != [])
    {
      pos, requiredIndex := 0, 0;
      if fields == [] {
        return false;
      }
      data := fields[0].dataOffset;
      size := data + fields[0].sizeOffset;
      return true;
    }

    /** pb_field_iter_next: false when it wraps around. */
    method Next() returns (more: bool)
      requires Valid()
      modifies this
      ensures Valid() && more == (old(pos) + 1 < |fields|)
      ensures pos == if more then old(pos) + 1 else 0
    {
      if fields == [] {
        return false;
      }
      hide DataAt, SizeAt, RequiredBefore;
      var prev := fields[pos];
      if pos + 1 == |fields| {
        var _ := Begin();
        return false;
      }
      Advanced(fields, pos);
      pos := pos + 1;
      if prev.htype.Oneof? && fields[pos].htype.Oneof? && fields[pos].dataOffset == SIZE_MAX {
        return true;
      }
      var span := prev.dataSize;
      if prev.htype.Repeated? {
        span := span * prev.htype.max;
      }
      if prev.htype == Required {
        requiredIndex := requiredIndex + 1;
      }
      data := data + span + fields[pos].dataOffset;
      size := data + fields[pos].sizeOffset;
      return true;
    }

    /** pb_field_iter_find: goes once around from where it stands. An empty message finds its own
        terminator under tag zero. */
    method Find(tag: nat) returns (found: bool)
      requires Valid()
      modifies this
      ensures Valid()
      ensures found <==> (fields == [] && tag == 0) || exists i | 0 <= i < |fields| :: Match(fields[i], tag)
      ensures found && fields != [] ==> Match(fields[pos], tag)
      ensures !found ==> pos == old(pos)
    {
      var start, first := pos, true;
      ghost var steps: nat := 0;
      ghost var n := |fields|;
      while first || pos != start
        invariant Valid() && steps <= n && (fields != [] ==> (first <==> steps == 0))
        invariant fields == [] ==> pos == start && (!first ==> tag != 0)
        invariant fields != [] ==> pos == if start + steps < n then start + steps else start + steps - n
        invariant forall i | 0 <= i < n && (start <= i < start + steps || i + n < start + steps) ::
                  !Match(fields[i], tag)
        decreases if first then 1 else 0, n - steps
      {
        first := false;
        if (fields == [] && tag == 0) || (fields != [] && fields[pos].tag == tag && !fields[pos].ltype.Extension?) {
          return true;
        }
        var _ := Next();
        steps := if fields == [] then 0 else steps + 1;
      }
      return false;
    }
  }

  // The bitmap: two 32-bit words, one bit for each of the first 64 required fields.

  predicate Bit(w: nat, k: nat) {
    if k == 0 then w % 2 == 1 else Bit(w / 2, k - 1)
  }

  lemma {:induction false} BitOfOr(w: nat, j: nat, k: nat)
    ensures Bit(Or(w, Pow2(j)), k) <==> k == j || Bit(w, k)
    decreases k + j
  {
    var p := Pow2(j);
    assert Or(w, p) == (if w % 2 == 1 || p % 2 == 1 then 1 else 0) + 2 * Or(w / 2, p / 2);
    if j == 0 {
      OrZeroRight(w / 2);
    } else if k > 0 {
      BitOfOr(w / 2, j - 1, k - 1);
    }
  }

  lemma {:induction false} OrZeroRight(w: nat)
    ensures Or(w, 0) == w
  {
    if w > 0 {
      OrZeroRight(w / 2);
    }
  }

  lemma {:induction false} OrStaysBelow(a: nat, b: nat, k: nat)
    requires a < Pow2(k) && b < Pow2(k)
    ensures Or(a, b) < Pow2(k)
  {
    if k > 0 && (a > 0 || b > 0) {
      OrStaysBelow(a / 2, b / 2, k - 1);
    }
  }

  lemma {:induction false} BitsOfOnes(c: nat, k: nat)
    ensures Bit(Pow2(c) - 1, k) <==> k < c
  {
    if c == 0 {
      ZeroHasNoBits(k);
    } else if k > 0 {
      BitsOfOnes(c - 1, k - 1);
    }
  }

  lemma {:induction false} SameBits(a: nat, b: nat)
    requires forall k: nat :: Bit(a, k) <==> Bit(b, k)
    ensures a == b
  {
    if a > 0 || b > 0 {
      assert Bit(a, 0) <==> Bit(b, 0);
      forall k: nat ensures Bit(a / 2, k) <==> Bit(b / 2, k) {
        assert Bit(a, k + 1) <==> Bit(b, k + 1);
      }
      SameBits(a / 2, b / 2);
    }
  }

  lemma {:induction false} ZeroHasNoBits(k: nat)
    ensures !Bit(0, k)
  {
    if k > 0 {
      ZeroHasNoBits(k - 1);
    }
  }

  /** Shifting 32 ones right by 32 - c leaves c of them. */
  lemma {:induction false} OnesShifted(c: nat, k: nat)
    ensures (Pow2(c + k) - 1) / Pow2(k) == Pow2(c) - 1
  {
    if k > 0 {
      OnesShifted(c, k - 1);
      var half, p := Pow2(c + k - 1), Pow2(k - 1);
      assert Pow2(c + k) == 2 * half && Pow2(k) == 2 * p;
      ShiftOne(2 * half - 1, half - 1, p);
    }
  }

  lemma ShiftOne(x: nat, half: nat, p: nat)
    requires x == 2 * half + 1 && p > 0
    ensures x / (2 * p) == half / p
  {
    assert x / 2 == half;
    DivideTwice(x, p);
  }

  lemma DivideTwice(x: nat, p: nat)
    requires p > 0
    ensures x / (2 * p) == x / 2 / p
  {
    var q := x / (2 * p);
    var r := x - q * (2 * p);
    assert x / 2 == q * p + r / 2 by { assert x == 2 * (q * p) + r; }
    assert 0 <= r / 2 < p;
    QuotientIs(x / 2, q, r / 2, p);
  }

  lemma QuotientIs(x: nat, q: nat, r: nat, p: nat)
    requires x == q * p + r && r < p
    ensures x / p == q
  {
    var d := x / p - q;
    assert d * p == r - x % p;
    SmallMultiple(d, p);
  }

  lemma SmallMultiple(d: int, p: int)
    requires -p < d * p < p
    ensures d == 0
  {
    if d >= 1 {
      AtLeastOnce(d, p);
    } else if d <= -1 {
      AtLeastOnce(-d, p);
    }
  }

  lemma AtLeastOnce(d: int, p: int)
    requires d >= 1 && p >= 0
    ensures d * p >= p
  {
  }

  /** Which required fields have been seen, as the decoder keeps track of it. */
  ghost predicate Tracks(words: seq<nat>, fields: seq<Field>, seen: set<nat>) {
    && |words| == 2 && words[0] < U32 && words[1] < U32
    && (forall i | i in seen :: i < |fields|)
    && forall k: nat | k < MAX_REQUIRED_FIELDS :: Bit(words[k / 32], k % 32) <==> SeenRequired(fields, seen, k)
  }

  /** The k-th required field has been seen. */
  predicate SeenRequired(fields: seq<Field>, seen: set<nat>, k: nat) {
    exists i | i in seen :: i < |fields| && fields[i].htype == Required && RequiredBefore(fields, i) == k
  }

  lemma {:induction false} RequiredGrows(fields: seq<Field>, i: nat, j: nat)
    requires i <= j <= |fields|
    ensures RequiredBefore(fields, i) <= RequiredBefore(fields, j)
    ensures i < j && fields[i].htype == Required ==> RequiredBefore(fields, i) < RequiredBefore(fields, j)
    decreases j
  {
    if i < j {
      RequiredGrows(fields, i, j - 1);
    }
  }

  lemma SameRequired(fields: seq<Field>, i: nat, j: nat)
    requires i < |fields| && j < |fields| && fields[i].htype == Required && fields[j].htype == Required
    requires RequiredBefore(fields, i) == RequiredBefore(fields, j)
    ensures i == j
  {
    if i < j {
      RequiredGrows(fields, i, j);
    } else if j < i {
      RequiredGrows(fields, j, i);
    }
  }

  lemma {:induction false} EachRequired(fields: seq<Field>, k: nat, upTo: nat)
    requires upTo <= |fields| && k < RequiredBefore(fields, upTo)
    ensures exists i | 0 <= i < upTo :: fields[i].htype == Required && RequiredBefore(fields, i) == k
    decreases upTo
  {
    if k < RequiredBefore(fields, upTo - 1) {
      EachRequired(fields, k, upTo - 1);
    } else {
      assert fields[upTo - 1].htype == Required && RequiredBefore(fields, upTo - 1) == k;
    }
  }

  function Clipped(n: nat): nat {
    if n > MAX_REQUIRED_FIELDS then MAX_REQUIRED_FIELDS else n
  }

  /** All of the first 64 required fields have been seen exactly when each of their numbers has. */
  lemma AllSeen(fields: seq<Field>, seen: set<nat>)
    ensures RequiredSeen(fields, seen)
       <==> forall k: nat | k < Clipped(RequiredBefore(fields, |fields|)) :: SeenRequired(fields, seen, k)
  {
    var n := RequiredBefore(fields, |fields|);
    if RequiredSeen(fields, seen) {
      forall k: nat | k < Clipped(n) ensures SeenRequired(fields, seen, k) {
        EachRequired(fields, k, |fields|);
        var i :| 0 <= i < |fields| && fields[i].htype == Required && RequiredBefore(fields, i) == k;
        assert i in seen;
      }
    }
    if forall k: nat | k < Clipped(n) :: SeenRequired(fields, seen, k) {
      forall i | 0 <= i < |fields| && fields[i].htype == Required && RequiredBefore(fields, i) < MAX_REQUIRED_FIELDS
        ensures i in seen
      {
        var k := RequiredBefore(fields, i);
        RequiredGrows(fields, i, |fields|);
        assert SeenRequired(fields, seen, k);
        var j :| j in seen && j < |fields| && fields[j].htype == Required && RequiredBefore(fields, j) == k;
        SameRequired(fields, i, j);
      }
    }
  }

  /** Marks a field as seen: fields_seen[index >> 5] |= 1 << (index & 31). */
  method MarkSeen(words: seq<nat>, fields: seq<Field>, ghost seen: set<nat>, pos: nat, requiredIndex: nat)
    returns (marked: seq<nat>)
    requires Tracks(words, fields, seen) && pos < |fields| && requiredIndex == RequiredBefore(fields, pos)
    ensures Tracks(marked, fields, seen + {pos})
  {
    marked := words;
    if fields[pos].htype == Required && requiredIndex < MAX_REQUIRED_FIELDS {
      var bit := Pow2(requiredIndex % 32);
      var w := requiredIndex / 32;
      marked := words[w := Or(words[w], bit)];
      WordBits();
      PowerBelow(requiredIndex % 32, 32);
      OrStaysBelow(words[w], bit, 32);
    }
    forall k: nat | k < MAX_REQUIRED_FIELDS
      ensures Bit(marked[k / 32], k % 32) <==> SeenRequired(fields, seen + {pos}, k)
    {
      SeenGrows(fields, seen, pos, k);
      BitOfOr(words[k / 32], requiredIndex % 32, k % 32);
    }
  }

  lemma SeenGrows(fields: seq<Field>, seen: set<nat>, pos: nat, k: nat)
    requires pos < |fields|
    ensures SeenRequired(fields, seen + {pos}, k)
       <==> SeenRequired(fields, seen, k) || (fields[pos].htype == Required && RequiredBefore(fields, pos) == k)
  {
    if SeenRequired(fields, seen, k) {
      var i :| i in seen && i < |fields| && fields[i].htype == Required && RequiredBefore(fields, i) == k;
      assert i in seen + {pos};
    }
    if fields[pos].htype == Required && RequiredBefore(fields, pos) == k {
      assert pos in seen + {pos};
    }
  }

  lemma WordBits()
    ensures Pow2(32) == U32
  {
    SmallPowers();
    assert Pow2(32) == 2 * Pow2(31) == 4 * Pow2(30) == 8 * Pow2(29) == 16 * Pow2(28);
  }

  lemma {:induction false} PowerBelow(j: nat, k: nat)
    requires j < k
    ensures Pow2(j) < Pow2(k)
  {
    if j < k - 1 {
      PowerBelow(j, k - 1);
    }
  }

  lemma {:induction false} HighBitsClear(w: nat, c: nat, k: nat)
    requires w < Pow2(c) && k >= c
    ensures !Bit(w, k)
  {
    if c == 0 {
      ZeroHasNoBits(k);
    } else {
      HighBitsClear(w / 2, c - 1, k - 1);
    }
  }

  ghost predicate LowBits(w: nat, c: nat) {
    forall k: nat | k < c :: Bit(w, k)
  }

  /** A 32-bit word whose bits from c on are clear equals all ones shifted right by 32 - c exactly when
      its bits below c are set. */
  lemma WordFull(w: nat, c: nat)
    requires w < U32 && c <= 32 && forall k: nat | c <= k < 32 :: !Bit(w, k)
    ensures w == (U32 - 1) / Pow2(32 - c) <==> LowBits(w, c)
  {
    WordBits();
    var ones, shift := Pow2(c) - 1, 32 - c;
    OnesShifted(c, shift);
    assert Pow2(c + shift) == U32 && (U32 - 1) / Pow2(shift) == ones;
    forall k: nat ensures Bit(ones, k) <==> k < c {
      BitsOfOnes(c, k);
    }
    if LowBits(w, c) {
      forall k: nat ensures Bit(w, k) <==> Bit(ones, k) {
        if k >= 32 {
          HighBitsClear(w, 32, k);
        }
      }
      SameBits(w, ones);
    }
    if w == ones {
      forall k: nat | k < c ensures Bit(w, k) {
        assert Bit(ones, k);
      }
    }
  }

  lemma UnusedBitsClear(words: seq<nat>, fields: seq<Field>, seen: set<nat>, k: nat)
    requires Tracks(words, fields, seen) && Clipped(RequiredBefore(fields, |fields|)) <= k < MAX_REQUIRED_FIELDS
    ensures !Bit(words[k / 32], k % 32)
  {
    if SeenRequired(fields, seen, k) {
      var i :| i in seen && i < |fields| && fields[i].htype == Required && RequiredBefore(fields, i) == k;
      RequiredGrows(fields, i, |fields|);
    }
  }

  /** The required fields from one number on up to another were all seen. */
  predicate SeenRange(fields: seq<Field>, seen: set<nat>, from: nat, to: nat) {
    forall k: nat | from <= k < to :: SeenRequired(fields, seen, k)
  }

  /** What comparing one word, or the lower c bits of it, decides. */
  lemma WordMeans(words: seq<nat>, fields: seq<Field>, seen: set<nat>, i: nat, c: nat)
    requires Tracks(words, fields, seen) && i < 2 && c <= 32 && forall k: nat | c <= k < 32 :: !Bit(words[i], k)
    ensures words[i] == (U32 - 1) / Pow2(32 - c) <==> SeenRange(fields, seen, 32 * i, 32 * i + c)
  {
    hide SeenRequired, Bit, Pow2;
    WordFull(words[i], c);
    forall k: nat | k < c ensures Bit(words[i], k) <==> SeenRequired(fields, seen, 32 * i + k) {
      var at := 32 * i + k;
      assert at / 32 == i && at % 32 == k && Bit(words[at / 32], at % 32) <==> SeenRequired(fields, seen, at);
    }
    if SeenRange(fields, seen, 32 * i, 32 * i + c) {
      forall k: nat | k < c ensures Bit(words[i], k) {
        assert SeenRequired(fields, seen, 32 * i + k);
      }
    }
    if LowBits(words[i], c) {
      forall k: nat | 32 * i <= k < 32 * i + c ensures SeenRequired(fields, seen, k) {
        assert Bit(words[i], k - 32 * i);
      }
    }
  }

  lemma RestClear(words: seq<nat>, fields: seq<Field>, seen: set<nat>, count: nat)
    requires Tracks(words, fields, seen) && count == Clipped(RequiredBefore(fields, |fields|)) && count / 32 < 2
    ensures forall k: nat | count % 32 <= k < 32 :: !Bit(words[count / 32], k)
  {
    hide Bit, SeenRequired;
    forall k: nat | count % 32 <= k < 32 ensures !Bit(words[count / 32], k) {
      var at := 32 * (count / 32) + k;
      assert at / 32 == count / 32 && at % 32 == k;
      UnusedBitsClear(words, fields, seen, at);
    }
  }

  /** The comparison of whole words, then of the remaining bits. */
  method WordsFull(words: seq<nat>, count: nat, fields: seq<Field>, ghost seen: set<nat>) returns (ok: bool)
    requires Tracks(words, fields, seen) && count == Clipped(RequiredBefore(fields, |fields|))
    ensures ok == RequiredSeen(fields, seen)
  {
    hide SeenRequired, RequiredSeen, Bit, RequiredBefore;
    AllSeen(fields, seen);
    assert RequiredSeen(fields, seen) <==> SeenRange(fields, seen, 0, count);
    for i := 0 to count / 32
      invariant SeenRange(fields, seen, 0, 32 * i)
    {
      WordMeans(words, fields, seen, i, 32);
      assert Pow2(0) == 1;
      if words[i] != U32 - 1 {
        return false;
      }
    }
    if count % 32 != 0 {
      RestClear(words, fields, seen, count);
      WordMeans(words, fields, seen, count / 32, count % 32);
      if words[count / 32] != (U32 - 1) / Pow2(32 - count % 32) {
        return false;
      }
    }
    return true;
  }

  /** The end of pb_decode_noinit: runs the iterator to the end to count the required fields. */
  method CheckRequired(iter: FieldIter, words: seq<nat>, ghost seen: set<nat>) returns (ok: bool)
    requires iter.Valid() && Tracks(words, iter.fields, seen)
    modifies iter
    ensures ok == RequiredSeen(iter.fields, seen)
  {
    var fields := iter.fields;
    var count, lastRequired, more := iter.requiredIndex, fields == [] || fields[iter.pos].htype == Required, true;
    while more
      invariant iter.Valid() && (more && fields != [] ==> iter.pos < |fields|)
      invariant !more && fields != [] ==> count == RequiredBefore(fields, |fields| - 1)
      invariant !more && fields != [] ==> lastRequired == (fields[|fields| - 1].htype == Required)
      invariant fields == [] ==> count == 0
      decreases more, |fields| - iter.pos
    {
      count := iter.requiredIndex;
      lastRequired := fields == [] || fields[iter.pos].htype == Required;
      more := iter.Next();
    }
    // The iterator is at the first field again: an empty message has no first tag.
    if lastRequired && fields != [] {
      count := count + 1;
    }
    if count > MAX_REQUIRED_FIELDS {
      count := MAX_REQUIRED_FIELDS;
    }
    ok := WordsFull(words, count, fields, seen);
  }
}
