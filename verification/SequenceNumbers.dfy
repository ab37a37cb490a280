/** The write epochs and sequence numbers of DTLS, over whole runs: no record number is used twice
    until a 48-bit counter runs over. */
module SequenceNumbers {
  const SEQUENCE_LIMIT: nat := 0x1_0000_0000_0000
  const EPOCH_LIMIT: nat := 0x1_0000

  /** The next number of the current epoch, and the next one left over from the previous epoch. */
  datatype Counters = Counters(epoch: nat, next: nat, last: nat) {
    predicate Valid() {
      epoch < EPOCH_LIMIT && next < SEQUENCE_LIMIT && last < SEQUENCE_LIMIT
    }

    /** The epoch and number that sealing one more record uses. */
    function Number(previous: bool): (nat, nat)
      requires previous ==> epoch >= 1
    {
      if previous then (epoch - 1, last) else (epoch, next)
    }

    /** ssl_record_sequence_update on 48 bits: at the limit the counter wraps to zero. */
    function Advance(previous: bool): Counters {
      if previous then this.(last := (last + 1) % SEQUENCE_LIMIT) else this.(next := (next + 1) % SEQUENCE_LIMIT)
    }

    /** The update that reports an overflow. */
    predicate AtLimit(previous: bool) {
      (if previous then last else next) == SEQUENCE_LIMIT - 1
    }

    /** dtls1_set_write_state. */
    function ChangeEpoch(): Counters {
      Counters((epoch + 1) % EPOCH_LIMIT, 0, next)
    }
  }

  /** What a connection does to its counters. A seal either fails in the cipher, which uses up
      nothing, or uses up its number; in the latter case it may still fail, on overflow or because
      the ciphertext is too long. */
  datatype Event = CipherFailed(previous: bool) | Used(previous: bool, tooLong: bool) | NewEpoch

  predicate Possible(c: Counters, e: Event) {
    !e.NewEpoch? && e.previous ==> c.epoch >= 1
  }

  function After(c: Counters, e: Event): Counters {
    match e
    case CipherFailed(_) => c
    case Used(previous, _) => c.Advance(previous)
    case NewEpoch => c.ChangeEpoch()
  }

  function Sealed(c: Counters, e: Event): seq<(nat, nat)>
    requires Possible(c, e)
  {
    if e.Used? && !e.tooLong && !c.AtLimit(e.previous) then [c.Number(e.previous)] else []
  }

  predicate PossibleRun(c: Counters, es: seq<Event>)
    decreases es
  {
    es == [] || (Possible(c, es[0]) && PossibleRun(After(c, es[0]), es[1..]))
  }

  /** Which of the two counters have run over. */
  datatype Overruns = Overruns(next: bool, last: bool) {
    predicate Of(previous: bool) {
      if previous then last else next
    }
  }

  const NONE: Overruns := Overruns(false, false)

  function OverrunsAfter(c: Counters, o: Overruns, e: Event): Overruns {
    match e
    case CipherFailed(_) => o
    case Used(previous, _) =>
      if !c.AtLimit(previous) then o else if previous then o.(last := true) else o.(next := true)
    case NewEpoch => Overruns(false, o.next)
  }

  /** No counter is used again once it has run over. The use on which it runs over is still allowed. */
  predicate StopsInTime(c: Counters, o: Overruns, es: seq<Event>)
    decreases es
  {
    es == [] || ((es[0].Used? ==> !o.Of(es[0].previous))
        && StopsInTime(After(c, es[0]), OverrunsAfter(c, o, es[0]), es[1..]))
  }

  predicate NoEpochWrap(c: Counters, es: seq<Event>)
    decreases es
  {
    es == [] || ((es[0].NewEpoch? ==> c.epoch + 1 < EPOCH_LIMIT) && NoEpochWrap(After(c, es[0]), es[1..]))
  }

  /** The numbers of the records successfully sealed, in order. */
  function Numbers(c: Counters, es: seq<Event>): seq<(nat, nat)>
    requires PossibleRun(c, es)
    decreases es
  {
    if es == [] then [] else Sealed(c, es[0]) + Numbers(After(c, es[0]), es[1..])
  }

  /** Where a run leaves the counters. */
  function Final(c: Counters, es: seq<Event>): Counters
    decreases es
  {
    if es == [] then c else Final(After(c, es[0]), es[1..])
  }

  /** One more event at the end of a run. */
  lemma {:induction false} Append(c: Counters, es: seq<Event>, e: Event)
    requires PossibleRun(c, es) && Possible(Final(c, es), e)
    ensures PossibleRun(c, es + [e]) && Final(c, es + [e]) == After(Final(c, es), e)
    ensures Numbers(c, es + [e]) == Numbers(c, es) + Sealed(Final(c, es), e)
    decreases es
  {
    if es == [] {
      assert es + [e] == [e] && [e][1..] == [];
    } else {
      assert (es + [e])[1..] == es[1..] + [e];
      Append(After(c, es[0]), es[1..], e);
    }
  }

  lemma {:induction false} AppendWrap(c: Counters, es: seq<Event>, e: Event)
    requires NoEpochWrap(c, es) && (e.NewEpoch? ==> Final(c, es).epoch + 1 < EPOCH_LIMIT)
    ensures NoEpochWrap(c, es + [e])
    decreases es
  {
    if es == [] {
      assert es + [e] == [e] && [e][1..] == [];
    } else {
      assert (es + [e])[1..] == es[1..] + [e];
      AppendWrap(After(c, es[0]), es[1..], e);
    }
  }

  /** Every number fits its fields. */
  lemma {:induction false} NumbersInRange(c: Counters, es: seq<Event>)
    requires c.Valid() && PossibleRun(c, es) && NoEpochWrap(c, es)
    ensures forall x | x in Numbers(c, es) :: x.0 < EPOCH_LIMIT && x.1 < SEQUENCE_LIMIT
    decreases es
  {
    if es != [] {
      NumbersInRange(After(c, es[0]), es[1..]);
    }
  }

  predicate Distinct<T(==)>(s: seq<T>) {
    forall i, j | 0 <= i < j < |s| :: s[i] != s[j]
  }

  /** The numbers a run starting at c can still use. */
  predicate Available(c: Counters, o: Overruns, n: (nat, nat)) {
    || n.0 > c.epoch
    || (n.0 == c.epoch && n.1 >= c.next && !o.next)
    || (n.0 + 1 == c.epoch && n.1 >= c.last && !o.last)
  }

  lemma StepShrinks(c: Counters, o: Overruns, e: Event, n: (nat, nat))
    requires c.Valid() && Possible(c, e)
    requires e.Used? ==> !o.Of(e.previous)
    requires e.NewEpoch? ==> c.epoch + 1 < EPOCH_LIMIT
    requires Available(After(c, e), OverrunsAfter(c, o, e), n)
    ensures Available(c, o, n) && n !in Sealed(c, e)
  {
  }

  lemma {:induction false} NumbersAvailable(c: Counters, o: Overruns, es: seq<Event>)
    requires c.Valid() && PossibleRun(c, es) && StopsInTime(c, o, es) && NoEpochWrap(c, es)
    ensures forall n | n in Numbers(c, es) :: Available(c, o, n)
    decreases es
  {
    if es != [] {
      var d, p := After(c, es[0]), OverrunsAfter(c, o, es[0]);
      NumbersAvailable(d, p, es[1..]);
      forall n | n in Numbers(c, es) ensures Available(c, o, n) {
        if n in Numbers(d, es[1..]) {
          StepShrinks(c, o, es[0], n);
        }
      }
    }
  }

  /** Two successfully sealed records never carry the same epoch and sequence number, whatever the
      mix of epoch changes, previous-epoch retransmissions and failures, up to and including the seals
      that report an overflow. */
  lemma {:induction false} NoReuse(c: Counters, o: Overruns, es: seq<Event>)
    requires c.Valid() && PossibleRun(c, es) && StopsInTime(c, o, es) && NoEpochWrap(c, es)
    ensures Distinct(Numbers(c, es))
    decreases es
  {
    if es != [] {
      var d, p := After(c, es[0]), OverrunsAfter(c, o, es[0]);
      NoReuse(d, p, es[1..]);
      NumbersAvailable(d, p, es[1..]);
      forall n | n in Numbers(d, es[1..]) ensures n !in Sealed(c, es[0]) {
        StepShrinks(c, o, es[0], n);
      }
      DistinctConcat(Sealed(c, es[0]), Numbers(d, es[1..]));
    }
  }

  /** A counter has used every number below it, and one that has run over stands at zero again. */
  ghost predicate Covers(c: Counters, o: Overruns, seen: seq<(nat, nat)>) {
    && (forall n: (nat, nat) | n.0 == c.epoch && n.1 < c.next :: n in seen)
    && (o.next ==> c.next == 0 && (c.epoch, 0) in seen)
    && (c.epoch >= 1 ==>
      && (forall n: (nat, nat) | n.0 + 1 == c.epoch && n.1 < c.last :: n in seen)
      && (o.last ==> c.last == 0 && (c.epoch - 1, 0) in seen))
  }

  lemma CoversNext(c: Counters, o: Overruns, e: Event, seen: seq<(nat, nat)>)
    requires c.Valid() && Covers(c, o, seen) && Possible(c, e)
    requires e.Used? ==> !o.Of(e.previous) && !e.tooLong
    requires e.NewEpoch? ==> c.epoch + 1 < EPOCH_LIMIT
    ensures Covers(After(c, e), OverrunsAfter(c, o, e), seen + Sealed(c, e))
  {
  }

  /** A use after an overrun repeats a number. */
  lemma {:induction false} ReusesNumber(c: Counters, o: Overruns, es: seq<Event>, seen: seq<(nat, nat)>)
    requires c.Valid() && Covers(c, o, seen) && PossibleRun(c, es) && NoEpochWrap(c, es)
    requires (forall e | e in es && e.Used? :: !e.tooLong) && !StopsInTime(c, o, es)
    ensures !Distinct(seen + Numbers(c, es))
    decreases es
  {
    var e, rest := es[0], es[1..];
    assert e in es;
    if e.Used? && o.Of(e.previous) {
      var n := c.Number(e.previous);
      assert Sealed(c, e) == [n] && n in seen;
      var i: nat :| i < |seen| && seen[i] == n;
      assert (seen + Numbers(c, es))[i] == (seen + Numbers(c, es))[|seen|];
    } else {
      CoversNext(c, o, e, seen);
      ReusesNumber(After(c, e), OverrunsAfter(c, o, e), rest, seen + Sealed(c, e));
      assert seen + Sealed(c, e) + Numbers(After(c, e), rest) == seen + (Sealed(c, e) + Numbers(After(c, e), rest));
    }
  }

  /** The exact condition: a connection's records all have different numbers if and only if it stops
      using each counter when it has run over. A seal refused for its length uses up a number that no
      record carries; those are left aside. */
  lemma DistinctExactly(es: seq<Event>)
    requires PossibleRun(Counters(0, 0, 0), es) && NoEpochWrap(Counters(0, 0, 0), es)
    requires forall e | e in es && e.Used? :: !e.tooLong
    ensures Distinct(Numbers(Counters(0, 0, 0), es)) <==> StopsInTime(Counters(0, 0, 0), NONE, es)
  {
    var start := Counters(0, 0, 0);
    if StopsInTime(start, NONE, es) {
      NoReuse(start, NONE, es);
    } else {
      ReusesNumber(start, NONE, es, []);
      assert [] + Numbers(start, es) == Numbers(start, es);
    }
  }

  lemma DistinctConcat<T>(s: seq<T>, t: seq<T>)
    requires |s| <= 1 && Distinct(t) && forall x | x in t :: x !in s
    ensures Distinct(s + t)
  {
    forall i, j | 0 <= i < j < |s + t| ensures (s + t)[i] != (s + t)[j] {
      var x := t[j - |s|];
      assert x in t && (s + t)[j] == x;
      if i >= |s| {
        assert t[i - |s|] != x;
      } else {
        assert s[i] in s;
      }
    }
  }

  function PlainSeals(k: nat): (es: seq<Event>)
    ensures |es| == k && forall e | e in es :: e == Used(false, false)
    ensures k > 0 ==> es[0] == Used(false, false) && es[1..] == PlainSeals(k - 1)
  {
    seq(k, _ => Used(false, false))
  }

  lemma {:induction false} PlainSealsPossible(c: Counters, k: nat)
    ensures PossibleRun(c, PlainSeals(k)) && NoEpochWrap(c, PlainSeals(k))
    decreases k
  {
    if k > 0 {
      PlainSealsPossible(After(c, Used(false, false)), k - 1);
    }
  }

  lemma {:induction false} PlainSealsRunOver(c: Counters, k: nat)
    requires c.next < SEQUENCE_LIMIT && c.next + k > SEQUENCE_LIMIT
    ensures !StopsInTime(c, NONE, PlainSeals(k))
    decreases k
  {
    var d := After(c, Used(false, false));
    if c.AtLimit(false) {
      assert PlainSeals(k - 1)[0] == Used(false, false);
    } else {
      PlainSealsRunOver(d, k - 1);
    }
  }

  /** An input for which numbers repeat: in an epoch that fills its counter, the seal that reports the
      overflow fails, but the next one succeeds and carries number zero again. */
  lemma OverflowReuses()
    ensures PossibleRun(Counters(0, 0, 0), PlainSeals(SEQUENCE_LIMIT + 1))
    ensures !Distinct(Numbers(Counters(0, 0, 0), PlainSeals(SEQUENCE_LIMIT + 1)))
  {
    hide PossibleRun, NoEpochWrap, StopsInTime, Numbers, Distinct, PlainSeals;
    var start, k := Counters(0, 0, 0), SEQUENCE_LIMIT + 1;
    PlainSealsPossible(start, k);
    PlainSealsRunOver(start, k);
    DistinctExactly(PlainSeals(k));
  }
}
