/** Sealing DTLS records: the current and the previous epoch's keys and counters. */
module RecordWriter {
  import opened Bytes
  import opened Options
  import opened Aead
  import opened DtlsWire
  import opened SequenceNumbers

  const START: Counters := Counters(0, 0, 0)

  /** A sealed record together with what was sealed in it. */
  datatype Item = Item(rec: Record, plain: seq<byte>)

  function EpochOf(r: Record): nat
    requires |r.number| == 8
  {
    Value(r.number[..2])
  }

  /** The record is what the keys of its own epoch make of the plaintext. */
  ghost predicate SealedUnder(keys: Keys, i: Item) {
    && |i.rec.number| == 8 && i.rec.version < 0x1_0000 && |i.rec.body| < 0x1_0000
    && keys(EpochOf(i.rec)).seal(i.rec.typ, i.rec.version, i.rec.number, i.plain) == Some(i.rec.body)
  }

  /** The records carry these epochs and sequence numbers. */
  predicate Labelled(items: seq<Item>, numbers: seq<(nat, nat)>) {
    && |items| == |numbers|
    && forall k | 0 <= k < |items| :: items[k].rec.number == RecordNumber(numbers[k].0, numbers[k].1)
  }

  /** Records with the same number are the same record. */
  predicate OnePerNumber(items: seq<Item>) {
    forall i, j | i in items && j in items && Value(i.rec.number) == Value(j.rec.number) :: i == j
  }

  class Writer {
    var epoch: nat
    var next: nat
    var last: nat
    var ctx: Context
    var lastCtx: Context          // meaningful from epoch one on
    ghost const keys: Keys
    ghost var history: seq<Event>
    ghost var sealed: seq<Item>   // all records successfully sealed, in order
    ghost var failures: nat       // how often sealing one failed

    ghost predicate Valid()
      reads this
    {
      && Now().Valid()
      && ctx == keys(epoch) && (epoch >= 1 ==> lastCtx == keys(epoch - 1))
      && (forall e :: keys(e).Sound())
      && PossibleRun(START, history) && Final(START, history) == Now() && NoEpochWrap(START, history)
      && Labelled(sealed, Numbers(START, history))
    }

    function Now(): Counters
      reads this
    {
      Counters(epoch, next, last)
    }

    constructor (ghost keys: Keys, ctx: Context)
      requires ctx == keys(0) && forall e :: keys(e).Sound()
      ensures Valid() && this.keys == keys && Now() == START && sealed == [] && history == []
    {
      this.keys := keys;
      epoch, next, last, history, sealed, failures := 0, 0, 0, [], [], 0;
      this.ctx, lastCtx := ctx, ctx;
    }

    function ContextFor(previous: bool): Context
      reads this
    {
      if previous then lastCtx else ctx
    }

    lemma NonceFits(previous: bool)
      requires Valid() && (previous ==> epoch >= 1)
      ensures ContextFor(previous).explicitNonceLen <= ContextFor(previous).maxOverhead
    {
    }

    /** What can keep a record from being sealed where there is room: the counter runs over, the ciphertext may be
        too long, or the cipher fails. */
    predicate Refused(item: Item, previous: bool, before: Counters)
      reads this
    {
      || before.AtLimit(previous) || |item.plain| + ContextFor(previous).maxOverhead >= 0x1_0000
      || ContextFor(previous).seal(item.rec.typ, item.rec.version, item.rec.number, item.plain) == None
    }

    /** dtls_seal_record: header and ciphertext, within maxOut octets. The version is always that of
        the current epoch. */
    method SealRecord(typ: byte, plain: seq<byte>, previous: bool, maxOut: nat)
      returns (out: Option<seq<byte>>, ghost item: Item)
      requires Valid() && (previous ==> epoch >= 1)
      modifies this`next, this`last, this`history, this`sealed, this`failures
      ensures Valid()
      ensures sealed == old(sealed) + if out.Some? then [item] else []
      ensures failures == old(failures) + if out.Some? then 0 else 1
      ensures old(history) <= history
      ensures item.plain == plain && item.rec.typ == typ && item.rec.version == ctx.version
      ensures item.rec.number == RecordNumber(old(Now()).Number(previous).0, old(Now()).Number(previous).1)
      ensures |item.rec.number| == 8 && EpochOf(item.rec) == if previous then epoch - 1 else epoch
      ensures out.Some? ==>
                && SealedUnder(keys, item) && out.value == SerializeRecord(item.rec) && |out.value| <= maxOut
                && |item.rec.body| <= |plain| + ContextFor(previous).maxOverhead
      ensures out == None ==>
                || maxOut < RT_HEADER_LENGTH + |plain| + ContextFor(previous).maxOverhead
                || Refused(item, previous, old(Now()))
    {
      hide PossibleRun, Final, Numbers, NoEpochWrap, Labelled, RecordNumber, Pow256, SerializeRecord;
      var e := if previous then epoch - 1 else epoch;
      var n := if previous then last else next;
      item := Item(Record(typ, ctx.version, RecordNumber(e, n), []), plain);
      EpochOfNumber(e, n);
      failures := failures + 1;
      if maxOut < RT_HEADER_LENGTH {
        return None, item;
      }
      var number := RecordNumber(e, n);
      assert keys(e).Protects(typ, ctx.version, number, plain);
      var c := ContextFor(previous).seal(typ, ctx.version, number, plain);
      if c == None || |c.value| > maxOut - RT_HEADER_LENGTH {
        return None, item;
      }
      var tooLong := |c.value| >= 0x1_0000;
      var rec := Record(typ, ctx.version, number, c.value);
      item := Item(rec, plain);
      var ok := UseNumber(previous, item, tooLong);
      if !ok || tooLong {
        return None, item;
      }
      failures := failures - 1;
      return Some(SerializeRecord(rec)), item;
    }

    /** Moves the counter in use on by one, as ssl_record_sequence_update does; false when it ran over. */
    method UseNumber(previous: bool, ghost item: Item, ghost tooLong: bool) returns (ok: bool)
      requires Valid() && (previous ==> epoch >= 1)
      requires item.rec.number == RecordNumber(Now().Number(previous).0, Now().Number(previous).1)
      modifies this`next, this`last, this`history, this`sealed
      ensures Valid() && ok == !old(Now()).AtLimit(previous) && Now() == old(Now()).Advance(previous)
      ensures sealed == old(sealed) + if ok && !tooLong then [item] else []
      ensures history == old(history) + [Used(previous, tooLong)]
    {
      hide PossibleRun, Final, Numbers, NoEpochWrap, Labelled, RecordNumber, Pow256;
      ghost var event := Used(previous, tooLong);
      Append(START, history, event);
      AppendWrap(START, history, event);
      Labels(sealed, Numbers(START, history), item, Now().Number(previous));
      sealed := sealed + if tooLong || Now().AtLimit(previous) then [] else [item];
      history := history + [event];
      if previous {
        last := (last + 1) % SEQUENCE_LIMIT;
        return last != 0;
      } else {
        next := (next + 1) % SEQUENCE_LIMIT;
        return next != 0;
      }
    }

    /** dtls1_set_write_state. */
    method ChangeEpoch(ctx: Context)
      requires Valid() && epoch + 1 < EPOCH_LIMIT && ctx == keys(epoch + 1)
      modifies this
      ensures Valid() && Now() == old(Now()).ChangeEpoch() && sealed == old(sealed)
      ensures old(history) <= history
    {
      hide PossibleRun, Final, Numbers, NoEpochWrap, Labelled;
      Append(START, history, NewEpoch);
      AppendWrap(START, history, NewEpoch);
      assert Numbers(START, history) + [] == Numbers(START, history);
      history := history + [NewEpoch];
      epoch, last, next := epoch + 1, next, 0;
      lastCtx := this.ctx;
      this.ctx := ctx;
    }

    /** Every record sealed so far has its own number, as long as no counter was used after running over. */
    lemma NumbersDistinct()
      requires Valid() && StopsInTime(START, NONE, history)
      ensures Distinct(Numbers(START, history)) && OnePerNumber(sealed)
    {
      hide Numbers, PossibleRun, StopsInTime, NoEpochWrap, Final;
      var numbers := Numbers(START, history);
      NoReuse(START, NONE, history);
      NumbersInRange(START, history);
      forall i, j | i in sealed && j in sealed && Value(i.rec.number) == Value(j.rec.number) ensures i == j {
        var k :| 0 <= k < |sealed| && sealed[k] == i;
        var l :| 0 <= l < |sealed| && sealed[l] == j;
        SameNumber(numbers[k], numbers[l]);
      }
    }
  }

  lemma Labels(items: seq<Item>, numbers: seq<(nat, nat)>, item: Item, number: (nat, nat))
    requires Labelled(items, numbers) && item.rec.number == RecordNumber(number.0, number.1)
    ensures Labelled(items + [item], numbers + [number]) && items + [] == items && numbers + [] == numbers
  {
  }

  lemma SameNumber(a: (nat, nat), b: (nat, nat))
    requires a.0 < EPOCH_LIMIT && b.0 < EPOCH_LIMIT && a.1 < SEQUENCE_LIMIT && b.1 < SEQUENCE_LIMIT
    requires Value(RecordNumber(a.0, a.1)) == Value(RecordNumber(b.0, b.1))
    ensures a == b
  {
    BigEndianOfValue(RecordNumber(a.0, a.1));
    BigEndianOfValue(RecordNumber(b.0, b.1));
    RecordNumberInjective(a.0, a.1, b.0, b.1);
  }

  lemma EpochOfNumber(e: nat, n: nat)
    requires e < EPOCH_LIMIT
    ensures Value(RecordNumber(e, n)[..2]) == e
  {
    PowersUsed();
    assert RecordNumber(e, n)[..2] == BigEndian(e, 2);
    ValueOfBigEndian(e, 2);
  }
}
