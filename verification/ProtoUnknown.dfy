/** Descriptors of different age: what a reader makes of fields it does not know, and of fields that the
    writer did not know. */
module ProtoUnknown {
  import opened Bytes
  import opened Options
  import opened Varints
  import opened ProtoMessage
  import opened ProtoWire
  import opened ProtoRoundTrip

  // What is skipped is what an encoder writes, whatever follows it.

  lemma {:induction false} SkipsVarint(v: nat, t: seq<byte>)
    ensures SkipVarint(Encode(v) + t) == Some(t)
    decreases v
  {
    var s := Encode(v);
    assert (s + t)[0] == s[0] && (s + t)[1..] == s[1..] + t;
    if v < 128 {
      assert s[1..] + t == t;
    } else {
      assert s[1..] == Encode(v / 128);
      SkipsVarint(v / 128, t);
    }
  }

  lemma SkipsOctets(b: seq<byte>, t: seq<byte>)
    ensures |b| == 8 ==> Skip(1, b + t) == Some(t)
    ensures |b| == 4 ==> Skip(5, b + t) == Some(t)
    ensures |b| < 8 ==> Skip(1, b) == None
    ensures |b| < 4 ==> Skip(5, b) == None
  {
    assert (b + t)[|b|..] == t;
  }

  lemma SkipsString(b: seq<byte>, t: seq<byte>)
    requires |b| < U32
    ensures Skip(2, Size(|b|) + b + t) == Some(t)
  {
    hide Encode, Decode32;
    StringTaken(b, t);
  }

  /** Exactly the payload of each of the four wire types; no other wire type is skipped. */
  lemma SkipsExactly(v: nat, b: seq<byte>, t: seq<byte>, wireType: nat)
    ensures Skip(0, Encode(v) + t) == Some(t)
    ensures v < U64 ==> Skip(1, LittleEndian(v, 8) + t) == Some(t)
    ensures |b| < U32 ==> Skip(2, Size(|b|) + b + t) == Some(t)
    ensures v < U32 ==> Skip(5, LittleEndian(v, 4) + t) == Some(t)
    ensures wireType !in {0, 1, 2, 5} ==> Skip(wireType, b) == None
  {
    hide Encode;
    SkipsVarint(v, t);
    SkipsOctets(LittleEndian(v, 8), t);
    SkipsOctets(LittleEndian(v, 4), t);
    if |b| < U32 {
      SkipsString(b, t);
    }
  }

  lemma NumberSkipped(f: Field, n: int, t: seq<byte>)
    requires EncodeNumber(f, n).Some?
    ensures Skip(WireType(f.ltype).value, EncodeNumber(f, n).value + t) == Some(t)
  {
    hide Encode, SkipVarint, LittleEndian;
    match f.ltype
    case Varint => SkipsVarint(n % U64, t);
    case UVarint => SkipsVarint(n % U64, t);
    case SVarint => SkipsVarint(ZigZag(n), t);
    case Fixed32 => SkipsOctets(LittleEndian(n % U32, 4), t);
    case Fixed64 => SkipsOctets(LittleEndian(n % U64, 8), t);
    case _ =>
  }

  lemma ValueSkipped(f: Field, v: Value, t: seq<byte>)
    requires EncodeValue(f, v).Some? && |EncodeValue(f, v).value| < U32 && !f.ltype.Extension?
    ensures Skip(WireType(f.ltype).value, EncodeValue(f, v).value + t) == Some(t)
  {
    hide Encode, Skip, EncodeNumber, EncodeFrom;
    match v
    case Num(n) => NumberSkipped(f, n, t);
    case Data(s) => SkipsString(s, t);
    case Struct(slots) => SkipsString(EncodeFrom(f.ltype.fields, slots, 0).value, t);
  }

  // A field that the reader's descriptor does not have.

  /** No field of the descriptor has the tag. */
  predicate Lacks(fields: seq<Field>, tag: nat) {
    forall i | 0 <= i < |fields| :: fields[i].tag != tag
  }

  lemma {:induction false} NotFound(fields: seq<Field>, tag: nat, from: nat)
    requires Lacks(fields, tag) && from <= |fields|
    ensures Find(fields, tag, from) == None
    decreases |fields| - from
  {
    if from < |fields| {
      NotFound(fields, tag, from + 1);
    }
  }

  lemma KeyIgnored(fields: seq<Field>, tag: nat, wireType: nat, payload: seq<byte>, u: seq<byte>)
    requires Lacks(fields, tag) && 1 <= tag < MAX_TAG && wireType < 8
    requires Skip(wireType, payload + u) == Some(u) && Ignorable(fields, u)
    ensures Ignorable(fields, Tag(tag, wireType) + payload + u)
  {
    hide Encode, Decode32, Skip, Find, Ignorable;
    var key := 8 * tag + wireType;
    assert key / 8 == tag && key % 8 == wireType;
    Decoded32(key, payload + u);
    NotFound(fields, tag, 0);
    assert Tag(tag, wireType) + payload + u == Encode(key) + (payload + u);
    OneMoreIgnored(fields, Encode(key) + (payload + u), key, payload + u, u);
  }

  lemma OneMoreIgnored(fields: seq<Field>, s: seq<byte>, key: nat, rest: seq<byte>, u: seq<byte>)
    requires |u| < |s| && Decode32(s) == Some((key, rest)) && key >= 8 && Find(fields, key / 8, 0) == None
    requires Skip(key % 8, rest) == Some(u) && Ignorable(fields, u)
    ensures Ignorable(fields, s)
  {
    hide Decode32, Skip, Find;
  }

  lemma {:induction false} ItemsIgnored(fields: seq<Field>, f: Field, items: seq<Value>, k: nat, u: seq<byte>)
    requires Lacks(fields, f.tag) && 1 <= f.tag < MAX_TAG && !f.ltype.Extension? && k <= |items|
    requires var b := EncodeItems(f, items, k, Tag(f.tag, WireType(f.ltype).value)); b.Some? && |b.value| < U32
    requires Ignorable(fields, u)
    ensures Ignorable(fields, EncodeItems(f, items, k, Tag(f.tag, WireType(f.ltype).value)).value + u)
    decreases |items| - k
  {
    hide EncodeValue, Tag, Skip, Ignorable, WireType;
    SmallWireType(f.ltype);
    var w := WireType(f.ltype).value;
    var tag := Tag(f.tag, w);
    if k == |items| {
      assert [] + u == u;
    } else {
      var b, tail := EncodeValue(f, items[k]).value, EncodeItems(f, items, k + 1, tag).value;
      ItemsIgnored(fields, f, items, k + 1, u);
      ValueSkipped(f, items[k], tail + u);
      KeyIgnored(fields, f.tag, w, b, tail + u);
      assert tag + b + tail + u == tag + b + (tail + u);
    }
  }

  lemma SmallWireType(t: LType)
    requires !t.Extension?
    ensures WireType(t).Some? && WireType(t).value < 8
  {
  }

  /** Whatever the encoder writes for a field, a reader without its tag passes over. */
  lemma FieldIgnored(fields: seq<Field>, f: Field, slot: Slot, u: seq<byte>)
    requires Lacks(fields, f.tag) && 1 <= f.tag < MAX_TAG && Ignorable(fields, u)
    requires EncodeField(f, slot).Some? && |EncodeField(f, slot).value| < U32
    ensures Ignorable(fields, EncodeField(f, slot).value + u)
  {
    hide EncodeValue, EncodeItems, Tag, Size, Skip, Ignorable, WireType, IsProto3Default, Stored;
    var b := EncodeField(f, slot).value;
    if b == [] {
      assert b + u == u;
    } else {
      match slot
      case One(v) => TaggedIgnored(fields, f, v, u);
      case Opt(has, v) => TaggedIgnored(fields, f, v, u);
      case Member(o) => TaggedIgnored(fields, f, o.value, u);
      case Many(items) => ArrayIgnored(fields, f, f.htype.max, items, u);
      case Fixed(places) => ArrayIgnored(fields, f, f.htype.max, Stored(places).value, u);
    }
  }

  lemma TaggedIgnored(fields: seq<Field>, f: Field, v: Value, u: seq<byte>)
    requires Lacks(fields, f.tag) && 1 <= f.tag < MAX_TAG && Ignorable(fields, u) && !f.ltype.Extension?
    requires EncodeTagged(f, v).Some? && |EncodeTagged(f, v).value| < U32
    ensures Ignorable(fields, EncodeTagged(f, v).value + u)
  {
    hide EncodeValue, Tag, Skip, Ignorable, WireType;
    ValueSkipped(f, v, u);
    SmallWireType(f.ltype);
    KeyIgnored(fields, f.tag, WireType(f.ltype).value, EncodeValue(f, v).value, u);
  }

  lemma ArrayIgnored(fields: seq<Field>, f: Field, max: nat, items: seq<Value>, u: seq<byte>)
    requires Lacks(fields, f.tag) && 1 <= f.tag < MAX_TAG && Ignorable(fields, u) && !f.ltype.Extension?
    requires EncodeArray(f, max, items).Some? && |EncodeArray(f, max, items).value| < U32
    ensures Ignorable(fields, EncodeArray(f, max, items).value + u)
  {
    hide EncodeItems, Tag, Size, Skip, Ignorable, WireType;
    if items == [] {
      assert [] + u == u;
    } else if Packable(f.ltype) {
      var b := EncodeItems(f, items, 0, []).value;
      SkipsString(b, u);
      KeyIgnored(fields, f.tag, WT_STRING, Size(|b|) + b, u);
      assert Tag(f.tag, WT_STRING) + Size(|b|) + b + u == Tag(f.tag, WT_STRING) + (Size(|b|) + b) + u;
    } else {
      ItemsIgnored(fields, f, items, 0, u);
    }
  }

  // A reader with an older descriptor.

  /** Positions in a descriptor, in order. */
  predicate Ascending(known: seq<nat>, n: nat) {
    (forall k | 0 <= k < |known| :: known[k] < n) && forall j, k | 0 <= j < k < |known| :: known[j] < known[k]
  }

  function At<T>(s: seq<T>, known: seq<nat>): (r: seq<T>)
    requires Ascending(known, |s|)
    ensures |r| == |known| && forall k | 0 <= k < |known| :: r[k] == s[known[k]]
  {
    seq(|known|, k requires 0 <= k < |known| => s[known[k]])
  }

  lemma OlderIsGood(fields: seq<Field>, slots: seq<Slot>, known: seq<nat>)
    requires GoodDescriptor(fields) && GoodMessage(fields, slots) && Ascending(known, |fields|)
    ensures GoodDescriptor(At(fields, known)) && GoodMessage(At(fields, known), At(slots, known))
  {
    hide GoodField, GoodSlot, SameUnion, Chosen;
  }

  /** The encodings of the fields from a up to b. */
  function Span(fields: seq<Field>, slots: seq<Slot>, a: nat, b: nat): Option<seq<byte>>
    requires |slots| == |fields| && a <= b <= |fields|
    decreases b - a
  {
    if a == b then Some([]) else Then(EncodeField(fields[a], slots[a]), Span(fields, slots, a + 1, b))
  }

  lemma {:induction false} SpanThenRest(fields: seq<Field>, slots: seq<Slot>, a: nat, b: nat)
    requires |slots| == |fields| && a <= b <= |fields|
    ensures EncodeFrom(fields, slots, a) == Then(Span(fields, slots, a, b), EncodeFrom(fields, slots, b))
    decreases b - a
  {
    hide EncodeField;
    if a == b {
      var rest := EncodeFrom(fields, slots, b);
      assert rest.Some? ==> [] + rest.value == rest.value;
    } else {
      SpanThenRest(fields, slots, a + 1, b);
      var first, mid, rest := EncodeField(fields[a], slots[a]), Span(fields, slots, a + 1, b),
        EncodeFrom(fields, slots, b);
      if first.Some? && mid.Some? && rest.Some? {
        assert first.value + (mid.value + rest.value) == first.value + mid.value + rest.value;
      }
    }
  }

  /** Where the fields start that lie in front of the k-th one known. */
  function Start(known: seq<nat>, k: nat): nat
    requires k <= |known|
  {
    if k == 0 then 0 else known[k - 1] + 1
  }

  function End(known: seq<nat>, k: nat, n: nat): nat
    requires k <= |known|
  {
    if k == |known| then n else known[k]
  }

  /** What lies between the fields known. */
  function Noise(fields: seq<Field>, slots: seq<Slot>, known: seq<nat>): (r: seq<seq<byte>>)
    requires |slots| == |fields| && Ascending(known, |fields|) && EncodeFrom(fields, slots, 0).Some?
    ensures |r| == |known| + 1
  {
    seq(|known| + 1, k requires 0 <= k <= |known| =>
      (SpanEncodes(fields, slots, Start(known, k), End(known, k, |fields|));
       Span(fields, slots, Start(known, k), End(known, k, |fields|)).value))
  }

  lemma SpanEncodes(fields: seq<Field>, slots: seq<Slot>, a: nat, b: nat)
    requires |slots| == |fields| && a <= b <= |fields| && EncodeFrom(fields, slots, 0).Some?
    ensures Span(fields, slots, a, b).Some?
  {
    hide EncodeFrom, Span;
    SpanThenRest(fields, slots, 0, a);
    SpanThenRest(fields, slots, a, b);
  }

  lemma {:induction false} NoiseInterleaved(fields: seq<Field>, slots: seq<Slot>, known: seq<nat>, k: nat)
    requires |slots| == |fields| && Ascending(known, |fields|) && EncodeFrom(fields, slots, 0).Some? && k <= |known|
    ensures Interleaved(At(fields, known), At(slots, known), Noise(fields, slots, known), k)
         == EncodeFrom(fields, slots, Start(known, k))
    decreases |known| - k
  {
    hide EncodeField, Span;
    var a, b := Start(known, k), End(known, k, |fields|);
    SpanEncodes(fields, slots, a, b);
    SpanThenRest(fields, slots, a, b);
    var before := Span(fields, slots, a, b).value;
    if k == |known| {
      assert before + [] == before;
    } else {
      NoiseInterleaved(fields, slots, known, k + 1);
      var now, rest := EncodeField(fields[b], slots[b]), EncodeFrom(fields, slots, b + 1);
      if now.Some? && rest.Some? {
        assert before + (now.value + rest.value) == before + now.value + rest.value;
      }
    }
  }

  lemma {:induction false} SpanIgnored(reader: seq<Field>, fields: seq<Field>, slots: seq<Slot>, a: nat, b: nat)
    requires |slots| == |fields| && a <= b <= |fields|
    requires Span(fields, slots, a, b).Some? && |Span(fields, slots, a, b).value| < U32
    requires forall i | a <= i < b :: Lacks(reader, fields[i].tag) && 1 <= fields[i].tag < MAX_TAG
    ensures Ignorable(reader, Span(fields, slots, a, b).value)
    decreases b - a
  {
    hide EncodeField, Lacks, Ignorable;
    if a == b {
      NothingIgnored(reader);
    } else {
      SpanIgnored(reader, fields, slots, a + 1, b);
      FieldIgnored(reader, fields[a], slots[a], Span(fields, slots, a + 1, b).value);
    }
  }

  lemma NothingIgnored(reader: seq<Field>)
    ensures Ignorable(reader, [])
  {
  }

  /** No other field has the tag of one that is not known. */
  lemma UnknownIsLacking(fields: seq<Field>, known: seq<nat>, k: nat, i: nat)
    requires GoodDescriptor(fields) && Ascending(known, |fields|) && k <= |known|
    requires Start(known, k) <= i < End(known, k, |fields|)
    ensures Lacks(At(fields, known), fields[i].tag) && 1 <= fields[i].tag < MAX_TAG
  {
    forall j | 0 <= j < |known| ensures fields[known[j]].tag != fields[i].tag {
      assert known[j] != i by {
        if j < k - 1 {
          assert known[j] < known[k - 1];
        } else if j > k {
          assert known[k] < known[j];
        }
      }
    }
    assert GoodField(fields[i]);
  }

  /** A reader whose descriptor has only some of the writer's fields gets just these, as they were sent, however
      the fields it does not know lie between them. */
  lemma OlderReader(fields: seq<Field>, slots: seq<Slot>, known: seq<nat>)
    requires GoodDescriptor(fields) && GoodMessage(fields, slots) && Ascending(known, |fields|)
    requires EncodeFrom(fields, slots, 0).Some? && |EncodeFrom(fields, slots, 0).value| < U32
    ensures DecodeLoop(At(fields, known), Defaults(At(fields, known)), {}, None, EncodeFrom(fields, slots, 0).value)
         == Some(SentAll(At(fields, known), At(slots, known)))
  {
    hide GoodDescriptor, GoodSlot, Interleaved, DecodeLoop, Ignorable, Span, EncodeFrom, SentAll, KeptAll, At,
      Ascending, Lacks;
    OlderIsGood(fields, slots, known);
    var reader, noise := At(fields, known), Noise(fields, slots, known);
    NoiseInterleaved(fields, slots, known, 0);
    forall k | 0 <= k < |noise| ensures Ignorable(reader, noise[k]) {
      NoiseIgnored(fields, slots, known, k);
    }
    UnknownFieldsIgnored(reader, At(slots, known), noise);
  }

  lemma NoiseIgnored(fields: seq<Field>, slots: seq<Slot>, known: seq<nat>, k: nat)
    requires GoodDescriptor(fields) && |slots| == |fields| && Ascending(known, |fields|) && k <= |known|
    requires EncodeFrom(fields, slots, 0).Some? && |EncodeFrom(fields, slots, 0).value| < U32
    ensures Ignorable(At(fields, known), Noise(fields, slots, known)[k])
  {
    hide GoodDescriptor, EncodeFrom, Span, Lacks, Ignorable;
    var a, b := Start(known, k), End(known, k, |fields|);
    SpanThenRest(fields, slots, 0, a);
    SpanThenRest(fields, slots, a, b);
    forall i | a <= i < b ensures Lacks(At(fields, known), fields[i].tag) && 1 <= fields[i].tag < MAX_TAG {
      UnknownIsLacking(fields, known, k, i);
    }
    SpanIgnored(At(fields, known), fields, slots, a, b);
  }

  // A reader with a newer descriptor.

  /** What a writer sends that knows only the fields marked, from the i-th on. */
  function Sparse(fields: seq<Field>, slots: seq<Slot>, present: seq<bool>, i: nat): Option<seq<byte>>
    requires |slots| == |fields| == |present| && i <= |fields|
    decreases |fields| - i
  {
    if i == |fields| then Some([])
    else if present[i] then Then(EncodeField(fields[i], slots[i]), Sparse(fields, slots, present, i + 1))
    else Sparse(fields, slots, present, i + 1)
  }

  /** It is what the encoder writes for the older descriptor. */
  lemma {:induction false} SparseIsOlder(fields: seq<Field>, slots: seq<Slot>, known: seq<nat>, present: seq<bool>,
                                         i: nat, k: nat)
    requires |slots| == |fields| == |present| && Ascending(known, |fields|) && i <= |fields| && k <= |known|
    requires forall j | 0 <= j < |fields| :: present[j] <==> j in known
    requires forall j | 0 <= j < |known| :: known[j] < i <==> j < k
    ensures Sparse(fields, slots, present, i) == EncodeFrom(At(fields, known), At(slots, known), k)
    decreases |fields| - i
  {
    hide EncodeField;
    if i < |fields| {
      if present[i] {
        var j :| 0 <= j < |known| && known[j] == i;
        assert j == k by {
          assert j < k || known[k] <= known[j];
        }
        SparseIsOlder(fields, slots, known, present, i + 1, k + 1);
      } else {
        assert forall j | 0 <= j < |known| :: known[j] in known;
        SparseIsOlder(fields, slots, known, present, i + 1, k);
      }
    }
  }

  /** What its reader has then: the fields sent, and for the others what the descriptor sets them to. */
  function Completed(fields: seq<Field>, slots: seq<Slot>, present: seq<bool>): (r: seq<Slot>)
    requires |slots| == |fields| == |present|
    ensures |r| == |fields|
  {
    seq(|fields|, i requires 0 <= i < |fields| =>
      if present[i] then Sent(fields[i], slots[i]) else DefaultSlot(fields[i]))
  }

  /** Exactly the required fields sent were seen, among the first i. */
  ghost predicate SeenUpTo(fields: seq<Field>, present: seq<bool>, seen: set<nat>, i: nat)
    requires i <= |fields| == |present|
  {
    && (forall j | j in seen :: j < i)
    && forall j | 0 <= j < i && fields[j].htype == Required :: j in seen <==> present[j]
  }

  lemma {:induction false} SparseRoundTrip(fields: seq<Field>, slots: seq<Slot>, present: seq<bool>, i: nat,
                                           seen: set<nat>, filling: Option<Filling>)
    requires GoodDescriptor(fields) && GoodMessage(fields, slots) && i <= |fields| == |present|
    requires SeenUpTo(fields, present, seen, i) && Settled(fields, filling, i)
    requires Sparse(fields, slots, present, i).Some? && |Sparse(fields, slots, present, i).value| < U32
    ensures DecodeLoop(fields, UpTo(fields, Completed(fields, slots, present), i), seen, filling,
            Sparse(fields, slots, present, i).value)
         == if AllRequired(fields, present) then Some(Completed(fields, slots, present)) else None
    decreases |fields| - i
  {
    hide GoodDescriptor, GoodSlot, EncodeField, DecodeLoop, Full, Filled, Completed, UpTo, AllRequired;
    var done := Completed(fields, slots, present);
    if i == |fields| {
      AtTheEnd(fields, slots, present, seen, filling);
    } else if present[i] {
      var b, tail := EncodeField(fields[i], slots[i]).value, Sparse(fields, slots, present, i + 1).value;
      PresentStep(fields, slots, present, i, seen, filling, tail);
      SparseRoundTrip(fields, slots, present, i + 1, Visited(seen, i, b), Filled(fields[i], i, filling));
    } else {
      AbsentStep(fields, slots, present, i);
      SettledNext(fields, filling, i);
      SparseRoundTrip(fields, slots, present, i + 1, seen, filling);
    }
  }

  lemma AtTheEnd(fields: seq<Field>, slots: seq<Slot>, present: seq<bool>, seen: set<nat>, filling: Option<Filling>)
    requires |slots| == |fields| == |present|
    requires SeenUpTo(fields, present, seen, |fields|) && Settled(fields, filling, |fields|)
    ensures var done := Completed(fields, slots, present);
            DecodeLoop(fields, UpTo(fields, done, |fields|), seen, filling, [])
            == if AllRequired(fields, present) then Some(done) else None
  {
    hide Full, Completed, RequiredAmong, RequiredBefore, DecodeLoop;
    var done := Completed(fields, slots, present);
    assert UpTo(fields, done, |fields|) == done;
    forall j | 0 <= j < |fields| ensures RequiredBefore(fields, j) == |RequiredAmong(fields, j)| {
      RequiredCounted(fields, j);
    }
    NothingMore(fields, done, seen, filling);
  }

  lemma PresentStep(fields: seq<Field>, slots: seq<Slot>, present: seq<bool>, i: nat, seen: set<nat>,
                    filling: Option<Filling>, tail: seq<byte>)
    requires GoodDescriptor(fields) && GoodMessage(fields, slots) && i < |fields| == |present| && present[i]
    requires Settled(fields, filling, i)
    requires EncodeField(fields[i], slots[i]).Some? && |EncodeField(fields[i], slots[i]).value| < U32
    ensures var b, done := EncodeField(fields[i], slots[i]).value, Completed(fields, slots, present);
            && DecodeLoop(fields, UpTo(fields, done, i), seen, filling, b + tail)
               == DecodeLoop(fields, UpTo(fields, done, i + 1), Visited(seen, i, b), Filled(fields[i], i, filling),
                   tail)
            && (fields[i].htype == Required ==> b != []) && Settled(fields, Filled(fields[i], i, filling), i + 1)
  {
    hide GoodSlot, EncodeField, Defaults, DecodeLoop, UnionClear, Sent, Full, Filled;
    var now := UpTo(fields, Completed(fields, slots, present), i);
    DefaultAt(fields, i);
    if Chosen(slots[i]) {
      OthersUnset(fields, slots, present, i);
    }
    SettledNext(fields, filling, i);
    FieldRoundTrip(fields, i, slots[i], now, seen, filling, tail);
    assert now[i := Sent(fields[i], slots[i])] == UpTo(fields, Completed(fields, slots, present), i + 1);
  }

  lemma AbsentStep(fields: seq<Field>, slots: seq<Slot>, present: seq<bool>, i: nat)
    requires i < |fields| == |slots| == |present| && !present[i]
    ensures var done := Completed(fields, slots, present); UpTo(fields, done, i) == UpTo(fields, done, i + 1)
  {
    hide Defaults, Sent;
    DefaultAt(fields, i);
  }

  lemma SettledNext(fields: seq<Field>, filling: Option<Filling>, i: nat)
    requires i < |fields| && Settled(fields, filling, i)
    ensures NextPlace(fields, filling, i) == Some(0) && Settled(fields, Filled(fields[i], i, filling), i + 1)
    ensures Settled(fields, filling, i + 1)
  {
  }

  lemma NothingMore(fields: seq<Field>, slots: seq<Slot>, seen: set<nat>, filling: Option<Filling>)
    requires |slots| == |fields|
    ensures DecodeLoop(fields, slots, seen, filling, []) == Finish(fields, slots, seen, filling)
  {
  }

  lemma OthersUnset(fields: seq<Field>, slots: seq<Slot>, present: seq<bool>, i: nat)
    requires GoodMessage(fields, slots) && i < |fields| == |present| && Chosen(slots[i])
    ensures UnionClear(fields, i, UpTo(fields, Completed(fields, slots, present), i))
  {
    forall j | 0 <= j < |fields| && j != i && SameUnion(fields[i], fields[j])
      ensures UpTo(fields, Completed(fields, slots, present), i)[j] == Member(None)
    {
      if j < i {
        assert SameUnion(fields[j], fields[i]);
        assert GoodSlot(fields[j], slots[j]);
      } else {
        DefaultAt(fields, j);
      }
    }
  }

  /** Each of the first 64 required fields was sent. */
  ghost predicate AllRequired(fields: seq<Field>, present: seq<bool>)
    requires |present| == |fields|
  {
    forall i | 0 <= i < |fields| && fields[i].htype == Required && |RequiredAmong(fields, i)| < 64 :: present[i]
  }

  ghost function RequiredAmong(fields: seq<Field>, n: nat): set<nat>
    requires n <= |fields|
  {
    set i: nat | i < n && fields[i].htype == Required
  }

  lemma {:induction false} RequiredCounted(fields: seq<Field>, n: nat)
    requires n <= |fields|
    ensures RequiredBefore(fields, n) == |RequiredAmong(fields, n)|
  {
    if n > 0 {
      RequiredCounted(fields, n - 1);
      var before := RequiredAmong(fields, n - 1);
      if fields[n - 1].htype == Required {
        assert RequiredAmong(fields, n) == before + {n - 1} && n - 1 !in before;
      } else {
        assert RequiredAmong(fields, n) == before;
      }
    }
  }

  lemma {:induction false} DefaultIsUntouched(f: Field)
    requires GoodField(f)
    ensures Untouched(f, DefaultSlot(f))
    decreases f, 1
  {
    if !f.ltype.Extension? {
      DefaultIsInitial(f);
    }
  }

  lemma {:induction false} DefaultIsInitial(f: Field)
    requires GoodField(f) && !f.ltype.Extension?
    ensures Initial(f, Default(f))
    decreases f, 0
  {
    if f.ltype.Submessage? {
      var fields := f.ltype.fields;
      forall i | 0 <= i < |fields| ensures Untouched(fields[i], Defaults(fields)[i]) {
        assert GoodField(fields[i]);
        DefaultIsUntouched(fields[i]);
      }
    }
  }

  /** A reader whose descriptor has fields that the writer does not send: it accepts the message exactly if no
      required field is missing, among the first 64 of these, and then has what was sent, and for each other
      field the descriptor's initial value, or zero, or nothing. */
  lemma NewerReader(fields: seq<Field>, slots: seq<Slot>, present: seq<bool>)
    requires GoodDescriptor(fields) && GoodMessage(fields, slots) && |present| == |fields|
    requires Sparse(fields, slots, present, 0).Some? && |Sparse(fields, slots, present, 0).value| < U32
    ensures var back := DecodeLoop(fields, Defaults(fields), {}, None, Sparse(fields, slots, present, 0).value);
            && (back.Some? <==> AllRequired(fields, present))
            && (back.Some? ==> forall i | 0 <= i < |fields| ::
                  if present[i] then back.value[i] == Sent(fields[i], slots[i])
                  else Untouched(fields[i], back.value[i]))
  {
    hide GoodField, GoodSlot, DecodeLoop, Sent, Sparse, AllRequired, Untouched;
    assert UpTo(fields, Completed(fields, slots, present), 0) == Defaults(fields);
    SparseRoundTrip(fields, slots, present, 0, {}, None);
    forall i | 0 <= i < |fields| ensures Untouched(fields[i], DefaultSlot(fields[i])) {
      DefaultIsUntouched(fields[i]);
    }
  }

  /** Storage of a field that was not in the message. */
  predicate Untouched(f: Field, slot: Slot)
    decreases f, 1
  {
    match f.htype
    case Required => slot.One? && Initial(f, slot.v)
    case Optional =>
      if f.ltype.Extension? then slot == NoExtension
      else if f.sizeOffset != 0 then slot.Opt? && !slot.has && Initial(f, slot.v)
      else slot.One? && Initial(f, slot.v)
    case Repeated(max) =>
      if f.sizeOffset != 0 then slot == Many([])
      else slot.Fixed? && |slot.places| == max && forall k | 0 <= k < max :: slot.places[k] == None
    case Oneof(_) => slot == Member(None)
  }

  /** The initial value the descriptor gives; zero without one; a submessage with each field untouched. */
  predicate Initial(f: Field, v: Value)
    decreases f, 0
  {
    match f.ltype
    case Submessage(fields) =>
      v.Struct? && |v.slots| == |fields| && forall i | 0 <= i < |fields| :: Untouched(fields[i], v.slots[i])
    case Octets => v == if f.initial.Some? then f.initial.value else Data([])
    case Text => v == if f.initial.Some? then f.initial.value else Data([])
    case FixedOctets =>
      if f.initial.Some? then v == f.initial.value
      else v.Data? && |v.s| == f.dataSize && forall b | b in v.s :: b == 0
    case _ => v == if f.initial.Some? then f.initial.value else Num(0)
  }
}
