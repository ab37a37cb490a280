/** Decoding undoes encoding, for every message of every well-formed descriptor, also when unknown
    fields stand between the fields of the message. */
module ProtoRoundTrip {
  import opened Bytes
  import opened Options
  import opened Varints
  import opened ProtoMessage
  import opened ProtoWire

  lemma Decoded64(v: nat, rest: seq<byte>)
    requires v < U64
    ensures Decode64(Encode(v) + rest, 0, 0) == Some((v, rest))
  {
    assert Pow2(0) == 1;
    RoundTrip64(v, 0, 0, rest);
  }

  lemma Decoded32(v: nat, rest: seq<byte>)
    requires v < U32
    ensures Decode32(Encode(v) + rest) == Some((v, rest))
  {
    hide Decode32, Encode, Lenient;
    Exact32(v, rest);
  }

  /** A signed number of a field's width, through its 64-bit and 32-bit forms. */
  lemma SignedSurvives(n: int, size: nat)
    requires size in {1, 2, 4, 8} && -Bits(size) <= 2 * n < Bits(size)
    ensures var w: nat := n % U64;
            Clamp(if size == 8 then Signed(w, U64) else Signed(w % U32, U32), true, size) == Some(Num(n))
  {
    var w: nat := n % U64;
    assert w == if n >= 0 then n else n + U64;
    if size != 8 {
      assert w % U32 == if n >= 0 then n else n + U32;
    }
    ClampKeeps(n, size);
  }

  lemma ClampKeeps(n: int, size: nat)
    requires size in {1, 2, 4, 8} && -Bits(size) <= 2 * n < Bits(size)
    ensures Clamp(n, true, size) == Some(Num(n))
  {
    assert n % Bits(size) == if n >= 0 then n else n + Bits(size);
  }

  predicate BackAgain(f: Field, n: int, rest: seq<byte>) {
    && EncodeNumber(f, n).Some? && EncodeNumber(f, n).value != []
    && DecodeNumber(f, EncodeNumber(f, n).value + rest) == Some((Num(n), rest))
  }

  lemma VarintBack(f: Field, n: int, rest: seq<byte>)
    requires f.ltype.Varint? && GoodField(f) && GoodValue(f, Num(n))
    ensures BackAgain(f, n, rest)
  {
    hide Encode, Decode64, Clamp, Signed;
    Decoded64(n % U64, rest);
    SignedSurvives(n, f.dataSize);
  }

  lemma UVarintBack(f: Field, n: int, rest: seq<byte>)
    requires f.ltype.UVarint? && GoodField(f) && GoodValue(f, Num(n))
    ensures BackAgain(f, n, rest)
  {
    hide Encode, Decode64, Clamp;
    UnsignedSurvives(n, f.dataSize);
    Decoded64(n, rest);
  }

  lemma SVarintBack(f: Field, n: int, rest: seq<byte>)
    requires f.ltype.SVarint? && GoodField(f) && GoodValue(f, Num(n))
    ensures BackAgain(f, n, rest)
  {
    hide Encode, Decode64, Clamp, ZigZag, UnZigZag;
    ZigZagRoundTrip(n, 0);
    Decoded64(ZigZag(n), rest);
    ClampKeeps(n, f.dataSize);
  }

  lemma FixedBack(f: Field, n: int, rest: seq<byte>)
    requires (f.ltype.Fixed32? || f.ltype.Fixed64?) && GoodField(f) && GoodValue(f, Num(n))
    ensures BackAgain(f, n, rest)
  {
    hide LittleEndian, LittleValue;
    FixedRoundTrip(n, if f.ltype.Fixed32? then 4 else 8, rest);
    assert n % (if f.ltype.Fixed32? then U32 else U64) == n;
  }

  /** A number of any type comes back from whatever it is followed by. */
  lemma NumberRoundTrip(f: Field, n: int, rest: seq<byte>)
    requires GoodField(f) && GoodValue(f, Num(n))
    ensures BackAgain(f, n, rest)
  {
    hide BackAgain;
    match f.ltype
    case Varint => VarintBack(f, n, rest);
    case UVarint => UVarintBack(f, n, rest);
    case SVarint => SVarintBack(f, n, rest);
    case Fixed32 => FixedBack(f, n, rest);
    case Fixed64 => FixedBack(f, n, rest);
    case _ =>
  }

  lemma UnsignedSurvives(n: int, size: nat)
    requires size in {1, 2, 4, 8} && 0 <= n < Bits(size)
    ensures n % U64 == n && Clamp(n, false, size) == Some(Num(n))
  {
  }

  lemma FixedRoundTrip(n: nat, k: nat, rest: seq<byte>)
    requires (k == 4 && n < U32) || (k == 8 && n < U64)
    ensures LittleValue((LittleEndian(n, k) + rest)[..k]) == n && (LittleEndian(n, k) + rest)[k..] == rest
  {
    assert Pow256(4) == U32 by { PowersUsed(); }
    assert Pow256(8) == 256 * Pow256(7) == 0x1_0000 * Pow256(6) by { PowersUsed(); }
    LittleRoundTrip(n, k);
    assert (LittleEndian(n, k) + rest)[..k] == LittleEndian(n, k);
  }

  lemma StringTaken(b: seq<byte>, rest: seq<byte>)
    requires |b| < U32
    ensures TakeString(Size(|b|) + b + rest) == Some((b, rest))
  {
    hide Encode, Decode32;
    Decoded32(|b|, b + rest);
    assert Size(|b|) + b + rest == Encode(|b|) + (b + rest);
    assert (b + rest)[..|b|] == b && (b + rest)[|b|..] == rest;
  }

  lemma {:induction false} NoNulKept(s: seq<byte>)
    requires forall b | b in s :: b != 0
    ensures UpToNul(s) == s
  {
    if s != [] {
      assert s[0] in s && forall b | b in s[1..] :: b in s;
      NoNulKept(s[1..]);
    }
  }

  lemma DataRoundTrip(f: Field, s: seq<byte>, rest: seq<byte>)
    requires GoodValue(f, Data(s)) && |s| + 1 < U32
    ensures EncodeData(f, s).Some?
    ensures DecodeData(f, EncodeData(f, s).value + rest) == Some((Data(s), rest))
  {
    hide Encode, Decode32;
    Decoded32(|s|, s + rest);
    assert Size(|s|) + s + rest == Encode(|s|) + (s + rest);
    assert (s + rest)[..|s|] == s && (s + rest)[|s|..] == rest;
    if f.ltype.Text? {
      NoNulKept(s);
    }
    if f.ltype.FixedOctets? && s == [] {
      assert s == seq(f.dataSize, _ => 0);
      assert s + rest == rest;
    }
  }

  /** A well-formed message is never refused by the encoder. */
  lemma {:induction false} GoodEncodes(f: Field, v: Value)
    requires GoodField(f) && GoodValue(f, v)
    ensures EncodeValue(f, v).Some?
    decreases f, 0
  {
    if v.Num? {
      NumberRoundTrip(f, v.n, []);
    } else if f.ltype.Submessage? {
      GoodEncodesFrom(f.ltype.fields, v.slots, 0);
    }
  }

  lemma {:induction false} GoodEncodesItems(f: Field, items: seq<Value>, k: nat, prefix: seq<byte>)
    requires GoodField(f) && k <= |items| && forall j | 0 <= j < |items| :: GoodValue(f, items[j])
    ensures EncodeItems(f, items, k, prefix).Some?
    decreases f, 1, |items| - k
  {
    if k < |items| {
      GoodEncodes(f, items[k]);
      GoodEncodesItems(f, items, k + 1, prefix);
    }
  }

  lemma StoredAll(places: seq<Option<Value>>)
    requires forall k | 0 <= k < |places| :: places[k].Some?
    ensures Stored(places).Some?
  {
  }

  lemma {:induction false} GoodEncodesField(f: Field, slot: Slot)
    requires GoodField(f) && GoodSlot(f, slot)
    ensures EncodeField(f, slot).Some?
    decreases f, 2
  {
    hide EncodeValue, EncodeItems, IsProto3Default, Stored;
    if !f.ltype.Extension? {
      match slot
      case Fixed(places) =>
        StoredAll(places);
        GoodEncodesItems(f, Stored(places).value, 0, []);
        GoodEncodesItems(f, Stored(places).value, 0, Tag(f.tag, WireType(f.ltype).value));
      case One(v) => GoodEncodes(f, v);
      case Opt(has, v) => if has { GoodEncodes(f, v); }
      case Many(items) =>
        GoodEncodesItems(f, items, 0, []);
        GoodEncodesItems(f, items, 0, Tag(f.tag, WireType(f.ltype).value));
      case Member(o) => if o.Some? { GoodEncodes(f, o.value); }
    }
  }

  lemma {:induction false} GoodEncodesFrom(fields: seq<Field>, slots: seq<Slot>, i: nat)
    requires GoodDescriptor(fields) && GoodMessage(fields, slots) && i <= |fields|
    ensures EncodeFrom(fields, slots, i).Some?
    decreases fields, |fields| - i
  {
    if i < |fields| {
      GoodEncodesField(fields[i], slots[i]);
      GoodEncodesFrom(fields, slots, i + 1);
    }
  }

  // One key of the loop.

  lemma {:induction false} FindsItsField(fields: seq<Field>, i: nat, from: nat)
    requires GoodDescriptor(fields) && from <= i < |fields| && !fields[i].ltype.Extension?
    ensures Find(fields, fields[i].tag, from) == Some(i)
    decreases i - from
  {
    if from < i {
      FindsItsField(fields, i, from + 1);
    }
  }

  lemma KeyStep(fields: seq<Field>, i: nat, slots: seq<Slot>, seen: set<nat>, filling: Option<Filling>, wireType: nat,
                body: seq<byte>, next: seq<Slot>, fill: Option<Filling>, rest: seq<byte>)
    requires GoodDescriptor(fields) && i < |fields| == |slots| && !fields[i].ltype.Extension? && wireType < 8
    requires DecodeAny(fields, i, slots, filling, wireType, body) == Some((next, fill, rest))
    ensures DecodeLoop(fields, slots, seen, filling, Tag(fields[i].tag, wireType) + body)
         == DecodeLoop(fields, next, seen + {i}, fill, rest)
  {
    hide Encode, Decode32, DecodeAny, Find;
    var key := 8 * fields[i].tag + wireType;
    Decoded32(key, body);
    FindsItsField(fields, i, 0);
  }

  // Octets that the decoder passes over.

  /** A run of whole fields whose tags the message does not have. */
  predicate Ignorable(fields: seq<Field>, u: seq<byte>)
    decreases |u|
  {
    u == [] || (
      match Decode32(u)
      case None => false
      case Some((key, rest)) =>
        key >= 8 && Find(fields, key / 8, 0) == None &&
        match Skip(key % 8, rest)
        case None => false
        case Some(after) => Ignorable(fields, after))
  }

  lemma {:induction false} More32Extends(u: seq<byte>, bitpos: nat, result: nat, t: seq<byte>)
    requires More32(u, bitpos, result).Some?
    ensures More32(u + t, bitpos, result)
            == Some((More32(u, bitpos, result).value.0, More32(u, bitpos, result).value.1 + t))
    decreases |u|
  {
    hide Placed;
    assert (u + t)[1..] == u[1..] + t;
    if u[0] >= 128 {
      var next := if bitpos >= 32 then result else Placed(result, u[0] as nat % 128, bitpos, U32);
      More32Extends(u[1..], (bitpos + 7) % 256, next, t);
    }
  }

  lemma Decode32Extends(u: seq<byte>, t: seq<byte>)
    requires Decode32(u).Some?
    ensures Decode32(u + t) == Some((Decode32(u).value.0, Decode32(u).value.1 + t))
  {
    hide More32;
    assert (u + t)[1..] == u[1..] + t;
    if u[0] >= 128 {
      More32Extends(u[1..], 7, u[0] as nat % 128, t);
    }
  }

  lemma {:induction false} SkipVarintExtends(u: seq<byte>, t: seq<byte>)
    requires SkipVarint(u).Some?
    ensures SkipVarint(u + t) == Some(SkipVarint(u).value + t)
  {
    assert (u + t)[1..] == u[1..] + t;
    if u[0] >= 128 {
      SkipVarintExtends(u[1..], t);
    }
  }

  lemma SkipExtends(wireType: nat, u: seq<byte>, t: seq<byte>)
    requires Skip(wireType, u).Some?
    ensures Skip(wireType, u + t) == Some(Skip(wireType, u).value + t)
  {
    hide Decode32, SkipVarint;
    if wireType == WT_VARINT {
      SkipVarintExtends(u, t);
    } else if wireType == WT_STRING {
      Decode32Extends(u, t);
      var (n, rest) := Decode32(u).value;
      assert (rest + t)[n..] == rest[n..] + t;
    } else {
      var n := if wireType == WT_64BIT then 8 else 4;
      assert (u + t)[n..] == u[n..] + t;
    }
  }

  /** Unknown fields change nothing. */
  lemma {:induction false} IgnorableIsIgnored(fields: seq<Field>, slots: seq<Slot>, seen: set<nat>,
                                              filling: Option<Filling>, u: seq<byte>, t: seq<byte>)
    requires |slots| == |fields| && Ignorable(fields, u)
    ensures DecodeLoop(fields, slots, seen, filling, u + t) == DecodeLoop(fields, slots, seen, filling, t)
    decreases |u|
  {
    hide Decode32, Skip, Find;
    if u == [] {
      assert u + t == t;
    } else {
      Decode32Extends(u, t);
      var (key, rest) := Decode32(u).value;
      SkipExtends(key % 8, rest, t);
      IgnorableIsIgnored(fields, slots, seen, filling, Skip(key % 8, rest).value, t);
      assert u + t != [];
    }
  }

  // Values, fields and messages, by mutual induction on descriptors.

  /** Storage from which a field's decoder starts in a message being decoded for the first time. */
  predicate Fresh(f: Field, was: Value) {
    f.ltype.Submessage? && !f.htype.Repeated? ==> was == Default(f)
  }

  lemma {:induction false} ValueRoundTrip(f: Field, v: Value, was: Value, rest: seq<byte>)
    requires GoodField(f) && GoodValue(f, v) && Fresh(f, was)
    requires EncodeValue(f, v).Some? && |EncodeValue(f, v).value| < U32
    ensures DecodeValue(f, was, EncodeValue(f, v).value + rest) == Some((SentValue(f, v), rest))
    decreases f, 0
  {
    hide Encode, Decode32, DecodeNumber, EncodeNumber, DecodeLoop, EncodeFrom;
    match v
    case Num(n) => NumberRoundTrip(f, n, rest);
    case Data(s) =>
      assert EncodeValue(f, v).value == Size(|s|) + s;
      DataRoundTrip(f, s, rest);
    case Struct(slots) =>
      var fields := f.ltype.fields;
      var b := EncodeFrom(fields, slots, 0).value;
      StringTaken(b, rest);
      MessageRoundTrip(fields, slots);
  }

  lemma {:induction false} PackedRoundTrip(f: Field, max: nat, items: seq<Value>, k: nat)
    requires GoodField(f) && Packable(f.ltype) && k <= |items| <= max
             && forall j | 0 <= j < |items| :: GoodValue(f, items[j])
    requires EncodeItems(f, items, k, []).Some?
    ensures DecodePacked(f, max, items[..k], EncodeItems(f, items, k, []).value) == Some(items)
    decreases |items| - k
  {
    hide EncodeNumber, DecodeNumber;
    if k == |items| {
      assert items[..k] == items;
    } else {
      var b := EncodeNumber(f, items[k].n).value;
      var tail := EncodeItems(f, items, k + 1, []).value;
      NumberRoundTrip(f, items[k].n, tail);
      assert [] + b == b;
      assert items[..k] + [items[k]] == items[..k + 1];
      PackedRoundTrip(f, max, items, k + 1);
    }
  }

  /** The items of an unpacked array come in one by one. */
  lemma {:induction false} ItemsRoundTrip(fields: seq<Field>, i: nat, items: seq<Value>, k: nat, slots: seq<Slot>,
                                          seen: set<nat>, filling: Option<Filling>, rest: seq<byte>)
    requires GoodDescriptor(fields) && i < |fields| == |slots| && !fields[i].ltype.Extension? && !FixedCount(fields[i])
    requires fields[i].htype.Repeated? && k <= |items| <= fields[i].htype.max && !Packable(fields[i].ltype)
    requires slots[i] == Many(SentItems(fields[i], items[..k]))
             && forall j | 0 <= j < |items| :: GoodValue(fields[i], items[j])
    requires var b := EncodeItems(fields[i], items, k, Tag(fields[i].tag, WT_STRING)); b.Some? && |b.value| < U32
    ensures DecodeLoop(fields, slots, seen, filling,
            EncodeItems(fields[i], items, k, Tag(fields[i].tag, WT_STRING)).value + rest)
         == DecodeLoop(fields, slots[i := Many(SentItems(fields[i], items))], if k < |items| then seen + {i}
             else seen, filling, rest)
    decreases fields[i], 1, |items| - k
  {
    hide DecodeLoop, EncodeValue, DecodeValue, Encode, Tag;
    var f := fields[i];
    if k == |items| {
      assert items[..k] == items && slots[i := Many(SentItems(f, items))] == slots;
      assert [] + rest == rest;
    } else {
      var tag, b := Tag(f.tag, WT_STRING), EncodeValue(f, items[k]).value;
      var tail := EncodeItems(f, items, k + 1, tag).value;
      ValueRoundTrip(f, items[k], Zero(f), tail + rest);
      assert SentItems(f, items[..k]) + [SentValue(f, items[k])] == SentItems(f, items[..k + 1]);
      var next := slots[i := Many(SentItems(f, items[..k + 1]))];
      KeyStep(fields, i, slots, seen, filling, WT_STRING, b + (tail + rest), next, filling, tail + rest);
      assert seen + {i} + {i} == seen + {i};
      ItemsRoundTrip(fields, i, items, k + 1, next, seen + {i}, filling, rest);
      assert next[i := Many(SentItems(f, items))] == slots[i := Many(SentItems(f, items))];
      assert (tag + b) + tail + rest == tag + (b + (tail + rest));
    }
  }

  lemma {:induction false} TaggedRoundTrip(fields: seq<Field>, i: nat, v: Value, was: Value, slots: seq<Slot>,
                                           next: seq<Slot>, seen: set<nat>, filling: Option<Filling>, rest: seq<byte>)
    requires GoodDescriptor(fields) && i < |fields| == |slots| == |next|
    requires !fields[i].ltype.Extension? && !fields[i].htype.Repeated?
    requires GoodValue(fields[i], v) && Fresh(fields[i], was)
    requires EncodeTagged(fields[i], v).Some? && |EncodeTagged(fields[i], v).value| < U32
    requires forall s | DecodeValue(fields[i], was, s) == Some((SentValue(fields[i], v), rest)) ::
               DecodeField(fields, i, slots, WireType(fields[i].ltype).value, s) == Some((next, rest))
    ensures DecodeLoop(fields, slots, seen, filling, EncodeTagged(fields[i], v).value + rest)
         == DecodeLoop(fields, next, seen + {i}, filling, rest)
    decreases fields[i], 1, 0
  {
    hide DecodeLoop, EncodeValue, DecodeValue, DecodeField, Encode, Tag;
    var f := fields[i];
    var tag, b := Tag(f.tag, WireType(f.ltype).value), EncodeValue(f, v).value;
    ValueRoundTrip(f, v, was, rest);
    KeyStep(fields, i, slots, seen, filling, WireType(f.ltype).value, b + rest, next, filling, rest);
    assert tag + b + rest == tag + (b + rest);
  }

  function Visited(seen: set<nat>, i: nat, b: seq<byte>): set<nat> {
    if b == [] then seen else seen + {i}
  }

  /** The members of a union other than the chosen one are clear. */
  predicate UnionClear(fields: seq<Field>, i: nat, slots: seq<Slot>)
    requires i < |fields| == |slots|
  {
    forall j | 0 <= j < |fields| && j != i && SameUnion(fields[i], fields[j]) :: slots[j] == Member(None)
  }

  lemma {:induction false} PackedFieldRoundTrip(fields: seq<Field>, i: nat, items: seq<Value>, slots: seq<Slot>,
                                                seen: set<nat>, filling: Option<Filling>, rest: seq<byte>)
    requires GoodDescriptor(fields) && i < |fields| == |slots| && fields[i].htype.Repeated? && Packable(fields[i].ltype)
    requires !FixedCount(fields[i]) && slots[i] == Many([])
    requires 0 < |items| <= fields[i].htype.max && forall k | 0 <= k < |items| :: GoodValue(fields[i], items[k])
    requires var b := EncodeArray(fields[i], fields[i].htype.max, items); b.Some? && |b.value| < U32
    ensures DecodeLoop(fields, slots, seen, filling, EncodeArray(fields[i], fields[i].htype.max, items).value + rest)
         == DecodeLoop(fields, slots[i := Many(items)], seen + {i}, filling, rest)
  {
    hide DecodeLoop, EncodeItems, DecodePacked, Encode, Decode32, Tag, Size;
    var f := fields[i];
    var b := EncodeItems(f, items, 0, []).value;
    PackedRoundTrip(f, f.htype.max, items, 0);
    assert items[..0] == [];
    StringTaken(b, rest);
    KeyStep(fields, i, slots, seen, filling, WT_STRING, Size(|b|) + b + rest, slots[i := Many(items)], filling, rest);
    assert Tag(f.tag, WT_STRING) + Size(|b|) + b + rest == Tag(f.tag, WT_STRING) + (Size(|b|) + b + rest);
  }

  // Arrays of fixed count: whatever their places hold, all of them are overwritten.

  function Filled(f: Field, i: nat, filling: Option<Filling>): Option<Filling> {
    if FixedCount(f) then Some(Filling(i, f.htype.max)) else filling
  }

  function SentPlaces(f: Field, items: seq<Value>): (r: seq<Option<Value>>)
    ensures |r| == |items|
  {
    seq(|items|, k requires 0 <= k < |items| => Some(SentValue(f, items[k])))
  }

  lemma {:induction false} FillPackedRoundTrip(f: Field, items: seq<Value>, places: seq<Option<Value>>, k: nat)
    requires GoodField(f) && Packable(f.ltype) && k <= |items| == |places|
             && forall j | 0 <= j < |items| :: GoodValue(f, items[j])
    requires EncodeItems(f, items, k, []).Some? && places[..k] == SentPlaces(f, items)[..k]
    ensures FillPacked(f, places, k, EncodeItems(f, items, k, []).value) == Some((SentPlaces(f, items), |items|))
    decreases |items| - k
  {
    hide EncodeNumber, DecodeNumber;
    if k == |items| {
      assert places == SentPlaces(f, items);
    } else {
      var b := EncodeNumber(f, items[k].n).value;
      var tail := EncodeItems(f, items, k + 1, []).value;
      NumberRoundTrip(f, items[k].n, tail);
      assert [] + b == b;
      var next := places[k := Some(items[k])];
      assert next[..k + 1] == places[..k] + [Some(items[k])] == SentPlaces(f, items)[..k + 1];
      FillPackedRoundTrip(f, items, next, k + 1);
    }
  }

  lemma {:induction false} PackedPlacesRoundTrip(fields: seq<Field>, i: nat, items: seq<Value>, slots: seq<Slot>,
                                                 seen: set<nat>, filling: Option<Filling>, rest: seq<byte>)
    requires GoodDescriptor(fields) && i < |fields| == |slots| && FixedCount(fields[i]) && Packable(fields[i].ltype)
    requires slots[i].Fixed? && |slots[i].places| == |items| == fields[i].htype.max
    requires NextPlace(fields, filling, i) == Some(0) && forall k | 0 <= k < |items| :: GoodValue(fields[i], items[k])
    requires var b := EncodeArray(fields[i], |items|, items); b.Some? && |b.value| < U32
    ensures DecodeLoop(fields, slots, seen, filling, EncodeArray(fields[i], |items|, items).value + rest)
         == DecodeLoop(fields, slots[i := Fixed(SentPlaces(fields[i], items))], seen + {i}, Some(Filling(i, |items|)),
             rest)
  {
    hide DecodeLoop, EncodeItems, FillPacked, Encode, Decode32, Tag, Size;
    var f, places := fields[i], slots[i].places;
    assert GoodField(f);
    var b := EncodeItems(f, items, 0, []).value;
    FillPackedRoundTrip(f, items, places, 0);
    StringTaken(b, rest);
    KeyStep(fields, i, slots, seen, filling, WT_STRING, Size(|b|) + b + rest,
            slots[i := Fixed(SentPlaces(f, items))], Some(Filling(i, |items|)), rest);
    assert Tag(f.tag, WT_STRING) + Size(|b|) + b + rest == Tag(f.tag, WT_STRING) + (Size(|b|) + b + rest);
  }

  lemma {:induction false} PlacesRoundTrip(fields: seq<Field>, i: nat, items: seq<Value>, k: nat, slots: seq<Slot>,
                                           seen: set<nat>, filling: Option<Filling>, rest: seq<byte>)
    requires GoodDescriptor(fields) && i < |fields| == |slots| && FixedCount(fields[i])
    requires !fields[i].ltype.Extension? && !Packable(fields[i].ltype)
    requires slots[i].Fixed? && k < |items| == |slots[i].places| == fields[i].htype.max
    requires slots[i].places[..k] == SentPlaces(fields[i], items)[..k]
             && forall j | 0 <= j < |items| :: GoodValue(fields[i], items[j])
    requires NextPlace(fields, filling, i) == Some(k)
    requires var b := EncodeItems(fields[i], items, k, Tag(fields[i].tag, WT_STRING)); b.Some? && |b.value| < U32
    ensures DecodeLoop(fields, slots, seen, filling,
            EncodeItems(fields[i], items, k, Tag(fields[i].tag, WT_STRING)).value + rest)
         == DecodeLoop(fields, slots[i := Fixed(SentPlaces(fields[i], items))], seen + {i}, Some(Filling(i, |items|)),
             rest)
    decreases fields[i], 1, |items| - k
  {
    hide DecodeLoop, EncodeValue, DecodeValue, Encode, Tag;
    var f, places := fields[i], slots[i].places;
    var tag, b := Tag(f.tag, WT_STRING), EncodeValue(f, items[k]).value;
    var tail := EncodeItems(f, items, k + 1, tag).value;
    ValueRoundTrip(f, items[k], Zero(f), tail + rest);
    var after := places[k := Some(SentValue(f, items[k]))];
    assert after[..k + 1] == places[..k] + [Some(SentValue(f, items[k]))] == SentPlaces(f, items)[..k + 1];
    var next, fill := slots[i := Fixed(after)], Some(Filling(i, k + 1));
    KeyStep(fields, i, slots, seen, filling, WT_STRING, b + (tail + rest), next, fill, tail + rest);
    assert (tag + b) + tail + rest == tag + (b + (tail + rest));
    if k + 1 < |items| {
      assert seen + {i} + {i} == seen + {i};
      PlacesRoundTrip(fields, i, items, k + 1, next, seen + {i}, fill, rest);
      assert next[i := Fixed(SentPlaces(f, items))] == slots[i := Fixed(SentPlaces(f, items))];
    } else {
      assert after == SentPlaces(f, items);
      assert tail == [] && tail + rest == rest;
    }
  }

  lemma {:induction false} FixedFieldRoundTrip(fields: seq<Field>, i: nat, places: seq<Option<Value>>, slots: seq<Slot>,
                                               seen: set<nat>, filling: Option<Filling>, rest: seq<byte>)
    requires GoodDescriptor(fields) && i < |fields| == |slots| && FixedCount(fields[i]) && !fields[i].ltype.Extension?
    requires GoodSlot(fields[i], Fixed(places)) && NextPlace(fields, filling, i) == Some(0)
    requires slots[i].Fixed? && |slots[i].places| == |places|
    requires EncodeField(fields[i], Fixed(places)).Some? && |EncodeField(fields[i], Fixed(places)).value| < U32
    ensures var b := EncodeField(fields[i], Fixed(places)).value;
            && DecodeLoop(fields, slots, seen, filling, b + rest)
               == DecodeLoop(fields, slots[i := Sent(fields[i], Fixed(places))], seen + {i},
                   Some(Filling(i, |places|)), rest)
            && b != []
    decreases fields[i], 2, 0
  {
    hide DecodeLoop, EncodeItems, Encode, Stored, GoodValue;
    var f, items := fields[i], Stored(places).value;
    assert GoodField(f);
    assert Sent(f, Fixed(places)) == Fixed(SentPlaces(f, items));
    if Packable(f.ltype) {
      PackedPlacesRoundTrip(fields, i, items, slots, seen, filling, rest);
    } else {
      PlacesRoundTrip(fields, i, items, 0, slots, seen, filling, rest);
      ItemsNotEmpty(f, items, Tag(f.tag, WT_STRING));
    }
  }

  lemma ItemsNotEmpty(f: Field, items: seq<Value>, prefix: seq<byte>)
    requires items != [] && prefix != []
    ensures EncodeItems(f, items, 0, prefix) != Some([])
  {
  }

  /** What the encoder wrote for a field takes it from its default to its value. */
  lemma {:induction false} FieldRoundTrip(fields: seq<Field>, i: nat, slot: Slot, slots: seq<Slot>, seen: set<nat>,
                                          filling: Option<Filling>, rest: seq<byte>)
    requires GoodDescriptor(fields) && i < |fields| == |slots| && GoodSlot(fields[i], slot)
    requires slots[i] == DefaultSlot(fields[i]) && (Chosen(slot) ==> UnionClear(fields, i, slots))
    requires NextPlace(fields, filling, i) == Some(0)
    requires EncodeField(fields[i], slot).Some? && |EncodeField(fields[i], slot).value| < U32
    ensures var b := EncodeField(fields[i], slot).value;
            && DecodeLoop(fields, slots, seen, filling, b + rest)
               == DecodeLoop(fields, slots[i := Sent(fields[i], slot)], Visited(seen, i, b),
                   Filled(fields[i], i, filling), rest)
            && (fields[i].htype == Required ==> b != [])
    decreases fields[i], 3, 0
  {
    hide DecodeLoop, EncodeValue, DecodeValue, Encode, IsProto3Default, GoodValue, SentValue, Stored;
    var f := fields[i];
    var b := EncodeField(f, slot).value;
    if b == [] {
      assert b + rest == rest;
    }
    if f.ltype.Extension? || slots[i] == Sent(f, slot) {
      assert slots[i := Sent(f, slot)] == slots;
    }
    if !f.ltype.Extension? {
      match slot
      case One(v) =>
        if !(HasLess(f) && IsProto3Default(f, slot)) {
          TaggedRoundTrip(fields, i, v, Default(f), slots, slots[i := Sent(f, slot)], seen, filling, rest);
        }
      case Opt(has, v) =>
        if has {
          TaggedRoundTrip(fields, i, v, Default(f), slots, slots[i := Sent(f, slot)], seen, filling, rest);
        }
      case Member(o) =>
        if o.Some? {
          assert Select(fields, slots, i, SentValue(f, o.value)) == slots[i := Sent(f, slot)];
          TaggedRoundTrip(fields, i, o.value, Default(f), slots, slots[i := Sent(f, slot)], seen, filling, rest);
        }
      case Fixed(places) =>
        FixedFieldRoundTrip(fields, i, places, slots, seen, filling, rest);
      case Many(items) =>
        if items != [] {
          if Packable(f.ltype) {
            NumbersAreSent(f, items);
            PackedFieldRoundTrip(fields, i, items, slots, seen, filling, rest);
          } else {
            assert items[..0] == [];
            ItemsRoundTrip(fields, i, items, 0, slots, seen, filling, rest);
          }
        }
    }
  }

  lemma NumbersAreSent(f: Field, items: seq<Value>)
    requires Packable(f.ltype)
    ensures SentItems(f, items) == items
  {
  }

  /** The encoding of fields i and up, with noise[j] in front of field j and the last noise at the end. */
  function Interleaved(fields: seq<Field>, slots: seq<Slot>, noise: seq<seq<byte>>, i: nat): Option<seq<byte>>
    requires |slots| == |fields| && |noise| == |fields| + 1 && i <= |fields|
    decreases |fields| - i
  {
    if i == |fields| then Some(noise[i])
    else Then(Then(Some(noise[i]), EncodeField(fields[i], slots[i])), Interleaved(fields, slots, noise, i + 1))
  }

  /** Of the first i fields only arrays that are full may have been filled last. */
  predicate Settled(fields: seq<Field>, filling: Option<Filling>, i: nat) {
    Full(fields, filling) && (filling.Some? ==> filling.value.field < i)
  }

  /** A message of which the first i fields have been decoded. */
  function UpTo(fields: seq<Field>, slots: seq<Slot>, i: nat): (r: seq<Slot>)
    requires |slots| == |fields| && i <= |fields|
    ensures |r| == |fields|
  {
    slots[..i] + Defaults(fields)[i..]
  }

  predicate RequiredUpTo(fields: seq<Field>, seen: set<nat>, i: nat)
    requires i <= |fields|
  {
    forall j | 0 <= j < i && fields[j].htype == Required :: j in seen
  }

  lemma OthersClear(fields: seq<Field>, slots: seq<Slot>, i: nat)
    requires GoodMessage(fields, slots) && i < |fields| && Chosen(slots[i])
    ensures UnionClear(fields, i, UpTo(fields, SentAll(fields, slots), i))
  {
    forall j | 0 <= j < |fields| && j != i && SameUnion(fields[i], fields[j])
      ensures UpTo(fields, SentAll(fields, slots), i)[j] == Member(None)
    {
      if j < i {
        assert SameUnion(fields[j], fields[i]);
        assert GoodSlot(fields[j], slots[j]);
      } else {
        DefaultAt(fields, j);
      }
    }
  }

  /** One field and the noise before it. */
  lemma {:induction false} StepRoundTrip(fields: seq<Field>, slots: seq<Slot>, i: nat, u: seq<byte>, seen: set<nat>,
                                         filling: Option<Filling>, tail: seq<byte>)
    requires GoodDescriptor(fields) && GoodMessage(fields, slots) && i < |fields| && Ignorable(fields, u)
    requires Settled(fields, filling, i)
    requires EncodeField(fields[i], slots[i]).Some? && |EncodeField(fields[i], slots[i]).value| < U32
    ensures var b, sent := EncodeField(fields[i], slots[i]).value, SentAll(fields, slots);
            && DecodeLoop(fields, UpTo(fields, sent, i), seen, filling, u + b + tail)
               == DecodeLoop(fields, UpTo(fields, sent, i + 1), Visited(seen, i, b), Filled(fields[i], i, filling),
                   tail)
            && (fields[i].htype == Required ==> b != []) && Settled(fields, Filled(fields[i], i, filling), i + 1)
    decreases fields, 0, 0, 0
  {
    hide GoodSlot, EncodeField, Ignorable, Defaults, DecodeLoop, UnionClear, Sent;
    var now, b := UpTo(fields, SentAll(fields, slots), i), EncodeField(fields[i], slots[i]).value;
    assert u + b + tail == u + (b + tail);
    IgnorableIsIgnored(fields, now, seen, filling, u, b + tail);
    DefaultAt(fields, i);
    if Chosen(slots[i]) {
      OthersClear(fields, slots, i);
    }
    FieldRoundTrip(fields, i, slots[i], now, seen, filling, tail);
    assert now[i := Sent(fields[i], slots[i])] == UpTo(fields, SentAll(fields, slots), i + 1);
  }

  lemma EndRoundTrip(fields: seq<Field>, slots: seq<Slot>, u: seq<byte>, seen: set<nat>, filling: Option<Filling>)
    requires |slots| == |fields| && Ignorable(fields, u) && RequiredUpTo(fields, seen, |fields|)
             && Full(fields, filling)
    ensures DecodeLoop(fields, UpTo(fields, slots, |fields|), seen, filling, u) == Some(slots)
  {
    hide Ignorable, Defaults;
    assert UpTo(fields, slots, |fields|) == slots && u + [] == u;
    IgnorableIsIgnored(fields, slots, seen, filling, u, []);
  }

  lemma {:induction false} FromRoundTrip(fields: seq<Field>, slots: seq<Slot>, noise: seq<seq<byte>>, i: nat,
                                         seen: set<nat>, filling: Option<Filling>)
    requires GoodDescriptor(fields) && GoodMessage(fields, slots) && i <= |fields| == |slots|
    requires |noise| == |fields| + 1 && forall j | 0 <= j < |noise| :: Ignorable(fields, noise[j])
    requires RequiredUpTo(fields, seen, i) && Settled(fields, filling, i)
    requires Interleaved(fields, slots, noise, i).Some? && |Interleaved(fields, slots, noise, i).value| < U32
    ensures DecodeLoop(fields, UpTo(fields, SentAll(fields, slots), i), seen, filling,
            Interleaved(fields, slots, noise, i).value)
         == Some(SentAll(fields, slots))
    decreases fields, 0, 1, |fields| - i
  {
    hide GoodDescriptor, GoodMessage, EncodeField, Ignorable, DecodeLoop, UpTo, SentAll, Full, Filled;
    if i == |fields| {
      EndRoundTrip(fields, SentAll(fields, slots), noise[i], seen, filling);
    } else {
      var b, tail := EncodeField(fields[i], slots[i]).value, Interleaved(fields, slots, noise, i + 1).value;
      StepRoundTrip(fields, slots, i, noise[i], seen, filling, tail);
      FromRoundTrip(fields, slots, noise, i + 1, Visited(seen, i, b), Filled(fields[i], i, filling));
    }
  }

  lemma DefaultAt(fields: seq<Field>, i: nat)
    requires i < |fields|
    ensures Defaults(fields)[i] == DefaultSlot(fields[i])
  {
  }

  function Silence(n: nat): seq<seq<byte>> {
    seq(n, _ => [])
  }

  lemma {:induction false} NothingBetween(fields: seq<Field>, slots: seq<Slot>, i: nat)
    requires |slots| == |fields| && i <= |fields|
    ensures Interleaved(fields, slots, Silence(|fields| + 1), i) == EncodeFrom(fields, slots, i)
    decreases |fields| - i
  {
    hide EncodeField;
    if i < |fields| {
      NothingBetween(fields, slots, i + 1);
      var b := EncodeField(fields[i], slots[i]);
      assert b.Some? ==> [] + b.value == b.value;
    }
  }

  /** pb_decode of pb_encode(m) is m, but for the submessages that the presence test takes for default: it is
      m exactly when there is none. */
  lemma {:induction false} MessageRoundTrip(fields: seq<Field>, slots: seq<Slot>)
    requires GoodDescriptor(fields) && GoodMessage(fields, slots)
    requires EncodeFrom(fields, slots, 0).Some? && |EncodeFrom(fields, slots, 0).value| < U32
    ensures var back := DecodeLoop(fields, Defaults(fields), {}, None, EncodeFrom(fields, slots, 0).value);
            back == Some(SentAll(fields, slots)) && (back == Some(slots) <==> KeptAll(fields, slots))
    decreases fields, 1, 0, 0
  {
    hide DecodeLoop, KeptAll;
    NothingBetween(fields, slots, 0);
    assert UpTo(fields, SentAll(fields, slots), 0) == Defaults(fields);
    FromRoundTrip(fields, slots, Silence(|fields| + 1), 0, {}, None);
    SentAllWhole(fields, slots);
  }

  /** The same with unknown fields anywhere between the fields of the message, before and after. */
  lemma UnknownFieldsIgnored(fields: seq<Field>, slots: seq<Slot>, noise: seq<seq<byte>>)
    requires GoodDescriptor(fields) && GoodMessage(fields, slots)
    requires |noise| == |fields| + 1 && forall j | 0 <= j < |noise| :: Ignorable(fields, noise[j])
    requires Interleaved(fields, slots, noise, 0).Some? && |Interleaved(fields, slots, noise, 0).value| < U32
    ensures var back := DecodeLoop(fields, Defaults(fields), {}, None, Interleaved(fields, slots, noise, 0).value);
            back == Some(SentAll(fields, slots)) && (back == Some(slots) <==> KeptAll(fields, slots))
  {
    assert UpTo(fields, SentAll(fields, slots), 0) == Defaults(fields);
    FromRoundTrip(fields, slots, noise, 0, {}, None);
    SentAllWhole(fields, slots);
  }

  /** No message is refused by the encoder, and different messages that are sent whole have different
      encodings. */
  lemma EncodingIsInjective(fields: seq<Field>, m1: seq<Slot>, m2: seq<Slot>)
    requires GoodDescriptor(fields) && GoodMessage(fields, m1) && GoodMessage(fields, m2)
    ensures EncodeFrom(fields, m1, 0).Some? && EncodeFrom(fields, m2, 0).Some?
    ensures EncodeFrom(fields, m1, 0) == EncodeFrom(fields, m2, 0) && |EncodeFrom(fields, m1, 0).value| < U32 ==>
              SentAll(fields, m1) == SentAll(fields, m2) && (KeptAll(fields, m1) && KeptAll(fields, m2) ==> m1 == m2)
  {
    hide EncodeFrom, DecodeLoop;
    GoodEncodesFrom(fields, m1, 0);
    GoodEncodesFrom(fields, m2, 0);
    if EncodeFrom(fields, m1, 0) == EncodeFrom(fields, m2, 0) && |EncodeFrom(fields, m1, 0).value| < U32 {
      MessageRoundTrip(fields, m1);
      MessageRoundTrip(fields, m2);
    }
  }

  /** Descriptors in which no presence test looks at an array of fixed count. */
  predicate NothingTested(fields: seq<Field>)
    decreases fields
  {
    forall i | 0 <= i < |fields| :: NoneTested(fields[i])
  }

  predicate NoneTested(f: Field)
    decreases f
  {
    !(HasLess(f) && TestsArray(f)) && (f.ltype.Submessage? ==> NothingTested(f.ltype.fields))
  }

  lemma {:induction false} AlwaysKept(fields: seq<Field>, slots: seq<Slot>)
    requires NothingTested(fields) && |slots| == |fields|
    ensures KeptAll(fields, slots)
    decreases slots
  {
    forall i | 0 <= i < |slots| ensures Kept(fields[i], slots[i]) {
      FieldAlwaysKept(fields[i], slots[i]);
    }
  }

  lemma {:induction false} FieldAlwaysKept(f: Field, slot: Slot)
    requires NoneTested(f)
    ensures Kept(f, slot)
    decreases slot, 1
  {
    hide KeptValue;
    match slot
    case One(v) => ValueAlwaysKept(f, v);
    case Opt(has, v) => ValueAlwaysKept(f, v);
    case Many(items) =>
      forall k | 0 <= k < |items| ensures KeptValue(f, items[k]) {
        ValueAlwaysKept(f, items[k]);
      }
    case Fixed(places) =>
      forall k | 0 <= k < |places| && places[k].Some? ensures KeptValue(f, places[k].value) {
        ValueAlwaysKept(f, places[k].value);
      }
    case Member(o) => if o.Some? { ValueAlwaysKept(f, o.value); }
    case NoExtension =>
  }

  lemma {:induction false} ValueAlwaysKept(f: Field, v: Value)
    requires NoneTested(f)
    ensures KeptValue(f, v)
    decreases v, 0
  {
    if v.Struct? && f.ltype.Submessage? && |v.slots| == |f.ltype.fields| {
      AlwaysKept(f.ltype.fields, v.slots);
    }
  }

  /** With such a descriptor every message comes back as it was. */
  lemma PlainRoundTrip(fields: seq<Field>, slots: seq<Slot>)
    requires GoodDescriptor(fields) && GoodMessage(fields, slots) && NothingTested(fields)
    requires EncodeFrom(fields, slots, 0).Some? && |EncodeFrom(fields, slots, 0).value| < U32
    ensures DecodeLoop(fields, Defaults(fields), {}, None, EncodeFrom(fields, slots, 0).value) == Some(slots)
  {
    AlwaysKept(fields, slots);
    MessageRoundTrip(fields, slots);
  }

  /** A message of one field that is skipped is encoded as nothing and comes back as the default. */
  lemma SkippedAlone(f: Field, slot: Slot)
    requires HasLess(f) && !f.ltype.Extension? && slot.One? && IsProto3Default(f, slot)
    ensures EncodeFrom([f], [slot], 0) == Some([])
    ensures DecodeLoop([f], Defaults([f]), {}, None, []) == Some([DefaultSlot(f)])
  {
    hide DefaultSlot, IsProto3Default;
    assert EncodeField([f][0], [slot][0]) == Some([]);
    assert EncodeFrom([f], [slot], 1) == Some([]);
    var nothing: seq<byte> := [];
    assert nothing + nothing == nothing;
    assert Defaults([f]) == [DefaultSlot(f)];
  }

  const PAIR: Field := Field(1, Repeated(2), UVarint, 0, 0, 4, None)
  const HOLDER: Field := Field(1, Optional, Submessage([PAIR]), 0, 0, 8, None)

  /** A submessage without a flag, in it an array of two numbers of four octets: 0 and 7. The test finds the
      array's first word zero, nothing is written, and the 7 is lost. */
  lemma ArrayLost()
    ensures var m := [One(Struct([Fixed([Some(Num(0)), Some(Num(7))])]))];
            && GoodDescriptor([HOLDER]) && GoodMessage([HOLDER], m) && EncodeFrom([HOLDER], m, 0) == Some([])
            && DecodeLoop([HOLDER], Defaults([HOLDER]), {}, None, []) == Some([One(Struct([Fixed([None, None])]))])
  {
    hide EncodeFrom, DecodeLoop;
    var places := [Some(Num(0)), Some(Num(7))];
    var v := Struct([Fixed(places)]);
    assert GoodSlot(PAIR, Fixed(places)) && GoodField(PAIR);
    assert GoodDescriptor([PAIR]) && GoodMessage([PAIR], v.slots);
    assert GoodField(HOLDER) && GoodSlot(HOLDER, One(v));
    assert IsProto3Default(PAIR, Fixed(places)) && AllProto3Default([PAIR], [Fixed(places)], 0);
    assert IsZeroValue(HOLDER, v);
    SkippedAlone(HOLDER, One(v));
    assert DefaultSlot(PAIR) == Fixed([None, None]);
    assert Defaults([PAIR]) == [DefaultSlot(PAIR)] && DefaultSlot(HOLDER) == One(Struct(Defaults([PAIR])));
  }
}
