/** Message descriptors and message values, as nanopb's generated tables and structs describe them. */
module ProtoMessage {
  import opened Bytes
  import opened Options

  datatype LType =
    | Varint | UVarint | SVarint | Fixed32 | Fixed64
    | Octets                              // a counted octet array
    | Text                                // a NUL-terminated string
    | Submessage(fields: seq<Field>)
    | Extension                           // placeholder; no extension is registered
    | FixedOctets                         // an octet array of fixed length

  datatype HType = Required | Optional | Repeated(max: nat) | Oneof(group: nat)

  /** One descriptor entry. dataOffset counts from the end of the previous entry's data; sizeOffset
      leads from the data to its count, flag or selector, and is zero when there is none. */
  datatype Field = Field(tag: nat, htype: HType, ltype: LType, dataOffset: nat, sizeOffset: int, dataSize: nat,
                         initial: Option<Value>)

  datatype Value = Num(n: int) | Data(s: seq<byte>) | Struct(slots: seq<Slot>)

  /** The storage of one field. An array of fixed count has no counter: a place of it is None until something
      is decoded into it, and its memory then is what it was before. A oneof member holds a value only while
      its union's selector names it. */
  datatype Slot =
    | One(v: Value)
    | Opt(has: bool, v: Value)
    | Many(items: seq<Value>)
    | Fixed(places: seq<Option<Value>>)
    | Member(o: Option<Value>)
    | NoExtension

  predicate Packable(t: LType) {
    t.Varint? || t.UVarint? || t.SVarint? || t.Fixed32? || t.Fixed64?
  }

  predicate HasFlag(f: Field) {
    f.sizeOffset != 0
  }

  /** An array that always has as many items as it has room for. */
  predicate FixedCount(f: Field) {
    f.htype.Repeated? && f.sizeOffset == 0
  }

  function Zero(f: Field): Value
    decreases f, 0
  {
    match f.ltype
    case Octets => Data([])
    case Text => Data([])
    case FixedOctets => Data(seq(f.dataSize, _ => 0))
    case Submessage(fields) => Struct(Defaults(fields))
    case _ => Num(0)
  }

  /** What a field's data is set to before decoding. */
  function Default(f: Field): Value
    decreases f, 1
  {
    if f.ltype.Submessage? then Struct(Defaults(f.ltype.fields))
    else if f.initial.Some? then f.initial.value
    else Zero(f)
  }

  /** pb_field_set_to_default. */
  function DefaultSlot(f: Field): Slot
    decreases f, 2
  {
    if f.ltype.Extension? then NoExtension
    else
      match f.htype
      case Required => One(Default(f))
      case Optional => if HasFlag(f) then Opt(false, Default(f)) else One(Default(f))
      case Repeated(max) => if FixedCount(f) then Fixed(seq(max, _ => None)) else Many([])
      case Oneof(_) => Member(None)
  }

  /** pb_message_set_to_defaults. */
  function Defaults(fields: seq<Field>): (slots: seq<Slot>)
    ensures |slots| == |fields|
    decreases fields
  {
    seq(|fields|, i requires 0 <= i < |fields| => DefaultSlot(fields[i]))
  }

  // pb_check_proto3_default_value: whether an optional field without a flag is left out.

  predicate IsProto3Default(f: Field, slot: Slot)
    decreases f, 1
  {
    if f.ltype.Extension? then true
    else
      match slot
      case Many(items) => items == []
      case Fixed(places) => places == [] || places[0] == None || FirstWordZero(f, places[0].value)
      case Member(o) => o == None
      case Opt(has, _) => !has
      case One(v) => f.htype != Required && IsZeroValue(f, v)
      case NoExtension => true
  }

  predicate IsZeroValue(f: Field, v: Value)
    decreases f, 0
  {
    match v
    case Num(n) => n == 0
    case Data(s) => if f.ltype.FixedOctets? then f.dataSize == 0 else s == []
    case Struct(slots) =>
      f.ltype.Submessage? && |slots| == |f.ltype.fields| && AllProto3Default(f.ltype.fields, slots, 0)
  }

  predicate AllProto3Default(fields: seq<Field>, slots: seq<Slot>, i: nat)
    requires |slots| == |fields| && i <= |fields|
    decreases fields, |fields| - i
  {
    i == |fields| || (IsProto3Default(fields[i], slots[i]) && AllProto3Default(fields, slots, i + 1))
  }

  /** The test of an array takes the array's first word for its counter. A reset has cleared that word. */
  predicate FirstWordZero(f: Field, v: Value) {
    match v
    case Num(n) => n % 0x1_0000_0000 == 0
    case Data(s) => if f.ltype.FixedOctets? then |s| >= 4 && s[..4] == [0, 0, 0, 0] else s == []
    case Struct(_) => false
  }

  /** The first word of such an array belongs to its first item, and is clear as FirstWordZero says. */
  predicate WordSized(f: Field) {
    match f.ltype
    case Fixed32 => true
    case Fixed64 => true
    case Octets => true
    case Varint => f.dataSize in {4, 8}
    case UVarint => f.dataSize in {4, 8}
    case SVarint => f.dataSize in {4, 8}
    case FixedOctets => f.dataSize >= 4
    case _ => false
  }

  // Well-formed descriptors and messages.

  const MAX_TAG: nat := 0x2000_0000

  predicate GoodDescriptor(fields: seq<Field>)
    decreases fields
  {
    && (forall i | 0 <= i < |fields| :: GoodField(fields[i]))
    && (forall i, j | 0 <= i < j < |fields| :: fields[i].tag != fields[j].tag)
  }

  predicate GoodField(f: Field)
    decreases f
  {
    && 1 <= f.tag < MAX_TAG
    && ((f.ltype.Varint? || f.ltype.UVarint? || f.ltype.SVarint?) ==> f.dataSize in {1, 2, 4, 8})
    && (HasLess(f) ==> f.ltype.Submessage? || f.initial == None)
    && (f.ltype.Extension? ==> f.htype == Optional)
    && (FixedCount(f) ==> f.htype.max >= 1)
    && (f.ltype.Submessage? ==> GoodDescriptor(f.ltype.fields) && (HasLess(f) ==> ArraysWordSized(f.ltype.fields)))
  }

  /** An optional field without a flag, as all singular fields are in proto3. */
  predicate HasLess(f: Field) {
    f.htype == Optional && !HasFlag(f)
  }

  predicate ArraysWordSized(fields: seq<Field>) {
    forall i | 0 <= i < |fields| && FixedCount(fields[i]) :: WordSized(fields[i])
  }

  /** How many values a machine integer of the given number of octets has. */
  function Bits(size: nat): int {
    if size == 1 then 0x100 else if size == 2 then 0x1_0000 else if size == 4 then 0x1_0000_0000
    else 0x1_0000_0000_0000_0000
  }

  /** A value that a field's memory can hold; strings are terminated within it. */
  predicate GoodValue(f: Field, v: Value)
    decreases f, 0
  {
    match f.ltype
    case Varint => v.Num? && -Bits(f.dataSize) <= 2 * v.n < Bits(f.dataSize)
    case SVarint => v.Num? && -Bits(f.dataSize) <= 2 * v.n < Bits(f.dataSize)
    case UVarint => v.Num? && 0 <= v.n < Bits(f.dataSize)
    case Fixed32 => v.Num? && 0 <= v.n < 0x1_0000_0000
    case Fixed64 => v.Num? && 0 <= v.n < 0x1_0000_0000_0000_0000
    case Octets => v.Data? && |v.s| + 4 <= f.dataSize
    case Text => v.Data? && |v.s| < f.dataSize && forall b | b in v.s :: b != 0
    case FixedOctets => v.Data? && |v.s| == f.dataSize
    case Submessage(fields) => v.Struct? && GoodMessage(fields, v.slots)
    case Extension => false
  }

  /** Storage as the decoder leaves it: an absent field is at its default. */
  predicate GoodSlot(f: Field, slot: Slot)
    decreases f, 1
  {
    if f.ltype.Extension? then slot == NoExtension
    else
      match f.htype
      case Required => slot.One? && GoodValue(f, slot.v)
      case Optional =>
        if HasFlag(f) then slot.Opt? && (if slot.has then GoodValue(f, slot.v) else slot.v == Default(f))
        else slot.One? && GoodValue(f, slot.v)
      case Repeated(max) =>
        if FixedCount(f) then
          && slot.Fixed? && |slot.places| == max
          && forall k | 0 <= k < max :: slot.places[k].Some? && GoodValue(f, slot.places[k].value)
        else
          slot.Many? && |slot.items| <= max && forall k | 0 <= k < |slot.items| :: GoodValue(f, slot.items[k])
      case Oneof(_) => slot.Member? && (slot.o.Some? ==> GoodValue(f, slot.o.value))
  }

  predicate GoodMessage(fields: seq<Field>, slots: seq<Slot>)
    decreases fields
  {
    && |slots| == |fields|
    && (forall i | 0 <= i < |fields| :: GoodSlot(fields[i], slots[i]))
    && (forall i, j | 0 <= i < j < |fields| && SameUnion(fields[i], fields[j]) ::
       !(Chosen(slots[i]) && Chosen(slots[j])))
  }

  predicate SameUnion(f: Field, g: Field) {
    f.htype.Oneof? && g.htype.Oneof? && f.htype.group == g.htype.group && !f.ltype.Extension? && !g.ltype.Extension?
  }

  predicate Chosen(slot: Slot) {
    slot.Member? && slot.o.Some?
  }

  // What the presence test overlooks.

  /** Whether the test of a field looks at an array of fixed count. */
  predicate TestsArray(f: Field)
    decreases f
  {
    FixedCount(f) || (HasLess(f) && f.ltype.Submessage?
        && exists i | 0 <= i < |f.ltype.fields| :: TestsArray(f.ltype.fields[i]))
  }

  /** A field that the encoder skips as default is at its default, all the way down, exactly if the test
      did not have to look at an array of fixed count. */
  lemma {:induction false} SkippedIsDefault(f: Field, slot: Slot)
    requires GoodField(f) && GoodSlot(f, slot) && IsProto3Default(f, slot)
    ensures slot == DefaultSlot(f) <==> !TestsArray(f)
    decreases f, 1
  {
    if !f.ltype.Extension? && slot.One? {
      ZeroIsDefault(f, slot.v);
    }
    if slot.Fixed? {
      assert slot.places[0].Some?;
    }
  }

  lemma {:induction false} ZeroIsDefault(f: Field, v: Value)
    requires GoodField(f) && GoodValue(f, v) && IsZeroValue(f, v) && HasLess(f) && !f.ltype.Extension?
    ensures v == Default(f) <==> !TestsArray(f)
    decreases f, 0
  {
    if f.ltype.Submessage? {
      var fields := f.ltype.fields;
      forall i | 0 <= i < |fields|
        ensures v.slots[i] == DefaultSlot(fields[i]) <==> !TestsArray(fields[i])
      {
        AllMeansEach(fields, v.slots, 0, i);
        SkippedIsDefault(fields[i], v.slots[i]);
      }
      SameSlots(fields, v.slots);
    }
  }

  lemma SameSlots(fields: seq<Field>, slots: seq<Slot>)
    requires |slots| == |fields|
    ensures slots == Defaults(fields) <==> forall i | 0 <= i < |fields| :: slots[i] == DefaultSlot(fields[i])
  {
  }

  lemma {:induction false} AllMeansEach(fields: seq<Field>, slots: seq<Slot>, from: nat, i: nat)
    requires |slots| == |fields| && from <= i < |fields| && AllProto3Default(fields, slots, from)
    ensures IsProto3Default(fields[i], slots[i])
    decreases i - from
  {
    if from < i {
      AllMeansEach(fields, slots, from + 1, i);
    }
  }

  /** What of a field reaches the reader: all but the submessages that the presence test takes for default. */
  function Sent(f: Field, slot: Slot): Slot
    decreases slot, 1
  {
    if f.ltype.Extension? then slot
    else
      match slot
      case One(v) => if HasLess(f) && IsProto3Default(f, slot) then DefaultSlot(f) else One(SentValue(f, v))
      case Opt(has, v) => if has then Opt(true, SentValue(f, v)) else slot
      case Many(items) => Many(SentItems(f, items))
      case Fixed(places) => Fixed(seq(|places|, k requires 0 <= k < |places| =>
          if places[k] == None then None else Some(SentValue(f, places[k].value))))
      case Member(o) => if o == None then slot else Member(Some(SentValue(f, o.value)))
      case NoExtension => slot
  }

  function SentItems(f: Field, items: seq<Value>): (r: seq<Value>)
    ensures |r| == |items|
    decreases items
  {
    seq(|items|, k requires 0 <= k < |items| => SentValue(f, items[k]))
  }

  function SentValue(f: Field, v: Value): Value
    decreases v, 0
  {
    if v.Struct? && f.ltype.Submessage? && |v.slots| == |f.ltype.fields| then Struct(SentAll(f.ltype.fields, v.slots))
      else v
  }

  function SentAll(fields: seq<Field>, slots: seq<Slot>): (r: seq<Slot>)
    requires |slots| == |fields|
    ensures |r| == |slots|
    decreases slots
  {
    seq(|slots|, i requires 0 <= i < |slots| => Sent(fields[i], slots[i]))
  }

  /** No submessage that is sent at all holds one that the test takes for default with an array in it. */
  predicate Kept(f: Field, slot: Slot)
    decreases slot, 1
  {
    f.ltype.Extension? ||
      match slot
      case One(v) => if HasLess(f) && IsProto3Default(f, slot) then !TestsArray(f) else KeptValue(f, v)
      case Opt(has, v) => has ==> KeptValue(f, v)
      case Many(items) => forall k | 0 <= k < |items| :: KeptValue(f, items[k])
      case Fixed(places) => forall k | 0 <= k < |places| && places[k].Some? :: KeptValue(f, places[k].value)
      case Member(o) => o.Some? ==> KeptValue(f, o.value)
      case NoExtension => true
  }

  predicate KeptValue(f: Field, v: Value)
    decreases v, 0
  {
    v.Struct? && f.ltype.Submessage? && |v.slots| == |f.ltype.fields| ==> KeptAll(f.ltype.fields, v.slots)
  }

  predicate KeptAll(fields: seq<Field>, slots: seq<Slot>)
    requires |slots| == |fields|
    decreases slots
  {
    forall i | 0 <= i < |slots| :: Kept(fields[i], slots[i])
  }

  /** Just the messages without such a submessage are sent as they are. */
  lemma {:induction false} SentWhole(f: Field, slot: Slot)
    requires GoodField(f) && GoodSlot(f, slot)
    ensures Sent(f, slot) == slot <==> Kept(f, slot)
    decreases slot, 1
  {
    if !f.ltype.Extension? {
      match slot
      case One(v) =>
        if HasLess(f) && IsProto3Default(f, slot) {
          SkippedIsDefault(f, slot);
        } else {
          SentValueWhole(f, v);
        }
      case Opt(has, v) => if has { SentValueWhole(f, v); }
      case Many(items) =>
        forall k | 0 <= k < |items| ensures SentValue(f, items[k]) == items[k] <==> KeptValue(f, items[k]) {
          SentValueWhole(f, items[k]);
        }
      case Fixed(places) =>
        forall k | 0 <= k < |places| ensures SentValue(f, places[k].value) == places[k].value
          <==> KeptValue(f, places[k].value) {
          SentValueWhole(f, places[k].value);
        }
      case Member(o) => if o.Some? { SentValueWhole(f, o.value); }
    }
  }

  lemma {:induction false} SentValueWhole(f: Field, v: Value)
    requires GoodField(f) && GoodValue(f, v)
    ensures SentValue(f, v) == v <==> KeptValue(f, v)
    decreases v, 0
  {
    if f.ltype.Submessage? {
      SentAllWhole(f.ltype.fields, v.slots);
    }
  }

  lemma {:induction false} SentAllWhole(fields: seq<Field>, slots: seq<Slot>)
    requires GoodDescriptor(fields) && GoodMessage(fields, slots)
    ensures SentAll(fields, slots) == slots <==> KeptAll(fields, slots)
    decreases slots
  {
    forall i | 0 <= i < |slots| ensures Sent(fields[i], slots[i]) == slots[i] <==> Kept(fields[i], slots[i]) {
      SentWhole(fields[i], slots[i]);
    }
  }
}
