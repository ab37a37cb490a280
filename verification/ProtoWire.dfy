/** What nanopb's encoder writes for a message, and what its decoder makes of any octets. */
module ProtoWire {
  import opened Bytes
  import opened Options
  import opened Varints
  import opened ProtoMessage

  const WT_VARINT: nat := 0
  const WT_64BIT: nat := 1
  const WT_STRING: nat := 2
  const WT_32BIT: nat := 5

  /** The signed reading of a word that has m values. */
  function Signed(w: nat, m: nat): int {
    if 2 * w < m then w else w - m
  }

  function ZigZag(n: int): nat {
    if n < 0 then U64 - 1 - 2 * n % U64 else 2 * n % U64
  }

  function UnZigZag(w: nat): int
    requires w < U64
  {
    if w % 2 == 1 then Signed(U64 - 1 - w / 2, U64) else Signed(w / 2, U64)
  }

  /** Every signed 64-bit number survives zigzag, and zigzag is onto. */
  lemma ZigZagRoundTrip(n: int, w: nat)
    requires -(U64 as int) <= 2 * n < U64 && w < U64
    ensures ZigZag(n) < U64 && UnZigZag(ZigZag(n)) == n
    ensures ZigZag(UnZigZag(w)) == w
  {
    if n < 0 {
      assert 2 * n % U64 == 2 * n + U64;
    }
    if w % 2 == 1 {
      assert UnZigZag(w) == -1 - w / 2;
      assert 2 * UnZigZag(w) % U64 == 2 * UnZigZag(w) + U64;
    }
  }

  function LittleEndian(n: nat, k: nat): (s: seq<byte>)
    ensures |s| == k
  {
    if k == 0 then [] else [(n % 256) as byte] + LittleEndian(n / 256, k - 1)
  }

  function LittleValue(s: seq<byte>): nat {
    if s == [] then 0 else s[0] as nat + 256 * LittleValue(s[1..])
  }

  lemma {:induction false} LittleRoundTrip(n: nat, k: nat)
    requires n < Pow256(k)
    ensures LittleValue(LittleEndian(n, k)) == n
  {
    if k > 0 {
      assert n / 256 < Pow256(k - 1);
      LittleRoundTrip(n / 256, k - 1);
      assert LittleEndian(n, k)[1..] == LittleEndian(n / 256, k - 1);
    }
  }

  // Encoding.

  function WireType(t: LType): Option<nat> {
    match t
    case Varint => Some(WT_VARINT)
    case UVarint => Some(WT_VARINT)
    case SVarint => Some(WT_VARINT)
    case Fixed32 => Some(WT_32BIT)
    case Fixed64 => Some(WT_64BIT)
    case Extension => None
    case _ => Some(WT_STRING)
  }

  /** A size as the 64-bit word that goes on the wire. */
  function Size(n: nat): seq<byte> {
    Encode(n % U64)
  }

  function Tag(tag: nat, wireType: nat): seq<byte> {
    Encode((8 * tag + wireType) % U64)
  }

  function Then(a: Option<seq<byte>>, b: Option<seq<byte>>): Option<seq<byte>> {
    if a.Some? && b.Some? then Some(a.value + b.value) else None
  }

  function EncodeNumber(f: Field, n: int): Option<seq<byte>> {
    match f.ltype
    case Varint => if f.dataSize in {1, 2, 4, 8} then Some(Encode(n % U64)) else None
    case UVarint => if f.dataSize in {1, 2, 4, 8} then Some(Encode(n % U64)) else None
    case SVarint => if f.dataSize in {1, 2, 4, 8} then Some(Encode(ZigZag(n))) else None
    case Fixed32 => Some(LittleEndian(n % U32, 4))
    case Fixed64 => Some(LittleEndian(n % U64, 8))
    case _ => None
  }

  function EncodeData(f: Field, s: seq<byte>): Option<seq<byte>> {
    match f.ltype
    case Octets => if |s| + 4 > f.dataSize then None else Some(Size(|s|) + s)
    case Text => Some(Size(|s|) + s)
    case FixedOctets => if |s| == f.dataSize then Some(Size(|s|) + s) else None
    case _ => None
  }

  /** The encoding of one datum by the field's encoder function; None is an error. */
  function EncodeValue(f: Field, v: Value): Option<seq<byte>>
    decreases f, 0
  {
    match v
    case Num(n) => EncodeNumber(f, n)
    case Data(s) => EncodeData(f, s)
    case Struct(slots) =>
      if !f.ltype.Submessage? || |slots| != |f.ltype.fields| then None
      else
        match EncodeFrom(f.ltype.fields, slots, 0)
        case None => None
        case Some(b) => Some(Size(|b|) + b)
  }

  /** The items of an array from the k-th on, each preceded by prefix. */
  function EncodeItems(f: Field, items: seq<Value>, k: nat, prefix: seq<byte>): Option<seq<byte>>
    requires k <= |items|
    decreases f, 1, |items| - k
  {
    if k == |items| then Some([])
    else Then(Then(Some(prefix), EncodeValue(f, items[k])), EncodeItems(f, items, k + 1, prefix))
  }

  function EncodeTagged(f: Field, v: Value): Option<seq<byte>>
    decreases f, 1
  {
    var w := WireType(f.ltype);
    if w == None then None else Then(Some(Tag(f.tag, w.value)), EncodeValue(f, v))
  }

  /** encode_array: packed whenever the type allows it. */
  function EncodeArray(f: Field, max: nat, items: seq<Value>): Option<seq<byte>>
    decreases f, 2
  {
    if items == [] then Some([])
    else if |items| > max then None
    else if Packable(f.ltype) then
      match EncodeItems(f, items, 0, [])
      case None => None
      case Some(b) => Some(Tag(f.tag, WT_STRING) + Size(|b|) + b)
    else
      var w := WireType(f.ltype);
      if w == None then None else EncodeItems(f, items, 0, Tag(f.tag, w.value))
  }

  /** The items of an array of fixed count; None if something was never stored in one of its places, when
      the encoder would write whatever the memory holds. */
  function Stored(places: seq<Option<Value>>): (r: Option<seq<Value>>)
    ensures r.Some? ==> |r.value| == |places| && forall k | 0 <= k < |places| :: places[k] == Some(r.value[k])
    ensures r == None ==> None in places
  {
    if places == [] then Some([])
    else
      var rest := Stored(places[1..]);
      if places[0] == None || rest == None then None else Some([places[0].value] + rest.value)
  }

  /** encode_field. An array of fixed count has no counter: all its items are written. */
  function EncodeField(f: Field, slot: Slot): Option<seq<byte>>
    decreases f, 3
  {
    if f.ltype.Extension? then Some([])
    else
      match (f.htype, slot)
      case (Required, One(v)) => EncodeTagged(f, v)
      case (Optional, Opt(has, v)) => if has then EncodeTagged(f, v) else Some([])
      case (Optional, One(v)) => if IsProto3Default(f, slot) then Some([]) else EncodeTagged(f, v)
      case (Repeated(max), Many(items)) => if FixedCount(f) then None else EncodeArray(f, max, items)
      case (Repeated(max), Fixed(places)) => (
        match if FixedCount(f) && |places| == max then Stored(places) else None
        case None => None
        case Some(items) => EncodeArray(f, max, items)
      )
      case (Oneof(_), Member(o)) => if o.Some? then EncodeTagged(f, o.value) else Some([])
      case _ => None
  }

  /** pb_encode from the i-th field on. */
  function EncodeFrom(fields: seq<Field>, slots: seq<Slot>, i: nat): Option<seq<byte>>
    requires |slots| == |fields| && i <= |fields|
    decreases fields, |fields| - i
  {
    if i == |fields| then Some([])
    else Then(EncodeField(fields[i], slots[i]), EncodeFrom(fields, slots, i + 1))
  }

  // Decoding.

  function Take(s: seq<byte>, n: nat): Option<(seq<byte>, seq<byte>)> {
    if n <= |s| then Some((s[..n], s[n..])) else None
  }

  /** A length and that many octets. */
  function TakeString(s: seq<byte>): (r: Option<(seq<byte>, seq<byte>)>)
    ensures r.Some? ==> |r.value.0| < |s| && |r.value.1| < |s|
  {
    match Decode32(s)
    case None => None
    case Some((n, rest)) => Take(rest, n)
  }

  function Clamp(value: int, signed: bool, size: nat): Option<Value> {
    if size !in {1, 2, 4, 8} then None
    else
      var low: nat := value % Bits(size);
      var clamped := if signed then Signed(low, Bits(size)) else low;
      if clamped == value then Some(Num(clamped)) else None
  }

  function WithRest(v: Option<Value>, rest: seq<byte>): Option<(Value, seq<byte>)> {
    if v == None then None else Some((v.value, rest))
  }

  function UpToNul(s: seq<byte>): seq<byte> {
    if s == [] || s[0] == 0 then [] else [s[0]] + UpToNul(s[1..])
  }

  function DecodeNumber(f: Field, s: seq<byte>): (r: Option<(Value, seq<byte>)>)
    ensures r.Some? ==> |r.value.1| < |s|
  {
    if f.ltype.Fixed32? then
      if |s| < 4 then None else Some((Num(LittleValue(s[..4])), s[4..]))
    else if f.ltype.Fixed64? then
      if |s| < 8 then None else Some((Num(LittleValue(s[..8])), s[8..]))
    else
      match Decode64(s, 0, 0)
      case None => None
      case Some((w, rest)) =>
        var v := w % U64;
        if f.ltype.Varint? then
          WithRest(Clamp(if f.dataSize == 8 then Signed(v, U64) else Signed(v % U32, U32), true, f.dataSize), rest)
        else if f.ltype.UVarint? then WithRest(Clamp(v, false, f.dataSize), rest)
        else WithRest(Clamp(UnZigZag(v), true, f.dataSize), rest)
  }

  function DecodeData(f: Field, s: seq<byte>): (r: Option<(Value, seq<byte>)>)
    ensures r.Some? ==> |r.value.1| < |s|
  {
    match Decode32(s)
    case None => None
    case Some((n, rest)) =>
      if f.ltype.FixedOctets? && n == 0 then Some((Data(seq(f.dataSize, _ => 0)), rest))
      else if f.ltype.FixedOctets? && n != f.dataSize then None
      else if f.ltype.Octets? && n + 4 > f.dataSize then None
      else if f.ltype.Text? && (n + 1 >= U32 || n + 1 > f.dataSize) then None
      else
        match Take(rest, n)
        case None => None
        case Some((data, after)) => Some((Data(if f.ltype.Text? then UpToNul(data) else data), after))
  }

  /** The field's decoder function on storage that holds was. */
  function DecodeValue(f: Field, was: Value, s: seq<byte>): (r: Option<(Value, seq<byte>)>)
    ensures r.Some? ==> |r.value.1| < |s|
    decreases |s|, 0
  {
    match f.ltype
    case Extension => None
    case Submessage(fields) => (
      match TakeString(s)
      case None => None
      case Some((data, rest)) =>
        var start := if f.htype.Repeated? || !was.Struct? || |was.slots| != |fields| then Defaults(fields)
          else was.slots;
        match DecodeLoop(fields, start, {}, None, data)
        case None => None
        case Some(slots) => Some((Struct(slots), rest))
    )
    case Octets => DecodeData(f, s)
    case Text => DecodeData(f, s)
    case FixedOctets => DecodeData(f, s)
    case _ => DecodeNumber(f, s)
  }

  /** The items of a packed array, added to those already there. */
  function DecodePacked(f: Field, max: nat, items: seq<Value>, s: seq<byte>): Option<seq<Value>>
    decreases |s|
  {
    if s == [] then Some(items)
    else if |items| >= max then None
    else
      match DecodeNumber(f, s)
      case None => None
      case Some((v, rest)) => DecodePacked(f, max, items + [v], rest)
  }

  /** Selecting a oneof member deselects the others of its union. */
  function Select(fields: seq<Field>, slots: seq<Slot>, i: nat, v: Value): (r: seq<Slot>)
    requires i < |fields| == |slots|
    ensures |r| == |slots|
  {
    seq(|slots|, j requires 0 <= j < |slots| =>
      if j == i then Member(Some(v)) else if SameUnion(fields[i], fields[j]) then Member(None) else slots[j])
  }

  /** decode_static_field for the i-th field. */
  function DecodeField(fields: seq<Field>, i: nat, slots: seq<Slot>, wireType: nat, s: seq<byte>)
    : (r: Option<(seq<Slot>, seq<byte>)>)
    requires i < |fields| == |slots|
    ensures r.Some? ==> |r.value.0| == |slots| && |r.value.1| < |s|
    decreases |s|, 1
  {
    var f := fields[i];
    match (f.htype, slots[i])
    case (Required, One(was)) => (
      match DecodeValue(f, was, s)
      case None => None
      case Some((v, rest)) => Some((slots[i := One(v)], rest)))
    case (Optional, One(was)) => (
      match DecodeValue(f, was, s)
      case None => None
      case Some((v, rest)) => Some((slots[i := One(v)], rest)))
    case (Optional, Opt(_, was)) => (
      match DecodeValue(f, was, s)
      case None => None
      case Some((v, rest)) => Some((slots[i := Opt(true, v)], rest)))
    case (Repeated(max), Many(items)) =>
      if FixedCount(f) then None
      else if wireType == WT_STRING && Packable(f.ltype) then
        match TakeString(s)
        case None => None
        case Some((data, rest)) =>
          match DecodePacked(f, max, items, data)
          case None => None
          case Some(all) => Some((slots[i := Many(all)], rest))
      else if |items| >= max then None
      else (
        match DecodeValue(f, Zero(f), s)
        case None => None
        case Some((v, rest)) => Some((slots[i := Many(items + [v])], rest)))
    case (Oneof(_), Member(_)) => (
      match DecodeValue(f, Default(f), s)
      case None => None
      case Some((v, rest)) => Some((Select(fields, slots, i, v), rest)))
    case _ => None
  }

  // Arrays of fixed count. The loop keeps the count of the one it is filling.

  datatype Filling = Filling(field: nat, count: nat)

  /** Nothing is being filled, or what is being filled is full. */
  predicate Full(fields: seq<Field>, filling: Option<Filling>) {
    filling.Some? ==>
      filling.value.field < |fields| && fields[filling.value.field].htype == Repeated(filling.value.count)
  }

  /** Where the next item goes: behind the last one, or to the front if another array was filled before, which
      must then be full. */
  function NextPlace(fields: seq<Field>, filling: Option<Filling>, i: nat): Option<nat> {
    if filling.Some? && filling.value.field == i then Some(filling.value.count)
    else if Full(fields, filling) then Some(0)
    else None
  }

  /** The items of a packed array, put into the places from the given one on. */
  function FillPacked(f: Field, places: seq<Option<Value>>, at: nat,
                      s: seq<byte>): (r: Option<(seq<Option<Value>>, nat)>)
    ensures r.Some? ==> |r.value.0| == |places|
    decreases |s|
  {
    if s == [] then Some((places, at))
    else if at >= |places| then None
    else
      match DecodeNumber(f, s)
      case None => None
      case Some((v, rest)) => FillPacked(f, places[at := Some(v)], at + 1, rest)
  }

  /** decode_static_field for an array of fixed count. */
  function Fill(f: Field, places: seq<Option<Value>>, at: nat, wireType: nat, s: seq<byte>)
    : (r: Option<(seq<Option<Value>>, nat, seq<byte>)>)
    ensures r.Some? ==> |r.value.0| == |places| && |r.value.2| < |s|
    decreases |s|, 1
  {
    if wireType == WT_STRING && Packable(f.ltype) then
      match TakeString(s)
      case None => None
      case Some((data, rest)) =>
        match FillPacked(f, places, at, data)
        case None => None
        case Some((all, n)) => Some((all, n, rest))
    else if at >= |places| then None
    else (
      match DecodeValue(f, Zero(f), s)
      case None => None
      case Some((v, rest)) => Some((places[at := Some(v)], at + 1, rest)))
  }

  /** pb_skip_field: what follows the field. */
  function Skip(wireType: nat, s: seq<byte>): (r: Option<seq<byte>>)
    ensures r.Some? ==> |r.value| <= |s|
  {
    if wireType == WT_VARINT then SkipVarint(s)
    else if wireType == WT_64BIT then if |s| < 8 then None else Some(s[8..])
    else if wireType == WT_STRING then
      match TakeString(s)
      case None => None
      case Some((_, rest)) => Some(rest)
    else if wireType == WT_32BIT then if |s| < 4 then None else Some(s[4..])
    else None
  }

  function SkipVarint(s: seq<byte>): (r: Option<seq<byte>>)
    ensures r.Some? ==> |r.value| < |s|
  {
    if s == [] then None else if s[0] >= 128 then SkipVarint(s[1..]) else Some(s[1..])
  }

  /** The first field with a tag, extension placeholders apart. */
  function Find(fields: seq<Field>, tag: nat, from: nat): (r: Option<nat>)
    requires from <= |fields|
    ensures r.Some? ==> from <= r.value < |fields| && fields[r.value].tag == tag && !fields[r.value].ltype.Extension?
    decreases |fields| - from
  {
    if from == |fields| then None
    else if fields[from].tag == tag && !fields[from].ltype.Extension? then Some(from)
    else Find(fields, tag, from + 1)
  }

  const MAX_REQUIRED_FIELDS: nat := 64

  function RequiredBefore(fields: seq<Field>, i: nat): nat
    requires i <= |fields|
  {
    if i == 0 then 0 else RequiredBefore(fields, i - 1) + if fields[i - 1].htype == Required then 1 else 0
  }

  /** The final check: each of the first 64 required fields was seen. */
  predicate RequiredSeen(fields: seq<Field>, seen: set<nat>) {
    forall i | 0 <= i < |fields| && fields[i].htype == Required && RequiredBefore(fields, i) < MAX_REQUIRED_FIELDS ::
      i in seen
  }

  /** pb_decode_noinit: fields in any order until the end of input or a zero tag. */
  function DecodeLoop(fields: seq<Field>, slots: seq<Slot>, seen: set<nat>, filling: Option<Filling>, s: seq<byte>)
    : (r: Option<seq<Slot>>)
    requires |slots| == |fields|
    ensures r.Some? ==> |r.value| == |fields|
    decreases |s|, 3
  {
    if s == [] then Finish(fields, slots, seen, filling)
    else
      match Decode32(s)
      case None => None
      case Some((key, rest)) =>
        if key == 0 then Finish(fields, slots, seen, filling)
        else
          match Find(fields, key / 8, 0)
          case None => (
            // An empty message takes tag zero for its own terminator, which no decoder accepts.
            if fields == [] && key / 8 == 0 then None
            else
              match Skip(key % 8, rest)
              case None => None
              case Some(after) => DecodeLoop(fields, slots, seen, filling, after)
          )
          case Some(i) =>
            match DecodeAny(fields, i, slots, filling, key % 8, rest)
            case None => None
            case Some((next, fill, after)) => DecodeLoop(fields, next, seen + {i}, fill, after)
  }

  /** One field of the loop, of either kind. */
  function DecodeAny(fields: seq<Field>, i: nat, slots: seq<Slot>, filling: Option<Filling>, wireType: nat,
                     s: seq<byte>)
    : (r: Option<(seq<Slot>, Option<Filling>, seq<byte>)>)
    requires i < |fields| == |slots|
    ensures r.Some? ==> |r.value.0| == |slots| && |r.value.2| < |s|
    decreases |s|, 2
  {
    if FixedCount(fields[i]) then
      var at := NextPlace(fields, filling, i);
      if at == None || !slots[i].Fixed? then None
      else
        match Fill(fields[i], slots[i].places, at.value, wireType, s)
        case None => None
        case Some((places, n, rest)) => Some((slots[i := Fixed(places)], Some(Filling(i, n)), rest))
    else
      match DecodeField(fields, i, slots, wireType, s)
      case None => None
      case Some((next, rest)) => Some((next, filling, rest))
  }

  function Finish(fields: seq<Field>, slots: seq<Slot>, seen: set<nat>, filling: Option<Filling>): Option<seq<Slot>> {
    if Full(fields, filling) && RequiredSeen(fields, seen) then Some(slots) else None
  }
}
