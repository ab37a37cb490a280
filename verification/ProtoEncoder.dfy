/** nanopb's encoder on output streams: the sizing pass and the writing pass do the same thing, and a
    buffer takes a message exactly when the message fits. */
module ProtoEncoder {
  import opened Bytes
  import opened Options
  import opened Varints
  import opened ProtoMessage
  import W = ProtoWire

  class OStream {
    const dest: array?<byte>   // null for a stream that only counts
    const base: nat            // where in dest this stream starts
    const maxSize: nat
    var written: nat
    ghost var out: seq<byte>   // everything written to this stream

    ghost function Buffer(): set<object> {
      if dest == null then {} else {dest}
    }

    /** A buffer holds what was written, and never more than its size. */
    ghost predicate Valid()
      reads this, Buffer()
    {
      && |out| == written
      && (dest != null ==> written <= maxSize && base + maxSize <= dest.Length && dest[base..base + written] == out)
    }

    predicate Fits(n: nat)
      reads this
    {
      dest == null || written + n <= maxSize
    }

    /** Nothing changed but the unused part of this stream's buffer. */
    twostate predicate OnlyOwnPart()
      reads this, Buffer()
    {
      dest != null ==> forall k | 0 <= k < dest.Length && !(base + old(written) <= k < base + maxSize) ::
          dest[k] == old(dest[k])
    }

    /** What encoding to a stream promises: success exactly when there is something to write and it
        fits; then just that is appended. */
    twostate predicate Appended(new e: Option<seq<byte>>, ok: bool)
      reads this, Buffer()
    {
      && Valid() && old(written) <= written && OnlyOwnPart()
      && (ok <==> e.Some? && old(Fits(|e.value|)))
      && (ok ==> out == old(out) + e.value)
    }

    constructor Sizing()
      ensures Valid() && dest == null && out == [] && written == 0
    {
      dest, base, maxSize, written, out := null, 0, 0, 0, [];
    }

    constructor OnBuffer(dest: array<byte>, base: nat, maxSize: nat)
      requires base + maxSize <= dest.Length
      ensures Valid() && this.dest == dest && this.base == base && this.maxSize == maxSize
      ensures out == [] && written == 0
    {
      this.dest, this.base, this.maxSize, written, out := dest, base, maxSize, 0, [];
    }

    /** buf_write. */
    method CopyBehind(data: seq<byte>)
      requires Valid() && dest != null && written + |data| <= maxSize
      modifies dest
      ensures forall k | 0 <= k < dest.Length && !(base + written <= k < base + written + |data|) ::
                dest[k] == old(dest[k])
      ensures dest[base..base + written + |data|] == out + data
    {
      var at := base + written;
      assert forall k | base <= k < at :: dest[k] == dest[base..at][k - base];
      CopyInto(dest, at, data);
      SliceIs(dest, base, out);
      Concatenated(dest, base, at, at + |data|);
    }

    /** pb_write. */
    method Write(data: seq<byte>) returns (ok: bool)
      requires Valid()
      modifies this`written, this`out, Buffer()
      ensures Appended(Some(data), ok)
    {
      if dest != null {
        if written + |data| > maxSize {
          return false;
        }
        CopyBehind(data);
      }
      out := out + data;
      written := written + |data|;
      return true;
    }

    /** pb_write without data on a stream that only counts. */
    method Count(size: nat, ghost data: seq<byte>)
      requires Valid() && dest == null && |data| == size
      modifies this`written, this`out
      ensures Appended(Some(data), true)
    {
      out := out + data;
      written := written + size;
    }

    method EncodeVarint(v: nat) returns (ok: bool)
      requires Valid() && v < U64
      modifies this`written, this`out, Buffer()
      ensures Appended(Some(Encode(v)), ok)
    {
      var s := EncodeLoop(v);
      ok := Write(s);
    }

    method EncodeString(data: seq<byte>) returns (ok: bool)
      requires Valid()
      modifies this`written, this`out, Buffer()
      ensures Appended(Some(W.Size(|data|) + data), ok)
    {
      ok := EncodeVarint(|data| % U64);
      if ok {
        ok := Write(data);
      }
    }

    method EncodeNumber(f: Field, n: int) returns (ok: bool)
      requires Valid()
      modifies this`written, this`out, Buffer()
      ensures Appended(W.EncodeNumber(f, n), ok)
    {
      hide Encode;
      if f.ltype.Fixed32? {
        ok := Write(W.LittleEndian(n % U32, 4));
      } else if f.ltype.Fixed64? {
        ok := Write(W.LittleEndian(n % U64, 8));
      } else if !(f.ltype.Varint? || f.ltype.UVarint? || f.ltype.SVarint?) || f.dataSize !in {1, 2, 4, 8} {
        ok := false;
      } else {
        ok := EncodeVarint(if f.ltype.SVarint? then W.ZigZag(n) else n % U64);
      }
    }

    method EncodeData(f: Field, s: seq<byte>) returns (ok: bool)
      requires Valid()
      modifies this`written, this`out, Buffer()
      ensures Appended(W.EncodeData(f, s), ok)
    {
      hide Encode;
      if f.ltype.Octets? && |s| + 4 > f.dataSize {
        return false;
      }
      if !(f.ltype.Octets? || f.ltype.Text? || f.ltype.FixedOctets?) || (f.ltype.FixedOctets? && |s| != f.dataSize) {
        return false;
      }
      ok := EncodeString(s);
    }

    method EncodeValue(f: Field, v: Value) returns (ok: bool)
      requires Valid()
      modifies this`written, this`out, Buffer()
      ensures Appended(W.EncodeValue(f, v), ok)
      decreases f, 0
    {
      hide W.EncodeNumber, W.EncodeData;
      match v
      case Num(n) =>
        ok := EncodeNumber(f, n);
      case Data(s) =>
        ok := EncodeData(f, s);
      case Struct(slots) =>
        if !f.ltype.Submessage? || |slots| != |f.ltype.fields| {
          return false;
        }
        ok := EncodeSubmessage(f.ltype.fields, slots);
    }

    /** pb_encode. */
    method EncodeMessage(fields: seq<Field>, slots: seq<Slot>) returns (ok: bool)
      requires Valid() && |slots| == |fields|
      modifies this`written, this`out, Buffer()
      ensures Appended(W.EncodeFrom(fields, slots, 0), ok)
      decreases fields, |fields|, 0
    {
      hide W.EncodeFrom, W.EncodeField, W.Then;
      ghost var done: seq<byte> := [];
      var i := 0;
      NothingFirst(W.EncodeFrom(fields, slots, 0));
      while i < |fields|
        invariant i <= |fields| && Valid() && OnlyOwnPart() && out == old(out) + done && old(Fits(|done|))
        invariant W.EncodeFrom(fields, slots, 0) == W.Then(Some(done), W.EncodeFrom(fields, slots, i))
      {
        ghost var e, rest := W.EncodeField(fields[i], slots[i]), W.EncodeFrom(fields, slots, i + 1);
        OneMore(fields, slots, i);
        Regrouped(done, e, rest);
        Beyond(done, e, rest);
        ok := EncodeField(fields[i], slots[i]);
        if !ok {
          return false;
        }
        Joined(old(out), done, e.value);
        done := done + e.value;
        i := i + 1;
      }
      NothingLast(done);
      assert W.EncodeFrom(fields, slots, |fields|) == Some([]) by { Ends(fields, slots); }
      return true;
    }

    /** encode_basic_field: optional fields without a flag are left out when they are zero, and an array of
        fixed count is written with as many items as it has room for. */
    method EncodeField(f: Field, slot: Slot) returns (ok: bool)
      requires Valid()
      modifies this`written, this`out, Buffer()
      ensures Appended(W.EncodeField(f, slot), ok)
      decreases f, 3
    {
      hide W.EncodeArray, W.EncodeTagged, IsProto3Default, W.Stored;
      if f.ltype.Extension? {
        return true;
      }
      if f.htype.Repeated? && slot.Many? && !FixedCount(f) {
        ok := EncodeArray(f, f.htype.max, slot.items);
      } else if f.htype.Repeated? && slot.Fixed? && FixedCount(f) && |slot.places| == f.htype.max {
        var items := W.Stored(slot.places);
        if items == None {
          return false;
        }
        ok := EncodeArray(f, f.htype.max, items.value);
      } else if f.htype == Required && slot.One? {
        ok := EncodeTagged(f, slot.v);
      } else if f.htype == Optional && (slot.One? || slot.Opt?) {
        var has := if slot.Opt? then slot.has else !IsProto3Default(f, slot);
        if !has {
          return true;
        }
        ok := EncodeTagged(f, slot.v);
      } else if f.htype.Oneof? && slot.Member? {
        if slot.o == None {
          return true;
        }
        ok := EncodeTagged(f, slot.o.value);
      } else {
        ok := false;
      }
    }

    /** pb_encode_tag_for_field, then the field's encoder. */
    method EncodeTagged(f: Field, v: Value) returns (ok: bool)
      requires Valid()
      modifies this`written, this`out, Buffer()
      ensures Appended(W.EncodeTagged(f, v), ok)
      decreases f, 1
    {
      hide Encode, W.EncodeValue;
      var w := W.WireType(f.ltype);
      if w == None {
        return false;
      }
      ok := EncodeVarint((8 * f.tag + w.value) % U64);
      if ok {
        ok := EncodeValue(f, v);
      }
    }

    /** encode_array. */
    method EncodeArray(f: Field, max: nat, items: seq<Value>) returns (ok: bool)
      requires Valid()
      modifies this`written, this`out, Buffer()
      ensures Appended(W.EncodeArray(f, max, items), ok)
      decreases f, 2
    {
      hide Encode, W.EncodeItems;
      if items == [] {
        return true;
      }
      if |items| > max {
        return false;
      }
      if Packable(f.ltype) {
        if !AllNumbers(items) {
          NotAllNumbers(f, items, 0);
          return false;
        }
        ok := EncodePacked(f, items);
      } else {
        var w := W.WireType(f.ltype);
        if w == None {
          return false;
        }
        ok := EncodeItems(f, items, Some(w.value));
      }
    }

    /** The items one after the other, each with its tag unless they are packed. */
    method EncodeItems(f: Field, items: seq<Value>, tagType: Option<nat>) returns (ok: bool)
      requires Valid()
      modifies this`written, this`out, Buffer()
      ensures Appended(W.EncodeItems(f, items, 0, ItemPrefix(f, tagType)), ok)
      decreases f, 1, 1
    {
      hide Encode, W.EncodeValue, W.Tag, W.EncodeItems, W.Then, ItemPrefix;
      ghost var done: seq<byte> := [];
      ghost var prefix := ItemPrefix(f, tagType);
      var i := 0;
      NothingFirst(W.EncodeItems(f, items, 0, prefix));
      while i < |items|
        invariant i <= |items| && Valid() && OnlyOwnPart() && out == old(out) + done && old(Fits(|done|))
        invariant W.EncodeItems(f, items, 0, prefix) == W.Then(Some(done), W.EncodeItems(f, items, i, prefix))
      {
        ghost var e, rest := W.Then(Some(prefix), W.EncodeValue(f, items[i])), W.EncodeItems(f, items, i + 1, prefix);
        OneMoreItem(f, items, i, prefix);
        Regrouped(done, e, rest);
        Beyond(done, e, rest);
        ok := EncodeItem(f, items[i], tagType);
        if !ok {
          return false;
        }
        Joined(old(out), done, e.value);
        done := done + e.value;
        i := i + 1;
      }
      NothingLast(done);
      assert W.EncodeItems(f, items, |items|, prefix) == Some([]) by { ItemsEnd(f, items, prefix); }
      return true;
    }

    method EncodeItem(f: Field, v: Value, tagType: Option<nat>) returns (ok: bool)
      requires Valid()
      modifies this`written, this`out, Buffer()
      ensures Appended(W.Then(Some(ItemPrefix(f, tagType)), W.EncodeValue(f, v)), ok)
      decreases f, 1, 0
    {
      hide Encode, W.EncodeValue;
      if tagType.Some? {
        ok := EncodeVarint((8 * f.tag + tagType.value) % U64);
        if !ok {
          return false;
        }
      }
      ok := EncodeValue(f, v);
      assert W.EncodeValue(f, v).Some? ==> [] + W.EncodeValue(f, v).value == W.EncodeValue(f, v).value;
    }

    /** The size of a packed array: fixed-width items are not measured. */
    static method PackedSize(f: Field, items: seq<Value>) returns (ok: bool, size: nat)
      requires Packable(f.ltype) && AllNumbers(items)
      ensures ok <==> W.EncodeItems(f, items, 0, []).Some?
      ensures ok ==> size == |W.EncodeItems(f, items, 0, []).value|
      decreases f, 1, 2
    {
      hide W.EncodeItems, AllNumbers;
      FixedWidth(f, items, 0);
      if f.ltype.Fixed32? {
        return true, 4 * |items|;
      }
      if f.ltype.Fixed64? {
        return true, 8 * |items|;
      }
      var counter := new OStream.Sizing();
      ok := counter.EncodeItems(f, items, None);
      size := counter.written;
    }

    /** Tag, total size, then the items. */
    method EncodePacked(f: Field, items: seq<Value>) returns (ok: bool)
      requires Valid() && Packable(f.ltype) && AllNumbers(items)
      modifies this`written, this`out, Buffer()
      ensures Appended(Packed(f, items), ok)
      decreases f, 2, 0
    {
      hide Encode, W.EncodeItems, AllNumbers;
      ok := EncodeVarint((8 * f.tag + W.WT_STRING) % U64);
      if !ok {
        return false;
      }
      var size;
      ok, size := PackedSize(f, items);
      if !ok {
        return false;
      }
      ghost var b := W.EncodeItems(f, items, 0, []).value;
      ok := EncodeVarint(size % U64);
      if !ok {
        return false;
      }
      if dest == null {
        Count(size, b);
        return true;
      }
      ok := EncodeItems(f, items, None);
    }

    /** pb_get_encoded_size: exactly the octets that encoding writes. */
    static method GetEncodedSize(fields: seq<Field>, slots: seq<Slot>) returns (ok: bool, size: nat)
      requires |slots| == |fields|
      ensures ok <==> W.EncodeFrom(fields, slots, 0).Some?
      ensures ok ==> size == |W.EncodeFrom(fields, slots, 0).value|
      decreases fields, |fields| + 1, 0
    {
      hide W.EncodeFrom;
      var counter := new OStream.Sizing();
      ok := counter.EncodeMessage(fields, slots);
      size := counter.written;
    }

    /** pb_encode_submessage: a sizing pass, the size, and a writing pass that cannot differ from it. */
    method EncodeSubmessage(fields: seq<Field>, slots: seq<Slot>) returns (ok: bool)
      requires Valid() && |slots| == |fields|
      modifies this`written, this`out, Buffer()
      ensures Appended(Prefixed(W.EncodeFrom(fields, slots, 0)), ok)
      decreases fields, |fields| + 2, 0
    {
      hide Encode, W.EncodeFrom;
      var size;
      ok, size := GetEncodedSize(fields, slots);
      if !ok {
        return false;
      }
      ghost var b := W.EncodeFrom(fields, slots, 0).value;
      ok := EncodeVarint(size % U64);
      if !ok {
        return false;
      }
      if dest == null {
        Count(size, b);
        return true;
      }
      if written + size > maxSize {
        return false;
      }
      ok := WriteSubmessage(fields, slots, size, b);
    }

    /** What a stream over the room behind this one's octets wrote is this stream's, too. */
    method TakeOver(sub: OStream)
      requires Valid() && sub.Valid() && dest != null && sub.dest == dest && sub.base == base + written
      requires written + sub.written <= maxSize
      modifies this`written, this`out
      ensures Valid() && written == old(written) + sub.written && out == old(out) + sub.out
    {
      Concatenated(dest, base, base + written, base + written + sub.written);
      written := written + sub.written;
      out := out + sub.out;
    }

    /** The writing pass, on a stream of its own over the room behind what is there. */
    method EncodeBehind(fields: seq<Field>, slots: seq<Slot>, size: nat, ghost b: seq<byte>)
      returns (status: bool, sub: OStream)
      requires Valid() && |slots| == |fields| && dest != null && written + size <= maxSize
      requires W.EncodeFrom(fields, slots, 0) == Some(b) && |b| == size
      modifies Buffer()
      ensures Valid() && OnlyOwnPart() && status && fresh(sub) && sub.Valid()
      ensures sub.dest == dest && sub.base == base + written && sub.out == b
      decreases fields, |fields| + 1, 0
    {
      hide W.EncodeFrom;
      assert forall k | base <= k < base + written :: dest[k] == dest[base..base + written][k - base];
      sub := new OStream.OnBuffer(dest, base + written, size);
      status := sub.EncodeMessage(fields, slots);
      SliceIs(dest, base, out);
    }

    method WriteSubmessage(fields: seq<Field>, slots: seq<Slot>, size: nat, ghost b: seq<byte>) returns (ok: bool)
      requires Valid() && |slots| == |fields| && dest != null && written + size <= maxSize
      requires W.EncodeFrom(fields, slots, 0) == Some(b) && |b| == size
      modifies this`written, this`out, Buffer()
      ensures Appended(Some(b), ok) && ok
      decreases fields, |fields| + 1, 1
    {
      hide W.EncodeFrom;
      var status, sub := EncodeBehind(fields, slots, size, b);
      TakeOver(sub);
      if sub.written != size {
        assert false;   // "submsg size changed"
      }
      return status;
    }
  }

  function Prefixed(b: Option<seq<byte>>): Option<seq<byte>> {
    match b
    case None => None
    case Some(s) => Some(W.Size(|s|) + s)
  }

  function ItemPrefix(f: Field, tagType: Option<nat>): seq<byte> {
    if tagType == None then [] else W.Tag(f.tag, tagType.value)
  }

  function Packed(f: Field, items: seq<Value>): Option<seq<byte>> {
    match W.EncodeItems(f, items, 0, [])
    case None => None
    case Some(b) => Some(W.Tag(f.tag, W.WT_STRING) + W.Size(|b|) + b)
  }

  /** The C type of an array of numbers. */
  predicate AllNumbers(items: seq<Value>) {
    forall k | 0 <= k < |items| :: items[k].Num?
  }

  lemma {:induction false} NotAllNumbers(f: Field, items: seq<Value>, k: nat)
    requires Packable(f.ltype) && k <= |items| && exists j | k <= j < |items| :: !items[j].Num?
    ensures W.EncodeItems(f, items, k, []) == None
    decreases |items| - k
  {
    if items[k].Num? {
      NotAllNumbers(f, items, k + 1);
    }
  }

  lemma {:induction false} FixedWidth(f: Field, items: seq<Value>, k: nat)
    requires AllNumbers(items) && k <= |items|
    ensures f.ltype.Fixed32? || f.ltype.Fixed64? ==>
              var b := W.EncodeItems(f, items, k, []);
              b.Some? && |b.value| == (if f.ltype.Fixed32? then 4 else 8) * (|items| - k)
    decreases |items| - k
  {
    if k < |items| {
      FixedWidth(f, items, k + 1);
    }
  }

  lemma OneMore(fields: seq<Field>, slots: seq<Slot>, i: nat)
    requires i < |fields| == |slots|
    ensures W.EncodeFrom(fields, slots, i)
         == W.Then(W.EncodeField(fields[i], slots[i]), W.EncodeFrom(fields, slots, i + 1))
  {
  }

  lemma Ends(fields: seq<Field>, slots: seq<Slot>)
    requires |fields| == |slots|
    ensures W.EncodeFrom(fields, slots, |fields|) == Some([])
  {
  }

  lemma OneMoreItem(f: Field, items: seq<Value>, i: nat, prefix: seq<byte>)
    requires i < |items|
    ensures W.EncodeItems(f, items, i, prefix)
         == W.Then(W.Then(Some(prefix), W.EncodeValue(f, items[i])), W.EncodeItems(f, items, i + 1, prefix))
  {
  }

  lemma ItemsEnd(f: Field, items: seq<Value>, prefix: seq<byte>)
    ensures W.EncodeItems(f, items, |items|, prefix) == Some([])
  {
  }

  lemma NothingLast(done: seq<byte>)
    ensures W.Then(Some(done), Some([])) == Some(done)
  {
    assert done + [] == done;
  }

  /** An encoding takes at least the room of its parts, and needs all of them. */
  lemma Beyond(done: seq<byte>, e: Option<seq<byte>>, rest: Option<seq<byte>>)
    ensures e == None ==> W.Then(W.Then(Some(done), e), rest) == None
    ensures e.Some? ==> W.Then(Some(done), e) == Some(done + e.value)
    ensures var all := W.Then(W.Then(Some(done), e), rest); all.Some? ==> |all.value| >= |done| + |e.value|
  {
  }

  lemma Joined(s: seq<byte>, t: seq<byte>, u: seq<byte>)
    ensures s + (t + u) == s + t + u
  {
  }

  lemma NothingFirst(e: Option<seq<byte>>)
    ensures W.Then(Some([]), e) == e
  {
    assert e.Some? ==> [] + e.value == e.value;
  }

  lemma Regrouped(done: seq<byte>, e: Option<seq<byte>>, rest: Option<seq<byte>>)
    ensures W.Then(Some(done), W.Then(e, rest)) == W.Then(W.Then(Some(done), e), rest)
  {
    if e.Some? && rest.Some? {
      assert done + (e.value + rest.value) == done + e.value + rest.value;
    }
  }
}
