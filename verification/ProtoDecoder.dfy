/** nanopb's decoder on input streams, substreams and the field iterator. */
module ProtoDecoder {
  import opened Bytes
  import opened Options
  import opened Varints
  import opened ProtoMessage
  import opened ProtoIterator
  import W = ProtoWire

  /** A stream over part of a buffer. */
  class IStream {
    const source: seq<byte>
    var at: nat
    var left: nat

    predicate Valid()
      reads this
    {
      at + left <= |source|
    }

    /** The octets still to be read. */
    function Rest(): (s: seq<byte>)
      requires Valid()
      reads this
      ensures |s| == left
    {
      source[at..at + left]
    }

    function End(): nat
      reads this
    {
      at + left
    }

    constructor (source: seq<byte>, at: nat, left: nat)
      requires at + left <= |source|
      ensures Valid() && this.source == source && this.at == at && this.left == left
    {
      this.source, this.at, this.left := source, at, left;
    }

    /** pb_read: the next n octets, if there are as many. */
    method Read(n: nat) returns (ok: bool, data: seq<byte>)
      requires Valid()
      modifies this
      ensures Valid() && End() == old(End()) && (ok <==> n <= old(left))
      ensures ok ==> data == old(Rest())[..n] && Rest() == old(Rest())[n..]
      ensures !ok ==> Rest() == old(Rest())
    {
      if left < n {
        return false, [];
      }
      data := source[at..at + n];
      at, left := at + n, left - n;
      ok := true;
    }

    /** pb_decode_varint. */
    method DecodeVarint() returns (ok: bool, value: nat)
      requires Valid()
      modifies this
      ensures Valid() && (ok ==> End() == old(End())) && (ok <==> Decode64(old(Rest()), 0, 0).Some?)
      ensures ok ==> Decode64(old(Rest()), 0, 0) == Some((value, Rest()))
    {
      hide Placed;
      var bitpos: nat, more := 0, true;
      value := 0;
      while more
        invariant Valid() && End() == old(End())
        invariant more ==> Decode64(old(Rest()), 0, 0) == Decode64(Rest(), bitpos, value)
        invariant !more ==> Decode64(old(Rest()), 0, 0) == Some((value, Rest()))
        decreases more, left
      {
        if bitpos >= 64 {
          return false, value;
        }
        var read, b := Read(1);
        if !read {
          return false, value;
        }
        value := Placed(value, b[0] as nat % 128, bitpos, U64);
        bitpos := bitpos + 7;
        more := b[0] >= 128;
      }
      ok := true;
    }

    /** pb_decode_varint32_eof: eof tells the end of the stream from a number cut short. */
    method DecodeVarint32() returns (ok: bool, value: nat, eof: bool)
      requires Valid()
      modifies this
      ensures Valid() && (ok || eof ==> End() == old(End()))
      ensures (ok <==> Decode32(old(Rest())).Some?) && eof == (old(left) == 0)
      ensures ok ==> Decode32(old(Rest())) == Some((value, Rest()))
    {
      hide Placed;
      value := 0;
      var read, b := Read(1);
      if !read {
        return false, value, true;
      }
      eof := false;
      if b[0] < 128 {
        return true, b[0] as nat, eof;
      }
      var bitpos: nat, more := 7, true;
      value := b[0] as nat % 128;
      while more
        invariant Valid() && End() == old(End()) && |b| == 1
        invariant more ==> Decode32(old(Rest())) == More32(Rest(), bitpos, value)
        invariant !more && (bitpos != 35 || b[0] as nat / 16 % 8 == 0) ==>
                  Decode32(old(Rest())) == Some((value, Rest()))
        invariant !more && bitpos == 35 && b[0] as nat / 16 % 8 != 0 ==> Decode32(old(Rest())) == None
        decreases more, left
      {
        read, b := Read(1);
        if !read {
          return false, value, eof;
        }
        var bits := b[0] as nat % 128;
        if bitpos >= 32 {
          var sign := if bitpos < 63 then 0xff else 0x01;
          if bits != 0 && (value / 0x8000_0000 == 0 || b[0] != sign) {
            return false, value, eof;
          }
        } else {
          value := Placed(value, bits, bitpos, U32);
        }
        bitpos := (bitpos + 7) % 256;
        more := b[0] >= 128;
      }
      if bitpos == 35 && b[0] as nat / 16 % 8 != 0 {
        return false, value, eof;
      }
      ok := true;
    }

    /** pb_skip_varint. */
    method SkipVarint() returns (ok: bool)
      requires Valid()
      modifies this
      ensures Valid() && (ok ==> End() == old(End())) && (ok <==> W.SkipVarint(old(Rest())).Some?)
      ensures ok ==> W.SkipVarint(old(Rest())) == Some(Rest())
    {
      var more := true;
      while more
        invariant Valid() && End() == old(End())
        invariant W.SkipVarint(old(Rest())) == if more then W.SkipVarint(Rest()) else Some(Rest())
        decreases more, left
      {
        var read, b := Read(1);
        if !read {
          return false;
        }
        more := b[0] >= 128;
      }
      return true;
    }

    /** pb_skip_field. */
    method SkipField(wireType: nat) returns (ok: bool)
      requires Valid()
      modifies this
      ensures Valid() && (ok ==> End() == old(End())) && (ok <==> W.Skip(wireType, old(Rest())).Some?)
      ensures ok ==> W.Skip(wireType, old(Rest())) == Some(Rest())
    {
      hide Decode32, W.SkipVarint;
      var data;
      if wireType == W.WT_VARINT {
        ok := SkipVarint();
      } else if wireType == W.WT_64BIT {
        ok, data := Read(8);
      } else if wireType == W.WT_STRING {
        var n, eof;
        ok, n, eof := DecodeVarint32();
        if ok {
          ok, data := Read(n);
        }
      } else if wireType == W.WT_32BIT {
        ok, data := Read(4);
      } else {
        ok := false;
      }
    }

    /** pb_make_string_substream: a stream of its own over the octets a length announces. Until it is
        closed this stream's position lags behind. */
    method MakeSubstream() returns (ok: bool, sub: IStream)
      requires Valid()
      modifies this
      ensures Valid() && fresh(sub) && sub.Valid() && (ok <==> W.TakeString(old(Rest())).Some?)
      ensures ok ==>
                && sub.source == source && sub.at == at && at + sub.left + left == old(End())
                && W.TakeString(old(Rest())) == Some((sub.Rest(), source[at + sub.left..at + sub.left + left]))
    {
      hide Decode32;
      var size, eof;
      ok, size, eof := DecodeVarint32();
      if !ok || left < size {
        sub := new IStream([], 0, 0);
        return false, sub;
      }
      sub := new IStream(source, at, size);
      assert Rest()[..size] == source[at..at + size] && Rest()[size..] == source[at + size..at + left];
      left := left - size;
    }

    /** pb_close_string_substream: skips what is left of the substream and catches up. */
    method CloseSubstream(sub: IStream)
      requires sub.Valid() && sub != this && sub.source == source && sub.at + sub.left + left <= |source|
      modifies this, sub
      ensures Valid() && left == old(left) && at == old(sub.at) + old(sub.left)
    {
      var ok, data := sub.Read(sub.left);
      at := sub.at;
    }

    method DecodeNumber(f: Field) returns (ok: bool, v: Value)
      requires Valid()
      modifies this
      ensures Valid() && (ok ==> End() == old(End())) && (ok <==> W.DecodeNumber(f, old(Rest())).Some?)
      ensures ok ==> W.DecodeNumber(f, old(Rest())) == Some((v, Rest()))
    {
      hide Decode64, W.LittleValue, W.Clamp;
      v := Num(0);
      if f.ltype.Fixed32? || f.ltype.Fixed64? {
        var data;
        ok, data := Read(if f.ltype.Fixed32? then 4 else 8);
        if ok {
          v := Num(W.LittleValue(data));
        }
        return;
      }
      var value;
      ok, value := DecodeVarint();
      if !ok {
        return;
      }
      var w := value % U64;
      var clamped :=
        if f.ltype.Varint? then
          W.Clamp(if f.dataSize == 8 then W.Signed(w, U64) else W.Signed(w % U32, U32), true, f.dataSize)
        else if f.ltype.UVarint? then W.Clamp(w, false, f.dataSize)
        else W.Clamp(W.UnZigZag(w), true, f.dataSize);
      if clamped == None {
        return false, v;
      }
      v := clamped.value;
    }

    method DecodeData(f: Field) returns (ok: bool, v: Value)
      requires Valid()
      modifies this
      ensures Valid() && (ok ==> End() == old(End())) && (ok <==> W.DecodeData(f, old(Rest())).Some?)
      ensures ok ==> W.DecodeData(f, old(Rest())) == Some((v, Rest()))
    {
      hide Decode32, W.UpToNul;
      v := Data([]);
      var size, eof;
      ok, size, eof := DecodeVarint32();
      if !ok {
        return;
      }
      if f.ltype.FixedOctets? && size == 0 {
        return true, Data(seq(f.dataSize, _ => 0));
      }
      if (f.ltype.FixedOctets? && size != f.dataSize) || (f.ltype.Octets? && size + 4 > f.dataSize)
         || (f.ltype.Text? && (size + 1 >= U32 || size + 1 > f.dataSize)) {
        return false, v;
      }
      var data;
      ok, data := Read(size);
      if ok {
        v := Data(if f.ltype.Text? then W.UpToNul(data) else data);
      }
    }

    /** pb_decode_tag: a zero key ends the message, like the end of the stream. */
    method DecodeTag() returns (ok: bool, wireType: nat, tag: nat, eof: bool)
      requires Valid()
      modifies this
      ensures Valid() && (ok || eof ==> End() == old(End()))
      ensures ok ==>
                && !eof && wireType < 8 && tag + wireType > 0
                && Decode32(old(Rest())) == Some((8 * tag + wireType, Rest()))
      ensures !ok && eof ==> old(left) == 0 || (Decode32(old(Rest())).Some? && Decode32(old(Rest())).value.0 == 0)
      ensures !ok && !eof ==> Decode32(old(Rest())) == None
    {
      hide Decode32;
      var key;
      wireType, tag := 0, 0;
      ok, key, eof := DecodeVarint32();
      if !ok {
        return;
      }
      if key == 0 {
        return false, wireType, tag, true;
      }
      tag, wireType := key / 8, key % 8;
    }

    /** The packed branch of decode_static_field. */
    method DecodePacked(f: Field, max: nat, items: seq<Value>) returns (ok: bool, all: seq<Value>)
      requires Valid()
      modifies this
      ensures Valid() && (ok ==> End() == old(End())) && (ok <==> PackedSpec(f, max, items, old(Rest())).Some?)
      ensures ok ==> PackedSpec(f, max, items, old(Rest())) == Some((all, Rest()))
    {
      hide Decode32, W.DecodeNumber;
      all := items;
      var sub;
      ok, sub := MakeSubstream();
      if !ok {
        return;
      }
      ghost var data := sub.Rest();
      label Opened:
      while sub.left > 0 && |all| < max
        invariant Valid() && sub.Valid() && fresh(sub) && sub.source == source && sub.at + sub.left == at + |data|
        invariant unchanged@Opened(this)
        invariant W.DecodePacked(f, max, items, data) == W.DecodePacked(f, max, all, sub.Rest())
        decreases sub.left
      {
        var read, v := sub.DecodeNumber(f);
        if !read {
          return false, all;
        }
        all := all + [v];
      }
      if sub.left != 0 {
        return false, all;
      }
      CloseSubstream(sub);
    }

    /** The field's decoder function. */
    method DecodeValue(f: Field, was: Value) returns (ok: bool, v: Value)
      requires Valid() && GoodField(f)
      modifies this
      ensures Valid() && (ok ==> End() == old(End())) && (ok <==> W.DecodeValue(f, was, old(Rest())).Some?)
      ensures ok ==> W.DecodeValue(f, was, old(Rest())) == Some((v, Rest()))
      decreases left, 0
    {
      hide W.DecodeNumber, W.DecodeData, W.TakeString, W.DecodeLoop;
      if f.ltype.Extension? {
        return false, was;
      }
      if f.ltype.Submessage? {
        ok, v := DecodeSubmessage(f, was);
      } else if f.ltype.Octets? || f.ltype.Text? || f.ltype.FixedOctets? {
        ok, v := DecodeData(f);
      } else {
        ok, v := DecodeNumber(f);
      }
    }

    /** pb_dec_submessage: array elements start from the defaults, other submessages from what they hold. */
    method DecodeSubmessage(f: Field, was: Value) returns (ok: bool, v: Value)
      requires Valid() && GoodField(f) && f.ltype.Submessage?
      modifies this
      ensures Valid() && (ok ==> End() == old(End())) && (ok <==> W.DecodeValue(f, was, old(Rest())).Some?)
      ensures ok ==> W.DecodeValue(f, was, old(Rest())) == Some((v, Rest()))
      decreases left, 0, 0
    {
      hide W.DecodeLoop, Defaults;
      var fields := f.ltype.fields;
      var sub;
      ok, sub := MakeSubstream();
      if !ok {
        return false, was;
      }
      var slots := if f.htype.Repeated? || !was.Struct? || |was.slots| != |fields| then Defaults(fields) else was.slots;
      ok, slots := sub.DecodeNoInit(fields, slots);
      if !ok {
        return false, was;
      }
      v := Struct(slots);
      CloseSubstream(sub);
    }

    /** decode_static_field: stores the value according to the field's kind. */
    method DecodeField(fields: seq<Field>, i: nat, slots: seq<Slot>, wireType: nat)
        returns (ok: bool, result: seq<Slot>)
      requires Valid() && GoodDescriptor(fields) && i < |fields| == |slots|
      modifies this
      ensures Valid() && (ok ==> End() == old(End())) && |result| == |fields|
      ensures ok <==> W.DecodeField(fields, i, slots, wireType, old(Rest())).Some?
      ensures ok ==> W.DecodeField(fields, i, slots, wireType, old(Rest())) == Some((result, Rest()))
      decreases left, 1
    {
      hide W.DecodeValue, W.DecodePacked, W.TakeString, W.Select, Default, Zero;
      result := slots;
      var f, slot, v := fields[i], slots[i], Num(0);
      if f.htype == Required && slot.One? {
        ok, v := DecodeValue(f, slot.v);
        result := slots[i := One(v)];
      } else if f.htype == Optional && slot.One? {
        ok, v := DecodeValue(f, slot.v);
        result := slots[i := One(v)];
      } else if f.htype == Optional && slot.Opt? {
        ok, v := DecodeValue(f, slot.v);
        result := slots[i := Opt(true, v)];
      } else if f.htype.Repeated? && slot.Many? && !FixedCount(f) {
        if wireType == W.WT_STRING && Packable(f.ltype) {
          var all;
          ok, all := DecodePacked(f, f.htype.max, slot.items);
          result := slots[i := Many(all)];
        } else if |slot.items| >= f.htype.max {
          ok := false;
        } else {
          ok, v := DecodeValue(f, Zero(f));
          result := slots[i := Many(slot.items + [v])];
        }
      } else if f.htype.Oneof? && slot.Member? {
        ok, v := DecodeValue(f, Default(f));
        result := W.Select(fields, slots, i, v);
      } else {
        ok := false;
      }
    }

    /** The packed branch of decode_static_field for an array of fixed count. */
    method FillPacked(f: Field, places: seq<Option<Value>>, at: nat)
      returns (ok: bool, all: seq<Option<Value>>, size: nat)
      requires Valid()
      modifies this
      ensures Valid() && (ok ==> End() == old(End())) && (ok <==> FillSpec(f, places, at, old(Rest())).Some?)
      ensures ok ==> FillSpec(f, places, at, old(Rest())) == Some((all, size, Rest()))
    {
      hide Decode32, W.DecodeNumber;
      all, size := places, at;
      var sub;
      ok, sub := MakeSubstream();
      if !ok {
        return;
      }
      ghost var data := sub.Rest();
      label Opened:
      while sub.left > 0 && size < |all|
        invariant Valid() && sub.Valid() && fresh(sub) && sub.source == source && sub.at + sub.left == this.at + |data|
        invariant unchanged@Opened(this)
        invariant W.FillPacked(f, places, at, data) == W.FillPacked(f, all, size, sub.Rest())
        decreases sub.left
      {
        var read, v := sub.DecodeNumber(f);
        if !read {
          return false, all, size;
        }
        all, size := all[size := Some(v)], size + 1;
      }
      if sub.left != 0 {
        return false, all, size;
      }
      CloseSubstream(sub);
    }

    /** decode_static_field for an array of fixed count, into its places from the given one on. */
    method Fill(f: Field, places: seq<Option<Value>>, at: nat, wireType: nat)
      returns (ok: bool, all: seq<Option<Value>>, size: nat)
      requires Valid() && GoodField(f)
      modifies this
      ensures Valid() && (ok ==> End() == old(End())) && (ok <==> W.Fill(f, places, at, wireType, old(Rest())).Some?)
      ensures ok ==> W.Fill(f, places, at, wireType, old(Rest())) == Some((all, size, Rest()))
      decreases left, 1
    {
      hide W.DecodeValue, W.FillPacked, W.TakeString, Zero;
      all, size := places, at;
      if wireType == W.WT_STRING && Packable(f.ltype) {
        ok, all, size := FillPacked(f, places, at);
      } else if at >= |places| {
        ok := false;
      } else {
        var v;
        ok, v := DecodeValue(f, Zero(f));
        all, size := places[at := Some(v)], at + 1;
      }
    }

    /** One field of the main loop: an array of fixed count has no counter in the message, so that the loop
        keeps one for the array it is filling, and is not done with it before it is full. */
    method DecodeAny(fields: seq<Field>, i: nat, slots: seq<Slot>, filling: Option<W.Filling>, wireType: nat,
                     fixedCount: bool)
      returns (ok: bool, result: seq<Slot>, fill: Option<W.Filling>)
      requires Valid() && GoodDescriptor(fields) && i < |fields| == |slots| && fixedCount == FixedCount(fields[i])
      modifies this
      ensures Valid() && (ok ==> End() == old(End())) && |result| == |fields|
      ensures ok <==> W.DecodeAny(fields, i, slots, filling, wireType, old(Rest())).Some?
      ensures ok ==> W.DecodeAny(fields, i, slots, filling, wireType, old(Rest())) == Some((result, fill, Rest()))
      decreases left, 2
    {
      hide W.DecodeField, W.Fill;
      result, fill := slots, filling;
      if !fixedCount {
        ok, result := DecodeField(fields, i, slots, wireType);
        return;
      }
      if filling.None? || filling.value.field != i {
        if filling.Some? && !W.Full(fields, filling) {
          return false, result, fill;
        }
        fill := Some(W.Filling(i, 0));
      }
      if !slots[i].Fixed? {
        return false, result, fill;
      }
      var places, size;
      ok, places, size := Fill(fields[i], slots[i].places, fill.value.count, wireType);
      result, fill := slots[i := Fixed(places)], Some(W.Filling(i, size));
    }

    /** pb_decode_noinit: the main loop, with the iterator, the bitmap of required fields and the array of
        fixed count that is being filled. */
    method DecodeNoInit(fields: seq<Field>, slots: seq<Slot>) returns (ok: bool, result: seq<Slot>)
      requires Valid() && GoodDescriptor(fields) && |slots| == |fields|
      modifies this
      ensures Valid() && (ok ==> End() == old(End())) && |result| == |fields|
      ensures ok <==> W.DecodeLoop(fields, slots, {}, None, old(Rest())).Some?
      ensures ok ==> W.DecodeLoop(fields, slots, {}, None, old(Rest())) == Some(result)
      decreases left, 3
    {
      hide W.DecodeAny, W.Skip, W.Find, Decode32, GoodDescriptor, FixedCount, Tracks, W.RequiredSeen, W.Full;
      result := slots;
      var iter := new FieldIter(fields);
      var words := [0, 0];
      var filling: Option<W.Filling> := None;
      ghost var seen: set<nat> := {};
      NothingSeen(fields);
      var more := true;
      while more && left != 0
        invariant Valid() && End() == old(End()) && iter.Valid() && fresh(iter) && iter.fields == fields
        invariant Tracks(words, fields, seen) && |result| == |fields|
        invariant more ==>
                  W.DecodeLoop(fields, slots, {}, None, old(Rest()))
                      == W.DecodeLoop(fields, result, seen, filling, Rest())
        invariant !more ==>
                  W.DecodeLoop(fields, slots, {}, None, old(Rest())) == W.Finish(fields, result, seen, filling)
        decreases more, left
      {
        var wireType, tag, eof;
        ok, wireType, tag, eof := DecodeTag();
        if !ok && !eof {
          return false, result;
        }
        if !ok {
          more := false;
        } else {
          var found := iter.Find(tag);
          FindsSame(fields, tag, iter.pos, found);
          if !found {
            ok := SkipField(wireType);
          } else if fields == [] {
            ok := false;
          } else {
            words := MarkSeen(words, fields, seen, iter.pos, iter.requiredIndex);
            seen := seen + {iter.pos};
            ok, result, filling := DecodeAny(fields, iter.pos, result, filling, wireType, iter.IsFixedCount());
          }
          if !ok {
            return false, result;
          }
        }
      }
      ok := W.Full(fields, filling);
      if ok {
        ok := CheckRequired(iter, words, seen);
      }
    }

    /** pb_decode. */
    method DecodeMessage(fields: seq<Field>) returns (ok: bool, result: seq<Slot>)
      requires Valid() && GoodDescriptor(fields)
      modifies this
      ensures Valid() && |result| == |fields|
      ensures ok <==> W.DecodeLoop(fields, Defaults(fields), {}, None, old(Rest())).Some?
      ensures ok ==> W.DecodeLoop(fields, Defaults(fields), {}, None, old(Rest())) == Some(result)
    {
      ok, result := DecodeNoInit(fields, Defaults(fields));
    }
  }

  lemma NothingSeen(fields: seq<Field>)
    ensures Tracks([0, 0], fields, {})
  {
    forall k: nat | k < W.MAX_REQUIRED_FIELDS ensures !Bit([0, 0][k / 32], k % 32) {
      ZeroHasNoBits(k % 32);
    }
  }

  /** Tags being distinct, the search around the ring finds what the search from the start does. */
  lemma FindsSame(fields: seq<Field>, tag: nat, pos: nat, found: bool)
    requires GoodDescriptor(fields)
    requires found <==> (fields == [] && tag == 0) || exists i | 0 <= i < |fields| :: Match(fields[i], tag)
    requires found && fields != [] ==> pos < |fields| && Match(fields[pos], tag)
    ensures W.Find(fields, tag, 0) == if found && fields != [] then Some(pos) else None
  {
    FindExact(fields, tag, 0);
  }

  function PackedSpec(f: Field, max: nat, items: seq<Value>, s: seq<byte>): Option<(seq<Value>, seq<byte>)> {
    match W.TakeString(s)
    case None => None
    case Some((data, rest)) =>
      match W.DecodePacked(f, max, items, data)
      case None => None
      case Some(all) => Some((all, rest))
  }

  function FillSpec(f: Field, places: seq<Option<Value>>, at: nat, s: seq<byte>): Option<(seq<Option<Value>>, nat,
                    seq<byte>)> {
    match W.TakeString(s)
    case None => None
    case Some((data, rest)) =>
      match W.FillPacked(f, places, at, data)
      case None => None
      case Some((all, n)) => Some((all, n, rest))
  }
}
