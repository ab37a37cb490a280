/** Decoding goes on where it stood: octets decoded in two parts are decoded one on top of the other, so that
    messages one after another merge, the last value of a field wins and the items of arrays come together. */
module ProtoMerge {
  import opened Bytes
  import opened Options
  import opened Varints
  import opened ProtoMessage
  import opened ProtoWire
  import opened ProtoRoundTrip

  // What is decoded does not depend on what follows it.

  lemma {:induction false} Decode64Extends(s: seq<byte>, bitpos: nat, result: nat, t: seq<byte>)
    requires Decode64(s, bitpos, result).Some?
    ensures Decode64(s + t, bitpos, result)
            == Some((Decode64(s, bitpos, result).value.0, Decode64(s, bitpos, result).value.1 + t))
    decreases |s|
  {
    hide Placed;
    assert (s + t)[0] == s[0] && (s + t)[1..] == s[1..] + t;
    if s[0] >= 128 {
      Decode64Extends(s[1..], bitpos + 7, Placed(result, s[0] as nat % 128, bitpos, U64), t);
    }
  }

  lemma DecodeNumberExtends(f: Field, s: seq<byte>, t: seq<byte>)
    requires DecodeNumber(f, s).Some?
    ensures DecodeNumber(f, s + t) == Some((DecodeNumber(f, s).value.0, DecodeNumber(f, s).value.1 + t))
  {
    hide Decode64, LittleValue, Clamp, Signed, UnZigZag;
    if f.ltype.Fixed32? || f.ltype.Fixed64? {
      var k := if f.ltype.Fixed32? then 4 else 8;
      assert (s + t)[..k] == s[..k] && (s + t)[k..] == s[k..] + t;
    } else {
      Decode64Extends(s, 0, 0, t);
    }
  }

  lemma TakeExtends(s: seq<byte>, n: nat, t: seq<byte>)
    requires Take(s, n).Some?
    ensures Take(s + t, n) == Some((Take(s, n).value.0, Take(s, n).value.1 + t))
  {
    assert (s + t)[..n] == s[..n] && (s + t)[n..] == s[n..] + t;
  }

  lemma TakeStringExtends(s: seq<byte>, t: seq<byte>)
    requires TakeString(s).Some?
    ensures TakeString(s + t) == Some((TakeString(s).value.0, TakeString(s).value.1 + t))
  {
    hide Decode32;
    Decode32Extends(s, t);
    var (n, rest) := Decode32(s).value;
    TakeExtends(rest, n, t);
  }

  lemma DecodeDataExtends(f: Field, s: seq<byte>, t: seq<byte>)
    requires DecodeData(f, s).Some?
    ensures DecodeData(f, s + t) == Some((DecodeData(f, s).value.0, DecodeData(f, s).value.1 + t))
  {
    hide Decode32, UpToNul;
    Decode32Extends(s, t);
    var (n, rest) := Decode32(s).value;
    if Take(rest, n).Some? {
      TakeExtends(rest, n, t);
    }
  }

  lemma DecodeValueExtends(f: Field, was: Value, s: seq<byte>, t: seq<byte>)
    requires DecodeValue(f, was, s).Some?
    ensures DecodeValue(f, was, s + t) == Some((DecodeValue(f, was, s).value.0, DecodeValue(f, was, s).value.1 + t))
  {
    hide DecodeNumber, DecodeData, TakeString, DecodeLoop;
    match f.ltype
    case Submessage(_) => TakeStringExtends(s, t);
    case Octets => DecodeDataExtends(f, s, t);
    case Text => DecodeDataExtends(f, s, t);
    case FixedOctets => DecodeDataExtends(f, s, t);
    case Extension =>
    case _ => DecodeNumberExtends(f, s, t);
  }

  lemma DecodeFieldExtends(fields: seq<Field>, i: nat, slots: seq<Slot>, wireType: nat, s: seq<byte>, t: seq<byte>)
    requires i < |fields| == |slots| && DecodeField(fields, i, slots, wireType, s).Some?
    ensures var r := DecodeField(fields, i, slots, wireType, s).value;
            DecodeField(fields, i, slots, wireType, s + t) == Some((r.0, r.1 + t))
  {
    hide DecodeValue, DecodePacked, TakeString, Zero, Default, Select;
    var f := fields[i];
    match (f.htype, slots[i])
    case (Required, One(was)) => DecodeValueExtends(f, was, s, t);
    case (Optional, One(was)) => DecodeValueExtends(f, was, s, t);
    case (Optional, Opt(_, was)) => DecodeValueExtends(f, was, s, t);
    case (Repeated(max), Many(items)) =>
      if wireType == WT_STRING && Packable(f.ltype) {
        TakeStringExtends(s, t);
      } else {
        DecodeValueExtends(f, Zero(f), s, t);
      }
    case (Oneof(_), Member(_)) => DecodeValueExtends(f, Default(f), s, t);
    case _ =>
  }

  lemma FillExtends(f: Field, places: seq<Option<Value>>, at: nat, wireType: nat, s: seq<byte>, t: seq<byte>)
    requires Fill(f, places, at, wireType, s).Some?
    ensures var r := Fill(f, places, at, wireType, s).value;
            Fill(f, places, at, wireType, s + t) == Some((r.0, r.1, r.2 + t))
  {
    hide DecodeValue, FillPacked, TakeString, Zero;
    if wireType == WT_STRING && Packable(f.ltype) {
      TakeStringExtends(s, t);
    } else {
      DecodeValueExtends(f, Zero(f), s, t);
    }
  }

  lemma DecodeAnyExtends(fields: seq<Field>, i: nat, slots: seq<Slot>, filling: Option<Filling>, wireType: nat,
                         s: seq<byte>, t: seq<byte>)
    requires i < |fields| == |slots| && DecodeAny(fields, i, slots, filling, wireType, s).Some?
    ensures var r := DecodeAny(fields, i, slots, filling, wireType, s).value;
            DecodeAny(fields, i, slots, filling, wireType, s + t) == Some((r.0, r.1, r.2 + t))
  {
    hide DecodeField, Fill, NextPlace;
    if FixedCount(fields[i]) {
      FillExtends(fields[i], slots[i].places, NextPlace(fields, filling, i).value, wireType, s, t);
    } else {
      DecodeFieldExtends(fields, i, slots, wireType, s, t);
    }
  }

  // The loop.

  /** What the loop has made of octets it has used up. */
  datatype Progress = Progress(slots: seq<Slot>, seen: set<nat>, filling: Option<Filling>)

  /** The loop over all of s; None if it stops with an error or at a zero key before the end. */
  function Run(fields: seq<Field>, p: Progress, s: seq<byte>): (r: Option<Progress>)
    requires |p.slots| == |fields|
    ensures r.Some? ==> |r.value.slots| == |fields|
    decreases |s|
  {
    if s == [] then Some(p)
    else
      match Decode32(s)
      case None => None
      case Some((key, rest)) =>
        if key == 0 then None
        else
          match Find(fields, key / 8, 0)
          case None => (
            if fields == [] && key / 8 == 0 then None
            else
              match Skip(key % 8, rest)
              case None => None
              case Some(after) => Run(fields, p, after)
          )
          case Some(i) =>
            match DecodeAny(fields, i, p.slots, p.filling, key % 8, rest)
            case None => None
            case Some((next, fill, after)) => Run(fields, Progress(next, p.seen + {i}, fill), after)
  }

  function Loop(fields: seq<Field>, p: Progress, s: seq<byte>): Option<seq<Slot>>
    requires |p.slots| == |fields|
  {
    DecodeLoop(fields, p.slots, p.seen, p.filling, s)
  }

  /** Octets in two parts: the second is decoded on top of what the first has left. */
  lemma {:induction false} OnTop(fields: seq<Field>, p: Progress, s: seq<byte>, t: seq<byte>)
    requires |p.slots| == |fields| && Run(fields, p, s).Some?
    ensures Loop(fields, p, s + t) == Loop(fields, Run(fields, p, s).value, t)
    decreases |s|
  {
    hide Decode32, Find, Skip, DecodeAny, Finish;
    if s == [] {
      assert s + t == t;
    } else {
      Decode32Extends(s, t);
      assert s + t != [];
      var (key, rest) := Decode32(s).value;
      var found := Find(fields, key / 8, 0);
      if found == None {
        SkipExtends(key % 8, rest, t);
        OnTop(fields, p, Skip(key % 8, rest).value, t);
      } else {
        DecodeAnyExtends(fields, found.value, p.slots, p.filling, key % 8, rest, t);
        var (next, fill, after) := DecodeAny(fields, found.value, p.slots, p.filling, key % 8, rest).value;
        OnTop(fields, Progress(next, p.seen + {found.value}, fill), after, t);
      }
    }
  }

  lemma {:induction false} FromThenMore(fields: seq<Field>, slots: seq<Slot>, i: nat, seen: set<nat>,
                                        filling: Option<Filling>, t: seq<byte>)
    returns (seenAll: set<nat>, filled: Option<Filling>)
    requires GoodDescriptor(fields) && GoodMessage(fields, slots) && i <= |fields|
    requires RequiredUpTo(fields, seen, i) && Settled(fields, filling, i)
    requires EncodeFrom(fields, slots, i).Some? && |EncodeFrom(fields, slots, i).value| < U32
    ensures RequiredUpTo(fields, seenAll, |fields|) && Settled(fields, filled, |fields|)
    ensures DecodeLoop(fields, UpTo(fields, SentAll(fields, slots), i), seen, filling,
                       EncodeFrom(fields, slots, i).value + t)
         == DecodeLoop(fields, SentAll(fields, slots), seenAll, filled, t)
    decreases |fields| - i
  {
    hide GoodDescriptor, GoodSlot, EncodeField, DecodeLoop, SentAll, Full, Filled, Defaults;
    if i == |fields| {
      seenAll, filled := seen, filling;
      assert UpTo(fields, SentAll(fields, slots), i) == SentAll(fields, slots) && [] + t == t;
    } else {
      var b, tail := EncodeField(fields[i], slots[i]).value, EncodeFrom(fields, slots, i + 1).value;
      assert Ignorable(fields, []);
      StepRoundTrip(fields, slots, i, [], seen, filling, tail + t);
      assert [] + b + (tail + t) == b + tail + t;
      seenAll, filled := FromThenMore(fields, slots, i + 1, Visited(seen, i, b), Filled(fields[i], i, filling), t);
    }
  }

  /** Messages one after another merge: what follows an encoded message is decoded on top of that message, with
      its required fields seen. */
  lemma OneAfterAnother(fields: seq<Field>, slots: seq<Slot>, t: seq<byte>)
    returns (seen: set<nat>, filling: Option<Filling>)
    requires GoodDescriptor(fields) && GoodMessage(fields, slots)
    requires EncodeFrom(fields, slots, 0).Some? && |EncodeFrom(fields, slots, 0).value| < U32
    ensures RequiredSeen(fields, seen) && Full(fields, filling)
    ensures DecodeLoop(fields, Defaults(fields), {}, None, EncodeFrom(fields, slots, 0).value + t)
         == DecodeLoop(fields, SentAll(fields, slots), seen, filling, t)
  {
    hide DecodeLoop, EncodeFrom, SentAll, Defaults;
    assert UpTo(fields, SentAll(fields, slots), 0) == Defaults(fields);
    seen, filling := FromThenMore(fields, slots, 0, {}, None, t);
  }

  // A field that comes again.

  /** The storage has the form of its field. */
  predicate Shaped(f: Field, slot: Slot) {
    match f.htype
    case Required => slot.One?
    case Optional => if HasFlag(f) then slot.Opt? else slot.One?
    case Repeated(_) => if FixedCount(f) then slot.Fixed? else slot.Many?
    case Oneof(_) => slot.Member?
  }

  /** Storage with a value put into one of its fields, and the others of its union cleared. */
  function Put(fields: seq<Field>, slots: seq<Slot>, i: nat, v: Value): (r: seq<Slot>)
    requires i < |fields| == |slots|
    ensures |r| == |slots|
  {
    match fields[i].htype
    case Oneof(_) => Select(fields, slots, i, v)
    case _ => slots[i := if slots[i].Opt? then Opt(true, v) else One(v)]
  }

  /** The last value wins: whatever a singular field held, and whichever member of its union was chosen, the value
      that comes takes its place. A submessage does only as a member of a union. */
  lemma LastWins(fields: seq<Field>, i: nat, v: Value, slots: seq<Slot>, seen: set<nat>, filling: Option<Filling>,
                 rest: seq<byte>)
    requires GoodDescriptor(fields) && i < |fields| == |slots| && !fields[i].ltype.Extension?
    requires !fields[i].htype.Repeated? && Shaped(fields[i], slots[i]) && GoodValue(fields[i], v)
    requires fields[i].ltype.Submessage? ==> fields[i].htype.Oneof?
    requires EncodeTagged(fields[i], v).Some? && |EncodeTagged(fields[i], v).value| < U32
    ensures DecodeLoop(fields, slots, seen, filling, EncodeTagged(fields[i], v).value + rest)
         == DecodeLoop(fields, Put(fields, slots, i, SentValue(fields[i], v)), seen + {i}, filling, rest)
  {
    hide DecodeLoop, DecodeValue, EncodeTagged, Select, GoodValue, SentValue, Default;
    var f := fields[i];
    var was := if f.htype.Oneof? then Default(f) else slots[i].v;
    TaggedRoundTrip(fields, i, v, was, slots, Put(fields, slots, i, SentValue(f, v)), seen, filling, rest);
  }

  /** A singular submessage goes on from what it holds: what comes is decoded on top of it. */
  lemma GoesOn(fields: seq<Field>, i: nat, held: seq<Slot>, data: seq<byte>, slots: seq<Slot>, seen: set<nat>,
               filling: Option<Filling>, rest: seq<byte>)
    requires GoodDescriptor(fields) && i < |fields| == |slots| && fields[i].ltype.Submessage?
    requires fields[i].htype in {Required, Optional} && Shaped(fields[i], slots[i])
    requires slots[i].v == Struct(held) && |held| == |fields[i].ltype.fields| && |data| < U32
    ensures DecodeLoop(fields, slots, seen, filling, Tag(fields[i].tag, 2) + (Size(|data|) + data + rest))
         == match DecodeLoop(fields[i].ltype.fields, held, {}, None, data)
            case None => None
            case Some(now) => DecodeLoop(fields, Put(fields, slots, i, Struct(now)), seen + {i}, filling, rest)
  {
    hide DecodeLoop, DecodeValue, Tag, Size, Find;
    var f, body := fields[i], Size(|data|) + data + rest;
    var now := DecodeLoop(f.ltype.fields, held, {}, None, data);
    SubmessageGoesOn(f, held, data, rest);
    if now.Some? {
      KeyStep(fields, i, slots, seen, filling, 2, body, Put(fields, slots, i, Struct(now.value)), filling, rest);
    } else {
      KeyFails(fields, i, slots, seen, filling, 2, body);
    }
  }

  lemma SubmessageGoesOn(f: Field, held: seq<Slot>, data: seq<byte>, rest: seq<byte>)
    requires f.ltype.Submessage? && !f.htype.Repeated? && |held| == |f.ltype.fields| && |data| < U32
    ensures DecodeValue(f, Struct(held), Size(|data|) + data + rest)
         == match DecodeLoop(f.ltype.fields, held, {}, None, data)
            case None => None
            case Some(now) => Some((Struct(now), rest))
  {
    hide DecodeLoop, Size, TakeString;
    StringTaken(data, rest);
  }

  lemma KeyFails(fields: seq<Field>, i: nat, slots: seq<Slot>, seen: set<nat>, filling: Option<Filling>, wireType: nat,
                 body: seq<byte>)
    requires GoodDescriptor(fields) && i < |fields| == |slots| && !fields[i].ltype.Extension? && wireType < 8
    requires DecodeAny(fields, i, slots, filling, wireType, body) == None
    ensures DecodeLoop(fields, slots, seen, filling, Tag(fields[i].tag, wireType) + body) == None
  {
    hide Encode, Decode32, DecodeAny, Find;
    var key := 8 * fields[i].tag + wireType;
    Decoded32(key, body);
    FindsItsField(fields, i, 0);
  }

  /** An item that comes alone joins the items there are, decoded from defaults; a full array refuses it. */
  lemma OneMoreItem(fields: seq<Field>, i: nat, v: Value, slots: seq<Slot>, seen: set<nat>, filling: Option<Filling>,
                    rest: seq<byte>)
    requires GoodDescriptor(fields) && i < |fields| == |slots| && !fields[i].ltype.Extension?
    requires fields[i].htype.Repeated? && !FixedCount(fields[i]) && slots[i].Many? && GoodValue(fields[i], v)
    requires EncodeTagged(fields[i], v).Some? && |EncodeTagged(fields[i], v).value| < U32
    ensures DecodeLoop(fields, slots, seen, filling, EncodeTagged(fields[i], v).value + rest)
         == if |slots[i].items| < fields[i].htype.max
            then DecodeLoop(fields, slots[i := Many(slots[i].items + [SentValue(fields[i], v)])], seen + {i}, filling,
                            rest)
            else None
  {
    hide DecodeLoop, DecodeValue, EncodeValue, Tag, GoodValue, SentValue, Zero;
    var f, items := fields[i], slots[i].items;
    var w, b := WireType(f.ltype).value, EncodeValue(f, v).value;
    ValueRoundTrip(f, v, Zero(f), rest);
    assert Tag(f.tag, w) + b + rest == Tag(f.tag, w) + (b + rest);
    if |items| < f.htype.max {
      KeyStep(fields, i, slots, seen, filling, w, b + rest, slots[i := Many(items + [SentValue(f, v)])], filling, rest);
    } else {
      KeyFails(fields, i, slots, seen, filling, w, b + rest);
    }
  }

  lemma {:induction false} ItemsBehind(f: Field, a: seq<Value>, b: seq<Value>, k: nat, prefix: seq<byte>)
    requires k <= |b|
    ensures EncodeItems(f, a + b, |a| + k, prefix) == EncodeItems(f, b, k, prefix)
    decreases |b| - k
  {
    hide EncodeValue;
    if k < |b| {
      ItemsBehind(f, a, b, k + 1, prefix);
    }
  }

  /** The items of a packed array join those there are. */
  lemma PackedJoins(fields: seq<Field>, i: nat, more: seq<Value>, slots: seq<Slot>, seen: set<nat>,
                    filling: Option<Filling>, rest: seq<byte>)
    requires GoodDescriptor(fields) && i < |fields| == |slots| && fields[i].htype.Repeated? && Packable(fields[i].ltype)
    requires !FixedCount(fields[i]) && slots[i].Many? && more != []
    requires |slots[i].items| + |more| <= fields[i].htype.max
    requires forall v | v in slots[i].items + more :: GoodValue(fields[i], v)
    requires var b := EncodeArray(fields[i], fields[i].htype.max, more); b.Some? && |b.value| < U32
    ensures DecodeLoop(fields, slots, seen, filling, EncodeArray(fields[i], fields[i].htype.max, more).value + rest)
         == DecodeLoop(fields, slots[i := Many(slots[i].items + more)], seen + {i}, filling, rest)
  {
    hide DecodeLoop, EncodeItems, DecodePacked, Encode, Decode32, Tag, Size, GoodValue;
    var f, items := fields[i], slots[i].items;
    var all, b := items + more, EncodeItems(f, more, 0, []).value;
    assert forall j | 0 <= j < |all| :: all[j] in all;
    ItemsBehind(f, items, more, 0, []);
    PackedRoundTrip(f, f.htype.max, all, |items|);
    assert all[..|items|] == items;
    StringTaken(b, rest);
    KeyStep(fields, i, slots, seen, filling, WT_STRING, Size(|b|) + b + rest, slots[i := Many(all)], filling, rest);
    assert Tag(f.tag, WT_STRING) + Size(|b|) + b + rest == Tag(f.tag, WT_STRING) + (Size(|b|) + b + rest);
  }
}
