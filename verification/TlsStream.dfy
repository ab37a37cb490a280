/** The byte stream of a TLS connection: messages cut into records, records sealed one after another, and
    how both are found again in what has arrived so far. RFC 5246, sections 6.2.1 and 7.4. */
module TlsStream {
  import opened Bytes
  import opened Options
  import opened Aead

  const RT_HEADER_LENGTH: nat := 5
  const HM_HEADER_LENGTH: nat := 4
  const RT_MAX_PLAIN_LENGTH: nat := 16384
  const RT_MAX_ENCRYPTED_OVERHEAD: nat := 320
  const RT_MAX_ENCRYPTED_LENGTH: nat := RT_MAX_PLAIN_LENGTH + RT_MAX_ENCRYPTED_OVERHEAD
  const SEQUENCE_LIMIT: nat := 0x1_0000_0000_0000_0000
  const VERSION_MAJOR: nat := 3

  const RT_CHANGE_CIPHER_SPEC: byte := 20
  const RT_ALERT: byte := 21
  const RT_HANDSHAKE: byte := 22
  const RT_APPLICATION_DATA: byte := 23
  const MT_CCS: byte := 1

  // Messages.

  datatype Parsed = Complete(raw: seq<byte>) | Needs(n: nat)

  /** parse_message: the first message of the buffer, or how many octets it takes to go on. */
  function ParseMessage(b: seq<byte>): Parsed {
    if |b| < HM_HEADER_LENGTH then Needs(HM_HEADER_LENGTH)
    else
      var len := Value(b[1..4]);
      if |b| - HM_HEADER_LENGTH < len then Needs(HM_HEADER_LENGTH + len)
      else Complete(b[..HM_HEADER_LENGTH + len])
  }

  /** A single message: a type, the 24-bit length of its body, and the body. */
  predicate Whole(m: seq<byte>) {
    ParseMessage(m) == Complete(m)
  }

  /** The length is in three octets behind the type, the most significant first. */
  lemma MessageLayout(m: seq<byte>)
    ensures Whole(m) <==>
            |m| >= 4 && |m| - 4 == 0x1_0000 * m[1] as nat + 0x100 * m[2] as nat + m[3] as nat
  {
    if |m| >= 4 {
      ThreeDigits(m[1..4]);
      if Value(m[1..4]) == |m| - 4 {
        assert m[..|m|] == m;
      }
    }
  }

  function Flatten(ms: seq<seq<byte>>): seq<byte> {
    if ms == [] then [] else ms[0] + Flatten(ms[1..])
  }

  lemma {:induction false} FlattenConcat(a: seq<seq<byte>>, b: seq<seq<byte>>)
    ensures Flatten(a + b) == Flatten(a) + Flatten(b)
  {
    if a == [] {
      assert a + b == b;
    } else {
      FlattenConcat(a[1..], b);
      assert (a + b)[1..] == a[1..] + b && (a + b)[0] == a[0];
      assert (a[0] + Flatten(a[1..])) + Flatten(b) == a[0] + (Flatten(a[1..]) + Flatten(b));
    }
  }

  lemma FlattenOne(ms: seq<seq<byte>>, m: seq<byte>)
    ensures Flatten(ms + [m]) == Flatten(ms) + m
  {
    FlattenConcat(ms, [m]);
    assert Flatten([m]) == m + Flatten([]);
  }

  /** In any part of a stream that begins with a message, that message is found exactly when all of it is
      there, and otherwise no more is asked for than it has. */
  lemma FirstMessage(m: seq<byte>, b: seq<byte>)
    requires Whole(m) && (b <= m || m <= b)
    ensures |m| <= |b| ==> ParseMessage(b) == Complete(m)
    ensures |b| < |m| ==> ParseMessage(b).Needs? && |b| < ParseMessage(b).n <= |m|
  {
    if |b| >= HM_HEADER_LENGTH {
      assert b[1..4] == m[1..4];
    }
  }

  lemma ParsedIsWhole(b: seq<byte>)
    requires ParseMessage(b).Complete?
    ensures Whole(ParseMessage(b).raw) && ParseMessage(b).raw <= b
  {
    var raw := ParseMessage(b).raw;
    assert raw[1..4] == b[1..4];
  }

  ghost predicate AllWhole(ms: seq<seq<byte>>) {
    forall m | m in ms :: Whole(m)
  }

  /** The stream determines its messages: if what one list of messages spells begins what another spells,
      the first list begins the second. */
  lemma {:induction false} SameMessages(a: seq<seq<byte>>, b: seq<seq<byte>>)
    requires AllWhole(a) && AllWhole(b) && Flatten(a) <= Flatten(b)
    ensures a <= b
  {
    if a != [] {
      var m := a[0];
      assert Whole(m) by { assert m in a; }
      assert m <= Flatten(a) <= Flatten(b);
      assert |m| >= HM_HEADER_LENGTH;
      assert b != [];
      var n := b[0];
      assert Whole(n) by { assert n in b; }
      assert n <= Flatten(b);
      FirstMessage(m, Flatten(b));
      FirstMessage(n, Flatten(b));
      assert m == n;
      assert Flatten(a[1..]) == Flatten(a)[|m|..] && Flatten(b[1..]) == Flatten(b)[|m|..];
      SameMessages(a[1..], b[1..]);
      assert a == [m] + a[1..] && b == [m] + b[1..];
    }
  }

  /** What is left when no complete message can be found is too short to be one: if the messages b spell
      the messages a and then a remainder, and the remainder has no complete message, there is none. */
  lemma {:induction false} NothingIsLeft(a: seq<seq<byte>>, rest: seq<byte>, b: seq<seq<byte>>)
    requires AllWhole(a) && AllWhole(b) && Flatten(a) + rest == Flatten(b) && ParseMessage(rest).Needs?
    ensures a == b && rest == []
  {
    assert Flatten(a) <= Flatten(b);
    SameMessages(a, b);
    var more := b[|a|..];
    assert b == a + more;
    FlattenConcat(a, more);
    assert rest == Flatten(b)[|Flatten(a)|..] == Flatten(more);
    if more != [] {
      assert more[0] in b;
      FirstMessage(more[0], rest);
      assert false;
    }
  }

  // Records.

  datatype Record = Record(typ: byte, version: nat, body: seq<byte>)

  function Serialize(r: Record): (s: seq<byte>)
    ensures |s| == RT_HEADER_LENGTH + |r.body|
  {
    [r.typ] + BigEndian(r.version, 2) + BigEndian(|r.body|, 2) + r.body
  }

  /** Type, version and length, in this order, and then the body. */
  lemma RecordLayout(r: Record)
    requires r.version < 0x1_0000 && |r.body| < 0x1_0000
    ensures var s := Serialize(r);
            && s[0] == r.typ && 0x100 * s[1] as nat + s[2] as nat == r.version
            && 0x100 * s[3] as nat + s[4] as nat == |r.body| && s[5..] == r.body
  {
    hide BigEndian;
    TwoOctets(r.version);
    TwoOctets(|r.body|);
  }

  /** A record is refused exactly for its version or its length. */
  lemma RefusedExactly(ctx: Context, s: seq<byte>)
    requires |s| >= 5
    ensures var version, len := 0x100 * s[1] as nat + s[2] as nat, 0x100 * s[3] as nat + s[4] as nat;
            Frame(ctx, s) == Refused <==>
            (if ctx.isNull then s[1] != 3 else version != ctx.version) || len > 16384 + 320
  {
    TwoDigits(s[1..3]);
    TwoDigits(s[3..5]);
  }

  datatype Framed =
    | Short(need: nat)                              // more octets are needed to go on
    | Refused                                       // wrong version, or too long
    | Cut(rec: Record, used: nat)                   // a record, and how many octets it takes up

  predicate VersionOk(ctx: Context, version: nat) {
    if ctx.isNull then version / 256 == VERSION_MAJOR else version == ctx.version
  }

  /** The framing part of tls_open_record. */
  function Frame(ctx: Context, s: seq<byte>): Framed {
    if |s| < RT_HEADER_LENGTH then Short(RT_HEADER_LENGTH)
    else
      var version, len := Value(s[1..3]), Value(s[3..5]);
      if !VersionOk(ctx, version) || len > RT_MAX_ENCRYPTED_LENGTH then Refused
      else if |s| - RT_HEADER_LENGTH < len then Short(RT_HEADER_LENGTH + len)
      else Cut(Record(s[0], version, s[5..5 + len]), RT_HEADER_LENGTH + len)
  }

  /** In any part of a stream that begins with a record, that record is cut off exactly when all of it is
      there, and otherwise no more is asked for than it has. */
  lemma FrameSerialized(ctx: Context, r: Record, s: seq<byte>)
    requires r.version < 0x1_0000 && VersionOk(ctx, r.version) && |r.body| <= RT_MAX_ENCRYPTED_LENGTH
    requires s <= Serialize(r) || Serialize(r) <= s
    ensures |s| >= |Serialize(r)| ==> Frame(ctx, s) == Cut(r, |Serialize(r)|)
    ensures |s| < |Serialize(r)| ==> Frame(ctx, s).Short? && |s| < Frame(ctx, s).need <= |Serialize(r)|
  {
    var all := Serialize(r);
    PowersUsed();
    ValueOfBigEndian(r.version, 2);
    ValueOfBigEndian(|r.body|, 2);
    assert all[1..3] == BigEndian(r.version, 2) && all[3..5] == BigEndian(|r.body|, 2);
    if |s| >= RT_HEADER_LENGTH {
      assert s[1..3] == all[1..3] && s[3..5] == all[3..5] && s[0] == r.typ;
      if |s| >= |all| {
        assert s[5..5 + |r.body|] == all[5..] == r.body;
      }
    }
  }

  // Sealed records.

  /** A sealed record: under which keys, with which sequence number, and what was sealed in it. */
  datatype Item = Item(epoch: nat, number: nat, plain: seq<byte>, rec: Record)

  ghost predicate SealedUnder(keys: Keys, i: Item) {
    && i.rec.version < 0x1_0000 && VersionOk(keys(i.epoch), i.rec.version) && |i.plain| <= RT_MAX_PLAIN_LENGTH
    && |i.rec.body| <= RT_MAX_ENCRYPTED_LENGTH && i.number < SEQUENCE_LIMIT
    && keys(i.epoch).seal(i.rec.typ, i.rec.version, BigEndian(i.number, 8), i.plain) == Some(i.rec.body)
  }

  ghost predicate AllSealed(keys: Keys, items: seq<Item>) {
    forall i | i in items :: SealedUnder(keys, i)
  }

  /** The octets of sealed records, one after another. */
  function Wire(items: seq<Item>): seq<byte> {
    if items == [] then [] else Wire(items[..|items| - 1]) + Serialize(items[|items| - 1].rec)
  }

  /** The handshake octets inside sealed records. */
  function Payload(items: seq<Item>): seq<byte> {
    if items == [] then []
    else
      var last := items[|items| - 1];
      Payload(items[..|items| - 1]) + if last.rec.typ == RT_HANDSHAKE then last.plain else []
  }

  lemma WireOne(items: seq<Item>, i: Item)
    ensures Wire(items + [i]) == Wire(items) + Serialize(i.rec)
    ensures Payload(items + [i]) == Payload(items) + if i.rec.typ == RT_HANDSHAKE then i.plain else []
  {
    assert (items + [i])[..|items|] == items;
  }

  lemma {:induction false} WireGrows(items: seq<Item>, k: nat)
    requires k <= |items|
    ensures Wire(items[..k]) <= Wire(items) && Payload(items[..k]) <= Payload(items)
  {
    if k == |items| {
      assert items[..k] == items;
    } else {
      var init := items[..|items| - 1];
      WireGrows(init, k);
      assert init[..k] == items[..k];
    }
  }

  /** Where the writer stands after these records: which keys, and which number comes next. Every
      ChangeCipherSpec is followed by new keys. */
  function Place(items: seq<Item>): (nat, nat) {
    if items == [] then (0, 0)
    else
      var last := items[|items| - 1];
      if last.rec.typ == RT_CHANGE_CIPHER_SPEC then (last.epoch + 1, 0) else (last.epoch, last.number + 1)
  }

  lemma PlaceOne(items: seq<Item>, i: Item)
    ensures Place(items + [i]) ==
            if i.rec.typ == RT_CHANGE_CIPHER_SPEC then (i.epoch + 1, 0) else (i.epoch, i.number + 1)
  {
  }

  /** The records follow one another: each has the keys and the number of the place after those before. */
  ghost predicate Chained(items: seq<Item>) {
    forall k | 0 <= k < |items| :: Place(items[..k]) == (items[k].epoch, items[k].number)
  }

  lemma ChainedOne(items: seq<Item>, i: Item)
    requires Chained(items) && Place(items) == (i.epoch, i.number)
    ensures Chained(items + [i])
  {
    var more := items + [i];
    forall k | 0 <= k < |more| ensures Place(more[..k]) == (more[k].epoch, more[k].number) {
      if k < |items| {
        assert more[..k] == items[..k];
      } else {
        assert more[..k] == items;
      }
    }
  }

  /** What has arrived behind the first k records starts with the next one, as far as it goes. */
  lemma NextOnTheWire(items: seq<Item>, k: nat, arrived: seq<byte>)
    requires k < |items| && Wire(items[..k]) + arrived <= Wire(items)
    ensures arrived <= Serialize(items[k].rec) || Serialize(items[k].rec) <= arrived
  {
    hide Wire, Serialize;
    WireUpTo(items, k);
    SameBeginning(Wire(items[..k]), Serialize(items[k].rec), arrived, Wire(items));
  }

  lemma {:induction false} WireUpTo(items: seq<Item>, k: nat)
    requires k < |items|
    ensures Wire(items[..k]) + Serialize(items[k].rec) <= Wire(items)
  {
    hide Serialize;
    var init, one := items[..|items| - 1], Serialize(items[|items| - 1].rec);
    if k < |items| - 1 {
      WireUpTo(init, k);
      assert init[..k] == items[..k];
      assert Wire(init) <= Wire(init) + one;
    }
  }

  lemma SameBeginning(before: seq<byte>, a: seq<byte>, b: seq<byte>, all: seq<byte>)
    requires before + a <= all && before + b <= all
    ensures a <= b || b <= a
  {
    Behind(before, a, all);
    Behind(before, b, all);
    var rest := all[|before|..];
    assert |a| <= |b| ==> rest[..|a|] <= rest[..|b|];
  }

  lemma Behind(before: seq<byte>, a: seq<byte>, all: seq<byte>)
    requires before + a <= all
    ensures a == all[|before|..][..|a|]
  {
    assert forall i | 0 <= i < |a| :: a[i] == (before + a)[|before| + i];
  }

  /** The ghost of a chunk list: how ssl3_add_message cuts a message. An empty message still gets a chunk. */
  function Chunks(msg: seq<byte>, max: nat): (c: seq<seq<byte>>)
    requires max > 0
    decreases |msg|
  {
    if |msg| <= max then [msg] else [msg[..max]] + Chunks(msg[max..], max)
  }

  /** The chunks make up the message, none is longer than allowed, and only the last can be shorter. */
  lemma {:induction false} ChunksTile(msg: seq<byte>, max: nat)
    requires max > 0
    ensures Flatten(Chunks(msg, max)) == msg && |Chunks(msg, max)| >= 1
    ensures var c := Chunks(msg, max); (forall k | 0 <= k < |c| - 1 :: |c[k]| == max) && |c[|c| - 1]| <= max
    decreases |msg|
  {
    if |msg| <= max {
      assert Flatten([msg]) == msg + Flatten([]);
    } else {
      ChunksTile(msg[max..], max);
      var rest := Chunks(msg[max..], max);
      assert ([msg[..max]] + rest)[1..] == rest;
      assert msg == msg[..max] + msg[max..];
    }
  }
}
