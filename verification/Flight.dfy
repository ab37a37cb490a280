/** What a flight of handshake messages means on the wire: positions in it, and the records that
    carry it piece by piece. */
module Flight {
  import opened Bytes
  import opened Options
  import opened Aead
  import opened DtlsWire
  import opened RecordWriter

  datatype Message = Message(typ: byte, body: seq<byte>)

  function WholeHeader(m: Message, seqNo: nat): HmHeader {
    HmHeader(m.typ, |m.body|, seqNo, 0, |m.body|)
  }

  /** A message as it is stored, hashed and handed out: one fragment that covers it. */
  function Raw(m: Message, seqNo: nat): seq<byte> {
    SerializeHeader(WholeHeader(m, seqNo)) + m.body
  }

  datatype OutMessage = OutMessage(data: seq<byte>, epoch: nat, isCcs: bool)

  /** A stored message parses as one whole fragment. */
  predicate Whole(m: OutMessage) {
    var f := ParseFragment(m.data);
    f.Some? && f.value.rest == [] && f.value.hdr.fragOff == 0
    && f.value.hdr.fragLen == f.value.hdr.msgLen && f.value.hdr.Fits()
  }

  function Header(m: OutMessage): HmHeader
    requires Whole(m)
  {
    ParseFragment(m.data).value.hdr
  }

  function Body(m: OutMessage): (b: seq<byte>)
    requires Whole(m)
    ensures |b| == Header(m).msgLen
  {
    ParseFragment(m.data).value.body
  }

  predicate FlightOk(msgs: seq<OutMessage>) {
    forall i | 0 <= i < |msgs| :: msgs[i].isCcs || Whole(msgs[i])
  }

  /** How far a flight has been written: whole messages, and octets of the next one. */
  datatype Pos = Pos(written: nat, offset: nat)

  predicate PosOk(msgs: seq<OutMessage>, pos: Pos)
    requires FlightOk(msgs)
  {
    && pos.written <= |msgs|
    && (pos.offset > 0 ==>
          pos.written < |msgs| && !msgs[pos.written].isCcs && pos.offset < |Body(msgs[pos.written])|)
  }

  /** The position after a record whose plaintext is the next piece of the flight; None for anything
      else. A piece makes progress: it is empty only for an empty message. */
  function Consume(msgs: seq<OutMessage>, pos: Pos, typ: byte, plain: seq<byte>): (r: Option<Pos>)
    requires FlightOk(msgs) && PosOk(msgs, pos)
    ensures r.Some? ==> PosOk(msgs, r.value) && pos.written <= r.value.written <= pos.written + 1
    ensures r.Some? && r.value.written == pos.written ==> r.value.offset > pos.offset
  {
    if pos.written == |msgs| then None
    else
      var m := msgs[pos.written];
      if m.isCcs then
        if typ == RT_CHANGE_CIPHER_SPEC && plain == [MT_CCS] then Some(Pos(pos.written + 1, 0)) else None
      else
        var piece := ParseFragment(plain);
        if typ != RT_HANDSHAKE || piece == None || piece.value.rest != [] then None
        else
          var end := pos.offset + |piece.value.body|;
          if end > |Body(m)|
             || piece.value.hdr != Header(m).(fragOff := pos.offset, fragLen := |piece.value.body|)
             || piece.value.body != Body(m)[pos.offset..end] then None
          else if end == |Body(m)| then Some(Pos(pos.written + 1, 0))
          else if end > pos.offset then Some(Pos(pos.written, end))
          else None
  }

  /** The position after a record that is the next piece and carries the epoch its message was queued in. */
  function ConsumeItem(msgs: seq<OutMessage>, pos: Pos, item: Item): (r: Option<Pos>)
    requires FlightOk(msgs) && PosOk(msgs, pos)
    ensures r.Some? ==> r == Consume(msgs, pos, item.rec.typ, item.plain)
  {
    if pos.written < |msgs| && |item.rec.number| == 8 && EpochOf(item.rec) == msgs[pos.written].epoch then
      Consume(msgs, pos, item.rec.typ, item.plain)
    else None
  }

  /** The position after a list of records, each the next piece. */
  function Walk(msgs: seq<OutMessage>, pos: Pos, items: seq<Item>): (r: Option<Pos>)
    requires FlightOk(msgs) && PosOk(msgs, pos)
    ensures r.Some? ==> PosOk(msgs, r.value)
    decreases items
  {
    if items == [] then Some(pos)
    else
      match ConsumeItem(msgs, pos, items[0])
      case None => None
      case Some(next) => Walk(msgs, next, items[1..])
  }

  lemma {:induction false} WalkConcat(msgs: seq<OutMessage>, pos: Pos, s: seq<Item>, t: seq<Item>)
    requires FlightOk(msgs) && PosOk(msgs, pos) && Walk(msgs, pos, s).Some?
    ensures Walk(msgs, pos, s + t) == Walk(msgs, Walk(msgs, pos, s).value, t)
    decreases s
  {
    if s == [] {
      assert s + t == t;
    } else {
      assert (s + t)[1..] == s[1..] + t;
      WalkConcat(msgs, ConsumeItem(msgs, pos, s[0]).value, s[1..], t);
    }
  }

  /** Whatever the epochs were when a flight was queued and are when it is sent: each record of a walk is the
      next piece of some message of the flight, under the epoch that message was queued in. */
  lemma {:induction false} WalkEpochs(msgs: seq<OutMessage>, pos: Pos, items: seq<Item>, k: nat)
    requires FlightOk(msgs) && PosOk(msgs, pos) && Walk(msgs, pos, items).Some? && k < |items|
    ensures Walk(msgs, pos, items[..k]).Some?
    ensures var at := Walk(msgs, pos, items[..k]).value;
            && at.written < |msgs| && |items[k].rec.number| == 8
            && Value(items[k].rec.number[..2]) == msgs[at.written].epoch
            && items[k].rec.typ == (if msgs[at.written].isCcs then RT_CHANGE_CIPHER_SPEC else RT_HANDSHAKE)
            && Consume(msgs, at, items[k].rec.typ, items[k].plain).Some?
    decreases items
  {
    hide Consume, Whole, Value;
    if k > 0 {
      assert items[..k][1..] == items[1..][..k - 1] && items[..k][0] == items[0];
      WalkEpochs(msgs, ConsumeItem(msgs, pos, items[0]).value, items[1..], k - 1);
    } else {
      PieceType(msgs, pos, items[0]);
    }
  }

  lemma PieceType(msgs: seq<OutMessage>, pos: Pos, item: Item)
    requires FlightOk(msgs) && PosOk(msgs, pos) && ConsumeItem(msgs, pos, item).Some?
    ensures item.rec.typ == if msgs[pos.written].isCcs then RT_CHANGE_CIPHER_SPEC else RT_HANDSHAKE
  {
  }

  /** The body octets that the records with a given message number carry, in order. */
  function Carried(items: seq<Item>, seqNo: nat): seq<byte>
    decreases items
  {
    if items == [] then []
    else
      Piece(items[0], seqNo) + Carried(items[1..], seqNo)
  }

  function Piece(item: Item, seqNo: nat): seq<byte> {
    var f := ParseFragment(item.plain);
    if item.rec.typ == RT_HANDSHAKE && f.Some? && f.value.hdr.seqNo == seqNo then f.value.body else []
  }

  /** Message numbers in a flight are all different. */
  predicate NumbersDiffer(msgs: seq<OutMessage>)
    requires FlightOk(msgs)
  {
    forall i, j | 0 <= i < j < |msgs| && !msgs[i].isCcs && !msgs[j].isCcs ::
      Header(msgs[i]).seqNo != Header(msgs[j]).seqNo
  }

  /** What is still to be sent of message k when a flight stands at pos. */
  function Left(msgs: seq<OutMessage>, pos: Pos, k: nat): seq<byte>
    requires FlightOk(msgs) && PosOk(msgs, pos) && k < |msgs| && !msgs[k].isCcs
  {
    if k < pos.written then [] else if k == pos.written then Body(msgs[k])[pos.offset..] else Body(msgs[k])
  }

  /** The records of a walk carry, of each message, exactly the octets between the two positions:
      each once, in order, with no gap. */
  lemma {:induction false} WalkCarries(msgs: seq<OutMessage>, pos: Pos, items: seq<Item>, k: nat)
    requires FlightOk(msgs) && PosOk(msgs, pos) && NumbersDiffer(msgs)
    requires Walk(msgs, pos, items).Some? && k < |msgs| && !msgs[k].isCcs
    ensures Left(msgs, pos, k) == Carried(items, Header(msgs[k]).seqNo) + Left(msgs, Walk(msgs, pos, items).value, k)
    decreases items
  {
    if items != [] {
      hide Whole, Header, Body, ParseFragment, NumbersDiffer, Left, Consume;
      var next := ConsumeItem(msgs, pos, items[0]).value;
      WalkCarries(msgs, next, items[1..], k);
      PieceCarries(msgs, pos, items[0], k);
      var s := Header(msgs[k]).seqNo;
      assert Carried(items, s) == Piece(items[0], s) + Carried(items[1..], s);
    }
  }

  lemma PieceCarries(msgs: seq<OutMessage>, pos: Pos, item: Item, k: nat)
    requires FlightOk(msgs) && PosOk(msgs, pos) && NumbersDiffer(msgs)
    requires Consume(msgs, pos, item.rec.typ, item.plain).Some? && k < |msgs| && !msgs[k].isCcs
    ensures Left(msgs, pos, k)
         == Piece(item, Header(msgs[k]).seqNo) + Left(msgs, Consume(msgs, pos, item.rec.typ, item.plain).value, k)
  {
    hide Whole, Header, Body, ParseFragment;
    var m := msgs[pos.written];
    if !m.isCcs {
      var f := ParseFragment(item.plain).value;
      var end := pos.offset + |f.body|;
      if k == pos.written {
        assert Body(m)[pos.offset..] == f.body + Body(m)[end..];
      }
    }
  }

  /** A flight written from its start to its end carries every message whole. */
  lemma FlightTiles(msgs: seq<OutMessage>, items: seq<Item>, k: nat)
    requires FlightOk(msgs) && NumbersDiffer(msgs)
    requires Walk(msgs, Pos(0, 0), items) == Some(Pos(|msgs|, 0)) && k < |msgs| && !msgs[k].isCcs
    ensures Carried(items, Header(msgs[k]).seqNo) == Body(msgs[k])
  {
    WalkCarries(msgs, Pos(0, 0), items, k);
  }

  /** The bytes of a packet: its records one after the other. */
  function PacketBytes(items: seq<Item>): seq<byte>
    requires forall i | i in items :: |i.rec.number| == 8
    decreases items
  {
    if items == [] then [] else SerializeRecord(items[0].rec) + PacketBytes(items[1..])
  }

  ghost predicate AllSealed(keys: Keys, items: seq<Item>) {
    forall i | i in items :: SealedUnder(keys, i)
  }

  lemma {:induction false} PacketBytesConcat(s: seq<Item>, t: seq<Item>)
    requires forall i | i in s + t :: |i.rec.number| == 8
    ensures (forall i | i in s :: |i.rec.number| == 8) && (forall i | i in t :: |i.rec.number| == 8)
    ensures PacketBytes(s + t) == PacketBytes(s) + PacketBytes(t)
    decreases s
  {
    forall i | i in s || i in t ensures |i.rec.number| == 8 {
      assert i in s + t;
    }
    if s == [] {
      assert s + t == t;
    } else {
      assert (s + t)[1..] == s[1..] + t;
      PacketBytesConcat(s[1..], t);
    }
  }

  /** The records of a list of packets. */
  function Flat(packets: seq<seq<Item>>): seq<Item>
    decreases packets
  {
    if packets == [] then [] else Flat(packets[..|packets| - 1]) + packets[|packets| - 1]
  }
}
