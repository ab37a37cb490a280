/** The real sender and the real receiver, joined by a network, take only steps of the system in
    DtlsSystem: so its end-to-end theorem holds of them. */
module DtlsSession {
  import opened Bytes
  import opened Options
  import opened Aead
  import opened DtlsWire
  import opened IncomingMessages
  import opened RecordWriter
  import opened SequenceNumbers
  import opened Flight
  import opened DtlsSender
  import opened DtlsSystem
  import R = DtlsReceiver

  /** A fragment that is the next piece of a genuine queue entry is a piece of a message sent. */
  lemma PieceIsTruthful(msgs: seq<OutMessage>, pos: Pos, i: Item, sent: seq<Message>)
    requires FlightOk(msgs) && PosOk(msgs, pos) && forall m | m in msgs :: Genuine(m, sent)
    requires Consume(msgs, pos, i.rec.typ, i.plain).Some? && i.rec.typ == RT_HANDSHAKE
    ensures Truthful(i.plain, sent)
  {
    hide Whole, Header, Body, ParseFragment;
    var m := msgs[pos.written];
    assert Genuine(m, sent);
    var f := ParseFragment(i.plain).value;
    var h := Header(m);
    assert f.body == sent[h.seqNo].body[pos.offset..pos.offset + |f.body|];
    assert FragmentOf(f.hdr, f.body, sent);
    NothingLeft();
  }

  lemma BeginsOk(keys: Keys, s: State)
    requires Initial(keys, s)
    ensures Inv(keys, s)
  {
    assert ParseRecord([]) == None;
  }

  lemma NothingLeft()
    ensures ParseFragment([]) == None
  {
  }

  /** Every record of a walk along a genuine flight is genuine. */
  lemma {:induction false} WalkIsGenuine(keys: Keys, msgs: seq<OutMessage>, pos: Pos, items: seq<Item>,
                                         sent: seq<Message>)
    requires FlightOk(msgs) && PosOk(msgs, pos) && forall m | m in msgs :: Genuine(m, sent)
    requires Walk(msgs, pos, items).Some? && AllSealed(keys, items)
    ensures forall i | i in items :: GenuineItem(keys, i, sent)
    decreases items
  {
    if items != [] {
      hide Consume, Genuine, Truthful, SealedUnder, Whole;
      var next := ConsumeItem(msgs, pos, items[0]).value;
      assert items[0] in items && forall i | i in items[1..] :: i in items;
      WalkIsGenuine(keys, msgs, next, items[1..], sent);
      if items[0].rec.typ == RT_HANDSHAKE {
        PieceIsTruthful(msgs, pos, items[0], sent);
      }
    }
  }

  /** The packets a sender wrote are made of the records sealed in them. */
  lemma {:induction false} FlatAll(keys: Keys, packets: seq<seq<Item>>)
    requires forall p | p in packets :: AllSealed(keys, p)
    ensures AllSealed(keys, Flat(packets))
    ensures forall p, i | p in packets && i in p :: i in Flat(packets)
    decreases packets
  {
    hide SealedUnder;
    if packets != [] {
      var init, last := packets[..|packets| - 1], packets[|packets| - 1];
      assert packets == init + [last];
      assert last in packets && forall p | p in init :: p in packets;
      FlatAll(keys, init);
    }
  }

  /** Whatever was written before and is written now can be delivered. */
  ghost predicate LogOk(log: seq<seq<byte>>, emitted: seq<Item>) {
    forall p | p in log :: MadeOf(p, emitted)
  }

  lemma LogGrows(keys: Keys, log: seq<seq<byte>>, emitted: seq<Item>, packets: seq<seq<Item>>)
    requires LogOk(log, emitted) && forall p | p in packets :: AllSealed(keys, p)
    ensures LogOk(log + AllBytes(keys, packets), emitted + Flat(packets))
  {
    hide MadeOf, AllSealed, PacketBytes, Flat;
    FlatAll(keys, packets);
    var all := AllBytes(keys, packets);
    forall b | b in log + all ensures MadeOf(b, emitted + Flat(packets)) {
      if b in log {
        MadeOfGrows(b, emitted, Flat(packets));
      } else {
        var k :| 0 <= k < |all| && all[k] == b;
        assert packets[k] in packets;
        PacketsAreMadeOfTheirRecords(keys, packets[k], emitted + Flat(packets));
      }
    }
  }

  predicate Within(items: seq<Item>, all: seq<Item>) {
    forall i | i in items :: i in all
  }

  lemma WithinGrows(items: seq<Item>, all: seq<Item>, more: seq<Item>, now: seq<Item>)
    requires Within(items, all) && all + more <= now
    ensures Within(items, now) && Within(more, now)
  {
    forall i | i in items + more ensures i in now {
      assert i in all + more;
    }
    forall i | i in more ensures i in now {
      assert i in items + more;
    }
    forall i | i in items ensures i in now {
      assert i in items + more;
    }
  }

  class Session {
    const sender: Sender
    const receiver: R.Receiver
    var incoming: seq<byte>
    ghost var emitted: seq<Item>
    ghost var delivered: seq<seq<byte>>

    ghost function View(): State
      reads this, sender, receiver, receiver.reader, receiver.reader.window, receiver.queue
    {
      State(sender.sent, emitted, incoming, receiver.reader.State(), receiver.queue.View(), receiver.maxLen, delivered)
    }

    ghost predicate Separate()
      reads this, receiver
    {
      this !in receiver.Repr && sender !in receiver.Repr && sender.writer !in receiver.Repr
          && sender.bio !in receiver.Repr
    }

    ghost predicate Valid()
      reads this, sender, sender.writer, sender.bio, receiver, receiver.Repr
    {
      && Separate() && sender.Valid() && receiver.Valid()
      && Inv(sender.writer.keys, View())
      && LogOk(sender.bio.log, emitted) && Within(emitted, sender.writer.sealed)
    }

    /** While no counter is used after it has run over, the records emitted have one number each. */
    lemma OneRecordPerNumber()
      requires Valid() && StopsInTime(START, NONE, sender.writer.history)
      ensures OnePerNumber(emitted)
    {
      hide Inv, LogOk, Writer.Valid, StopsInTime;
      sender.writer.NumbersDistinct();
    }

    constructor (ghost keys: Keys, ctx: Context, mtu: nat, maxLen: nat)
      requires ctx == keys(0) && forall e :: keys(e).Sound()
      ensures Valid() && sender.writer.keys == keys && Initial(keys, View())
    {
      hide Sender.Valid, R.Receiver.Valid, R.RecordReader.Valid, Queue.Valid, Writer.Valid, Context.Sound, Inv;
      incoming, emitted, delivered := [], [], [];
      var bio := new Bio();
      sender := new Sender(bio, keys, ctx, mtu);
      receiver := new R.Receiver(ctx, maxLen);
      new;
      BeginsOk(keys, View());
    }

    /** The sender has added messages or written packets. */
    ghost method SenderMoved(s: State, log: seq<seq<byte>>, packets: seq<seq<Item>>, sealed: seq<Item>)
      requires Separate() && sender.Valid() && receiver.Valid()
      requires Inv(sender.writer.keys, s) && LogOk(log, s.emitted) && s.sent <= sender.sent && s.emitted == emitted
      requires View() == s.(sent := sender.sent)
      requires forall p | p in packets :: AllSealed(sender.writer.keys, p)
      requires forall i | i in Flat(packets) :: GenuineItem(sender.writer.keys, i, sender.sent)
      requires sender.bio.log == log + AllBytes(sender.writer.keys, packets)
      requires Within(emitted, sealed) && sealed + Flat(packets) <= sender.writer.sealed
      modifies this`emitted
      ensures Valid() && Next(sender.writer.keys, s, View())
    {
      hide Inv, LogOk, GenuineItem, AllBytes, Flat, AllSealed, Opens, Takes, Reconfigures, Arrives;
      WithinGrows(emitted, sealed, Flat(packets), sender.writer.sealed);
      emitted := emitted + Flat(packets);
      assert Sends(sender.writer.keys, s, View());
      SendsKeeps(sender.writer.keys, s, View());
      LogGrows(sender.writer.keys, log, s.emitted, packets);
    }

    method AddMessage(typ: byte, body: seq<byte>) returns (ok: bool)
      requires Valid() && |body| < 0x100_0000 && sender.writeSeqNo < 0x1_0000
      modifies this`emitted, sender
      ensures Valid() && Next(sender.writer.keys, old(View()), View())
      ensures View().sent == old(View()).sent + if ok then [Message(typ, body)] else []
    {
      hide Inv, LogOk, GenuineItem, Sender.Valid;
      ok := sender.AddMessage(typ, body);
      assert AllBytes(sender.writer.keys, []) == [] && sender.bio.log + [] == sender.bio.log;
      SenderMoved(old(View()), old(sender.bio.log), [], old(sender.writer.sealed));
    }

    method AddChangeCipherSpec() returns (ok: bool)
      requires Valid()
      modifies this`emitted, sender
      ensures Valid() && Next(sender.writer.keys, old(View()), View())
      ensures View().sent == old(View()).sent
    {
      hide Inv, LogOk, GenuineItem, Sender.Valid;
      ok := sender.AddChangeCipherSpec();
      assert AllBytes(sender.writer.keys, []) == [] && sender.bio.log + [] == sender.bio.log;
      SenderMoved(old(View()), old(sender.bio.log), [], old(sender.writer.sealed));
    }

    /** The first transmission of a flight. */
    method Flush(noQuery: bool, queried: int) returns (ret: int)
      requires Valid()
      modifies this`emitted, sender, sender.bio, sender.writer
      ensures Valid() && Next(sender.writer.keys, old(View()), View())
      ensures View().sent == old(View()).sent
    {
      hide Inv, LogOk, GenuineItem, Walk, Genuine, NumbersDiffer, Whole, AllSealed, AllBytes, Flat, BytesOf;
      ghost var packets, lost;
      ghost var pos := sender.At();
      ret, packets, lost := sender.FlushFlight(noQuery, queried);
      Written(pos, packets, lost);
      SenderMoved(old(View()), old(sender.bio.log), packets, old(sender.writer.sealed));
    }

    /** Another transmission of the last flight. */
    method Retransmit(noQuery: bool, queried: int) returns (ret: int)
      requires Valid()
      modifies this`emitted, sender, sender.bio, sender.writer
      ensures Valid() && Next(sender.writer.keys, old(View()), View())
      ensures View().sent == old(View()).sent
    {
      hide Inv, LogOk, GenuineItem, Walk, Genuine, NumbersDiffer, Whole, AllSealed, AllBytes, Flat, BytesOf, Carried;
      ghost var packets, lost;
      ret, packets, lost := sender.Retransmit(noQuery, queried);
      Written(Pos(0, 0), packets, lost);
      SenderMoved(old(View()), old(sender.bio.log), packets, old(sender.writer.sealed));
    }

    /** What a flight's packets carry is genuine. */
    lemma Written(pos: Pos, packets: seq<seq<Item>>, lost: seq<Item>)
      requires sender.Valid() && PosOk(sender.outgoing, pos)
      requires forall p | p in packets :: AllSealed(sender.writer.keys, p)
      requires Walk(sender.outgoing, pos, Flat(packets) + lost).Some?
      ensures forall i | i in Flat(packets) :: GenuineItem(sender.writer.keys, i, sender.sent)
    {
      hide Flat, AllSealed, GenuineItem;
      FlatAll(sender.writer.keys, packets);
      WalkPrefix(sender.outgoing, pos, Flat(packets), lost);
      WalkIsGenuine(sender.writer.keys, sender.outgoing, pos, Flat(packets), sender.sent);
    }

    /** A post-handshake record: application data or an alert. */
    method WriteRecord(typ: byte, plain: seq<byte>, room: nat) returns (ret: int)
      requires Valid() && typ in {RT_APPLICATION_DATA, RT_ALERT}
      modifies this`emitted, sender.bio, sender.writer
      ensures Valid() && Next(sender.writer.keys, old(View()), View())
      ensures View().sent == old(View()).sent
    {
      hide Inv, LogOk, SealedUnder, Sender.Valid, AllBytes, Flat, BytesOf;
      ghost var packets;
      ret, packets := sender.WriteRecord(typ, plain, room);
      FlatAll(sender.writer.keys, packets);
      FlatTypes(packets, typ);
      SenderMoved(old(View()), old(sender.bio.log), packets, old(sender.writer.sealed));
    }

    method SetWriteState(ctx: Context)
      requires Valid() && sender.writer.epoch + 1 < EPOCH_LIMIT && ctx == sender.writer.keys(sender.writer.epoch + 1)
      modifies sender.writer
      ensures Valid() && View() == old(View())
    {
      hide Inv, LogOk;
      sender.SetWriteState(ctx);
    }

    /** The network hands over any packet made of emitted records: one written, or one rearranged. */
    method Deliver(packet: seq<byte>)
      requires Valid() && MadeOf(packet, emitted)
      modifies this`incoming
      ensures Valid() && Next(sender.writer.keys, old(View()), View())
    {
      hide LogOk, MadeOf, Sender.Valid, GenuineItem, InboxOk, InOrder;
      incoming := packet;
    }

    /** Every packet the transport took can be delivered, at any later time. */
    lemma CanDeliver(packet: seq<byte>)
      requires Valid() && packet in sender.bio.log
      ensures MadeOf(packet, emitted)
    {
    }

    /** The receiver reads one record of the current packet. */
    method Open() returns (result: R.Result)
      requires Valid()
      modifies this`incoming, receiver.Repr
      ensures Valid() && Next(sender.writer.keys, old(View()), View())
      ensures View().delivered == old(View()).delivered
    {
      hide Inv, LogOk, R.Open, R.Handle, R.RecordReader.Valid, Queue.Valid;
      ghost var s := View();
      EnoughToConsume();
      var consumed;
      ghost var o;
      result, consumed, o := receiver.OpenHandshake(incoming);
      incoming := incoming[consumed..];
      assert Opens(s, View());
      OpensKeeps(sender.writer.keys, s, View());
    }

    /** The receiver waits for a ChangeCipherSpec, reading a record if it has not seen one. */
    method OpenChangeCipherSpec() returns (result: R.Result)
      requires Valid()
      modifies this`incoming, receiver.Repr
      ensures Valid() && (View() == old(View()) || Next(sender.writer.keys, old(View()), View()))
      ensures old(receiver.hasChangeCipherSpec) ==> result == R.Ok
      ensures forall i | i in old(emitted) && i.rec.typ == 20 && old(Offered(View(), i))
                && Value(i.rec.number) !in old(receiver.reader.window.accepted) && receiver.reader.ctx.isNull ::
                result == R.Ok
      ensures View().delivered == old(View()).delivered
    {
      hide Inv, LogOk, R.Open, R.Handle, R.RecordReader.Valid, Queue.Valid, R.Noted;
      ghost var s := View();
      EnoughToConsume();
      var consumed;
      ghost var o;
      forall i | i in emitted && i.rec.typ == 20 && Offered(s, i) && Value(i.rec.number) !in s.reader.accepted
        ensures var o := R.Open(s.reader, s.incoming); o.Success? && o.typ == 20 && o.plain == [1]
      {
        ChangeCipherSpecOpens(sender.writer.keys, s, i);
      }
      result, consumed, o := receiver.OpenChangeCipherSpec(incoming);
      incoming := incoming[consumed..];
      if o.Some? {
        assert Opens(s, View());
        OpensKeeps(sender.writer.keys, s, View());
      } else {
        assert View() == s;
      }
    }

    lemma EnoughToConsume()
      requires Valid()
      ensures R.Consumed(R.Open(receiver.reader.State(), incoming)) <= |incoming|
    {
      hide LogOk, Inv;
      assert Inv(sender.writer.keys, View());
      OpensToSealed(sender.writer.keys, View());
    }

    /** The receiver takes out the current message, if it is complete. */
    method Take() returns (raw: Option<seq<byte>>)
      requires Valid()
      modifies this`delivered, receiver.queue, receiver.queue.slots
      ensures Valid() && (raw.Some? ==> Next(sender.writer.keys, old(View()), View()))
      ensures delivered == old(delivered) + if raw.Some? then [raw.value] else []
      ensures InOrder(delivered, sender.sent)
    {
      hide LogOk, R.RecordReader.Valid, Queue.Valid, Sender.Valid, MadeOf, GenuineItem, InboxOk;
      ghost var s := View();
      raw := receiver.GetMessage();
      if raw.Some? {
        receiver.NextMessage();
        delivered := delivered + [raw.value];
        assert Takes(s, View());
        TakesKeeps(sender.writer.keys, s, View());
      }
    }

    method SetReadState(ctx: Context) returns (ok: bool)
      requires Valid() && ctx == sender.writer.keys(receiver.reader.epoch + 1)
      modifies receiver.reader, receiver.reader.window
      ensures Valid() && (ok ==> Next(sender.writer.keys, old(View()), View()))
      ensures !ok ==> View() == old(View())
    {
      hide LogOk, Queue.Valid, R.RecordReader.Valid, Sender.Valid, MadeOf, GenuineItem, InboxOk, InOrder;
      ok := receiver.SetReadState(ctx);
      if ok {
        assert Reconfigures(sender.writer.keys, old(View()), View());
      }
    }
  }

  lemma WalkPrefix(msgs: seq<OutMessage>, pos: Pos, s: seq<Item>, t: seq<Item>)
    requires FlightOk(msgs) && PosOk(msgs, pos) && Walk(msgs, pos, s + t).Some?
    ensures Walk(msgs, pos, s).Some?
    decreases s
  {
    if s != [] {
      assert (s + t)[0] == s[0] && (s + t)[1..] == s[1..] + t;
      WalkPrefix(msgs, ConsumeItem(msgs, pos, s[0]).value, s[1..], t);
    }
  }

  lemma {:induction false} FlatTypes(packets: seq<seq<Item>>, typ: byte)
    requires forall p | p in packets :: forall i | i in p :: i.rec.typ == typ
    ensures forall i | i in Flat(packets) :: i.rec.typ == typ
    decreases packets
  {
    if packets != [] {
      var init, last := packets[..|packets| - 1], packets[|packets| - 1];
      assert last in packets && forall p | p in init :: p in packets;
      FlatTypes(init, typ);
    }
  }
}
