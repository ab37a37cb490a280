/** The sending half of DTLS: handshake messages are queued as a flight, cut into fragments that fit
    the packet, packed, written, and retransmitted from the start. RFC 6347, sections 4.2.3 and 4.2.4. */
module DtlsSender {
  import opened Bytes
  import opened Options
  import opened Aead
  import opened DtlsWire
  import opened RecordWriter
  import opened SequenceNumbers
  import opened Flight

  const MAX_HANDSHAKE_FLIGHT: nat := 7
  const MIN_MTU: nat := 256 - 28
  const DEFAULT_MTU: nat := 1500 - 28

  /** A datagram transport: a write takes the whole packet or fails. */
  class Bio {
    ghost var log: seq<seq<byte>>   // the packets written
    ghost var refused: nat          // how many writes and flushes have failed

    constructor ()
      ensures log == []
    {
      log, refused := [], 0;
    }

    method Write(packet: seq<byte>) returns (r: int)
      modifies this
      ensures log == old(log) + (if r > 0 then [packet] else []) && refused == old(refused) + if r > 0 then 0 else 1
    {
      r := *;
      if r > 0 {
        log := log + [packet];
      } else {
        refused := refused + 1;
      }
    }

    method Flush() returns (r: int)
      modifies this`refused
      ensures refused == old(refused) + if r > 0 then 0 else 1
    {
      r := *;
      refused := refused + if r > 0 then 0 else 1;
    }
  }

  datatype SealResult = SealError | NoProgress | PartialSeal | SealSuccess

  /** The queue entry is the whole message of that number among those sent. */
  predicate Genuine(m: OutMessage, sent: seq<Message>) {
    m.isCcs || (Whole(m) && var h := Header(m);
      h.seqNo < |sent| && h == WholeHeader(sent[h.seqNo], h.seqNo) && Body(m) == sent[h.seqNo].body)
  }

  class Sender {
    const writer: Writer
    const bio: Bio
    var outgoing: seq<OutMessage>
    var written: nat
    var offset: nat
    var complete: bool        // the flight has been flushed; the next message starts a new one
    var writeSeqNo: nat
    var mtu: nat
    var shutdown: bool
    ghost var sent: seq<Message>   // every message ever added, in order
    ghost var retransmitted: nat   // how often a flight was sent again

    ghost predicate Valid()
      reads this, writer
    {
      && writer.Valid()
      && |outgoing| <= 7 && writeSeqNo == |sent|
      && (forall m | m in outgoing :: Genuine(m, sent))
      && FlightOk(outgoing) && NumbersDiffer(outgoing) && PosOk(outgoing, At())
    }

    function At(): Pos
      reads this
    {
      Pos(written, offset)
    }

    constructor (bio: Bio, ghost keys: Keys, ctx: Context, mtu: nat)
      requires ctx == keys(0) && forall e :: keys(e).Sound()
      ensures Valid() && fresh(writer) && this.bio == bio && writer.keys == keys
      ensures outgoing == [] && sent == [] && this.mtu == mtu && writer.sealed == [] && !shutdown
    {
      writer := new Writer(keys, ctx);
      this.bio := bio;
      outgoing, written, offset, complete := [], 0, 0, false;
      writeSeqNo, this.mtu, shutdown, sent, retransmitted := 0, mtu, false, [], 0;
    }

    /** Whether an outgoing message belongs to the previous epoch; None when to neither. */
    function UsesPrevious(m: OutMessage): Option<bool>
      reads this, writer
    {
      if writer.epoch >= 1 && m.epoch == writer.epoch - 1 then Some(true)
      else if m.epoch != writer.epoch then None
      else Some(false)
    }

    /** What sealing a piece of the next message can add to it. */
    function Overhead(): nat
      reads this, writer
    {
      RT_HEADER_LENGTH
          + if written < |outgoing| && outgoing[written].epoch != writer.epoch then writer.lastCtx.maxOverhead
                         else writer.ctx.maxOverhead
    }

    /** The keys of the next message's epoch are gone: it is neither the current epoch nor the one before. */
    predicate Stranded()
      reads this, writer
    {
      written < |outgoing| && outgoing[written].epoch != writer.epoch && outgoing[written].epoch + 1 != writer.epoch
    }

    /** Nothing of the next message can be sealed in packets of this size. */
    predicate Blocked(room: int)
      reads this, writer
    {
      Stranded() || (written < |outgoing|
                     && room < Overhead() + if outgoing[written].isCcs then 1 else HM_HEADER_LENGTH + 1)
    }

    /** seal_next_message: seals the rest of the next message, or as much of it as fits. */
    method SealNextMessage(maxOut: nat) returns (result: SealResult, out: seq<byte>, ghost item: Item)
      requires Valid() && written < |outgoing|
      modifies this`offset, writer`next, writer`last, writer`history, writer`sealed,
               writer`failures
      ensures writer.Valid()
      ensures writer.sealed == old(writer.sealed) + if result in {PartialSeal, SealSuccess} then [item] else []
      ensures result in {PartialSeal, SealSuccess} ==>
                var pos := ConsumeItem(outgoing, old(At()), item);
                && |item.rec.number| == 8 && EpochOf(item.rec) == outgoing[written].epoch
                && SealedUnder(writer.keys, item) && out == SerializeRecord(item.rec) && |out| <= maxOut
                && pos == Some(if result == SealSuccess then Pos(written + 1, 0) else At())
                && (result == SealSuccess ==> offset == 0)
      ensures result in {SealError, NoProgress} ==> offset == old(offset)
      ensures Stranded() ==> result == SealError
      ensures result == SealError && !Stranded() ==>
                && Consume(outgoing, At(), item.rec.typ, item.plain).Some?
                && |item.rec.number| == 8 && EpochOf(item.rec) == outgoing[written].epoch
                && writer.Refused(item, outgoing[written].epoch != writer.epoch, old(writer.Now()))
      ensures result == PartialSeal ==> |item.plain| + old(Overhead()) == maxOut
      ensures result == NoProgress ==> old(Blocked(maxOut)) && Blocked(maxOut)
      ensures if result == SealError && !Stranded() then writer.failures == old(writer.failures) + 1
              else writer.failures == old(writer.failures)
    {
      hide Consume, ParseFragment, SerializeHeader, SerializeRecord, SealedUnder, Genuine, NumbersDiffer,
        Writer.Refused, Whole, EpochOf, RecordNumber, Writer.Valid;
      var m := outgoing[written];
      out := [];
      item := Item(Record(0, 0, [], []), []);
      var use := UsesPrevious(m);
      if use == None {
        return SealError, out, item;
      }
      writer.NonceFits(use.value);
      var ctx := writer.ContextFor(use.value);
      var overhead := RT_HEADER_LENGTH + ctx.maxOverhead;
      var prefix := RT_HEADER_LENGTH + ctx.explicitNonceLen;
      if m.isCcs {
        if maxOut < 1 + overhead {
          return NoProgress, out, item;
        }
        ConsumeCcs(outgoing, At());
        var rec;
        rec, item := writer.SealRecord(RT_CHANGE_CIPHER_SPEC, [MT_CCS], use.value, maxOut);
        if rec == None {
          return SealError, out, item;
        }
        return SealSuccess, rec.value, item;
      }
      var body := Body(m)[offset..];
      if maxOut < HM_HEADER_LENGTH + 1 + overhead || maxOut < prefix {
        return NoProgress, out, item;
      }
      var todo := |body|;
      if todo > maxOut - HM_HEADER_LENGTH - overhead {
        todo := maxOut - HM_HEADER_LENGTH - overhead;
      }
      var header := Header(m).(fragOff := offset, fragLen := todo);
      var plain := SerializeHeader(header) + body[..todo];
      if |plain| > maxOut - prefix {
        return SealError, out, item;
      }
      ConsumePiece(outgoing, At(), todo);
      var rec;
      rec, item := writer.SealRecord(RT_HANDSHAKE, plain, use.value, maxOut);
      if rec == None {
        return SealError, out, item;
      }
      if todo == |body| {
        offset := 0;
        return SealSuccess, rec.value, item;
      }
      offset := offset + todo;
      return PartialSeal, rec.value, item;
    }

    /** seal_next_packet: as many pieces of the flight as fit. When a seal fails, the position has
        moved past the pieces sealed before it although no packet carries them. */
    method SealNextPacket(maxOut: nat) returns (ok: bool, packet: seq<byte>, ghost items: seq<Item>)
      requires Valid() && written < |outgoing|
      modifies this`written, this`offset, writer`next, writer`last, writer`history, writer`sealed,
               writer`failures
      ensures Valid() && AllSealed(writer.keys, items) && writer.sealed == old(writer.sealed) + items
      ensures Walk(outgoing, old(At()), items) == Some(At())
      ensures ok ==> items != [] && packet == BytesOf(writer.keys, items) && |packet| <= maxOut
      ensures ok ==> written == |outgoing| || offset > 0 || Blocked(maxOut - |packet|)
      ensures !ok ==> Blocked(maxOut) || writer.failures > old(writer.failures)
      ensures writer.failures >= old(writer.failures)
    {
      hide Consume, Walk, BytesOf, SealedUnder, Genuine, NumbersDiffer, Whole, Header, Body, SerializeRecord,
        Writer.Valid, SerializeHeader, ParseFragment;
      var room: nat, madeProgress := maxOut, false;
      packet, items := [], [];
      StartOfPacket(writer.keys, outgoing, At());
      while written < |outgoing|
        invariant Valid() && AllSealed(writer.keys, items) && writer.sealed == old(writer.sealed) + items
        invariant Walk(outgoing, old(At()), items) == Some(At())
        invariant madeProgress == (items != [])
        invariant packet == BytesOf(writer.keys, items) && |packet| + room == maxOut
        invariant !madeProgress ==> room == maxOut && written == old(written)
        invariant writer.failures == old(writer.failures)
        decreases |outgoing| - written
      {
        ghost var before := At();
        var result, out, item := SealNextMessage(room);
        if result == SealError {
          return false, packet, items;
        }
        if result == NoProgress {
          break;
        }
        WalkStep(outgoing, old(At()), items, item);
        BytesStep(writer.keys, items, item);
        Joined(old(writer.sealed), items, [item]);
        packet, room, items := packet + out, room - |out|, items + [item];
        madeProgress := true;
        if result == PartialSeal {
          break;
        }
        written := written + 1;
      }
      if !madeProgress {
        return false, packet, items;
      }
      ok := true;
    }

    /** dtls1_update_mtu; queried is what the transport answers. */
    method UpdateMtu(noQuery: bool, queried: int)
      modifies this`mtu
      ensures mtu == if old(mtu) >= 228 || noQuery then old(mtu)
                     else if 228 <= queried <= 0x4000_0000 then queried else 1472
    {
      if mtu < MIN_MTU && !noQuery {
        if 0 <= queried <= 0x4000_0000 && queried >= MIN_MTU {
          mtu := queried;
        } else {
          mtu := DEFAULT_MTU;
        }
      }
    }

    /** One turn of the loop in send_flight: seal a packet and write it. */
    method SendPacket() returns (ret: int, ghost items: seq<Item>, ghost lost: seq<Item>)
      requires Valid() && written < |outgoing|
      modifies this`written, this`offset, bio, writer`next, writer`last, writer`history, writer`sealed,
               writer`failures
      ensures Valid() && old(writer.sealed) <= writer.sealed
      ensures ret > 0 ==>
                && writer.sealed == old(writer.sealed) + items
                && lost == [] && items != [] && AllSealed(writer.keys, items) && |BytesOf(writer.keys, items)| <= mtu
                && bio.log == old(bio.log) + [BytesOf(writer.keys, items)]
                && Walk(outgoing, old(At()), items) == Some(At())
                && (written > old(written) || BytesLeft(outgoing, At()) < old(BytesLeft(outgoing, At())))
                && written >= old(written) && bio.refused == old(bio.refused)
      ensures ret <= 0 ==> bio.log == old(bio.log) && Walk(outgoing, old(At()), lost) == Some(At())
      ensures ret <= 0 ==> bio.refused > old(bio.refused) || writer.failures > old(writer.failures) || Blocked(mtu)
      ensures writer.failures >= old(writer.failures)
      ensures bio.refused > old(bio.refused) ==> ret <= 0 && At() == old(At()) && lost == []
    {
      hide Consume, Walk, BytesOf, SealedUnder, Genuine, NumbersDiffer, Whole, Header, Body, SerializeRecord;
      lost := [];
      StartOfPacket(writer.keys, outgoing, At());
      var oldWritten, oldOffset := written, offset;
      var ok, packet;
      ok, packet, items := SealNextPacket(mtu);
      if !ok {
        return -1, [], items;
      }
      ret := bio.Write(packet);
      if ret <= 0 {
        written, offset := oldWritten, oldOffset;
        return ret, [], [];
      }
      WalkAdvances(outgoing, Pos(oldWritten, oldOffset), items);
    }

    /** send_flight. The packets written carry the flight from where it stood; a failed write puts the
        position back to the start of the packet that failed. Only a failed seal leaves the position
        beyond what was written: past the pieces listed in lost. */
    method SendFlight(noQuery: bool, queried: int)
      returns (ret: int, ghost packets: seq<seq<Item>>, ghost lost: seq<Item>)
      requires Valid()
      modifies this`mtu, this`written, this`offset, bio, writer`next, writer`last, writer`history, writer`sealed,
               writer`failures
      ensures Valid() && old(writer.sealed) + Flat(packets) <= writer.sealed
      ensures forall p | p in packets :: p != [] && AllSealed(writer.keys, p) && |BytesOf(writer.keys, p)| <= mtu
      ensures bio.log == old(bio.log) + AllBytes(writer.keys, packets)
      ensures Walk(outgoing, old(At()), Flat(packets) + lost) == Some(At())
      ensures ret > 0 ==> lost == [] && written == |outgoing| && !shutdown
      ensures bio.refused > old(bio.refused) ==> lost == []
      ensures ret <= 0 ==>
                shutdown || bio.refused > old(bio.refused) || writer.failures > old(writer.failures) || Blocked(mtu)
    {
      hide Consume, Walk, BytesOf, AllBytes, Flat, AllSealed, SealedUnder, Genuine, NumbersDiffer, Whole, Header, Body,
        BytesLeft, SerializeRecord, Writer.Valid;
      packets, lost := [], [];
      NoPackets(writer.keys);
      StartOfPacket(writer.keys, outgoing, At());
      assert Flat(packets) + lost == [];
      if shutdown {
        return -1, packets, lost;
      }
      UpdateMtu(noQuery, queried);
      while written < |outgoing|
        invariant Valid() && writer.sealed == old(writer.sealed) + Flat(packets)
        invariant forall p | p in packets :: p != [] && AllSealed(writer.keys, p) && |BytesOf(writer.keys, p)| <= mtu
        invariant bio.log == old(bio.log) + AllBytes(writer.keys, packets)
        invariant Walk(outgoing, old(At()), Flat(packets)) == Some(At()) && lost == []
        invariant bio.refused == old(bio.refused) && writer.failures >= old(writer.failures)
        decreases |outgoing| - written, BytesLeft(outgoing, At())
      {
        ghost var items;
        ret, items, lost := SendPacket();
        WalkConcat(outgoing, old(At()), Flat(packets), if ret > 0 then items else lost);
        Joined(old(writer.sealed), Flat(packets), items);
        if ret <= 0 {
          return ret, packets, lost;
        }
        OneMorePacket(writer.keys, packets, items);
        packets := packets + [items];
      }
      assert Flat(packets) + lost == Flat(packets);
      var flushed := bio.Flush();
      if flushed <= 0 {
        return -1, packets, lost;
      }
      ret := 1;
    }

    /** dtls_clear_outgoing_messages. */
    method ClearOutgoing()
      requires Valid()
      modifies this`outgoing, this`written, this`offset, this`complete
      ensures Valid() && outgoing == [] && At() == Pos(0, 0) && !complete
    {
      outgoing, written, offset, complete := [], 0, 0, false;
    }

    /** add_outgoing: the first message after a flush starts a new flight. */
    method AddOutgoing(m: OutMessage, ghost added: seq<Message>) returns (ok: bool)
      requires writer.Valid() && Valid() && m.epoch == writer.epoch
      requires m.isCcs ==> added == []
      requires !m.isCcs ==> |added| == 1 && |added[0].body| < 0x100_0000
                            && writeSeqNo < 0x1_0000 && m.data == Raw(added[0], writeSeqNo)
      modifies this`outgoing, this`written, this`offset, this`complete, this`writeSeqNo, this`sent
      ensures Valid()
      ensures ok <==> (if old(complete) then 0 else old(|outgoing|)) < 7
      ensures ok ==>
                && outgoing == (if old(complete) then [] else old(outgoing)) + [m]
                && sent == old(sent) + added && !complete
      ensures ok ==> At() == if old(complete) then Pos(0, 0) else old(At())
      ensures !ok ==> sent == old(sent) && outgoing == old(outgoing) && At() == old(At())
    {
      hide Writer.Valid;
      if complete {
        ClearOutgoing();
      }
      if |outgoing| >= MAX_HANDSHAKE_FLIGHT {
        return false;
      }
      if !m.isCcs {
        RawIsWhole(added[0], writeSeqNo);
        writeSeqNo := writeSeqNo + 1;
      }
      QueueExtends(outgoing, m, sent, added, At());
      sent := sent + added;
      outgoing := outgoing + [m];
      return true;
    }

    /** dtls1_init_message, dtls1_finish_message and dtls1_add_message. */
    method AddMessage(typ: byte, body: seq<byte>) returns (ok: bool)
      requires Valid() && |body| < 0x100_0000 && writeSeqNo < 0x1_0000
      modifies this`outgoing, this`written, this`offset, this`complete, this`writeSeqNo, this`sent
      ensures Valid() && sent == old(sent) + if ok then [Message(typ, body)] else []
      ensures ok <==> (if old(complete) then 0 else old(|outgoing|)) < 7
      ensures ok ==> !complete && At() == (if old(complete) then Pos(0, 0) else old(At()))
      ensures ok ==> outgoing == (if old(complete) then [] else old(outgoing))
                                 + [OutMessage(Raw(Message(typ, body), old(writeSeqNo)), writer.epoch, false)]
    {
      ok := AddOutgoing(OutMessage(Raw(Message(typ, body), writeSeqNo), writer.epoch, false), [Message(typ, body)]);
    }

    method AddChangeCipherSpec() returns (ok: bool)
      requires Valid()
      modifies this`outgoing, this`written, this`offset, this`complete, this`writeSeqNo, this`sent
      ensures Valid() && sent == old(sent)
      ensures ok <==> (if old(complete) then 0 else old(|outgoing|)) < 7
      ensures ok ==>
                && outgoing == (if old(complete) then [] else old(outgoing)) + [OutMessage([], writer.epoch, true)]
                && !complete && At() == (if old(complete) then Pos(0, 0) else old(At()))
    {
      ok := AddOutgoing(OutMessage([], writer.epoch, true), []);
    }

    /** dtls1_flush_flight, without the timer. */
    method FlushFlight(noQuery: bool, queried: int)
      returns (ret: int, ghost packets: seq<seq<Item>>, ghost lost: seq<Item>)
      requires Valid()
      modifies this`complete, this`mtu, this`written, this`offset, bio, writer`next, writer`last, writer`history,
               writer`sealed, writer`failures
      ensures Valid() && complete && old(writer.sealed) + Flat(packets) <= writer.sealed
      ensures forall p | p in packets :: p != [] && AllSealed(writer.keys, p) && |BytesOf(writer.keys, p)| <= mtu
      ensures bio.log == old(bio.log) + AllBytes(writer.keys, packets)
      ensures Walk(outgoing, old(At()), Flat(packets) + lost) == Some(At())
      ensures ret > 0 ==> lost == [] && written == |outgoing|
      ensures bio.refused > old(bio.refused) ==> lost == []
      ensures ret <= 0 ==>
                shutdown || bio.refused > old(bio.refused) || writer.failures > old(writer.failures) || Blocked(mtu)
    {
      complete := true;
      ret, packets, lost := SendFlight(noQuery, queried);
    }

    /** dtls1_retransmit_outgoing_messages: the whole flight again from its start. */
    method Retransmit(noQuery: bool, queried: int)
      returns (ret: int, ghost packets: seq<seq<Item>>, ghost lost: seq<Item>)
      requires Valid()
      modifies this`retransmitted, this`mtu, this`written, this`offset, bio, writer`next, writer`last, writer`history,
               writer`sealed, writer`failures
      ensures Valid() && retransmitted == old(retransmitted) + 1
      ensures old(writer.sealed) + Flat(packets) <= writer.sealed
      ensures forall p | p in packets :: p != [] && AllSealed(writer.keys, p) && |BytesOf(writer.keys, p)| <= mtu
      ensures bio.log == old(bio.log) + AllBytes(writer.keys, packets)
      ensures Walk(outgoing, Pos(0, 0), Flat(packets) + lost) == Some(At())
      ensures ret > 0 ==> lost == [] && written == |outgoing|
      ensures ret <= 0 ==>
                shutdown || bio.refused > old(bio.refused) || writer.failures > old(writer.failures) || Blocked(mtu)
      ensures ret > 0 ==> forall k | 0 <= k < |outgoing| && !outgoing[k].isCcs ::
                Carried(Flat(packets), Header(outgoing[k]).seqNo) == Body(outgoing[k])
    {
      hide Whole, Header, Body, Genuine, NumbersDiffer, Walk, Carried, BytesOf, SealedUnder;
      written, offset, retransmitted := 0, 0, retransmitted + 1;
      ret, packets, lost := SendFlight(noQuery, queried);
      if ret > 0 {
        assert Flat(packets) + lost == Flat(packets);
        forall k | 0 <= k < |outgoing| && !outgoing[k].isCcs
          ensures Carried(Flat(packets), Header(outgoing[k]).seqNo) == Body(outgoing[k])
        {
          FlightTiles(outgoing, Flat(packets), k);
        }
      }
    }

    /** dtls1_set_write_state. */
    method SetWriteState(ctx: Context)
      requires Valid() && writer.epoch + 1 < EPOCH_LIMIT && ctx == writer.keys(writer.epoch + 1)
      modifies writer
      ensures Valid() && writer.epoch == old(writer.epoch) + 1 && writer.sealed == old(writer.sealed)
    {
      hide Genuine, FlightOk, NumbersDiffer, PossibleRun, Final, Numbers, NoEpochWrap, Labelled;
      writer.ChangeEpoch(ctx);
    }

    /** dtls1_write_record for application data and alerts: one record, one packet. */
    method WriteRecord(typ: byte, plain: seq<byte>, room: nat) returns (ret: int, ghost packets: seq<seq<Item>>)
      requires Valid() && typ in {RT_APPLICATION_DATA, RT_ALERT}
      modifies bio, writer`next, writer`last, writer`history, writer`sealed,
               writer`failures
      ensures Valid() && old(writer.sealed) + Flat(packets) <= writer.sealed
      ensures forall p | p in packets ::
                AllSealed(writer.keys, p)
                && forall i | i in p :: i.rec.typ == typ && i.plain == plain && EpochOf(i.rec) == writer.epoch
      ensures bio.log == old(bio.log) + AllBytes(writer.keys, packets)
      ensures |packets| == if ret > 0 then 1 else 0
      ensures ret <= 0 ==>
                || |plain| > 16384 || writer.failures > old(writer.failures)
                || bio.refused > old(bio.refused)
    {
      hide Genuine, FlightOk, NumbersDiffer, Writer.Valid, SerializeRecord, RecordNumber, SealedUnder;
      packets := [];
      if |plain| > RT_MAX_PLAIN_LENGTH {
        return -1, packets;
      }
      var out;
      ghost var item;
      out, item := writer.SealRecord(typ, plain, false, room);
      if out == None {
        return -1, packets;
      }
      ret := bio.Write(out.value);
      if ret > 0 {
        StartOfPacket(writer.keys, [], Pos(0, 0));
        BytesStep(writer.keys, [], item);
        assert [] + [item] == [item] && [] + out.value == out.value;
        OneMorePacket(writer.keys, [], [item]);
        assert AllBytes(writer.keys, []) == [] && [] + [[item]] == [[item]];
        packets := [[item]];
      }
    }
  }

  lemma RawIsWhole(m: Message, seqNo: nat)
    requires |m.body| < 0x100_0000 && seqNo < 0x1_0000
    ensures forall epoch :: Whole(OutMessage(Raw(m, seqNo), epoch, false))
    ensures forall epoch :: Header(OutMessage(Raw(m, seqNo), epoch, false)) == WholeHeader(m, seqNo)
                         && Body(OutMessage(Raw(m, seqNo), epoch, false)) == m.body
  {
    ParseSerialized(WholeHeader(m, seqNo), m.body, []);
    assert Raw(m, seqNo) == SerializeHeader(WholeHeader(m, seqNo)) + m.body + [];
  }

  /** A flight that gets the next message keeps its position and stays genuine. */
  lemma QueueExtends(msgs: seq<OutMessage>, m: OutMessage, sent: seq<Message>, added: seq<Message>, pos: Pos)
    requires FlightOk(msgs) && PosOk(msgs, pos) && NumbersDiffer(msgs) && forall x | x in msgs :: Genuine(x, sent)
    requires Genuine(m, sent + added) && (!m.isCcs ==> Header(m).seqNo == |sent|)
    ensures forall x | x in msgs + [m] :: Genuine(x, sent + added)
    ensures FlightOk(msgs + [m]) && PosOk(msgs + [m], pos) && NumbersDiffer(msgs + [m])
  {
    hide Whole, Header, Body;
    forall x | x in msgs && !x.isCcs ensures Whole(x) && Header(x).seqNo < |sent| {
      assert Genuine(x, sent);
    }
  }

  /** The bytes handed to the transport, packet by packet. */
  ghost function AllBytes(keys: Keys, packets: seq<seq<Item>>): seq<seq<byte>>
    requires forall p | p in packets :: AllSealed(keys, p)
  {
    seq(|packets|, i requires 0 <= i < |packets| => assert packets[i] in packets; BytesOf(keys, packets[i]))
  }

  lemma NoPackets(keys: Keys)
    ensures AllBytes(keys, []) == [] && Flat([]) == []
  {
  }

  lemma OneMorePacket(keys: Keys, packets: seq<seq<Item>>, items: seq<Item>)
    requires AllSealed(keys, items) && forall p | p in packets :: AllSealed(keys, p)
    ensures forall p | p in packets + [items] :: AllSealed(keys, p)
    ensures AllBytes(keys, packets + [items]) == AllBytes(keys, packets) + [BytesOf(keys, items)]
    ensures Flat(packets + [items]) == Flat(packets) + items
  {
    hide BytesOf, AllSealed;
    assert (packets + [items])[..|packets|] == packets;
  }

  lemma Joined(s: seq<Item>, t: seq<Item>, u: seq<Item>)
    ensures s + (t + u) == s + t + u
  {
  }

  /** The octets not yet written of the message a flight stands in. */
  function BytesLeft(msgs: seq<OutMessage>, pos: Pos): nat
    requires FlightOk(msgs) && PosOk(msgs, pos)
  {
    if pos.written < |msgs| && !msgs[pos.written].isCcs then |Body(msgs[pos.written])| - pos.offset else 0
  }

  /** A packet moves the position strictly forward, even past an empty message. */
  lemma {:induction false} WalkAdvances(msgs: seq<OutMessage>, pos: Pos, items: seq<Item>)
    requires FlightOk(msgs) && PosOk(msgs, pos) && Walk(msgs, pos, items).Some? && items != []
    ensures var end := Walk(msgs, pos, items).value;
            end.written > pos.written || (end.written == pos.written && BytesLeft(msgs, end) < BytesLeft(msgs, pos))
    decreases items
  {
    hide Consume, Body;
    var next := ConsumeItem(msgs, pos, items[0]).value;
    assert next.written == pos.written ==> next.offset > pos.offset;
    if |items| > 1 {
      WalkAdvances(msgs, next, items[1..]);
    }
  }

  ghost function BytesOf(keys: Keys, items: seq<Item>): seq<byte>
    requires AllSealed(keys, items)
  {
    PacketBytes(items)
  }

  lemma StartOfPacket(keys: Keys, msgs: seq<OutMessage>, pos: Pos)
    requires FlightOk(msgs) && PosOk(msgs, pos)
    ensures Walk(msgs, pos, []) == Some(pos) && AllSealed(keys, []) && BytesOf(keys, []) == []
  {
  }

  lemma WalkStep(msgs: seq<OutMessage>, pos: Pos, items: seq<Item>, item: Item)
    requires FlightOk(msgs) && PosOk(msgs, pos) && Walk(msgs, pos, items).Some?
    ensures Walk(msgs, pos, items + [item]) == ConsumeItem(msgs, Walk(msgs, pos, items).value, item)
  {
    WalkConcat(msgs, pos, items, [item]);
    assert [item][1..] == [];
  }

  lemma BytesStep(keys: Keys, items: seq<Item>, item: Item)
    requires AllSealed(keys, items) && SealedUnder(keys, item)
    ensures AllSealed(keys, items + [item])
    ensures BytesOf(keys, items + [item]) == BytesOf(keys, items) + SerializeRecord(item.rec)
  {
    PacketBytesConcat(items, [item]);
    assert [item][1..] == [];
  }

  lemma ConsumeCcs(msgs: seq<OutMessage>, pos: Pos)
    requires FlightOk(msgs) && PosOk(msgs, pos) && pos.written < |msgs| && msgs[pos.written].isCcs
    ensures Consume(msgs, pos, RT_CHANGE_CIPHER_SPEC, [MT_CCS]) == Some(Pos(pos.written + 1, 0))
  {
  }

  lemma ConsumePiece(msgs: seq<OutMessage>, pos: Pos, todo: nat)
    requires FlightOk(msgs) && PosOk(msgs, pos) && pos.written < |msgs| && !msgs[pos.written].isCcs
    requires pos.offset + todo <= |Body(msgs[pos.written])| && (todo > 0 || |Body(msgs[pos.written])| == pos.offset)
    ensures var m := msgs[pos.written];
            var h := Header(m).(fragOff := pos.offset, fragLen := todo);
            Consume(msgs, pos, RT_HANDSHAKE, SerializeHeader(h) + Body(m)[pos.offset..][..todo])
            == Some(if pos.offset + todo == |Body(m)| then Pos(pos.written + 1, 0)
                else Pos(pos.written, pos.offset + todo))
  {
    hide ParseFragment, SerializeHeader;
    var m := msgs[pos.written];
    var h := Header(m).(fragOff := pos.offset, fragLen := todo);
    var piece := Body(m)[pos.offset..][..todo];
    ParseSerialized(h, piece, []);
    assert SerializeHeader(h) + piece == SerializeHeader(h) + piece + [];
    assert piece == Body(m)[pos.offset..pos.offset + todo];
  }
}
