/** The sending half of the TLS message stream: messages are cut into records, the records of a flight are
    collected, and the flight is written out over as many attempts as the transport needs. */
module TlsWriter {
  import opened Bytes
  import opened Options
  import opened Aead
  import opened SslBuffer
  import opened TlsStream

  const INT_MAX: nat := 0x7fff_ffff

  ghost predicate Usable(ctx: Context) {
    ctx.Sound() && ctx.maxOverhead <= RT_MAX_ENCRYPTED_OVERHEAD && VersionOk(ctx, ctx.version)
  }

  function Plains(items: seq<Item>): seq<seq<byte>> {
    if items == [] then [] else Plains(items[..|items| - 1]) + [items[|items| - 1].plain]
  }

  /** A sealed record at the end of the flight is one at the end of the wire. */
  lemma Grow(items: seq<Item>, sent: seq<byte>, flight: seq<byte>, item: Item)
    requires sent + flight == Wire(items)
    ensures sent + (flight + Serialize(item.rec)) == Wire(items + [item])
  {
    WireOne(items, item);
    assert sent + (flight + Serialize(item.rec)) == (sent + flight) + Serialize(item.rec);
  }

  /** The same for the write buffer, when no flight is left behind it. */
  lemma Buffered(items: seq<Item>, sent: seq<byte>, waiting: seq<byte>, item: Item)
    requires sent + waiting + [] == Wire(items)
    ensures sent + (waiting + Serialize(item.rec)) + [] == Wire(items + [item])
  {
    WireOne(items, item);
    assert sent + (waiting + Serialize(item.rec)) == (sent + waiting) + Serialize(item.rec);
  }

  lemma Refill(written: seq<byte>, rest: seq<byte>, n: nat, all: seq<byte>)
    requires written + [] + rest == all && n <= |rest|
    ensures (written + rest[..n]) + [] + rest[n..] == all && written + rest[..0] == written + []
  {
    assert rest == rest[..n] + rest[n..];
  }

  lemma NoPlains(c: seq<seq<byte>>)
    ensures Plains([]) + c == c
  {
  }

  lemma OnePlainMore(more: seq<Item>, i: Item)
    ensures Plains(more + [i]) == Plains(more) + [i.plain]
  {
    assert (more + [i])[..|more|] == more;
  }

  /** The chunk that comes next is the front of the rest. */
  lemma NextChunk(done: seq<seq<byte>>, rest: seq<byte>, max: nat, all: seq<seq<byte>>)
    requires max > 0 && done + Chunks(rest, max) == all
    ensures |done| < |all| && all[..|done|] == done
    ensures all[|done|] == rest[..if |rest| <= max then |rest| else max]
  {
    assert rest[..|rest|] == rest;
    assert all[|done|] == Chunks(rest, max)[0];
  }

  /** A chunk cut off the rest: what is sealed grows by it, and the rest is cut on as before. */
  lemma OneChunkMore(items: seq<Item>, more: seq<Item>, i: Item, rest: seq<byte>, n: nat, max: nat)
    requires max > 0 && n == (if |rest| <= max then |rest| else max)
    requires i.plain == rest[..n] && i.rec.typ == RT_HANDSHAKE
    ensures Payload(items + [i]) + rest[n..] == Payload(items) + rest
    ensures Plains(more + [i]) + (if rest[n..] == [] then [] else Chunks(rest[n..], max))
            == Plains(more) + Chunks(rest, max)
  {
    WireOne(items, i);
    assert Payload(items) + rest[..n] + rest[n..] == Payload(items) + (rest[..n] + rest[n..]);
    assert rest == rest[..n] + rest[n..];
    assert (more + [i])[..|more|] == more;
    if |rest| <= max {
      assert rest[..n] == rest;
    }
  }

  class FlightWriter {
    const bio: Bio
    const buffer: SSLBuffer          // write_buffer
    const maxSend: nat
    var ctx: Context
    var sequence: nat
    var flight: Option<seq<byte>>    // pending_flight
    var flightOffset: nat
    var shutdown: bool
    var pending: bool                // a record from WriteRecord waits in the buffer
    var pendingLen: nat
    var pendingType: byte
    ghost const keys: Keys
    ghost var epoch: nat
    ghost var items: seq<Item>       // every record sealed so far

    /** What the transport has, what waits in the buffer and what is left of the flight are, in this
        order, exactly the records sealed so far: none lost, repeated or overtaken. */
    ghost predicate Valid()
      reads this, bio, buffer, buffer.buf
    {
      && buffer.Valid() && 512 <= maxSend <= RT_MAX_PLAIN_LENGTH
      && (forall e :: Usable(keys(e))) && ctx == keys(epoch) && sequence < SEQUENCE_LIMIT
      && AllSealed(keys, items)
      && (if flight == None then flightOffset == 0 else flightOffset <= |flight.value|)
      && bio.output + buffer.Contents() + Unsent() == Wire(items)
    }

    function Unsent(): seq<byte>
      reads this
    {
      if flight == None || flightOffset > |flight.value| then [] else flight.value[flightOffset..]
    }

    /** Keys and number in use are those that come after the records sealed so far. */
    ghost predicate InPlace()
      reads this
    {
      Chained(items) && Place(items) == (epoch, sequence)
    }

    constructor (bio: Bio, maxSend: nat, ctx: Context, ghost keys: Keys)
      requires bio.output == [] && 512 <= maxSend <= RT_MAX_PLAIN_LENGTH
      requires (forall e :: Usable(keys(e))) && ctx == keys(0)
      ensures Valid() && InPlace() && items == [] && this.keys == keys && this.bio == bio && fresh(buffer)
      ensures buffer.buf == null && flight == None
    {
      this.bio, this.maxSend, this.ctx, this.keys := bio, maxSend, ctx, keys;
      buffer := new SSLBuffer();
      sequence, flight, flightOffset, shutdown := 0, None, 0, false;
      pending, pendingLen, pendingType, epoch, items := false, 0, 0, 0, [];
    }

    /** A record can be sealed unless the AEAD refuses or the sequence number runs over. */
    predicate CanSeal(typ: byte, plain: seq<byte>, number: nat)
      reads this`ctx
    {
      ctx.seal(typ, ctx.version, BigEndian(number, 8), plain).Some? && number + 1 < SEQUENCE_LIMIT
    }

    /** tls_seal_record. The sequence number moves on even when it has just run over, and then the seal
        counts as failed. Room for overhead always suffices. */
    method Seal(typ: byte, plain: seq<byte>) returns (out: Option<seq<byte>>, ghost item: Item)
      requires Valid() && |plain| <= RT_MAX_PLAIN_LENGTH
      modifies this`sequence
      ensures sequence < SEQUENCE_LIMIT
      ensures out.Some? ==>
                && SealedUnder(keys, item) && item.epoch == epoch && item.number == old(sequence)
                && item.plain == plain && item.rec.typ == typ && item.rec.version == ctx.version
                && out.value == Serialize(item.rec)
                && sequence == old(sequence) + 1
                && |out.value| <= |plain| + RT_HEADER_LENGTH + ctx.maxOverhead
      ensures out == None <==> !CanSeal(typ, plain, old(sequence))
    {
      var number := BigEndian(sequence, 8);
      item := Item(epoch, sequence, plain, Record(typ, ctx.version, []));
      assert ctx.Sound() && VersionOk(ctx, ctx.version) by { assert Usable(keys(epoch)); }
      assert ctx.Protects(typ, ctx.version, number, plain);
      var c := ctx.seal(typ, ctx.version, number, plain);
      if c == None {
        return None, item;
      }
      sequence := (sequence + 1) % SEQUENCE_LIMIT;
      if sequence == 0 {
        return None, item;
      }
      var rec := Record(typ, ctx.version, c.value);
      item := item.(rec := rec);
      return Some(Serialize(rec)), item;
    }

    /** add_record_to_flight. */
    method AddRecord(typ: byte, plain: seq<byte>) returns (ok: bool)
      requires Valid() && flightOffset == 0 && |plain| <= RT_MAX_PLAIN_LENGTH
      modifies this`sequence, this`flight, this`items
      ensures Valid() && flightOffset == 0 && flight.Some?
      ensures if ok then exists i: Item :: items == old(items) + [i] && i.plain == plain && i.rec.typ == typ
              else items == old(items)
      ensures old(InPlace()) ==> Chained(items) && (ok && typ != RT_CHANGE_CIPHER_SPEC ==> InPlace())
      ensures ok <==> CanSeal(typ, plain, old(sequence))
      ensures ok ==> sequence == old(sequence) + 1
    {
      hide Wire, Payload, Serialize, Chained, Place, SealedUnder, Usable, SSLBuffer.Contents, SSLBuffer.Valid;
      var before := if flight == None then [] else flight.value;
      assert Unsent() == before;
      var out, item := Seal(typ, plain);
      flight := Some(before);
      if out == None {
        return false;
      }
      Grow(items, bio.output + buffer.Contents(), before, item);
      if Chained(items) && Place(items) == (item.epoch, item.number) {
        ChainedOne(items, item);
      }
      PlaceOne(items, item);
      flight, items := Some(before + out.value), items + [item];
      assert Unsent() == before + out.value;
      return true;
    }

    /** ssl3_add_message. The records added hold the message cut into chunks; when sealing fails half way
        they hold its first chunks, and the whole message is never sent. */
    method AddMessage(msg: seq<byte>) returns (ok: bool, ghost more: seq<Item>)
      requires Valid() && flightOffset == 0
      modifies this`sequence, this`flight, this`items
      ensures Valid() && flightOffset == 0 && items == old(items) + more && (ok ==> flight.Some?)
      ensures forall i | i in more :: i.rec.typ == RT_HANDSHAKE
      ensures ok ==> Plains(more) == Chunks(msg, maxSend) && Payload(items) == Payload(old(items)) + msg
      ensures !ok ==> Payload(items) <= Payload(old(items)) + msg
      ensures !ok ==>
                && |more| < |Chunks(msg, maxSend)| && Plains(more) == Chunks(msg, maxSend)[..|more|]
                && !CanSeal(RT_HANDSHAKE, Chunks(msg, maxSend)[|more|], old(sequence) + |more|)
      ensures old(InPlace()) ==> Chained(items) && (ok ==> InPlace())
    {
      hide Wire, Payload, Serialize, Chained, Place, Chunks, Plains, SSLBuffer.Contents, SSLBuffer.Valid, AllSealed,
           Usable;
      var rest, again := msg, true;
      ok, more := true, [];
      NoPlains(Chunks(msg, maxSend));
      while again
        modifies this`sequence, this`flight, this`items
        invariant Valid() && flightOffset == 0 && items == old(items) + more
        invariant forall i | i in more :: i.rec.typ == RT_HANDSHAKE
        invariant old(InPlace()) ==> InPlace()
        invariant Payload(items) + rest == Payload(old(items)) + msg
        invariant again ==> Plains(more) + Chunks(rest, maxSend) == Chunks(msg, maxSend)
        invariant sequence == old(sequence) + |more| && |Plains(more)| == |more|
        invariant !again ==> rest == [] && flight.Some? && Plains(more) == Chunks(msg, maxSend)
        decreases |rest| + if again then 1 else 0
      {
        var n := if |rest| <= maxSend then |rest| else maxSend;
        ghost var before := items;
        ok := AddRecord(RT_HANDSHAKE, rest[..n]);
        if !ok {
          NextChunk(Plains(more), rest, maxSend, Chunks(msg, maxSend));
          return;
        }
        ghost var item :| items == before + [item] && item.plain == rest[..n] && item.rec.typ == RT_HANDSHAKE;
        OneChunkMore(before, more, item, rest, n, maxSend);
        OnePlainMore(more, item);
        more := more + [item];
        rest := rest[n..];
        again := rest != [];
      }
      assert Payload(items) + [] == Payload(items);
    }

    /** ssl3_add_change_cipher_spec, and the new write keys that follow it at once. */
    method ChangeCipherSpec(ctx: Context) returns (ok: bool)
      requires Valid() && flightOffset == 0 && ctx == keys(epoch + 1)
      modifies this`sequence, this`flight, this`items, this`ctx, this`epoch
      ensures Valid() && flightOffset == 0 && Payload(items) == Payload(old(items))
      ensures if ok then
                exists i: Item :: items == old(items) + [i] && i.plain == [1] && i.rec.typ == 20
              else items == old(items)
      ensures ok <==> old(CanSeal(20, [1], sequence))
      ensures ok ==> epoch == old(epoch) + 1 && sequence == 0 && this.ctx == ctx
      ensures old(InPlace()) ==> Chained(items) && (ok ==> InPlace())
    {
      hide Wire, Serialize, SSLBuffer.Contents, SSLBuffer.Valid, AllSealed, Usable;
      ok := AddRecord(RT_CHANGE_CIPHER_SPEC, [MT_CCS]);
      if ok {
        SetWriteState(ctx);
      }
    }

    /** ssl3_set_write_state. */
    method SetWriteState(ctx: Context)
      requires Valid() && ctx == keys(epoch + 1)
      modifies this`sequence, this`ctx, this`epoch
      ensures Valid() && epoch == old(epoch) + 1 && sequence == 0 && this.ctx == ctx
    {
      sequence, this.ctx, epoch := 0, ctx, epoch + 1;
    }

    /** One write of what is left of the flight. */
    method WriteSome() returns (ret: int)
      requires Valid() && flight.Some? && buffer.Contents() == []
      modifies this`flightOffset, bio`output, bio`script, bio`failures
      ensures Valid() && old(bio.output) <= bio.output
      ensures flightOffset == old(flightOffset) + if ret > 0 then ret else 0
      ensures bio.failures == old(bio.failures) + if ret > 0 then 0 else 1
    {
      hide Wire, SSLBuffer.Contents, SSLBuffer.Valid, AllSealed, Usable;
      var rest := flight.value[flightOffset..];
      ghost var written := bio.output;
      ret := bio.Write(rest);
      var n := if ret > 0 then ret else 0;
      Moves(written, rest, n);
      Refill(written, rest, n, Wire(items));
      flightOffset := flightOffset + n;
      assert Unsent() == rest[n..];
    }

    /** Writes what is left of the flight. After a failed attempt the offset tells where to resume. */
    method WriteFlight() returns (ret: int)
      requires Valid() && flight.Some? && buffer.Contents() == []
      modifies this`flightOffset, bio`output, bio`script, bio`failures
      ensures Valid() && old(bio.output) <= bio.output
      ensures ret > 0 ==> flightOffset == |flight.value|
      ensures ret <= 0 ==> bio.failures > old(bio.failures)
      ensures bio.failures >= old(bio.failures)
    {
      hide Wire, SSLBuffer.Contents, SSLBuffer.Valid, AllSealed, Usable;
      while flightOffset < |flight.value|
        invariant Valid() && old(bio.output) <= bio.output
        invariant buffer.Contents() == [] && bio.failures == old(bio.failures)
        decreases |flight.value| - flightOffset
      {
        ret := WriteSome();
        if ret <= 0 {
          return ret;
        }
      }
      return 1;
    }

    /** ssl3_flush_flight. However often it is interrupted, every octet goes out once and in order, what
        waits in the write buffer before the flight; success means all that was sealed is out. */
    method FlushFlight() returns (ret: int)
      requires Valid()
      modifies this`flight, this`flightOffset, buffer, bio`output, bio`script, bio`failures
      ensures Valid() && old(bio.output) <= bio.output && (buffer.buf == old(buffer.buf) || buffer.buf == null)
      ensures ret > 0 && old(flight).Some? ==> flight == None && bio.output == Wire(items)
      ensures ret <= 0 || old(flight) == None ==> flight == old(flight)
      ensures ret <= 0 ==>
                && old(flight).Some?
                && (shutdown || |old(flight).value| > 0x7fff_ffff || bio.failures > old(bio.failures))
    {
      hide Wire, SSLBuffer.Contents, SSLBuffer.Valid, AllSealed, Usable;
      if flight == None {
        return 1;
      }
      if shutdown || |flight.value| > INT_MAX {
        return -1;
      }
      if buffer.size > 0 {
        ret := WriteBufferFlush(buffer, bio);
        if ret <= 0 {
          return ret;
        }
      }
      ret := WriteFlight();
      if ret <= 0 {
        return ret;
      }
      var flushed := bio.Outcome(1);
      if flushed <= 0 {
        return -1;
      }
      assert bio.output + buffer.Contents() + Unsent() == bio.output;
      flight, flightOffset := None, 0;
      return 1;
    }

    /** ssl3_write_pending: goes on with the record in the buffer, if the caller offers the same one. */
    method WritePending(typ: byte, len: nat) returns (ret: int)
      requires Valid()
      modifies this`pending, buffer, bio`output, bio`script, bio`failures
      ensures Valid() && old(bio.output) <= bio.output && (buffer.buf == old(buffer.buf) || buffer.buf == null)
      ensures ret > 0 ==> ret == pendingLen <= len && pendingType == typ && !pending && buffer.Contents() == []
      ensures ret <= 0 ==>
                pendingLen == 0 || pendingLen > len || pendingType != typ || bio.failures > old(bio.failures)
    {
      hide Wire, SSLBuffer.Contents, SSLBuffer.Valid, AllSealed, Usable;
      if pendingLen > len || pendingType != typ {
        return -1;
      }
      ret := WriteBufferFlush(buffer, bio);
      if ret <= 0 {
        return ret;
      }
      pending := false;
      return pendingLen;
    }

    /** Moves what is left of the flight into the empty write buffer, with room for a record behind it. */
    method TakeFlight(maxRecord: nat, prefixLen: nat, address: nat) returns (ok: bool)
      requires Valid() && buffer.size == 0
      requires var room := maxRecord + |Unsent()|; room > 0xffff || room + ALIGN_PAYLOAD - 1 < UINT16
      modifies this`flight, this`flightOffset, buffer, buffer.buf
      ensures Valid() && (buffer.buf == old(buffer.buf) || fresh(buffer.buf))
      ensures ok == (maxRecord + |old(Unsent())| <= 0xffff)
      ensures ok ==> flight == None && buffer.cap - buffer.size >= maxRecord
    {
      hide Wire, SSLBuffer.Contents, SSLBuffer.Valid, AllSealed, Usable;
      var left := Unsent();
      assert buffer.Contents() == [];
      ok := buffer.EnsureCap(|left| + prefixLen, maxRecord + |left|, address);
      if !ok || flight == None {
        return;
      }
      assert bio.output + buffer.Contents() + left == bio.output + (buffer.Contents() + left) + [];
      buffer.Append(left);
      flight, flightOffset := None, 0;
    }

    /** Seals a record behind what waits in the write buffer. */
    method SealBehind(typ: byte, data: seq<byte>) returns (ok: bool)
      requires Valid() && flight == None && |data| <= RT_MAX_PLAIN_LENGTH
      requires buffer.cap - buffer.size >= |data| + RT_HEADER_LENGTH + ctx.maxOverhead
      modifies this`sequence, this`items, buffer`size, buffer.buf
      ensures Valid() && flight == None && ok == CanSeal(typ, data, old(sequence))
      ensures if ok then exists i: Item :: items == old(items) + [i] && i.plain == data && i.rec.typ == typ
              else items == old(items)
    {
      hide Wire, Serialize, SSLBuffer.Contents, SSLBuffer.Valid, Usable, SealedUnder;
      var out, item := Seal(typ, data);
      if out == None {
        return false;
      }
      Buffered(items, bio.output, buffer.Contents(), item);
      buffer.Append(out.value);
      items := items + [item];
      return true;
    }

    /** What a record takes up at most, behind so many octets. */
    function Room(data: seq<byte>, behind: nat): nat
      reads this`ctx
    {
      |data| + RT_HEADER_LENGTH + ctx.maxOverhead + behind
    }

    /** Puts what is left of the flight and, behind it, a new record into the write buffer. */
    method StartRecord(typ: byte, data: seq<byte>, address: nat) returns (ok: bool)
      requires Valid() && buffer.size == 0 && |data| <= RT_MAX_PLAIN_LENGTH
      requires Room(data, |Unsent()|) > 0xffff || Room(data, |Unsent()|) + ALIGN_PAYLOAD - 1 < UINT16
      modifies this`sequence, this`flight, this`flightOffset, this`items, buffer, buffer.buf
      ensures Valid() && (ok ==> flight == None) && (buffer.buf == old(buffer.buf) || fresh(buffer.buf))
      ensures ok == (CanSeal(typ, data, old(sequence)) && Room(data, |old(Unsent())|) <= 0xffff)
      ensures if ok then exists i: Item :: items == old(items) + [i] && i.plain == data && i.rec.typ == typ
              else items == old(items)
    {
      hide Wire, Serialize, SSLBuffer.Contents, SSLBuffer.Valid, AllSealed, Usable, SealedUnder;
      ok := TakeFlight(|data| + RT_HEADER_LENGTH + ctx.maxOverhead, RT_HEADER_LENGTH + ctx.explicitNonceLen, address);
      if ok {
        ok := SealBehind(typ, data);
      }
    }

    /** do_ssl3_write, for a record that is not split: any unsent part of a flight goes into the same write,
        in front of the record. */
    method WriteRecord(typ: byte, data: seq<byte>, address: nat) returns (ret: int)
      requires Valid()
      requires Room(data, |Unsent()|) > 0xffff || Room(data, |Unsent()|) + ALIGN_PAYLOAD - 1 < UINT16
      modifies this`sequence, this`flight, this`flightOffset, this`items, this`pending, this`pendingLen,
               this`pendingType,
        buffer, buffer.buf, bio`output, bio`script, bio`failures
      ensures Valid() && old(bio.output) <= bio.output
      ensures items == old(items) || exists i: Item :: items == old(items) + [i] && i.plain == data && i.rec.typ == typ
      ensures ret > 0 && !old(pending) ==> ret == |data| && |items| == |old(items)| + 1 && bio.output == Wire(items)
      ensures ret <= 0 && !old(pending) ==>
                || data == [] || |data| > 16384 || old(buffer.size) > 0 || bio.failures > old(bio.failures)
                || !CanSeal(typ, data, old(sequence)) || Room(data, |old(Unsent())|) > 0xffff
      ensures ret > 0 && old(pending) ==>
                items == old(items) && ret == old(pendingLen) <= |data| && typ == old(pendingType)
    {
      hide Wire, Serialize, SSLBuffer.Contents, SSLBuffer.Valid, AllSealed, Usable, SealedUnder;
      if pending {
        ret := WritePending(typ, |data|);
        return;
      }
      if |data| > RT_MAX_PLAIN_LENGTH || buffer.size > 0 {
        return -1;
      }
      if data == [] {
        return 0;
      }
      var ok := StartRecord(typ, data, address);
      if !ok {
        return -1;
      }
      pendingLen, pendingType, pending := |data|, typ, true;
      ret := WritePending(typ, |data|);
      assert ret > 0 ==> bio.output + buffer.Contents() + Unsent() == bio.output;
    }
  }
}
