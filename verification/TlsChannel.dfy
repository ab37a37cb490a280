/** A TLS writer and a TLS reader joined by a transport that keeps the octets and their order but cuts them
    as it likes: the messages taken out are those put in. RFC 5246, section 6.2.1. */
module TlsChannel {
  import opened Bytes
  import opened Options
  import opened Aead
  import opened SslBuffer
  import opened TlsStream
  import opened TlsWriter
  import opened TlsReader

  /** The reader has used up the first k records: behind them come the octets not used yet, and the next
      record is the one its keys and number are for. */
  ghost predicate InStep(items: seq<Item>, k: nat, unused: seq<byte>, got: seq<byte>, place: (nat, nat)) {
    k <= |items| && Wire(items[..k]) + unused == got && Place(items[..k]) == place
  }

  function After(place: (nat, nat), typ: byte): (nat, nat) {
    if typ == RT_CHANGE_CIPHER_SPEC then (place.0 + 1, 0) else (place.0, place.1 + 1)
  }

  /** What a sealed record opens to, alone or with anything behind it. */
  lemma UnsealItem(keys: Keys, i: Item, s: seq<byte>)
    requires Usable(keys(i.epoch)) && SealedUnder(keys, i) && (s <= Serialize(i.rec) || Serialize(i.rec) <= s)
    ensures var u := Unseal(keys(i.epoch), i.number, s);
            if |s| >= |Serialize(i.rec)| then u == Opened(|Serialize(i.rec)|, i.rec.typ, i.plain)
            else u.Short? && |s| < u.need <= |Serialize(i.rec)|
  {
    hide Serialize, Frame;
    FrameSerialized(keys(i.epoch), i.rec, s);
    assert keys(i.epoch).Protects(i.rec.typ, i.rec.version, BigEndian(i.number, 8), i.plain);
  }

  /** Opening what the reader has buffered can only yield the next record, whole and as it was sealed, and
      does so as soon as its last octet is there. */
  lemma OpensNext(keys: Keys, items: seq<Item>, k: nat, have: seq<byte>, more: seq<byte>, got: seq<byte>,
                  place: (nat, nat))
    requires (forall e :: Usable(keys(e))) && AllSealed(keys, items) && Chained(items)
    requires InStep(items, k, have + more, got, place) && got <= Wire(items)
    ensures var u := Unseal(keys(place.0), place.1, have);
            && !u.Bad? && (u.Short? ==> u.need <= RT_HEADER_LENGTH + RT_MAX_ENCRYPTED_LENGTH)
            && (u.Opened? <==> k < |items| && |have| >= |Serialize(items[k].rec)|)
            && (u.Opened? ==>
                  u.used == |Serialize(items[k].rec)| && u.typ == items[k].rec.typ && u.plain == items[k].plain)
  {
    hide Unseal, Serialize, Wire, Place;
    if k == |items| {
      NothingBehind(items, have + more);
      assert have == [];
      UnsealNothing(keys(place.0), place.1);
    } else {
      NextOnTheWire(items, k, have + more);
      var i := items[k];
      Begins(have, more, Serialize(i.rec));
      assert i in items && Place(items[..k]) == (i.epoch, i.number);
      UnsealItem(keys, i, have);
      RecordLength(keys, i);
    }
  }

  lemma RecordLength(keys: Keys, i: Item)
    requires SealedUnder(keys, i)
    ensures |Serialize(i.rec)| <= RT_HEADER_LENGTH + RT_MAX_ENCRYPTED_LENGTH
  {
  }

  lemma UnsealNothing(ctx: Context, number: nat)
    ensures Unseal(ctx, number, []) == Unsealed.Short(RT_HEADER_LENGTH)
  {
  }

  lemma NothingBehind(items: seq<Item>, rest: seq<byte>)
    requires Wire(items[..|items|]) + rest <= Wire(items)
    ensures rest == []
  {
    assert items[..|items|] == items;
  }

  lemma Begins(have: seq<byte>, more: seq<byte>, one: seq<byte>)
    requires have + more <= one || one <= have + more
    ensures have <= one || one <= have
  {
    if one <= have + more && |one| <= |have| {
      assert have[..|one|] == (have + more)[..|one|];
    }
    if one <= have + more && |one| > |have| {
      assert one[..|have|] == (have + more)[..|have|];
    }
  }

  /** Using up a record takes the reader one record on. */
  lemma StepsOn(items: seq<Item>, k: nat, unused: seq<byte>, got: seq<byte>, place: (nat, nat))
    requires InStep(items, k, unused, got, place) && got <= Wire(items) && Chained(items)
    requires k < |items| && |unused| >= |Serialize(items[k].rec)|
    ensures InStep(items, k + 1, unused[|Serialize(items[k].rec)|..], got, After(place, items[k].rec.typ))
    ensures Payload(items[..k + 1]) == Payload(items[..k])
            + if items[k].rec.typ == RT_HANDSHAKE then items[k].plain else []
  {
    hide Wire, Serialize, Payload, Place;
    var one := Serialize(items[k].rec);
    NextOnTheWire(items, k, unused);
    assert items[..k + 1] == items[..k] + [items[k]];
    WireOne(items[..k], items[k]);
    PlaceOne(items[..k], items[k]);
    assert place == (items[k].epoch, items[k].number);
    Regrouped(Wire(items[..k]), one, unused);
  }

  lemma Regrouped(before: seq<byte>, one: seq<byte>, rest: seq<byte>)
    requires one <= rest
    ensures (before + one) + rest[|one|..] == before + rest
  {
    assert rest == one + rest[|one|..];
  }

  /** Records sealed later change nothing for the reader. */
  lemma StillInStep(items: seq<Item>, more: seq<Item>, k: nat)
    requires k <= |items|
    ensures (items + more)[..k] == items[..k] && Wire(items) <= Wire(items + more)
  {
    WireGrows(items + more, |items|);
    assert (items + more)[..|items|] == items;
  }

  /** Whatever the reader has taken out and still holds is where the messages put in begin. */
  lemma TakenInOrder(items: seq<Item>, k: nat, taken: seq<seq<byte>>, hs: seq<byte>, added: seq<seq<byte>>)
    requires AllWhole(taken) && AllWhole(added) && k <= |items|
    requires Flatten(taken) + hs == Payload(items[..k]) && Payload(items) <= Flatten(added)
    ensures taken <= added
  {
    WireGrows(items, k);
    assert Flatten(taken) <= Payload(items[..k]) <= Payload(items) <= Flatten(added);
    SameMessages(taken, added);
  }

  /** Every record takes up octets of its own. */
  lemma WireLonger(items: seq<Item>, k: nat)
    requires k < |items|
    ensures |Wire(items[..k])| < |Wire(items)|
  {
    hide Wire, Payload;
    WireGrows(items, k + 1);
    WireOne(items[..k], items[k]);
    assert items[..k + 1] == items[..k] + [items[k]];
  }

  /** A message goes from the front of the octets at hand over to those taken. */
  lemma OneTaken(taken: seq<seq<byte>>, m: seq<byte>, hs: seq<byte>)
    requires AllWhole(taken) && Whole(m) && m <= hs
    ensures AllWhole(taken + [m]) && Flatten(taken + [m]) + hs[|m|..] == Flatten(taken) + hs
  {
    hide Whole, Flatten;
    FlattenOne(taken, m);
    assert hs == m + hs[|m|..];
    assert Flatten(taken) + (m + hs[|m|..]) == (Flatten(taken) + m) + hs[|m|..];
  }

  class Channel {
    const w: FlightWriter
    const r: HandshakeReader
    var delivered: nat                  // how many octets of the writer's output have arrived
    ghost var added: seq<seq<byte>>     // messages given to the writer
    ghost var taken: seq<seq<byte>>     // messages taken from the reader
    ghost var unsealed: nat             // records the reader has opened
    ghost var stuck: bool               // sealing has failed; the handshake is over for the writer

    ghost predicate Apart()
      reads this, w, r, w.buffer, r.buffer
    {
      w.bio != r.bio && w.buffer != r.buffer && (w.buffer.buf == null || w.buffer.buf != r.buffer.buf)
          && w.keys == r.keys
    }

    ghost predicate WriterValid()
      reads this, w, w.bio, w.buffer, w.buffer.buf
    {
      && w.Valid() && Chained(w.items) && (!stuck ==> w.InPlace())
      && AllWhole(added) && Payload(w.items) <= Flatten(added) && (!stuck ==> Payload(w.items) == Flatten(added))
    }

    ghost predicate ReaderValid()
      reads this, w, w.bio, r, r.bio, r.buffer, r.buffer.buf
    {
      && r.Valid() && AllWhole(taken)
      && unsealed <= |w.items| && delivered <= |w.bio.output|
      && Flatten(taken) + r.Hs() == Payload(w.items[..unsealed])
      && (r.shutdown != Broken ==>
        InStep(w.items, unsealed, r.buffer.Contents() + r.bio.input, w.bio.output[..delivered], (r.epoch, r.sequence)))
    }

    ghost predicate Valid()
      reads this, w, w.bio, w.buffer, w.buffer.buf, r, r.bio, r.buffer, r.buffer.buf
    {
      Apart() && WriterValid() && ReaderValid()
    }

    constructor (wbio: Bio, rbio: Bio, maxSend: nat, maxMessage: nat, ctx: Context, ghost keys: Keys)
      requires wbio != rbio && wbio.output == [] && rbio.input == [] && 512 <= maxSend <= RT_MAX_PLAIN_LENGTH
      requires (forall e :: Usable(keys(e))) && ctx == keys(0)
      ensures Valid() && added == [] && taken == [] && !stuck
    {
      w := new FlightWriter(wbio, maxSend, ctx, keys);
      r := new HandshakeReader(rbio, maxMessage, ctx, keys);
      delivered, added, taken, unsealed, stuck := 0, [], [], 0, false;
    }

    method Send(msg: seq<byte>) returns (ok: bool)
      requires Valid() && !stuck && Whole(msg) && w.flightOffset == 0
      modifies this`added, this`stuck, w`sequence, w`flight, w`items
      ensures Valid() && added == old(added) + [msg] && taken == old(taken) && stuck == !ok
    {
      hide Wire, Payload, Flatten, Chained, Place, FlightWriter.Valid, HandshakeReader.Valid, ParseMessage;
      ghost var items, more := w.items, [];
      ok, more := w.AddMessage(msg);
      FlattenOne(added, msg);
      StillInStep(items, more, unsealed);
      added, stuck := added + [msg], !ok;
    }

    method ChangeWriteKeys(ctx: Context) returns (ok: bool)
      requires Valid() && !stuck && w.flightOffset == 0 && ctx == w.keys(w.epoch + 1)
      modifies this`stuck, w`sequence, w`flight, w`items, w`ctx, w`epoch
      ensures Valid() && added == old(added) && taken == old(taken) && stuck == !ok
    {
      hide Wire, Payload, Flatten, Chained, Place, FlightWriter.Valid, HandshakeReader.Valid, ParseMessage;
      ghost var items := w.items;
      ok := w.ChangeCipherSpec(ctx);
      StillInStep(items, w.items[|items|..], unsealed);
      assert items + w.items[|items|..] == w.items;
      stuck := !ok;
    }

    method Flush() returns (ret: int)
      requires Valid()
      modifies w`flight, w`flightOffset, w.buffer, w.bio`output, w.bio`script, w.bio`failures
      ensures Valid() && added == old(added) && taken == old(taken)
      ensures ret > 0 && old(w.flight).Some? ==> w.flight == None && w.bio.output == Wire(w.items)
    {
      hide Wire, Payload, Flatten, Chained, Place, FlightWriter.Valid, HandshakeReader.Valid, ParseMessage;
      ret := w.FlushFlight();
    }

    /** The transport brings n more octets. */
    method Deliver(n: nat)
      requires Valid() && n <= |w.bio.output| - delivered
      modifies this`delivered, r.bio`input
      ensures Valid() && added == old(added) && taken == old(taken)
    {
      hide Wire, Payload, Flatten, Chained, Place, FlightWriter.Valid, ParseMessage;
      var more := w.bio.output[delivered..delivered + n];
      assert w.bio.output[..delivered + n] == w.bio.output[..delivered] + more;
      ghost var before, have, input := Wire(w.items[..unsealed]), r.buffer.Contents(), r.bio.input;
      assert before + (have + (input + more)) == (before + (have + input)) + more;
      r.bio.input := r.bio.input + more;
      delivered := delivered + n;
    }

    /** ssl3_get_message and ssl3_next_message: the next message, if it is complete. */
    method Take(inInit: bool) returns (m: Option<seq<byte>>)
      requires Valid()
      modifies this`taken, r`hasMessage, r`hsBuf, r`origins
      ensures Valid() && added == old(added)
      ensures taken == old(taken) + if m.Some? then [m.value] else []
      ensures m == None <==> ParseMessage(old(r.Hs())).Needs?
    {
      hide Wire, Payload, Flatten, Chained, Place, FlightWriter.Valid, HandshakeReader.Valid, SSLBuffer.Valid,
        SSLBuffer.Contents, ParseMessage, InStep, AllWhole;
      m := r.GetMessage();
      if m == None {
        return;
      }
      ghost var hs := r.Hs();
      r.NextMessage(inInit);
      OneTaken(taken, m.value, hs);
      taken := taken + [m.value];
    }

    /** Reads a handshake record, or what there is of it. */
    method Receive(prefixLen: nat, address: nat) returns (ret: int, retry: bool)
      requires Valid() && r.shutdown != Broken
      modifies this`unsealed, r`sequence, r`shutdown, r`emptyRecords, r`warnings, r`hsBuf, r`origins,
        r.buffer, r.buffer.buf, r.bio`input, r.bio`script, r.bio`failures
      ensures Valid() && added == old(added) && taken == old(taken)
    {
      hide Wire, Payload, Flatten, Chained, Place, FlightWriter.Valid, SSLBuffer.Valid, SSLBuffer.Contents,
           ParseMessage, Unseal, Serialize, InStep, HandshakeReader.Valid, AllWhole;
      ghost var have, input, got, place := r.buffer.Contents(), r.bio.input, w.bio.output[..delivered],
          (r.epoch, r.sequence);
      Arrived();
      OpensNext(w.keys, w.items, unsealed, have, input, got, place);
      var o;
      o, ret, retry := r.ReadHandshake(prefixLen, address);
      if r.shutdown != Broken && r.sequence != place.1 {
        StepsOn(w.items, unsealed, have + input, got, place);
        unsealed := unsealed + 1;
      }
    }

    /** Reads a ChangeCipherSpec, or what there is of it. */
    method ReceiveChangeCipherSpec(ctx: Context, prefixLen: nat, address: nat) returns (ret: int, retry: bool)
      requires Valid() && r.shutdown != Broken && ctx == r.keys(r.epoch + 1)
      modifies this`unsealed, r`sequence, r`shutdown, r`emptyRecords, r`warnings, r`ctx, r`epoch,
        r.buffer, r.buffer.buf, r.bio`input, r.bio`script, r.bio`failures
      ensures Valid() && added == old(added) && taken == old(taken)
    {
      hide Wire, Payload, Flatten, Chained, Place, FlightWriter.Valid, SSLBuffer.Valid, SSLBuffer.Contents,
           ParseMessage, Unseal, Serialize, InStep, HandshakeReader.Valid, AllWhole;
      ghost var have, input, got, place := r.buffer.Contents(), r.bio.input, w.bio.output[..delivered],
          (r.epoch, r.sequence);
      Arrived();
      OpensNext(w.keys, w.items, unsealed, have, input, got, place);
      var o;
      o, ret, retry := r.ReadChangeCipherSpec(ctx, prefixLen, address);
      if r.shutdown != Broken && (r.sequence != place.1 || o.Success?) {
        StepsOn(w.items, unsealed, have + input, got, place);
        unsealed := unsealed + 1;
      }
    }

    /** What the reader has is the beginning of what was sealed. */
    lemma Arrived()
      requires Valid() && r.shutdown != Broken
      ensures w.bio.output[..delivered] <= Wire(w.items) && AllSealed(w.keys, w.items) && r.ctx == w.keys(r.epoch)
      ensures (forall e :: Usable(w.keys(e))) && Chained(w.items)
      ensures InStep(w.items, unsealed, r.buffer.Contents() + r.bio.input, w.bio.output[..delivered],
              (r.epoch, r.sequence))
    {
      hide Wire, Payload, Chained, Place, InStep;
      assert w.bio.output <= Wire(w.items);
      assert w.bio.output[..delivered] <= w.bio.output;
    }

    /** The result: the messages taken out are the first of those put in, octet for octet and in order. */
    lemma InOrder()
      requires Valid()
      ensures taken <= added
    {
      TakenInOrder(w.items, unsealed, taken, r.Hs(), added);
    }

    /** Nothing is lost: once all is flushed, arrived and used up and no message can be taken, every message
        put in was taken out. */
    lemma AllTaken()
      requires Valid() && !stuck && r.shutdown != Broken
      requires w.bio.output == Wire(w.items) && delivered == |w.bio.output|
      requires r.bio.input == [] && r.buffer.Contents() == [] && ParseMessage(r.Hs()).Needs?
      ensures taken == added
    {
      hide Wire, Payload, Flatten, Chained, Place, ParseMessage;
      assert Wire(w.items[..unsealed]) + [] == w.bio.output[..delivered] == w.bio.output;
      if unsealed < |w.items| {
        WireLonger(w.items, unsealed);
      }
      assert w.items[..unsealed] == w.items;
      NothingIsLeft(taken, r.Hs(), added);
    }
  }
}
