/** The receiving half of the TLS message stream: records are opened one after another, their handshake
    octets gathered, and messages taken from the front. */
module TlsReader {
  import opened Bytes
  import opened Options
  import opened Aead
  import A = Alerts
  import opened SslBuffer
  import opened TlsStream

  const MAX_EMPTY_RECORDS: nat := 32

  datatype Shutdown = NotShut | CloseNotified | Broken

  datatype Opening =
    | Partial(need: nat)
    | Success(consumed: nat, typ: byte, plain: seq<byte>)
    | Discard(consumed: nat)
    | Closed(consumed: nat)
    | Failure(consumed: nat)

  function Consumed(o: Opening): nat {
    if o.Partial? then 0 else o.consumed
  }

  datatype Unsealed = Short(need: nat) | Bad(used: nat) | Opened(used: nat, typ: byte, plain: seq<byte>)

  /** The first record of the input, decrypted: the part of tls_open_record that looks at octets. */
  function Unseal(ctx: Context, number: nat, input: seq<byte>): (u: Unsealed)
    ensures u.Bad? || u.Opened? ==> u.used <= |input|
    ensures u.Short? ==> u.need <= RT_HEADER_LENGTH + RT_MAX_ENCRYPTED_LENGTH
  {
    match Frame(ctx, input)
    case Short(n) => Unsealed.Short(n)
    case Refused => Bad(0)
    case Cut(rec, used) =>
      match ctx.open(rec.typ, rec.version, BigEndian(number, 8), rec.body)
      case None => Bad(used)
      case Some(plain) => Opened(used, rec.typ, plain)
  }

  /** Nothing but alerts are dropped, a record is passed on only as it was opened, and the sequence number
      counts the records opened. */
  predicate Justified(u: Unsealed, number: nat, after: nat, r: Opening) {
    match r
    case Partial(n) => u == Unsealed.Short(n) && after == number
    case Success(used, typ, plain) => u == Opened(used, typ, plain) && typ != RT_ALERT && after == number + 1
    case Discard(used) => u.Opened? && u.used == used && u.typ == RT_ALERT && after == number + 1
    case Closed(used) => (used == 0 && after == number)
        || (u.Opened? && u.used == used && u.typ == RT_ALERT && after == number + 1)
    case Failure(used) => used == 0 || ((u.Bad? || u.Opened?) && u.used == used)
  }

  /** A record nothing can be said against. */
  predicate Sensible(u: Unsealed, number: nat) {
    u.Opened? && u.typ != RT_ALERT && 0 < |u.plain| <= RT_MAX_PLAIN_LENGTH && number + 1 < SEQUENCE_LIMIT
  }

  class HandshakeReader {
    const bio: Bio
    const buffer: SSLBuffer         // read_buffer
    const maxMessage: nat
    var ctx: Context
    var sequence: nat
    var shutdown: Shutdown
    var emptyRecords: nat
    var warnings: nat
    var hsBuf: Option<seq<byte>>
    var hasMessage: bool
    ghost const keys: Keys
    ghost var epoch: nat
    ghost var origins: seq<nat>     // for each octet of hsBuf, the epoch whose keys opened it

    function Hs(): seq<byte>
      reads this`hsBuf
    {
      if hsBuf == None then [] else hsBuf.value
    }

    /** All buffered octets come from one epoch. It is the current one, unless they are exactly the message
        handed out before the keys changed. The peer cannot make the buffer grow without bound. */
    ghost predicate Valid()
      reads this, buffer, buffer.buf
      ensures Valid() ==> buffer.Valid()
    {
      && buffer.Valid() && ctx == keys(epoch) && sequence < SEQUENCE_LIMIT
      && |origins| == |Hs()| && (forall i | 0 <= i < |origins| :: origins[i] == origins[0])
      && (Hs() != [] ==> origins[0] == epoch || (hasMessage && Whole(Hs())))
      && (hasMessage ==> ParseMessage(Hs()).Complete?)
      && |Hs()| < HM_HEADER_LENGTH + maxMessage + RT_MAX_PLAIN_LENGTH
    }

    constructor (bio: Bio, maxMessage: nat, ctx: Context, ghost keys: Keys)
      requires ctx == keys(0)
      ensures Valid() && fresh(buffer) && buffer.buf == null && this.bio == bio && this.keys == keys
      ensures Hs() == [] && epoch == 0 && sequence == 0 && shutdown == NotShut
    {
      this.bio, this.maxMessage, this.ctx, this.keys := bio, maxMessage, ctx, keys;
      buffer := new SSLBuffer();
      sequence, shutdown, emptyRecords, warnings, hsBuf, hasMessage := 0, NotShut, 0, 0, None, false;
      epoch, origins := 0, [];
    }

    /** tls_can_accept_handshake_data: no message waits to be taken, and the next is not too long. */
    predicate CanAccept()
      reads this
    {
      match ParseMessage(Hs())
      case Complete(_) => false
      case Needs(n) => n <= HM_HEADER_LENGTH + maxMessage
    }

    /** More handshake octets are welcome unless a whole message waits or one is announced that is too long. */
    lemma WelcomeExactly()
      ensures CanAccept() <==>
              || |Hs()| < 4
              || var n := 0x1_0000 * Hs()[1] as nat + 0x100 * Hs()[2] as nat + Hs()[3] as nat;
                 |Hs()| < 4 + n && n <= maxMessage
    {
      if |Hs()| >= 4 {
        ThreeDigits(Hs()[1..4]);
      }
    }

    /** Octets wait unless there are none but those of the message in hand. */
    lemma WaitingExactly()
      ensures HasUnprocessed() <==> Hs() != [] && !(hasMessage && Whole(Hs()))
    {
      if ParseMessage(Hs()).Complete? && |ParseMessage(Hs()).raw| == |Hs()| {
        assert ParseMessage(Hs()).raw == Hs();
      }
    }

    /** tls_has_unprocessed_handshake_data. */
    predicate HasUnprocessed()
      reads this
    {
      var p := ParseMessage(Hs());
      |Hs()| > if hasMessage && p.Complete? then |p.raw| else 0
    }

    /** An alert after which the connection goes on or is closed in order: a warning, and not the fifth in a row. */
    static predicate Tolerable(alert: seq<byte>, warnings: nat) {
      alert == [1, 0] || (|alert| == 2 && alert[0] == 1 && alert[1] != 0 && warnings < 4)
    }

    /** ssl_process_alert, below TLS 1.3. */
    method ProcessAlert(alert: seq<byte>, used: nat) returns (r: Opening)
      modifies this`shutdown, this`warnings
      ensures r in {Discard(used), Closed(used), Failure(used)}
      ensures r.Closed? <==> alert == [1, 0]
      ensures r.Discard? <==> |alert| == 2 && alert[0] == 1 && alert[1] != 0 && old(warnings) < 4
      ensures shutdown == if r.Closed? then CloseNotified else old(shutdown)
      ensures r.Discard? ==> warnings == old(warnings) + 1
    {
      var (answer, count) := A.ProcessAlert(alert, warnings);
      warnings := count;
      match answer
      case Closes =>
        shutdown := CloseNotified;
        return Closed(used);
      case Passed => return Discard(used);
      case Fails => return Failure(used);
    }

    /** tls_open_record. */
    method OpenRecord(input: seq<byte>) returns (r: Opening)
      requires Valid()
      modifies this`sequence, this`shutdown, this`emptyRecords, this`warnings
      ensures Valid() && Justified(Unseal(ctx, old(sequence), input), old(sequence), sequence, r)
      ensures r.Success? ==>
                CanAccept() && |r.plain| <= RT_MAX_PLAIN_LENGTH && (r.typ != RT_HANDSHAKE ==> !HasUnprocessed())
      ensures r.Closed? <==> shutdown == CloseNotified
      ensures !r.Closed? ==> shutdown == old(shutdown)
      ensures var u := Unseal(ctx, old(sequence), input);
              Sensible(u, old(sequence)) && old(shutdown) != CloseNotified && CanAccept()
                  && (u.typ == RT_HANDSHAKE || !HasUnprocessed())
              ==> r == Success(u.used, u.typ, u.plain)
      ensures var u := Unseal(ctx, old(sequence), input);
              u.Opened? && old(shutdown) != CloseNotified && CanAccept() ==>
                && (r.Failure? <==> || old(sequence) + 1 == SEQUENCE_LIMIT || |u.plain| > 16384
                                    || (u.plain == [] && old(emptyRecords) >= 32)
                                    || (u.typ == 21 && !Tolerable(u.plain, old(warnings)))
                                    || (u.typ !in {21, 22} && HasUnprocessed()))
                && (r.Closed? <==> !r.Failure? && u.typ == 21 && u.plain == [1, 0])
                && (!r.Failure? ==> emptyRecords == if u.plain == [] then old(emptyRecords) + 1 else 0)
                && (r.Success? ==> warnings == 0) && (r.Discard? ==> warnings == old(warnings) + 1)
      ensures !Unseal(ctx, old(sequence), input).Opened? ==> (emptyRecords, warnings) == old((emptyRecords, warnings))
    {
      hide Unseal, ParseMessage, SSLBuffer.Valid;
      if shutdown == CloseNotified {
        return Closed(0);
      }
      if !CanAccept() {
        return Failure(0);
      }
      var u := Unseal(ctx, sequence, input);
      if u.Short? {
        return Partial(u.need);
      }
      if u.Bad? {
        return Failure(u.used);
      }
      sequence := (sequence + 1) % SEQUENCE_LIMIT;
      if sequence == 0 || |u.plain| > RT_MAX_PLAIN_LENGTH {
        return Failure(u.used);
      }
      emptyRecords := if u.plain == [] then emptyRecords + 1 else 0;
      if emptyRecords > MAX_EMPTY_RECORDS {
        return Failure(u.used);
      }
      if u.typ == RT_ALERT {
        r := ProcessAlert(u.plain, u.used);
        return;
      }
      if u.typ != RT_HANDSHAKE && HasUnprocessed() {
        return Failure(u.used);
      }
      warnings := 0;
      return Success(u.used, u.typ, u.plain);
    }

    /** ssl3_open_handshake behind ssl_open_handshake: an error is final. */
    method OpenHandshake(input: seq<byte>) returns (r: Opening)
      requires Valid()
      modifies this`sequence, this`shutdown, this`emptyRecords, this`warnings, this`hsBuf, this`origins
      ensures Valid() && Justified(Unseal(ctx, old(sequence), input), old(sequence), sequence, r)
      ensures r.Success? ==> r.typ == 22
      ensures Hs() == old(Hs()) + (if r.Success? then r.plain else [])
      ensures r.Failure? <==> shutdown == Broken
      ensures var u := Unseal(ctx, old(sequence), input);
              Sensible(u, old(sequence)) && u.typ == RT_HANDSHAKE && old(shutdown) == NotShut && old(CanAccept())
              ==> r == Success(u.used, u.typ, u.plain)
    {
      hide Unseal, SSLBuffer.Valid, Sensible;
      if shutdown == Broken {
        return Failure(0);
      }
      if hsBuf == None {
        hsBuf := Some([]);
      }
      r := OpenRecord(input);
      if r.Success? && r.typ != RT_HANDSHAKE {
        r := Failure(r.consumed);
      }
      if r.Failure? {
        shutdown := Broken;
      }
      if r.Success? {
        TakeIn(r.plain);
      }
    }

    /** Handshake octets opened under the current keys join the buffer. */
    method TakeIn(plain: seq<byte>)
      requires Valid() && CanAccept() && hsBuf.Some? && |plain| <= RT_MAX_PLAIN_LENGTH
      modifies this`hsBuf, this`origins
      ensures Valid() && hsBuf.Some? && Hs() == old(Hs()) + plain
    {
      hide SSLBuffer.Valid;
      ghost var now := epoch;
      hsBuf, origins := Some(hsBuf.value + plain), origins + seq(|plain|, _ => now);
    }

    /** ssl3_open_change_cipher_spec behind ssl_open_change_cipher_spec. */
    method OpenChangeCipherSpec(input: seq<byte>) returns (r: Opening)
      requires Valid()
      modifies this`sequence, this`shutdown, this`emptyRecords, this`warnings
      ensures Valid() && Justified(Unseal(ctx, old(sequence), input), old(sequence), sequence, r)
      ensures r.Success? ==> r.typ == 20 && r.plain == [1] && !HasUnprocessed()
      ensures r.Failure? <==> shutdown == Broken
      ensures var u := Unseal(ctx, old(sequence), input);
              Sensible(u, old(sequence)) && u.typ == 20 && u.plain == [1] && old(shutdown) == NotShut && CanAccept()
                && !HasUnprocessed()
              ==> r == Success(u.used, u.typ, u.plain)
    {
      hide Unseal, SSLBuffer.Valid, Sensible;
      if shutdown == Broken {
        return Failure(0);
      }
      r := OpenRecord(input);
      if r.Success? && (r.typ != RT_CHANGE_CIPHER_SPEC || r.plain != [MT_CCS]) {
        r := Failure(r.consumed);
      }
      if r.Failure? {
        shutdown := Broken;
      }
    }

    /** ssl_handle_open_record: uses up what was opened, or reads on when octets are missing. */
    method HandleOpenRecord(r: Opening, prefixLen: nat, address: nat) returns (ret: int, retry: bool)
      requires Valid() && Consumed(r) <= buffer.size
      requires r.Partial? ==> r.need <= RT_HEADER_LENGTH + RT_MAX_ENCRYPTED_LENGTH
      modifies buffer, buffer.buf, bio`input, bio`script, bio`failures
      ensures Valid() && (buffer.buf == null || buffer.buf == old(buffer.buf) || fresh(buffer.buf))
      ensures buffer.Contents() + bio.input == (old(buffer.Contents()) + old(bio.input))[Consumed(r)..]
      ensures !r.Partial? ==> bio.input == old(bio.input)
      ensures (ret > 0) == (r.Success? || (r.Partial? && ret > 0) || r.Discard?)
      ensures retry == (ret > 0 && !r.Success?) && (retry && r.Partial? ==> buffer.size >= r.need)
    {
      hide SSLBuffer.Contents, SSLBuffer.Valid, SSLBuffer.Held, ParseMessage, Unseal;
      if r.Partial? {
        ret := ReadBufferExtendTo(buffer, bio, prefixLen, r.need, address);
        return ret, ret > 0;
      }
      ghost var before := buffer.Contents();
      buffer.Consume(Consumed(r));
      DropFront(before, bio.input, Consumed(r));
      if !r.Success? {
        buffer.DiscardConsumed();
      }
      return if r.Success? || r.Discard? then 1 else if r.Closed? then 0 else -1, r.Discard?;
    }

    /** One turn of the loop in ssl_run_handshake that reads a handshake record: what is buffered is opened,
        and used up or added to. */
    method ReadHandshake(prefixLen: nat, address: nat) returns (o: Opening, ret: int, retry: bool)
      requires Valid()
      modifies this`sequence, this`shutdown, this`emptyRecords, this`warnings, this`hsBuf, this`origins,
        buffer, buffer.buf, bio`input, bio`script, bio`failures
      ensures Valid() && (buffer.buf == null || buffer.buf == old(buffer.buf) || fresh(buffer.buf))
      ensures Justified(Unseal(ctx, old(sequence), old(buffer.Contents())), old(sequence), sequence, o)
      ensures o.Success? ==> o.typ == RT_HANDSHAKE
      ensures Hs() == old(Hs()) + (if o.Success? then o.plain else [])
      ensures o.Failure? <==> shutdown == Broken
      ensures Consumed(o) <= old(buffer.size)
      ensures buffer.Contents() + bio.input == (old(buffer.Contents()) + old(bio.input))[Consumed(o)..]
      ensures retry == (ret > 0 && !o.Success?) && (retry && o.Partial? ==> buffer.size >= o.need)
      ensures o.Success? || o.Discard? ==> ret > 0
    {
      hide SSLBuffer.Contents, SSLBuffer.Valid, ParseMessage, Unseal, Sensible;
      o := OpenHandshake(buffer.Contents());
      ret, retry := HandleOpenRecord(o, prefixLen, address);
    }

    /** The same where a ChangeCipherSpec is due; the new read keys follow it at once, and never meet
        octets left over from the old ones. */
    method ReadChangeCipherSpec(ctx: Context, prefixLen: nat, address: nat) returns (o: Opening, ret: int, retry: bool)
      requires Valid() && ctx == keys(epoch + 1)
      modifies this`sequence, this`shutdown, this`emptyRecords, this`warnings, this`ctx, this`epoch,
        buffer, buffer.buf, bio`input, bio`script, bio`failures
      ensures Valid() && (buffer.buf == null || buffer.buf == old(buffer.buf) || fresh(buffer.buf))
      ensures Justified(Unseal(old(this.ctx), old(sequence), old(buffer.Contents())), old(sequence), if o.Success? then
              old(sequence) + 1 else sequence, o)
      ensures if o.Success? then o.typ == RT_CHANGE_CIPHER_SPEC && epoch == old(epoch) + 1 && sequence == 0
              && !HasUnprocessed()
              else epoch == old(epoch)
      ensures Consumed(o) <= old(buffer.size)
      ensures o.Failure? <==> shutdown == Broken
      ensures buffer.Contents() + bio.input == (old(buffer.Contents()) + old(bio.input))[Consumed(o)..]
      ensures retry == (ret > 0 && !o.Success?) && (retry && o.Partial? ==> buffer.size >= o.need)
    {
      hide SSLBuffer.Contents, SSLBuffer.Valid, ParseMessage, Unseal, Sensible;
      o := OpenChangeCipherSpec(buffer.Contents());
      ret, retry := HandleOpenRecord(o, prefixLen, address);
      if o.Success? {
        var ok := SetReadState(ctx);
        assert ok;
      }
    }

    /** ssl3_get_message: the first complete message. All of it came from one epoch. */
    method GetMessage() returns (m: Option<seq<byte>>)
      requires Valid()
      modifies this`hasMessage
      ensures Valid()
      ensures m == match ParseMessage(Hs()) { case Complete(raw) => Some(raw) case Needs(_) => None }
      ensures m.Some? ==> Whole(m.value) && m.value <= Hs() && hasMessage
      ensures m.Some? ==> forall i | 0 <= i < |m.value| :: origins[i] == origins[0]
      ensures m == None ==> !hasMessage
    {
      match ParseMessage(Hs())
      case Needs(_) => return None;
      case Complete(raw) =>
        ParsedIsWhole(Hs());
        hasMessage := true;
        return Some(raw);
    }

    /** ssl3_next_message: drops the first message and keeps what follows it. */
    method NextMessage(inInit: bool)
      requires Valid() && ParseMessage(Hs()).Complete?
      modifies this`hasMessage, this`hsBuf, this`origins
      ensures Valid() && !hasMessage
      ensures Hs() == old(Hs())[|ParseMessage(old(Hs())).raw|..]
    {
      var raw := ParseMessage(Hs()).raw;
      assert Whole(Hs()) ==> raw == Hs();
      assert |raw| < |origins| ==> origins[|raw|] == origins[0];
      hsBuf, hasMessage, origins := Some(hsBuf.value[|raw|..]), false, origins[|raw|..];
      if !inInit && hsBuf.value == [] {
        hsBuf := None;
      }
    }

    /** ssl3_on_handshake_complete. */
    method OnHandshakeComplete()
      requires Valid() && !hasMessage
      modifies this`hsBuf
      ensures Valid() && Hs() == old(Hs()) && hsBuf != Some([])
    {
      if hsBuf.Some? && hsBuf.value == [] {
        hsBuf := None;
      }
    }

    /** ssl3_set_read_state: refused while octets wait that are not part of the message in hand. */
    method SetReadState(ctx: Context) returns (ok: bool)
      requires Valid() && ctx == keys(epoch + 1)
      modifies this`ctx, this`epoch, this`sequence
      ensures Valid() && ok == !HasUnprocessed()
      ensures if ok then epoch == old(epoch) + 1 && sequence == 0 && this.ctx == ctx
              else epoch == old(epoch) && sequence == old(sequence) && this.ctx == old(this.ctx)
    {
      if HasUnprocessed() {
        return false;
      }
      sequence, this.ctx, epoch := 0, ctx, epoch + 1;
      return true;
    }
  }

  lemma DropFront(s: seq<byte>, t: seq<byte>, n: nat)
    requires n <= |s|
    ensures s[n..] + t == (s + t)[n..]
  {
  }
}
