/** What the client and the server machine share: the transcript, the messages received and sent, and
    the two steps that deal with Finished. */
module TlsHandshake {
  import opened Bytes
  import opened Options
  import opened TlsFlow

  /** The handshake transcript: a buffer of all messages, a running hash of them, or both. */
  class Transcript {
    var buffer: Option<seq<byte>>
    var hash: Option<seq<byte>>    // the octets hashed so far
    ghost var all: seq<byte>       // every octet added since the last reset

    ghost predicate Valid()
      reads this
    {
      && (buffer.Some? || hash.Some?)
      && (buffer.Some? ==> buffer.value == all) && (hash.Some? ==> hash.value == all)
    }

    constructor ()
      ensures Valid() && all == [] && buffer.Some? && hash == None
    {
      buffer, hash, all := Some([]), None, [];
    }

    method Init()
      modifies this
      ensures Valid() && all == [] && buffer.Some? && hash == None
    {
      buffer, hash, all := Some([]), None, [];
    }

    /** Starts the hash with what has been buffered, which must still be there. */
    method InitHash()
      requires Valid() && buffer.Some?
      modifies this`hash
      ensures Valid() && hash.Some?
    {
      hash := buffer;
    }

    method Update(data: seq<byte>)
      requires Valid()
      modifies this
      ensures Valid() && all == old(all) + data
      ensures buffer.Some? == old(buffer.Some?) && hash.Some? == old(hash.Some?)
    {
      if buffer.Some? {
        buffer := Some(buffer.value + data);
      }
      if hash.Some? {
        hash := Some(hash.value + data);
      }
      all := all + data;
    }

    method FreeBuffer()
      requires Valid() && hash.Some?
      modifies this`buffer
      ensures Valid() && buffer == None
    {
      buffer := None;
    }
  }

  /** What a step of a state machine asks its driver to do. */
  datatype Wait =
    | Done                    // nothing: go on with the next state
    | Error
    | Flush
    | ReadMessage
    | ReadServerHello
    | ReadChangeCipherSpec
    | EarlyReturn
    | X509Lookup
    | ChannelIdLookup
    | PrivateKeyOperation
    | CertificateVerification
    | CertificateSelectionPending
    | PendingSession
    | PendingTicket
    | Handoff

  class Handshake {
    const side: Side
    const dtls: bool
    const crypto: Crypto
    const transcript: Transcript
    var inbox: seq<Message>             // received and not yet released
    var choices: Choices                // what has been decided so far
    ghost var log: seq<Event>
    ghost var received: seq<Message>

    ghost function Hashed(): seq<Event>
      reads this
    {
      Covered(log, choices.cookie)
    }

    /** The transcript is the messages sent and released so far, each once and in order; every message
        received was released or is still waiting; every Finished so far fits the transcript. */
    ghost predicate Valid()
      reads this, transcript
    {
      && transcript.Valid() && transcript.all == Raws(crypto.raw, Hashed())
      && received == From(side.Other(), log) + inbox
      && Authentic(crypto, log, choices.cookie)
      && (choices.cookie ==> |log| >= 2)
    }

    /** Nothing has happened: a step that has to be tried again leaves no trace. */
    twostate predicate Idle()
      reads this, transcript
    {
      log == old(log) && inbox == old(inbox) && transcript.all == old(transcript.all) && choices == old(choices)
    }

    constructor (side: Side, dtls: bool, crypto: Crypto)
      ensures Valid() && fresh(transcript) && this.side == side && this.dtls == dtls && this.crypto == crypto
      ensures log == [] && inbox == [] && transcript.buffer.Some? && transcript.hash == None
      ensures choices == Choices(false, false, false, false, false, false, false, false, false, false, false, false)
    {
      this.side, this.dtls, this.crypto := side, dtls, crypto;
      transcript := new Transcript();
      inbox, log, received := [], [], [];
      choices := Choices(false, false, false, false, false, false, false, false, false, false, false, false);
    }

    /** The peer's next message comes in. */
    method Receive(m: Message)
      requires Valid()
      modifies this`inbox, this`received
      ensures Valid() && inbox == old(inbox) + [m] && received == old(received) + [m]
    {
      assert received + [m] == From(side.Other(), log) + (inbox + [m]);
      inbox, received := inbox + [m], received + [m];
    }

    method Decide(c: Choices)
      requires Valid() && c.cookie == choices.cookie
      modifies this`choices
      ensures Valid() && choices == c
    {
      choices := c;
    }

    /** Adds one event to the log. */
    ghost method Log(e: Event)
      modifies this`log
      ensures log == old(log) + [e] && Grew(old(log), log, [StepOf(e)])
      ensures Raws(crypto.raw, log) == Raws(crypto.raw, old(log)) + if e.Sent? then crypto.raw(e.m) else []
      ensures From(side.Other(), log) == From(side.Other(), old(log))
              + if e.Sent? && e.side == side.Other() then [e.m] else []
      ensures old(choices.cookie ==> |log| >= 2) ==>
                Raws(crypto.raw, Covered(log, choices.cookie)) == Raws(crypto.raw, Covered(old(log), choices.cookie))
                    + if e.Sent? then crypto.raw(e.m) else []
    {
      GrewByOne(log, e);
      RawsOfNext(crypto.raw, log, e);
      FromNext(side.Other(), log, e);
      if choices.cookie && |log| >= 2 {
        assert (log + [e])[2..] == log[2..] + [e];
        RawsOfNext(crypto.raw, log[2..], e);
      }
      log := log + [e];
    }

    /** A new message. Its number is up to the transport. */
    static method NewMessage(kind: Kind, body: seq<byte>) returns (m: Message)
      ensures m.kind == kind && m.body == body
    {
      var number: nat := *;
      m := Message(kind, number, body);
    }

    /** add_message: the message joins the flight and the transcript. */
    method AddMessage(m: Message)
      requires Valid() && Vouches(crypto, Sent(side, m), transcript.all)
      modifies this`log, transcript
      ensures Valid() && log == old(log) + [Sent(side, m)] && Grew(old(log), log, [Msg(side, m.kind)])
      ensures transcript.buffer.Some? == old(transcript.buffer.Some?)
              && transcript.hash.Some? == old(transcript.hash.Some?)
    {
      hide Authentic, Vouches;
      AuthenticNext(crypto, log, choices.cookie, Sent(side, m));
      transcript.Update(crypto.raw(m));
      Log(Sent(side, m));
    }

    /** add_change_cipher_spec, or the peer's taking effect. */
    method AddCcs(who: Side)
      requires Valid()
      modifies this`log
      ensures Valid() && Grew(old(log), log, [Change(who)])
    {
      hide Authentic, Covered, Raws, From, Grew;
      AuthenticNext(crypto, log, choices.cookie, Ccs(who));
      Log(Ccs(who));
    }

    /** The head of the inbox has been hashed and is about to be released. */
    ghost predicate HeadHashed()
      reads this, transcript
    {
      && inbox != []
      && transcript.Valid() && transcript.all == Raws(crypto.raw, Hashed()) + crypto.raw(inbox[0])
      && received == From(side.Other(), log) + inbox
      && Authentic(crypto, log, choices.cookie)
      && (choices.cookie ==> |log| >= 2)
    }

    /** ssl_hash_message on the current message. */
    method HashMessage()
      requires Valid() && inbox != []
      modifies transcript
      ensures HeadHashed()
      ensures transcript.all == old(transcript.all) + crypto.raw(inbox[0])
      ensures transcript.buffer.Some? == old(transcript.buffer.Some?)
              && transcript.hash.Some? == old(transcript.hash.Some?)
    {
      hide Authentic, Covered;
      transcript.Update(crypto.raw(inbox[0]));
    }

    /** next_message: releases the current message. */
    method NextMessage()
      requires HeadHashed()
      requires Vouches(crypto, Sent(side.Other(), inbox[0]), Raws(crypto.raw, Hashed()))
      modifies this`inbox, this`log
      ensures Valid() && inbox == old(inbox)[1..] && log == old(log) + [Sent(side.Other(), old(inbox)[0])]
      ensures Grew(old(log), log, [Msg(side.Other(), old(inbox)[0].kind)])
    {
      hide Authentic, Vouches, Covered, Raws, From, Grew;
      var m := inbox[0];
      HeadMoves(From(side.Other(), log), inbox);
      AuthenticNext(crypto, log, choices.cookie, Sent(side.Other(), m));
      Log(Sent(side.Other(), m));
      inbox := inbox[1..];
    }

    /** Hashes the current message, releases it, and notes what it decided. */
    method HashAndRelease(c: Choices)
      requires Valid() && inbox != [] && inbox[0].kind !in {Finished, CertificateVerify} && c.cookie == choices.cookie
      modifies this`inbox, this`log, this`choices, transcript
      ensures transcript.buffer.Some? == old(transcript.buffer.Some?)
              && transcript.hash.Some? == old(transcript.hash.Some?)
      ensures Valid() && Grew(old(log), log, [Msg(side.Other(), old(inbox)[0].kind)]) && choices == c
      ensures log == old(log) + [Sent(side.Other(), old(inbox)[0])] && inbox == old(inbox)[1..]
    {
      hide Valid, Authentic, Covered, Raws, From;
      HashMessage();
      NextMessage();
      Decide(c);
    }

    /** The buffer is not needed any more. */
    method FreeBuffer()
      requires (Valid() || HeadHashed()) && transcript.hash.Some?
      modifies transcript`buffer
      ensures old(Valid()) ==> Valid()
      ensures old(HeadHashed()) ==> HeadHashed()
      ensures transcript.buffer == None
    {
      transcript.FreeBuffer();
    }

    method InitHash()
      requires Valid() && transcript.buffer.Some?
      modifies transcript`hash
      ensures Valid() && transcript.hash.Some?
    {
      transcript.InitHash();
    }

    /** The hello that settles the cipher, and whether a session is resumed, starts the hash. */
    method TakeHello(resumed: bool, keepBuffer: bool)
      requires Valid() && transcript.buffer.Some? && inbox != [] && inbox[0].kind !in {Finished, CertificateVerify}
      modifies this`inbox, this`log, this`choices, transcript
      ensures Valid() && transcript.hash.Some? && transcript.buffer.Some? == keepBuffer
      ensures choices == old(choices).(resumed := resumed)
      ensures log == old(log) + [Sent(side.Other(), old(inbox)[0])] && inbox == old(inbox)[1..]
      ensures Grew(old(log), log, [Msg(side.Other(), old(inbox)[0].kind)])
    {
      hide Valid, Authentic, Covered, Raws, From;
      InitHash();
      HashMessage();
      if !keepBuffer {
        FreeBuffer();
      }
      NextMessage();
      Decide(choices.(resumed := resumed));
    }

    /** After a HelloVerifyRequest the transcript starts again. */
    method RestartTranscript()
      requires Valid() && inbox != [] && !choices.cookie && |log| == 1
      requires Shape(log) == [Msg(Client, ClientHello)] && inbox[0].kind == HelloVerifyRequest
      modifies this`inbox, this`log, this`choices, transcript
      ensures Valid() && inbox == old(inbox)[1..] && choices == old(choices).(cookie := true)
      ensures Grew(old(log), log, [Msg(side.Other(), old(inbox)[0].kind)])
      ensures transcript.buffer.Some? && transcript.hash == None
    {
      var m := inbox[0];
      HeadMoves(From(side.Other(), log), inbox);
      assert StepOf(log[0]) == Shape(log)[0];
      Log(Sent(side.Other(), m));
      inbox := inbox[1..];
      transcript.Init();
      choices := choices.(cookie := true);
    }

    /** The HelloVerifyRequest is released unhashed, the transcript starts again, and a second ClientHello
        goes out. */
    method StartAgain(body: seq<byte>)
      requires Valid() && side == Client && inbox != [] && !choices.cookie && |log| == 1
      requires Shape(log) == [Msg(Client, ClientHello)] && inbox[0].kind == HelloVerifyRequest
      modifies this`inbox, this`log, this`choices, transcript
      ensures Valid() && choices == old(choices).(cookie := true)
      ensures transcript.buffer.Some? && transcript.hash == None
      ensures Grew(old(log), log, [Msg(Server, HelloVerifyRequest), Msg(Client, ClientHello)])
    {
      hide Valid, Authentic, Covered, Raws, From, Grew;
      RestartTranscript();
      ghost var mid := log;
      var m := NewMessage(ClientHello, body);
      AddMessage(m);
      GrewTwice(old(log), mid, log, [Msg(Server, HelloVerifyRequest)], [Msg(Client, ClientHello)]);
      assert [Msg(Server, HelloVerifyRequest)] + [Msg(Client, ClientHello)]
             == [Msg(Server, HelloVerifyRequest), Msg(Client, ClientHello)];
    }

    /** Adds the client's answer to a certificate request; without a certificate the buffer can go. */
    method AddAnswer(m: Message, has: bool)
      requires Valid() && transcript.hash.Some? && m.kind == Certificate
      modifies this`log, this`choices, transcript
      ensures Valid() && Grew(old(log), log, [Msg(side, Certificate)]) && log == old(log) + [Sent(side, m)]
      ensures choices == old(choices).(answer := true)
      ensures transcript.buffer.Some? == (has && old(transcript.buffer.Some?)) && transcript.hash.Some?
    {
      hide Valid, Authentic, Covered, Raws, From;
      if !has {
        FreeBuffer();
      }
      AddMessage(m);
      Decide(choices.(answer := true));
    }

    /** Adds this side's CertificateVerify, a signature of the buffered transcript, and drops the buffer. */
    method AddCertificateVerify(body: seq<byte>)
      requires Valid() && transcript.hash.Some? && transcript.buffer.Some?
               && crypto.signs(transcript.buffer.value, body)
      modifies this`log, this`choices, transcript
      ensures Valid() && Grew(old(log), log, [Msg(side, CertificateVerify)])
      ensures choices == old(choices).(verify := true)
      ensures transcript.buffer == None && transcript.hash.Some?
    {
      hide Authentic, Covered, Raws, From;
      var m := NewMessage(CertificateVerify, body);
      AddMessage(m);
      FreeBuffer();
      Decide(choices.(verify := true));
    }

    /** Checks the peer's CertificateVerify against the buffered transcript, which is then not needed any
        more, and only then hashes it. */
    method TakeCertificateVerify() returns (ok: bool)
      requires Valid() && transcript.hash.Some? && transcript.buffer.Some? && inbox != []
               && inbox[0].kind == CertificateVerify
      modifies this`inbox, this`log, this`choices, transcript
      ensures ok <==> crypto.signs(old(transcript.all), old(inbox)[0].body)
      ensures ok ==> Valid() && Grew(old(log), log, [Msg(side.Other(), CertificateVerify)])
      ensures ok ==> choices == old(choices).(verify := true) && transcript.buffer == None && transcript.hash.Some?
    {
      hide Authentic, Covered, Raws, From, Grew;
      if !crypto.signs(transcript.buffer.value, inbox[0].body) {
        return false;
      }
      FreeBuffer();
      HashMessage();
      NextMessage();
      Decide(choices.(verify := true));
      ok := true;
    }

    /** The server's last messages: a ticket if one was promised, ChangeCipherSpec and Finished. */
    method SendServerFlight(ticket: bool)
      requires Valid() && transcript.hash.Some?
      modifies this`log, this`choices, transcript
      ensures transcript.buffer.Some? == old(transcript.buffer.Some?) && transcript.hash.Some?
      ensures Valid() && choices == old(choices).(ticket := ticket)
      ensures Grew(old(log), log, Maybe(ticket, side, NewSessionTicket) + [Change(side)] + [Msg(side, Finished)])
    {
      hide Valid, Grew, Maybe;
      AddOptional(ticket, NewSessionTicket);
      ghost var a := log;
      AddCcs(side);
      GrewTwice(old(log), a, log, Maybe(ticket, side, NewSessionTicket), [Change(side)]);
      ghost var b := log;
      SendFinished();
      GrewTwice(old(log), b, log, Maybe(ticket, side, NewSessionTicket) + [Change(side)], [Msg(side, Finished)]);
      Decide(choices.(ticket := ticket));
    }

    /** The server's Certificate and, if it is to be stapled, CertificateStatus. */
    method SendCertificates(certificate: bool, status: bool)
      requires Valid() && transcript.hash.Some?
      modifies this`log, this`choices, transcript
      ensures transcript.buffer.Some? == old(transcript.buffer.Some?) && transcript.hash.Some?
      ensures Valid() && choices == old(choices).(certificate := certificate, status := status)
      ensures Grew(old(log), log, Maybe(certificate, side, Certificate) + Maybe(status, side, CertificateStatus))
    {
      hide Valid, Grew, Maybe;
      AddOptional(certificate, Certificate);
      ghost var a := log;
      AddOptional(status, CertificateStatus);
      GrewTwice(old(log), a, log, Maybe(certificate, side, Certificate), Maybe(status, side, CertificateStatus));
      Decide(choices.(certificate := certificate, status := status));
    }

    /** CertificateRequest, if a certificate is wanted, and ServerHelloDone. */
    method SendHelloDone(request: bool)
      requires Valid() && transcript.hash.Some?
      modifies this`log, this`choices, transcript
      ensures transcript.buffer.Some? == old(transcript.buffer.Some?) && transcript.hash.Some?
      ensures Valid() && choices == old(choices).(request := request)
      ensures Grew(old(log), log, Maybe(request, side, CertificateRequest) + [Msg(side, ServerHelloDone)])
    {
      hide Valid, Grew, Maybe;
      AddOptional(request, CertificateRequest);
      ghost var a := log;
      var body: seq<byte> := *;
      var m := NewMessage(ServerHelloDone, body);
      AddMessage(m);
      GrewTwice(old(log), a, log, Maybe(request, side, CertificateRequest), [Msg(side, ServerHelloDone)]);
      Decide(choices.(request := request));
    }

    /** ssl_get_finished: the peer's Finished is accepted only if it is the MAC of the transcript before it. */
    method GetFinished() returns (r: Wait)
      requires Valid() && transcript.hash.Some?
      modifies this`inbox, this`log, transcript
      ensures r in {Done, ReadMessage, Error}
      ensures r == ReadMessage <==> old(inbox) == []
      ensures r == Done <==> && old(inbox) != [] && old(inbox)[0].kind == Finished
                             && old(inbox)[0].body == crypto.mac(side.Other(), old(transcript.all))
      ensures r == ReadMessage ==> Valid() && Idle()
      ensures r == Done ==> Valid() && Grew(old(log), log, [Msg(side.Other(), Finished)])
      ensures transcript.buffer.Some? == old(transcript.buffer.Some?) && transcript.hash.Some?
    {
      if inbox == [] {
        return ReadMessage;
      }
      if inbox[0].kind != Finished {
        return Error;
      }
      hide Authentic, Covered;
      var finished := crypto.mac(side.Other(), transcript.hash.value);
      HashMessage();
      if inbox[0].body != finished {
        return Error;
      }
      NextMessage();
      return Done;
    }

    /** ssl_send_finished. */
    method SendFinished()
      requires Valid() && transcript.hash.Some?
      modifies this`log, transcript
      ensures Valid() && Grew(old(log), log, [Msg(side, Finished)])
      ensures transcript.buffer.Some? == old(transcript.buffer.Some?) && transcript.hash.Some?
    {
      var finished := crypto.mac(side, transcript.hash.value);
      var m := NewMessage(Finished, finished);
      AddMessage(m);
    }

    method AddOptional(wanted: bool, kind: Kind)
      requires Valid() && kind !in {Finished, CertificateVerify}
      modifies this`log, transcript
      ensures Valid() && Grew(old(log), log, Maybe(wanted, side, kind))
      ensures transcript.buffer.Some? == old(transcript.buffer.Some?)
              && transcript.hash.Some? == old(transcript.hash.Some?)
    {
      hide Authentic, Covered, Raws, From;
      if wanted {
        var body: seq<byte> := *;
        var m := NewMessage(kind, body);
        AddMessage(m);
      } else {
        GrewByNothing(log);
      }
    }

    /** The client's last messages: ChangeCipherSpec, what was negotiated, and Finished. */
    method SendClientFlight(nextProto: bool, channelId: bool)
      requires Valid() && transcript.hash.Some?
      modifies this`log, this`choices, transcript
      ensures transcript.buffer.Some? == old(transcript.buffer.Some?) && transcript.hash.Some?
      ensures Valid() && choices == old(choices).(nextProto := nextProto, channelId := channelId)
      ensures
              Grew(old(log), log, [Change(side)] + Maybe(nextProto, side, NextProto) + Maybe(channelId, side, ChannelId)
                                         + [Msg(side, Finished)])
    {
      hide Valid, Grew, Maybe;
      AddCcs(side);
      ghost var a := log;
      AddOptional(nextProto, NextProto);
      GrewTwice(old(log), a, log, [Change(side)], Maybe(nextProto, side, NextProto));
      ghost var b := log;
      AddOptional(channelId, ChannelId);
      GrewTwice(old(log), b, log, [Change(side)] + Maybe(nextProto, side, NextProto),
          Maybe(channelId, side, ChannelId));
      ghost var c := log;
      SendFinished();
      GrewTwice(old(log), c, log, [Change(side)] + Maybe(nextProto, side, NextProto)
          + Maybe(channelId, side, ChannelId),
                [Msg(side, Finished)]);
      Decide(choices.(nextProto := nextProto, channelId := channelId));
    }
  }

  lemma HeadMoves<T>(done: seq<T>, todo: seq<T>)
    requires todo != []
    ensures done + todo == done + [todo[0]] + todo[1..]
  {
  }
}
