/** What an accepted Finished means for the two sides together: they have seen the same handshake. RFC 5246,
    section 7.4.9. */
module TlsAgreement {
  import opened Bytes
  import opened TlsFlow
  import D = DtlsWire
  import S = TlsStream
  import TlsClient
  import TlsServer

  const U16: nat := 0x1_0000
  const U24: nat := 0x100_0000

  // The two framings.

  /** The type octet of a message. */
  function Code(kind: Kind): (c: byte)
    ensures Kinded(c) == kind
  {
    match kind
    case ClientHello => 1
    case ServerHello => 2
    case HelloVerifyRequest => 3
    case NewSessionTicket => 4
    case Certificate => 11
    case ServerKeyExchange => 12
    case CertificateRequest => 13
    case ServerHelloDone => 14
    case CertificateVerify => 15
    case ClientKeyExchange => 16
    case Finished => 20
    case CertificateStatus => 22
    case NextProto => 67
    case ChannelId => 203
  }

  function Kinded(c: byte): Kind {
    if c == 1 then ClientHello else if c == 2 then ServerHello else if c == 3 then HelloVerifyRequest
    else if c == 4 then NewSessionTicket else if c == 11 then Certificate else if c == 12 then ServerKeyExchange
    else if c == 13 then CertificateRequest else if c == 14 then ServerHelloDone else if c == 15 then CertificateVerify
    else if c == 16 then ClientKeyExchange else if c == 20 then Finished else if c == 22 then CertificateStatus
    else if c == 67 then NextProto else ChannelId
  }

  function TlsFraming(m: Message): seq<byte> {
    [Code(m.kind)] + BigEndian(|m.body|, 3) + m.body
  }

  predicate TlsFits(m: Message) {
    m.number == 0 && |m.body| < U24
  }

  /** DTLS hashes a message as the one fragment it would be. */
  function DtlsFraming(m: Message): seq<byte> {
    D.SerializeHeader(D.HmHeader(Code(m.kind), |m.body|, m.number, 0, |m.body|)) + m.body
  }

  predicate DtlsFits(m: Message) {
    m.number < U16 && |m.body| < U24
  }

  /** Messages that fit their fields can be told apart in a stream: no frame is empty, and none begins
      another message's. */
  ghost predicate Faithful(raw: Framing, fits: Message -> bool) {
    && (forall m | fits(m) :: raw(m) != [])
    && (forall m, n | fits(m) && fits(n) && raw(m) <= raw(n) :: m == n)
  }

  lemma TlsIsFaithful()
    ensures Faithful(TlsFraming, TlsFits)
  {
    forall m, n | TlsFits(m) && TlsFits(n) && TlsFraming(m) <= TlsFraming(n) ensures m == n {
      TlsFrameTells(m, n);
    }
  }

  lemma TlsFrameTells(m: Message, n: Message)
    requires TlsFits(m) && TlsFits(n) && TlsFraming(m) <= TlsFraming(n)
    ensures m == n
  {
    PowersUsed();
    var f, g := TlsFraming(m), TlsFraming(n);
    assert f[0] == g[0] == Code(m.kind) == Code(n.kind);
    assert BigEndian(|m.body|, 3) == f[1..4] == g[1..4] == BigEndian(|n.body|, 3);
    ValueOfBigEndian(|m.body|, 3);
    ValueOfBigEndian(|n.body|, 3);
    assert m.body == f[4..] == g[4..] == n.body;
  }

  lemma DtlsIsFaithful()
    ensures Faithful(DtlsFraming, DtlsFits)
  {
    forall m, n | DtlsFits(m) && DtlsFits(n) && DtlsFraming(m) <= DtlsFraming(n) ensures m == n {
      DtlsFrameTells(m, n);
    }
  }

  lemma DtlsFrameTells(m: Message, n: Message)
    requires DtlsFits(m) && DtlsFits(n) && DtlsFraming(m) <= DtlsFraming(n)
    ensures m == n
  {
    hide D.SerializeHeader;
    var h := D.HmHeader(Code(m.kind), |m.body|, m.number, 0, |m.body|);
    var k := D.HmHeader(Code(n.kind), |n.body|, n.number, 0, |n.body|);
    var more := DtlsFraming(n)[|DtlsFraming(m)|..];
    D.ParseSerialized(h, m.body, more);
    D.ParseSerialized(k, n.body, []);
    assert DtlsFraming(m) + more == DtlsFraming(n) == DtlsFraming(n) + [];
  }

  // Logs and transcripts.

  /** The messages of a log, of both sides. */
  function Messages(log: seq<Event>): seq<Message> {
    if log == [] then []
    else
      var e := log[|log| - 1];
      Messages(log[..|log| - 1]) + if e.Sent? then [e.m] else []
  }

  ghost predicate AllFit(fits: Message -> bool, ms: seq<Message>) {
    forall m | m in ms :: fits(m)
  }

  function Framed(raw: Framing, ms: seq<Message>): (f: seq<seq<byte>>)
    ensures |f| == |ms|
  {
    seq(|ms|, i requires 0 <= i < |ms| => raw(ms[i]))
  }

  lemma {:induction false} RawsAreFramed(raw: Framing, log: seq<Event>)
    ensures Raws(raw, log) == S.Flatten(Framed(raw, Messages(log)))
  {
    if log != [] {
      var init, e := log[..|log| - 1], log[|log| - 1];
      RawsAreFramed(raw, init);
      var before := Framed(raw, Messages(init));
      if e.Sent? {
        assert Framed(raw, Messages(log)) == before + [raw(e.m)];
        S.FlattenOne(before, raw(e.m));
      } else {
        assert Messages(log) == Messages(init);
      }
    }
  }

  /** If what one list of messages is framed as begins what another is, the first begins the second. */
  lemma {:induction false} FramesTell(raw: Framing, fits: Message -> bool, a: seq<Message>, b: seq<Message>)
    requires Faithful(raw, fits) && AllFit(fits, a) && AllFit(fits, b)
    requires S.Flatten(Framed(raw, a)) <= S.Flatten(Framed(raw, b))
    ensures a <= b
    decreases |a|
  {
    if a != [] {
      var f, g := Framed(raw, a), Framed(raw, b);
      assert a[0] in a && f[0] == raw(a[0]) && f[1..] == Framed(raw, a[1..]);
      assert b != [];
      assert b[0] in b && g[0] == raw(b[0]) && g[1..] == Framed(raw, b[1..]);
      OneBegins(f[0], S.Flatten(f[1..]), g[0], S.Flatten(g[1..]));
      assert a[0] == b[0];
      assert S.Flatten(f[1..]) == S.Flatten(f)[|f[0]|..] && S.Flatten(g[1..]) == S.Flatten(g)[|f[0]|..];
      FramesTell(raw, fits, a[1..], b[1..]);
      assert a == [a[0]] + a[1..] && b == [a[0]] + b[1..];
    }
  }

  lemma OneBegins(a: seq<byte>, s: seq<byte>, b: seq<byte>, t: seq<byte>)
    requires a + s <= b + t
    ensures a <= b || b <= a
  {
    var all := b + t;
    assert a == (a + s)[..|a|] == all[..|a|] && b == all[..|b|];
  }

  /** Equal transcripts are transcripts of the same messages. */
  lemma SameTranscript(raw: Framing, fits: Message -> bool, a: seq<Event>, b: seq<Event>)
    requires Faithful(raw, fits) && AllFit(fits, Messages(a)) && AllFit(fits, Messages(b))
    requires Raws(raw, a) == Raws(raw, b)
    ensures Messages(a) == Messages(b)
  {
    hide S.Flatten, Messages, Faithful;
    RawsAreFramed(raw, a);
    RawsAreFramed(raw, b);
    FramesTell(raw, fits, Messages(a), Messages(b));
    FramesTell(raw, fits, Messages(b), Messages(a));
  }

  /** Two transcripts that a side's MAC does not tell apart. */
  predicate Collision(x: Crypto, side: Side, s: seq<byte>, t: seq<byte>) {
    s != t && x.mac(side, s) == x.mac(side, t)
  }

  /** A Finished that one side sent in its handshake a and the other accepted in its handshake b shows that
      both have exchanged the same messages up to then, or it exhibits a collision of the MAC. Either may have
      begun with a cookie. */
  lemma Agreement(x: Crypto, fits: Message -> bool, side: Side,
                  a: seq<Event>, i: nat, ca: bool, b: seq<Event>, j: nat, cb: bool)
    requires Authentic(x, a, ca) && Authentic(x, b, cb) && i < |a| && j < |b|
    requires Faithful(x.raw, fits)
    requires AllFit(fits, Messages(Covered(a[..i], ca))) && AllFit(fits, Messages(Covered(b[..j], cb)))
    requires a[i].Sent? && a[i].side == side && a[i].m.kind == Finished
    requires b[j].Sent? && b[j].side == side && b[j].m.kind == Finished && b[j].m.body == a[i].m.body
    ensures var (s, t) := (Covered(a[..i], ca), Covered(b[..j], cb));
            Messages(s) == Messages(t) || Collision(x, side, Raws(x.raw, s), Raws(x.raw, t))
  {
    hide Faithful, Messages, Covered, Raws, AllFit;
    var s, t := Covered(a[..i], ca), Covered(b[..j], cb);
    assert Vouches(x, a[i], Raws(x.raw, s)) && Vouches(x, b[j], Raws(x.raw, t));
    if Raws(x.raw, s) == Raws(x.raw, t) {
      SameTranscript(x.raw, fits, s, t);
    }
  }

  /** The same for the framing of TLS, and for that of DTLS with or without a cookie exchange. */
  lemma TlsAgreement(x: Crypto, side: Side, a: seq<Event>, i: nat, b: seq<Event>, j: nat)
    requires x.raw == TlsFraming && Authentic(x, a, false) && Authentic(x, b, false) && i < |a| && j < |b|
    requires AllFit(TlsFits, Messages(a[..i])) && AllFit(TlsFits, Messages(b[..j]))
    requires a[i].Sent? && a[i].side == side && a[i].m.kind == Finished
    requires b[j].Sent? && b[j].side == side && b[j].m.kind == Finished && b[j].m.body == a[i].m.body
    ensures Messages(a[..i]) == Messages(b[..j]) || Collision(x, side, Raws(x.raw, a[..i]), Raws(x.raw, b[..j]))
  {
    TlsIsFaithful();
    Agreement(x, TlsFits, side, a, i, false, b, j, false);
  }

  lemma DtlsAgreement(x: Crypto, side: Side, a: seq<Event>, i: nat, ca: bool, b: seq<Event>, j: nat, cb: bool)
    requires x.raw == DtlsFraming && Authentic(x, a, ca) && Authentic(x, b, cb) && i < |a| && j < |b|
    requires AllFit(DtlsFits, Messages(Covered(a[..i], ca))) && AllFit(DtlsFits, Messages(Covered(b[..j], cb)))
    requires a[i].Sent? && a[i].side == side && a[i].m.kind == Finished
    requires b[j].Sent? && b[j].side == side && b[j].m.kind == Finished && b[j].m.body == a[i].m.body
    ensures var (s, t) := (Covered(a[..i], ca), Covered(b[..j], cb));
            Messages(s) == Messages(t) || Collision(x, side, Raws(x.raw, s), Raws(x.raw, t))
  {
    DtlsIsFaithful();
    Agreement(x, DtlsFits, side, a, i, ca, b, j, cb);
  }

  // Two whole handshakes.

  /** Where the Finished of a side stands, or the end of a log without one. */
  function FinishedAt(log: seq<Event>, side: Side): (k: nat)
    ensures k <= |log|
    ensures k < |log| ==> log[k].Sent? && log[k].side == side && log[k].m.kind == Finished
  {
    if log == [] then 0
    else
      var init, e := log[..|log| - 1], log[|log| - 1];
      if e.Sent? && e.side == side && e.m.kind == Finished then |init|
      else
        var k := FinishedAt(init, side);
        if k == |init| then |log| else k
  }

  lemma {:induction false} FinishedIsThere(log: seq<Event>, side: Side)
    requires Msg(side, Finished) in Shape(log)
    ensures FinishedAt(log, side) < |log|
  {
    var init, e := log[..|log| - 1], log[|log| - 1];
    if StepOf(e) != Msg(side, Finished) {
      assert log == init + [e];
      ShapeOfNext(init, e);
      FinishedIsThere(init, side);
    }
  }

  /** The side whose Finished ends a flow. */
  function LastSide(o: Choices): Side {
    if o.resumed then Client else Server
  }

  lemma FlowEnds(o: Choices)
    ensures |Flow(o)| >= 3 && Flow(o)[|Flow(o)| - 1] == Msg(LastSide(o), Finished)
    ensures Msg(Client, Finished) in Flow(o) && Msg(Server, Finished) in Flow(o)
    ensures Flow(o)[0] != Msg(Client, Finished) && Flow(o)[0] != Msg(Server, Finished)
    ensures Flow(o)[1] != Msg(Client, Finished) && Flow(o)[1] != Msg(Server, Finished)
  {
    FlowBegins(o);
    hide Hellos, UpToVerify, Maybe;
    if o.resumed {
      var before := ServerFinish(Hellos(o), o);
      assert before[|before| - 1] == Msg(Server, Finished) && before[|before| - 1] in Flow(o);
    } else {
      var before := ClientFinish(UpToVerify(o), o);
      assert before[|before| - 1] == Msg(Client, Finished) && before[|before| - 1] in Flow(o);
    }
  }

  lemma FlowBegins(o: Choices)
    ensures Hellos(o) <= Flow(o) && |Hellos(o)| >= 2
    ensures Flow(o)[0] == Msg(Client, ClientHello)
    ensures Flow(o)[1] in {Change(Client), Msg(Server, HelloVerifyRequest), Msg(Server, ServerHello)}
  {
    hide Hellos, UpToVerify, ServerFinish, ClientFinish;
    HellosBegin(o);
    var first := if o.resumed then ServerFinish(Hellos(o), o) else ClientFinish(UpToVerify(o), o);
    FullBegins(o);
    FinishExtends(Hellos(o), o);
    FinishExtends(UpToVerify(o), o);
    FinishExtends(first, o);
    assert Flow(o)[0] == Hellos(o)[0] && Flow(o)[1] == Hellos(o)[1];
  }

  lemma FinishExtends(before: seq<Step>, o: Choices)
    ensures before <= ServerFinish(before, o) && before <= ClientFinish(before, o)
  {
    hide Maybe;
  }

  lemma FullBegins(o: Choices)
    ensures Hellos(o) <= UpToVerify(o)
  {
    hide Hellos, Maybe, UpToHelloDone;
    assert UpToHelloDone(o) <= UpToAnswer(o) <= UpToClientKey(o) <= UpToVerify(o);
    ServerFlightBegins(o);
  }

  lemma ServerFlightBegins(o: Choices)
    ensures Hellos(o) <= UpToHelloDone(o)
  {
    hide Hellos, Maybe, UpToKeyExchange;
    assert UpToKeyExchange(o) <= UpToRequest(o) <= UpToHelloDone(o);
    UpToKeyExchangeBegins(o);
  }

  lemma UpToKeyExchangeBegins(o: Choices)
    ensures Hellos(o) <= UpToKeyExchange(o)
  {
    hide Hellos, Maybe;
    assert Hellos(o) <= UpToCertificate(o) <= UpToStatus(o) <= UpToKeyExchange(o);
  }

  lemma HellosBegin(o: Choices)
    ensures |Hellos(o)| >= 2 && Hellos(o)[0] == Msg(Client, ClientHello)
    ensures Hellos(o)[1] in {Change(Client), Msg(Server, HelloVerifyRequest), Msg(Server, ServerHello)}
  {
  }

  /** The messages of the beginning of a log begin its messages. */
  lemma {:induction false} MessagesBegin(log: seq<Event>, k: nat)
    requires k <= |log|
    ensures Messages(log[..k]) <= Messages(log)
    decreases |log|
  {
    if k < |log| {
      MessagesBegin(log[..|log| - 1], k);
      assert log[..|log| - 1][..k] == log[..k];
    } else {
      assert log[..k] == log;
    }
  }

  /** Up to the Finished of one side both have the same messages, or there is a collision on that side. */
  predicate CollidesAt(x: Crypto, side: Side, a: seq<Event>, ca: bool, b: seq<Event>, cb: bool) {
    var (s, t) := (Covered(a[..FinishedAt(a, side)], ca), Covered(b[..FinishedAt(b, side)], cb));
    Collision(x, side, Raws(x.raw, s), Raws(x.raw, t))
  }

  /** A handshake that went through a whole flow. */
  ghost predicate Whole(x: Crypto, fits: Message -> bool, log: seq<Event>, o: Choices) {
    && Shape(log) == Flow(o) && Authentic(x, log, o.cookie) && AllFit(fits, Messages(Covered(log, o.cookie)))
  }

  /** The Finished of a side is the same message at both ends. */
  predicate SameFinished(side: Side, a: seq<Event>, b: seq<Event>) {
    && FinishedAt(a, side) < |a| && FinishedAt(b, side) < |b|
    && a[FinishedAt(a, side)].m == b[FinishedAt(b, side)].m
  }

  lemma WholeParts(x: Crypto, fits: Message -> bool, log: seq<Event>, o: Choices, side: Side)
    requires Whole(x, fits, log, o)
    ensures var k := FinishedAt(log, side);
            && 2 <= k < |log| && Messages(Covered(log[..k], o.cookie)) + [log[k].m] <= Messages(Covered(log, o.cookie))
            && AllFit(fits, Messages(Covered(log[..k], o.cookie)))
  {
    hide Flow, AllFit, Authentic, FinishedAt, Covered, Messages;
    FlowEnds(o);
    FinishedIsThere(log, side);
    var k := FinishedAt(log, side);
    assert StepOf(log[k]) == Shape(log)[k] == Msg(side, Finished);
    CoveredUpTo(log, o.cookie, k);
    var covered, before := Covered(log, o.cookie), Covered(log[..k], o.cookie);
    MessagesOfNext(before, log[k]);
    MessagesBegin(covered, |before| + 1);
    FitsBegin(fits, Messages(before), Messages(covered));
  }

  lemma CoveredUpTo(log: seq<Event>, cookie: bool, k: nat)
    requires 2 <= k < |log|
    ensures var (covered, before) := (Covered(log, cookie), Covered(log[..k], cookie));
            |before| < |covered| && covered[..|before| + 1] == before + [log[k]]
  {
  }

  lemma MessagesOfNext(log: seq<Event>, e: Event)
    ensures Messages(log + [e]) == Messages(log) + if e.Sent? then [e.m] else []
  {
    assert (log + [e])[..|log|] == log;
  }

  lemma FitsBegin(fits: Message -> bool, ms: seq<Message>, all: seq<Message>)
    requires AllFit(fits, all) && |ms| < |all| && ms <= all
    ensures AllFit(fits, ms)
  {
    forall m | m in ms ensures m in all {
      var k :| 0 <= k < |ms| && ms[k] == m;
      assert all[k] == m;
    }
  }

  /** The Finished that ends one handshake shows that its messages begin those of the other. */
  lemma Begins(x: Crypto, fits: Message -> bool, a: seq<Event>, oa: Choices, b: seq<Event>, ob: Choices)
    requires Faithful(x.raw, fits) && Whole(x, fits, a, oa) && Whole(x, fits, b, ob)
    requires SameFinished(LastSide(oa), a, b) && !CollidesAt(x, LastSide(oa), a, oa.cookie, b, ob.cookie)
    ensures Messages(Covered(a, oa.cookie)) <= Messages(Covered(b, ob.cookie))
  {
    hide Faithful, Flow, AllFit, Raws, Messages, FinishedAt;
    var side := LastSide(oa);
    var i, j := FinishedAt(a, side), FinishedAt(b, side);
    WholeParts(x, fits, a, oa, side);
    WholeParts(x, fits, b, ob, side);
    Agreement(x, fits, side, a, i, oa.cookie, b, j, ob.cookie);
    FlowEnds(oa);
    EndsThere(a, oa);
    MessagesOfLast(a, oa.cookie);
  }

  lemma EndsThere(log: seq<Event>, o: Choices)
    requires Shape(log) == Flow(o)
    ensures FinishedAt(log, LastSide(o)) == |log| - 1 >= 2
  {
    hide Flow;
    FlowEnds(o);
    assert StepOf(log[|log| - 1]) == Shape(log)[|log| - 1];
  }

  lemma MessagesOfLast(log: seq<Event>, cookie: bool)
    requires |log| >= 3 && log[|log| - 1].Sent?
    ensures Messages(Covered(log, cookie)) == Messages(Covered(log[..|log| - 1], cookie)) + [log[|log| - 1].m]
  {
    hide Messages;
    var covered := Covered(log, cookie);
    assert covered == Covered(log[..|log| - 1], cookie) + [log[|log| - 1]];
    MessagesOfNext(Covered(log[..|log| - 1], cookie), log[|log| - 1]);
  }

  /** Two whole handshakes with the same two Finished messages have the same messages throughout, or the MAC
      of one of the sides collides on what they had before it. */
  lemma WholeAgreement(x: Crypto, fits: Message -> bool, a: seq<Event>, oa: Choices, b: seq<Event>, ob: Choices)
    requires Faithful(x.raw, fits) && Whole(x, fits, a, oa) && Whole(x, fits, b, ob)
    requires SameFinished(Client, a, b) && SameFinished(Server, a, b)
    ensures || Messages(Covered(a, oa.cookie)) == Messages(Covered(b, ob.cookie))
            || CollidesAt(x, Client, a, oa.cookie, b, ob.cookie) || CollidesAt(x, Server, a, oa.cookie, b, ob.cookie)
  {
    hide Faithful, Whole, Messages, Covered, FinishedAt, Raws;
    if !CollidesAt(x, Client, a, oa.cookie, b, ob.cookie) && !CollidesAt(x, Server, a, oa.cookie, b, ob.cookie) {
      assert SameFinished(LastSide(ob), b, a) && !CollidesAt(x, LastSide(ob), b, ob.cookie, a, oa.cookie);
      Begins(x, fits, a, oa, b, ob);
      Begins(x, fits, b, ob, a, oa);
    }
  }

  /** A client and a server that are both done below TLS 1.3, each having got the other's Finished as it was
      sent: they have exchanged the same messages, or here is the collision. */
  lemma BothComplete(client: TlsClient.Machine, server: TlsServer.Machine, fits: Message -> bool)
    requires client.Valid() && client.state == TlsClient.Complete && !client.tls13
    requires server.Valid() && server.state == TlsServer.Complete && !server.tls13
    requires client.hs.crypto == server.hs.crypto && Faithful(client.hs.crypto.raw, fits)
    requires AllFit(fits, Messages(client.hs.Hashed())) && AllFit(fits, Messages(server.hs.Hashed()))
    requires SameFinished(Client, client.hs.log, server.hs.log) && SameFinished(Server, client.hs.log, server.hs.log)
    ensures var (x, a, ca, b, cb) := (client.hs.crypto, client.hs.log, client.hs.choices.cookie,
                                      server.hs.log, server.hs.choices.cookie);
            || Messages(client.hs.Hashed()) == Messages(server.hs.Hashed())
            || CollidesAt(x, Client, a, ca, b, cb) || CollidesAt(x, Server, a, ca, b, cb)
  {
    hide Faithful, Messages, Covered, FinishedAt, Raws, Flow, Shape, AllFit, Authentic, CollidesAt, SameFinished;
    client.AtTheEnd();
    server.AtTheEnd();
    WholeAgreement(client.hs.crypto, fits, client.hs.log, client.hs.choices, server.hs.log, server.hs.choices);
  }
}
