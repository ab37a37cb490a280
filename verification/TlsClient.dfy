/** The client state machine below TLS 1.3: 21 states that a full and a resumed handshake go through in
    different orders. */
module TlsClient {
  import opened Bytes
  import opened Options
  import opened TlsFlow
  import opened TlsHandshake

  datatype State =
    | StartConnect | EnterEarlyData | ReadHelloVerifyRequest | ReadServerHelloMessage | Tls13
    | ReadServerCertificate | ReadCertificateStatus | VerifyServerCertificate | ReadServerKeyExchange
    | ReadCertificateRequest | ReadServerHelloDone | SendClientCertificate | SendClientKeyExchange
    | SendClientCertificateVerify | SendClientFinished | FinishFlight | ReadSessionTicket
    | ProcessChangeCipherSpec | ReadServerFinished | FinishClientHandshake | Complete

  /** What has gone to and fro when a state is entered, given the choices made so far. */
  function Expected(state: State, c: Choices): seq<Step> {
    match state
    case StartConnect => []
    case EnterEarlyData => [Msg(Client, ClientHello)]
    case ReadHelloVerifyRequest => [Msg(Client, ClientHello)]
    case ReadServerHelloMessage => FirstHello(c)
    case Tls13 => []
    case ReadServerCertificate => Hellos(c)
    case ReadCertificateStatus => UpToCertificate(c)
    case VerifyServerCertificate => UpToStatus(c)
    case ReadServerKeyExchange => UpToStatus(c)
    case ReadCertificateRequest => UpToKeyExchange(c)
    case ReadServerHelloDone => UpToRequest(c)
    case SendClientCertificate => UpToHelloDone(c)
    case SendClientKeyExchange => UpToAnswer(c)
    case SendClientCertificateVerify => UpToClientKey(c)
    case SendClientFinished => if c.resumed then ServerFinish(Hellos(c), c) else UpToVerify(c)
    case FinishFlight => if c.resumed then Flow(c) else ClientFinish(UpToVerify(c), c)
    case ReadSessionTicket => BeforeServerFinish(c)
    case ProcessChangeCipherSpec => BeforeServerFinish(c) + Maybe(c.ticket, Server, NewSessionTicket)
    case ReadServerFinished => BeforeServerFinish(c) + Maybe(c.ticket, Server, NewSessionTicket) + [Change(Server)]
    case FinishClientHandshake => Flow(c)
    case Complete => Flow(c)
  }

  function BeforeServerFinish(c: Choices): seq<Step> {
    if c.resumed then Hellos(c) else ClientFinish(UpToVerify(c), c)
  }

  /** How far a state is from the end. Resumption goes backwards through the enumeration, not here. */
  function Rank(state: State, resumed: bool): nat {
    match state
    case StartConnect => 20
    case EnterEarlyData => 19
    case ReadHelloVerifyRequest => 18
    case ReadServerHelloMessage => 17
    case ReadServerCertificate => 16
    case ReadCertificateStatus => 15
    case VerifyServerCertificate => 14
    case ReadServerKeyExchange => 13
    case ReadCertificateRequest => 12
    case ReadServerHelloDone => 11
    case SendClientCertificate => 10
    case SendClientKeyExchange => 9
    case SendClientCertificateVerify => 8
    case ReadSessionTicket => if resumed then 10 else 5
    case ProcessChangeCipherSpec => if resumed then 9 else 4
    case ReadServerFinished => if resumed then 8 else 3
    case SendClientFinished => 7
    case FinishFlight => 6
    case Tls13 => 2
    case FinishClientHandshake => 1
    case Complete => 0
  }

  /** What the client has learnt, or done besides exchanging messages. */
  datatype Known = Known(
    certificateAuth: bool,       // the cipher authenticates the server by certificate
    requiresKeyExchange: bool,   // the key exchange cannot do without a ServerKeyExchange
    statusExpected: bool,        // a CertificateStatus may come
    chain: Option<seq<byte>>,    // the server's Certificate
    chainAccepted: bool,         // it was verified
    hasCertificate: bool,        // the client has shown a certificate
    ticketExpected: bool,
    nextProto: bool,
    channelId: bool)
  {
    /** What the ServerHello has settled. */
    function Agreed(): Offer {
      Offer(certificateAuth, requiresKeyExchange, statusExpected, ticketExpected, nextProto, channelId)
    }

    function Learn(o: Offer): (k: Known)
      ensures k.Agreed() == o && k.chain == chain && k.chainAccepted == chainAccepted
              && k.hasCertificate == hasCertificate
    {
      Known(o.certificateAuth, o.requiresKeyExchange, o.statusExpected, chain, chainAccepted, hasCertificate,
        o.ticketExpected, o.nextProto, o.channelId)
    }
  }

  const NOTHING: Known := Known(false, false, false, None, false, false, false, false, false)

  /** What the client knows is what the messages in the log say. */
  ghost predicate Tied(x: Crypto, log: seq<Event>, k: Known) {
    && k.chain == LastBody(Server, Certificate, log)
    && (k.chainAccepted ==> Accepts(x, Server, log))
    && k.hasCertificate == Shows(x, Client, log)
    && (LastBody(Server, ServerHello, log).Some? ==> k.Agreed() == x.offers(LastBody(Server, ServerHello, log).value))
  }

  /** Steps that Tied does not depend on. */
  predicate Plain(steps: seq<Step>) {
    Msg(Server, Certificate) !in steps && Msg(Client, Certificate) !in steps && Msg(Server, ServerHello) !in steps
  }

  lemma CookieIsPlain()
    ensures Plain([Msg(Server, HelloVerifyRequest), Msg(Client, ClientHello)])
  {
  }

  lemma TiedKept(x: Crypto, a: seq<Event>, b: seq<Event>, steps: seq<Step>, k: Known)
    requires Tied(x, a, k) && Grew(a, b, steps) && Plain(steps)
    ensures Tied(x, b, k)
  {
    hide LastBody, Grew;
    LastBodyKept(Server, Certificate, a, b, steps);
    LastBodyKept(Client, Certificate, a, b, steps);
    LastBodyKept(Server, ServerHello, a, b, steps);
  }

  /** A ServerHello settles what it says. */
  lemma TiedByHello(x: Crypto, a: seq<Event>, m: Message, k: Known)
    requires Tied(x, a, k) && m.kind == ServerHello
    ensures Tied(x, a + [Sent(Server, m)], k.Learn(x.offers(m.body)))
  {
    hide LastBody;
    GrewByOne(a, Sent(Server, m));
    LastBodyKept(Server, Certificate, a, a + [Sent(Server, m)], [Msg(Server, ServerHello)]);
    LastBodyKept(Client, Certificate, a, a + [Sent(Server, m)], [Msg(Server, ServerHello)]);
    LastBodyOfNext(Server, m, a);
  }

  /** The server shows its chain, which has not been looked at yet. */
  lemma TiedByChain(x: Crypto, a: seq<Event>, m: Message, k: Known)
    requires Tied(x, a, k) && m.kind == Certificate
    ensures Tied(x, a + [Sent(Server, m)], k.(chain := Some(m.body), chainAccepted := false))
  {
    hide LastBody;
    GrewByOne(a, Sent(Server, m));
    LastBodyKept(Server, ServerHello, a, a + [Sent(Server, m)], [Msg(Server, Certificate)]);
    LastBodyKept(Client, Certificate, a, a + [Sent(Server, m)], [Msg(Server, Certificate)]);
    LastBodyOfNext(Server, m, a);
  }

  /** The verdict on the chain that was shown. */
  lemma TiedByVerdict(x: Crypto, log: seq<Event>, k: Known)
    requires Tied(x, log, k) && (k.certificateAuth ==> k.chain.Some? && x.accepts(k.chain.value))
    ensures Tied(x, log, k.(chainAccepted := k.certificateAuth))
  {
    hide LastBody;
  }

  /** The client shows its own. */
  lemma TiedByAnswer(x: Crypto, a: seq<Event>, m: Message, k: Known)
    requires Tied(x, a, k) && m.kind == Certificate
    ensures Tied(x, a + [Sent(Client, m)], k.(hasCertificate := x.nonEmpty(m.body)))
  {
    hide LastBody;
    GrewByOne(a, Sent(Client, m));
    LastBodyKept(Server, ServerHello, a, a + [Sent(Client, m)], [Msg(Client, Certificate)]);
    LastBodyKept(Server, Certificate, a, a + [Sent(Client, m)], [Msg(Client, Certificate)]);
    LastBodyOfNext(Client, m, a);
  }

  /** Everything that decides how the client goes on. */
  datatype View = View(
    state: State,
    c: Choices,
    k: Known,
    buffered: bool,              // the transcript buffer is there
    hashed: bool)                // the transcript hash is running
  {
    /** What has been settled by the time each state is reached. */
    predicate Settled(dtls: bool) {
      var far := Rank(state, false);
      if far >= 17 then
        && buffered
        && (state != ReadServerHelloMessage ==> !c.cookie && !c.early)
        && (state == ReadServerHelloMessage ==> !(c.cookie && c.early))
        && (state == ReadHelloVerifyRequest ==> dtls)
      else
        && hashed && !c.early && Negotiated(Rank(state, c.resumed))
        && (k.statusExpected ==> k.certificateAuth)
        && (if c.resumed then far <= 7 else SettledInFull(far))
    }

    /** What was negotiated goes out and comes in, in either kind of handshake, by the distance from its end. */
    predicate Negotiated(rank: nat) {
      state != Tls13 ==>
        && (rank <= (if c.resumed then 9 else 4) ==> c.ticket == k.ticketExpected)
        && (rank <= 6 ==> c.nextProto == k.nextProto && c.channelId == k.channelId)
    }

    /** The same for a full handshake, by the distance from its end. */
    predicate SettledInFull(rank: nat) {
      && (rank >= 12 && k.certificateAuth ==> buffered)
      && (rank <= 15 ==> c.certificate == k.certificateAuth)
      && (rank <= 14 ==> (c.status ==> c.certificate && k.statusExpected))
      && (rank <= 13 ==> (k.certificateAuth ==> k.chainAccepted))
      && (rank <= 12 ==> (k.requiresKeyExchange ==> c.keyExchange))
      && (rank <= 11 ==> (c.request ==> k.certificateAuth))
      && (10 <= rank <= 11 && c.request ==> buffered)
      && (rank <= 9 ==> c.answer == c.request)
      && (8 <= rank <= 9 && c.request && k.hasCertificate ==> buffered)
      && (rank <= 7 ==> c.verify == (c.request && k.hasCertificate))
    }

    predicate Ok(dtls: bool, shape: seq<Step>) {
      state != Tls13 && Settled(dtls) && shape == Expected(state, c)
    }
  }

  /** The client and all that a step could leave a trace in. */
  datatype Snapshot = Snapshot(
    v: View, log: seq<Event>, inbox: seq<Message>, received: seq<Message>, all: seq<byte>, tls13: bool, refused: nat)

  /** What a client cannot go on from: in front of it is a message that is out of its turn, a ServerHello that
      contradicts itself or does not know of early data, or a Finished that does not fit; or it has no chain that
      it accepts. */
  ghost predicate Misplaced(x: Crypto, s: Snapshot) {
    var k := s.v.k;
    match s.v.state
    case VerifyServerCertificate => k.certificateAuth && (k.chain == None || !x.accepts(k.chain.value))
    case _ =>
      s.inbox != [] &&
      var m := s.inbox[0];
      match s.v.state
      case ReadServerHelloMessage =>
        || m.kind != ServerHello || s.v.c.early
        || (x.offers(m.body).statusExpected && !x.offers(m.body).certificateAuth)
      case ReadServerCertificate => k.certificateAuth && m.kind != Certificate
      case ReadServerKeyExchange => k.requiresKeyExchange && m.kind != ServerKeyExchange
      case ReadCertificateRequest => k.certificateAuth && m.kind !in {CertificateRequest, ServerHelloDone}
      case ReadServerHelloDone => m.kind != ServerHelloDone
      case ReadSessionTicket => k.ticketExpected && m.kind != NewSessionTicket
      case ReadServerFinished => m.kind != Finished || m.body != x.mac(Server, s.all)
      case _ => false
  }

  /** From v to w, with these steps in between, everything stays as it should and the end comes nearer. */
  predicate Leads(v: View, w: View, dtls: bool, steps: seq<Step>) {
    && Rank(w.state, w.c.resumed) < Rank(v.state, v.c.resumed)
    && (v.Settled(dtls) ==>
          w.Settled(dtls) && w.state != Tls13 && Expected(w.state, w.c) == Expected(v.state, v.c) + steps)
  }

  // The edges of the machine.

  lemma StartEdge(v: View, dtls: bool)
    requires v.state == StartConnect
    ensures Leads(v, v.(state := EnterEarlyData), dtls, [Msg(Client, ClientHello)])
  {
    hide FirstHello, Hellos, Flow, BeforeServerFinish;
  }

  lemma EarlyDataEdges(v: View, dtls: bool)
    requires v.state == EnterEarlyData
    ensures dtls ==> Leads(v, v.(state := ReadHelloVerifyRequest), dtls, [])
    ensures Leads(v, v.(state := ReadServerHelloMessage), dtls, [])
    ensures !dtls ==> Leads(v, v.(state := ReadServerHelloMessage, c := v.c.(early := true)), dtls, [Change(Client)])
  {
    hide Hellos, Flow, BeforeServerFinish;
  }

  lemma NoCookieEdge(v: View, dtls: bool)
    requires v.state == ReadHelloVerifyRequest
    ensures Leads(v, v.(state := ReadServerHelloMessage), dtls, [])
  {
    hide FirstHello, Hellos, Flow, BeforeServerFinish;
    FirstHelloOf(v.c);
  }

  lemma CookieEdge(v: View, dtls: bool)
    requires v.state == ReadHelloVerifyRequest
    ensures Leads(v, v.(state := ReadServerHelloMessage, c := v.c.(cookie := true), buffered := true, hashed := false),
                  dtls, [Msg(Server, HelloVerifyRequest), Msg(Client, ClientHello)])
  {
    hide FirstHello, Hellos, Flow, BeforeServerFinish;
    FirstHelloOf(v.c);
    FirstHelloOf(v.c.(cookie := true));
  }

  lemma FirstHelloOf(c: Choices)
    ensures !c.early && !c.cookie ==> FirstHello(c) == [Msg(Client, ClientHello)]
    ensures !c.early && c.cookie ==>
              FirstHello(c) == [Msg(Client, ClientHello)] + [Msg(Server, HelloVerifyRequest), Msg(Client, ClientHello)]
  {
    var none: seq<Step> := [];
    assert [Msg(Client, ClientHello)] + none == [Msg(Client, ClientHello)];
  }

  lemma ResumeShape(c: Choices)
    ensures Expected(ReadSessionTicket, c.(resumed := true)) == Expected(ReadServerHelloMessage, c)
            + [Msg(Server, ServerHello)]
  {
    hide FirstHello, UpToVerify, ClientFinish;
    SameHellos(c, c.(resumed := true));
  }

  lemma ResumeEdge(v: View, k: Known, dtls: bool)
    requires v.state == ReadServerHelloMessage && !v.c.early && (k.statusExpected ==> k.certificateAuth)
    ensures Leads(v, View(ReadSessionTicket, v.c.(resumed := true), k, false, true), dtls, [Msg(Server, ServerHello)])
  {
    hide Expected, View.SettledInFull;
    ResumeShape(v.c);
  }

  lemma FullShape(c: Choices)
    ensures Expected(ReadServerCertificate, c.(resumed := false)) == Expected(ReadServerHelloMessage, c)
            + [Msg(Server, ServerHello)]
  {
    hide FirstHello;
    SameHellos(c, c.(resumed := false));
  }

  lemma FullSettled(c: Choices, k: Known, buffered: bool, dtls: bool)
    requires !c.early && !c.resumed && (k.statusExpected ==> k.certificateAuth) && buffered == k.certificateAuth
    ensures View(ReadServerCertificate, c, k, buffered, true).Settled(dtls)
  {
  }

  lemma FullEdge(v: View, k: Known, buffered: bool, dtls: bool)
    requires v.state == ReadServerHelloMessage && !v.c.early && (k.statusExpected ==> k.certificateAuth)
             && buffered == k.certificateAuth
    ensures Leads(v, View(ReadServerCertificate, v.c.(resumed := false), k, buffered, true), dtls,
            [Msg(Server, ServerHello)])
  {
    hide Expected, View.Settled;
    FullSettled(v.c.(resumed := false), k, buffered, dtls);
    FullShape(v.c);
  }

  lemma NoCertificateEdge(v: View, dtls: bool)
    requires v.state == ReadServerCertificate && !v.k.certificateAuth
    ensures Leads(v, v.(state := ReadCertificateStatus, c := v.c.(certificate := false)), dtls, [])
  {
    hide Hellos, UpToStatus, Flow, BeforeServerFinish, FirstHello;
    SameHellos(v.c, v.c.(certificate := false));
  }

  lemma TakeCertificateEdge(v: View, chain: Option<seq<byte>>, dtls: bool)
    requires v.state == ReadServerCertificate && v.k.certificateAuth
    ensures Leads(v, v.(state := ReadCertificateStatus, c := v.c.(certificate := true),
                        k := v.k.(chain := chain, chainAccepted := false)), dtls, [Msg(Server, Certificate)])
  {
    hide Hellos, UpToStatus, Flow, BeforeServerFinish, FirstHello;
    SameHellos(v.c, v.c.(certificate := true));
  }

  lemma NoStatusEdge(v: View, dtls: bool)
    requires v.state == ReadCertificateStatus
    ensures Leads(v, v.(state := VerifyServerCertificate, c := v.c.(status := false)), dtls, [])
  {
    hide UpToCertificate, UpToKeyExchange, Flow, BeforeServerFinish, FirstHello;
    SameToCertificate(v.c, v.c.(status := false));
  }

  lemma TakeStatusEdge(v: View, dtls: bool)
    requires v.state == ReadCertificateStatus && v.k.statusExpected
    ensures Leads(v, v.(state := VerifyServerCertificate, c := v.c.(status := true)), dtls,
            [Msg(Server, CertificateStatus)])
  {
    hide UpToCertificate, UpToKeyExchange, Flow, BeforeServerFinish, FirstHello;
    SameToCertificate(v.c, v.c.(status := true));
  }

  lemma VerifyEdge(v: View, dtls: bool)
    requires v.state == VerifyServerCertificate
    ensures Leads(v, v.(state := ReadServerKeyExchange, k := v.k.(chainAccepted := v.k.certificateAuth)), dtls, [])
  {
    hide UpToStatus, UpToKeyExchange, Flow, BeforeServerFinish, FirstHello;
  }

  lemma NoKeyExchangeEdge(v: View, dtls: bool)
    requires v.state == ReadServerKeyExchange && !v.k.requiresKeyExchange
    ensures Leads(v, v.(state := ReadCertificateRequest, c := v.c.(keyExchange := false)), dtls, [])
  {
    hide UpToStatus, UpToRequest, Flow, BeforeServerFinish, FirstHello;
    SameToStatus(v.c, v.c.(keyExchange := false));
  }

  lemma TakeKeyExchangeEdge(v: View, dtls: bool)
    requires v.state == ReadServerKeyExchange
    ensures Leads(v, v.(state := ReadCertificateRequest, c := v.c.(keyExchange := true)), dtls,
            [Msg(Server, ServerKeyExchange)])
  {
    hide UpToStatus, UpToRequest, Flow, BeforeServerFinish, FirstHello;
    SameToStatus(v.c, v.c.(keyExchange := true));
  }

  lemma NoRequestEdge(v: View, buffered: bool, dtls: bool)
    requires v.state == ReadCertificateRequest
    ensures Leads(v, v.(state := ReadServerHelloDone, c := v.c.(request := false), buffered := buffered), dtls, [])
  {
    hide UpToKeyExchange, UpToHelloDone, Flow, BeforeServerFinish, FirstHello;
    SameToKeyExchange(v.c, v.c.(request := false));
  }

  lemma RequestShape(c: Choices, request: bool)
    ensures Expected(ReadServerHelloDone, c.(request := request))
         == Expected(ReadCertificateRequest, c) + Maybe(request, Server, CertificateRequest)
  {
    hide UpToKeyExchange;
    SameToKeyExchange(c, c.(request := request));
  }

  lemma TakeRequestEdge(v: View, dtls: bool)
    requires v.state == ReadCertificateRequest && v.k.certificateAuth
    ensures Leads(v, v.(state := ReadServerHelloDone, c := v.c.(request := true)), dtls,
            [Msg(Server, CertificateRequest)])
  {
    hide Expected;
    RequestShape(v.c, true);
  }

  lemma HelloDoneEdge(v: View, dtls: bool)
    requires v.state == ReadServerHelloDone
    ensures Leads(v, v.(state := SendClientCertificate), dtls, [Msg(Server, ServerHelloDone)])
  {
    hide UpToRequest, UpToAnswer, Flow, BeforeServerFinish, FirstHello;
  }

  lemma AnswerShape(c: Choices, answer: bool)
    ensures Expected(SendClientKeyExchange, c.(answer := answer))
         == Expected(SendClientCertificate, c) + Maybe(answer, Client, Certificate)
  {
    hide UpToHelloDone;
    SameToHelloDone(c, c.(answer := answer));
  }

  lemma NoAnswerEdge(v: View, dtls: bool)
    requires v.state == SendClientCertificate && !v.c.request
    ensures Leads(v, v.(state := SendClientKeyExchange, c := v.c.(answer := false)), dtls, [])
  {
    hide Expected;
    AnswerShape(v.c, false);
  }

  lemma AnswerEdge(v: View, has: bool, buffered: bool, dtls: bool)
    requires v.state == SendClientCertificate && v.c.request && (has ==> buffered == v.buffered)
    ensures Leads(v, v.(state := SendClientKeyExchange, c := v.c.(answer := true), k := v.k.(hasCertificate := has),
                        buffered := buffered), dtls, [Msg(Client, Certificate)])
  {
    hide Expected;
    AnswerShape(v.c, true);
  }

  lemma ClientKeyEdge(v: View, dtls: bool)
    requires v.state == SendClientKeyExchange
    ensures Leads(v, v.(state := SendClientCertificateVerify), dtls, [Msg(Client, ClientKeyExchange)])
  {
    hide UpToAnswer, UpToVerify, Flow, BeforeServerFinish, FirstHello;
  }

  lemma VerifyShape(c: Choices, verify: bool)
    requires !c.resumed
    ensures Expected(SendClientFinished, c.(verify := verify))
         == Expected(SendClientCertificateVerify, c) + Maybe(verify, Client, CertificateVerify)
  {
    hide UpToClientKey;
    SameToClientKey(c, c.(verify := verify));
  }

  lemma NoSignatureEdge(v: View, dtls: bool)
    requires v.state == SendClientCertificateVerify && !(v.c.request && v.k.hasCertificate)
    ensures Leads(v, v.(state := SendClientFinished, c := v.c.(verify := false)), dtls, [])
  {
    hide Expected;
    if !v.c.resumed {
      VerifyShape(v.c, false);
    }
  }

  lemma SignEdge(v: View, dtls: bool)
    requires v.state == SendClientCertificateVerify && v.c.request && v.k.hasCertificate
    ensures Leads(v, v.(state := SendClientFinished, c := v.c.(verify := true), buffered := false), dtls,
            [Msg(Client, CertificateVerify)])
  {
    hide Expected;
    if !v.c.resumed {
      VerifyShape(v.c, true);
    }
  }

  lemma SameServerFinish(before: seq<Step>, c: Choices, d: Choices)
    requires c.ticket == d.ticket
    ensures ServerFinish(before, c) == ServerFinish(before, d)
  {
  }

  lemma ClientFinishOf(before: seq<Step>, c: Choices)
    ensures ClientFinish(before, c) == before + [Change(Client)] + Maybe(c.nextProto, Client, NextProto)
            + Maybe(c.channelId, Client, ChannelId) + [Msg(Client, Finished)]
  {
  }

  lemma ResumedFinishShape(c: Choices, nextProto: bool, channelId: bool)
    requires c.resumed
    ensures Expected(FinishFlight, c.(nextProto := nextProto, channelId := channelId))
         == Expected(SendClientFinished, c) + ([Change(Client)] + Maybe(nextProto, Client, NextProto)
            + Maybe(channelId, Client, ChannelId) + [Msg(Client, Finished)])
  {
    hide UpToVerify, Hellos, FirstHello, Maybe, ServerFinish, ClientFinish, BeforeServerFinish;
    var d := c.(nextProto := nextProto, channelId := channelId);
    SameHellos(c, d);
    SameServerFinish(Hellos(c), c, d);
    ClientFinishOf(ServerFinish(Hellos(c), c), d);
    Associate(ServerFinish(Hellos(c), c), [Change(Client)], Maybe(nextProto, Client, NextProto),
              Maybe(channelId, Client, ChannelId), [Msg(Client, Finished)]);
  }

  lemma FullFinishShape(c: Choices, nextProto: bool, channelId: bool)
    requires !c.resumed
    ensures Expected(FinishFlight, c.(nextProto := nextProto, channelId := channelId))
         == Expected(SendClientFinished, c) + ([Change(Client)] + Maybe(nextProto, Client, NextProto)
            + Maybe(channelId, Client, ChannelId) + [Msg(Client, Finished)])
  {
    hide UpToVerify, Hellos, FirstHello, Maybe, ServerFinish, ClientFinish, BeforeServerFinish, Flow;
    var d := c.(nextProto := nextProto, channelId := channelId);
    SameToVerify(c, d);
    ClientFinishOf(UpToVerify(c), d);
    Associate(UpToVerify(c), [Change(Client)], Maybe(nextProto, Client, NextProto),
              Maybe(channelId, Client, ChannelId), [Msg(Client, Finished)]);
  }

  lemma Associate(p: seq<Step>, q: seq<Step>, r: seq<Step>, s: seq<Step>, t: seq<Step>)
    ensures p + q + r + s + t == p + (q + r + s + t)
  {
  }

  /** The client's last messages. */
  function LastFlight(k: Known): seq<Step> {
    [Change(Client)] + Maybe(k.nextProto, Client, NextProto) + Maybe(k.channelId, Client, ChannelId)
        + [Msg(Client, Finished)]
  }

  lemma LastFlightIsPlain(k: Known)
    ensures Plain(LastFlight(k)) && LastFlight(k) != []
  {
  }

  lemma FinishEdge(v: View, dtls: bool)
    requires v.state == SendClientFinished
    ensures Leads(v, v.(state := FinishFlight, c := v.c.(nextProto := v.k.nextProto, channelId := v.k.channelId)), dtls,
                  LastFlight(v.k))
  {
    hide Expected, Maybe;
    if v.c.resumed {
      ResumedFinishShape(v.c, v.k.nextProto, v.k.channelId);
    } else {
      FullFinishShape(v.c, v.k.nextProto, v.k.channelId);
    }
  }

  lemma ResumedFlightEdge(v: View, dtls: bool)
    requires v.state == FinishFlight && v.c.resumed
    ensures Leads(v, v.(state := FinishClientHandshake), dtls, [])
  {
    hide UpToVerify, Hellos, FirstHello, Flow, ClientFinish;
  }

  lemma FullFlightEdge(v: View, dtls: bool)
    requires v.state == FinishFlight && !v.c.resumed
    ensures Leads(v, v.(state := ReadSessionTicket), dtls, [])
  {
    hide UpToVerify, Hellos, FirstHello, Flow, ClientFinish;
  }

  lemma TicketShape(c: Choices, ticket: bool)
    ensures Expected(ProcessChangeCipherSpec, c.(ticket := ticket))
         == Expected(ReadSessionTicket, c) + Maybe(ticket, Server, NewSessionTicket)
  {
    hide UpToVerify, Hellos, FirstHello, Maybe;
    SameToVerify(c, c.(ticket := ticket));
    SameHellos(c, c.(ticket := ticket));
  }

  lemma NoTicketEdge(v: View, dtls: bool)
    requires v.state == ReadSessionTicket && !v.k.ticketExpected
    ensures Leads(v, v.(state := ProcessChangeCipherSpec, c := v.c.(ticket := false)), dtls, [])
  {
    hide Expected;
    TicketShape(v.c, false);
  }

  lemma TakeTicketEdge(v: View, dtls: bool)
    requires v.state == ReadSessionTicket && v.k.ticketExpected
    ensures Leads(v, v.(state := ProcessChangeCipherSpec, c := v.c.(ticket := true)), dtls,
            [Msg(Server, NewSessionTicket)])
  {
    hide Expected;
    TicketShape(v.c, true);
  }

  lemma ChangeEdge(v: View, dtls: bool)
    requires v.state == ProcessChangeCipherSpec
    ensures Leads(v, v.(state := ReadServerFinished), dtls, [Change(Server)])
  {
    hide BeforeServerFinish, FirstHello, Hellos, UpToVerify, Flow, Maybe;
  }

  lemma ResumedFinishedEdge(v: View, dtls: bool)
    requires v.state == ReadServerFinished && v.c.resumed
    ensures Leads(v, v.(state := SendClientFinished), dtls, [Msg(Server, Finished)])
  {
    hide FirstHello, Hellos, UpToVerify, Maybe, ClientFinish;
  }

  lemma FullFinishedEdge(v: View, dtls: bool)
    requires v.state == ReadServerFinished && !v.c.resumed
    ensures Leads(v, v.(state := FinishClientHandshake), dtls, [Msg(Server, Finished)])
  {
    hide FirstHello, Hellos, UpToVerify, Maybe, ClientFinish;
  }

  lemma LastEdge(v: View, dtls: bool)
    requires v.state == FinishClientHandshake
    ensures Leads(v, v.(state := Complete), dtls, [])
  {
    hide FirstHello, Flow, BeforeServerFinish, Hellos, UpToVerify;
  }

  /** The states that take a message. */
  predicate Reads(state: State) {
    state in {ReadHelloVerifyRequest, ReadServerHelloMessage, ReadServerCertificate, ReadCertificateStatus,
              ReadServerKeyExchange, ReadCertificateRequest, ReadServerHelloDone, ReadSessionTicket, ReadServerFinished}
  }

  class Machine {
    const hs: Handshake
    var state: State
    var k: Known
    var tls13: bool
    ghost var refused: nat        // how often code outside this model has refused something

    function Now(): View
      reads this, hs, hs.transcript
    {
      View(state, hs.choices, k, hs.transcript.buffer.Some?, hs.transcript.hash.Some?)
    }

    ghost predicate Valid()
      reads this, hs, hs.transcript
    {
      && hs.side == Client
      && if tls13 then state in {Tls13, FinishClientHandshake, Complete}
         else hs.Valid() && Now().Ok(hs.dtls, Shape(hs.log)) && Tied(hs.crypto, hs.log, k) && Answered()
    }

    /** A datagram client that waits for a ServerHello without having been asked for a cookie has an answer before
        it, and it is not the question. */
    ghost predicate Answered()
      reads this, hs
    {
      hs.dtls && state == ReadServerHelloMessage && !hs.choices.cookie ==>
        hs.inbox != [] && hs.inbox[0].kind != HelloVerifyRequest
    }

    /** The kind of the message in front. */
    function Head(): Option<Kind>
      reads hs
    {
      if hs.inbox == [] then None else Some(hs.inbox[0].kind)
    }

    ghost function Seen(): Snapshot
      reads this, hs, hs.transcript
    {
      Snapshot(Now(), hs.log, hs.inbox, hs.received, hs.transcript.all, tls13, refused)
    }

    /** What is asked for is needed: a message only when none is there and this state takes one, a flush
        only when something was added to a log this long, a ChangeCipherSpec only when it is due. */
    ghost predicate Asks(r: Wait, before: nat)
      reads this, hs
    {
      tls13 || match r
        case ReadMessage => hs.inbox == [] && Reads(state)
        case ReadServerHello => hs.inbox == [] && Reads(state)
        case ReadChangeCipherSpec => state == ProcessChangeCipherSpec
        case Flush => before < |hs.log|
        case _ => true
    }

    /** What each step of the machine promises, whatever it met: the order kept, progress when it goes
        on, no trace when it has to be tried again, and an error only for a reason. */
    ghost predicate Stepped(r: Wait, was: Snapshot)
      reads this, hs, hs.transcript
    {
      if r == Error then refused > was.refused || Misplaced(hs.crypto, was)
      else
        && Valid() && was.log <= hs.log
        && (state == was.v.state ==> r != Done && Seen() == was)
        && (state != was.v.state ==> Rank(state, hs.choices.resumed) < Rank(was.v.state, was.v.c.resumed))
        && Asks(r, |was.log|) && hs.received == was.received && (was.tls13 ==> tls13)
    }

    constructor (dtls: bool, crypto: Crypto)
      ensures Valid() && state == StartConnect && fresh(hs) && fresh(hs.transcript) && hs.dtls == dtls
              && hs.crypto == crypto
    {
      hs := new Handshake(Client, dtls, crypto);
      state := StartConnect;
      k, tls13, refused := NOTHING, false, 0;
    }

    /** What code outside this model decides: whether it succeeds, and the body of a message. */
    method Choose() returns (ok: bool, body: seq<byte>)
      modifies this`refused
      ensures refused == old(refused) + if ok then 0 else 1
      ensures old(Valid()) ==> Valid()
    {
      hide Handshake.Valid, View.Ok, Shape, Tied;
      ok := *;
      body := *;
      refused := refused + if ok then 0 else 1;
    }

    /** The message in front is hashed and released, and decides this, unless its contents are refused. */
    method Take(c: Choices) returns (ok: bool)
      requires hs.Valid() && hs.inbox != [] && hs.inbox[0].kind !in {Finished, CertificateVerify}
               && c.cookie == hs.choices.cookie
      modifies this`refused, hs`inbox, hs`log, hs`choices, hs.transcript
      ensures refused == old(refused) + if ok then 0 else 1
      ensures ok ==>
                && hs.Valid() && hs.choices == c
                && Grew(old(hs.log), hs.log, [Msg(hs.side.Other(), old(hs.inbox)[0].kind)])
                && hs.log == old(hs.log) + [Sent(hs.side.Other(), old(hs.inbox)[0])]
                && hs.inbox == old(hs.inbox)[1..]
                && hs.transcript.buffer.Some? == old(hs.transcript.buffer.Some?)
                && hs.transcript.hash.Some? == old(hs.transcript.hash.Some?)
    {
      hide Handshake.Valid, Valid, Grew;
      var body;
      ok, body := Choose();
      if ok {
        hs.HashAndRelease(c);
      }
    }

    // The ways a step ends.

    lemma Inside()
      requires Valid() && state !in {Tls13, FinishClientHandshake, Complete}
      ensures !tls13 && hs.side == Client && hs.Valid() && Now().Ok(hs.dtls, Shape(hs.log))
              && Tied(hs.crypto, hs.log, k) && Answered()
    {
    }

    lemma Again(r: Wait)
      requires Valid() && r !in {Done, Error, ReadMessage, ReadServerHello, ReadChangeCipherSpec, Flush}
      ensures Stepped(r, Seen())
    {
    }

    lemma Awaits(r: Wait)
      requires Valid() && r in {ReadMessage, ReadServerHello} && hs.inbox == [] && Reads(state)
      ensures Stepped(r, Seen())
    {
    }

    lemma Failed(was: Snapshot)
      requires refused > was.refused || Misplaced(hs.crypto, was)
      ensures Stepped(Error, was)
    {
    }

    /** A step that changes nothing the client knows. */
    lemma Moved(was: Snapshot, steps: seq<Step>, r: Wait)
      requires !tls13 && hs.side == Client && hs.Valid() && Grew(was.log, hs.log, steps)
      requires was.v.Ok(hs.dtls, Shape(was.log)) && Leads(was.v, Now(), hs.dtls, steps) && state != was.v.state
      requires r !in {Error, ReadMessage, ReadServerHello} && (r == Flush ==> steps != []) && Answered()
      requires r == ReadChangeCipherSpec ==> state == ProcessChangeCipherSpec
      requires Tied(hs.crypto, was.log, was.v.k) && k == was.v.k && Plain(steps)
      requires hs.received == was.received && !was.tls13
      ensures Stepped(r, was)
    {
      hide Stepped, Leads, Tied, View.Ok, Grew, Handshake.Valid;
      TiedKept(hs.crypto, was.log, hs.log, steps, k);
      MovedAndLearnt(was, steps, r);
    }

    /** The same for a step that adds nothing to the log, and for one that adds one event. */
    lemma Silent(was: Snapshot, r: Wait)
      requires !tls13 && hs.side == Client && hs.Valid() && hs.log == was.log
      requires was.v.Ok(hs.dtls, Shape(was.log)) && Leads(was.v, Now(), hs.dtls, []) && state != was.v.state
      requires r !in {Error, ReadMessage, ReadServerHello, Flush} && Answered()
      requires r == ReadChangeCipherSpec ==> state == ProcessChangeCipherSpec
      requires Tied(hs.crypto, was.log, was.v.k) && k == was.v.k && hs.received == was.received && !was.tls13
      ensures Stepped(r, was)
    {
      hide Stepped, Leads, Tied, View.Ok, Grew, Handshake.Valid;
      GrewByNothing(hs.log);
      Moved(was, [], r);
    }

    lemma MovedBy(was: Snapshot, step: Step, r: Wait)
      requires !tls13 && hs.side == Client && hs.Valid() && Grew(was.log, hs.log, [step])
      requires was.v.Ok(hs.dtls, Shape(was.log)) && Leads(was.v, Now(), hs.dtls, [step]) && state != was.v.state
      requires step !in {Msg(Server, Certificate), Msg(Client, Certificate), Msg(Server, ServerHello)}
      requires r !in {Error, ReadMessage, ReadServerHello} && Answered()
      requires r == ReadChangeCipherSpec ==> state == ProcessChangeCipherSpec
      requires Tied(hs.crypto, was.log, was.v.k) && k == was.v.k && hs.received == was.received && !was.tls13
      ensures Stepped(r, was)
    {
      hide Stepped, Leads, Tied, View.Ok, Grew, Handshake.Valid;
      Moved(was, [step], r);
    }

    /** One event has been added to the log, and with it the next state is entered. */
    method Enter(ghost was: Snapshot, next: State, ghost w: View, ghost step: Step, ghost r: Wait)
      requires !tls13 && hs.side == Client && hs.Valid() && Grew(was.log, hs.log, [step])
      requires step !in {Msg(Server, Certificate), Msg(Client, Certificate), Msg(Server, ServerHello)}
      requires was.v.Ok(hs.dtls, Shape(was.log)) && Leads(was.v, w, hs.dtls, [step])
      requires w == View(next, hs.choices, k, hs.transcript.buffer.Some?, hs.transcript.hash.Some?)
      requires next != was.v.state && r !in {Error, ReadMessage, ReadServerHello}
      requires next == ReadServerHelloMessage ==> !hs.dtls
      requires r == ReadChangeCipherSpec ==> next == ProcessChangeCipherSpec
      requires Tied(hs.crypto, was.log, was.v.k) && k == was.v.k && hs.received == was.received && !was.tls13
      modifies this`state
      ensures Stepped(r, was) && state == next
    {
      hide Stepped, Leads, Tied, View.Ok, Grew, Handshake.Valid;
      state := next;
      MovedBy(was, step, r);
    }

    lemma MovedAndLearnt(was: Snapshot, steps: seq<Step>, r: Wait)
      requires !tls13 && hs.side == Client && hs.Valid() && Grew(was.log, hs.log, steps)
      requires Tied(hs.crypto, hs.log, k) && hs.received == was.received && !was.tls13
      requires was.v.Ok(hs.dtls, Shape(was.log)) && Leads(was.v, Now(), hs.dtls, steps) && state != was.v.state
      requires r !in {Error, ReadMessage, ReadServerHello} && (r == Flush ==> steps != []) && Answered()
      requires r == ReadChangeCipherSpec ==> state == ProcessChangeCipherSpec
      ensures Stepped(r, was)
    {
    }

    lemma NoCookieYet(v: View, dtls: bool, shape: seq<Step>)
      requires v.state == ReadHelloVerifyRequest && v.Ok(dtls, shape)
      ensures !v.c.cookie && shape == [Msg(Client, ClientHello)]
    {
    }

    lemma BufferYet(v: View, dtls: bool, shape: seq<Step>)
      requires v.state == ReadServerHelloMessage && v.Ok(dtls, shape)
      ensures v.buffered
    {
    }

    lemma HashedYet(v: View, dtls: bool, shape: seq<Step>)
      requires v.state !in {StartConnect, EnterEarlyData, ReadHelloVerifyRequest, ReadServerHelloMessage}
               && v.Ok(dtls, shape)
      ensures v.hashed
    {
    }

    lemma BufferForSigning(v: View, dtls: bool, shape: seq<Step>)
      requires v.state == SendClientCertificateVerify && v.c.request && v.k.hasCertificate && v.Ok(dtls, shape)
      ensures v.buffered
    {
    }

    method DoStartConnect() returns (r: Wait)
      requires Valid() && state == StartConnect
      modifies this, hs, hs.transcript
      ensures Stepped(r, old(Seen()))
      ensures r != Error ==> r == Flush && state == EnterEarlyData
    {
      hide Valid, Stepped, Leads, Handshake.Valid, View.Ok, Shape, Grew, Tied, Asks, Rank,
        Expected, LastBody, Known.Learn, Known.Agreed, Plain;
      Inside();
      ghost var was := Seen();
      var ok, body := Choose();
      if !ok {
        Failed(was);
        return Error;
      }
      var m := Handshake.NewMessage(ClientHello, body);
      hs.AddMessage(m);
      StartEdge(was.v, hs.dtls);
      Enter(was, EnterEarlyData, was.v.(state := EnterEarlyData), Msg(Client, ClientHello), Flush);
      return Flush;
    }

    method DoEnterEarlyData() returns (r: Wait)
      requires Valid() && state == EnterEarlyData
      modifies this, hs, hs.transcript
      ensures Stepped(r, old(Seen()))
      ensures hs.dtls ==> r == Done && state == ReadHelloVerifyRequest
      ensures !hs.dtls && r != Error ==>
                && state == ReadServerHelloMessage && r in {Done, EarlyReturn}
                && hs.choices == if r == Done then old(hs.choices) else old(hs.choices).(early := true)
    {
      hide Valid, Stepped, Leads, Handshake.Valid, View.Ok, Shape, Grew, Tied, Asks, Rank,
        Expected, LastBody, Known.Learn, Known.Agreed, Plain;
      Inside();
      ghost var was := Seen();
      EarlyDataEdges(was.v, hs.dtls);
      if hs.dtls {
        state := ReadHelloVerifyRequest;
        assert Now() == was.v.(state := ReadHelloVerifyRequest);
        Silent(was, Done);
        return Done;
      }
      var offered: bool := *;
      if offered {
        r := OfferEarlyData();
        return;
      }
      state := ReadServerHelloMessage;
      assert Now() == was.v.(state := ReadServerHelloMessage);
      Silent(was, Done);
      return Done;
    }

    method OfferEarlyData() returns (r: Wait)
      requires Valid() && state == EnterEarlyData && !hs.dtls
      modifies this, hs, hs.transcript
      ensures Stepped(r, old(Seen()))
      ensures r != Error ==>
                r == EarlyReturn && state == ReadServerHelloMessage && hs.choices == old(hs.choices).(early := true)
    {
      hide Valid, Stepped, Leads, Handshake.Valid, View.Ok, Shape, Grew, Tied, Asks, Rank,
        Expected, LastBody, Known.Learn, Known.Agreed, Plain, Misplaced;
      Inside();
      ghost var was := Seen();
      var ok, _ := Choose();
      if !ok {
        Failed(was);
        return Error;
      }
      hs.AddCcs(Client);
      hs.Decide(hs.choices.(early := true));
      EarlyDataEdges(was.v, hs.dtls);
      Enter(was, ReadServerHelloMessage, was.v.(state := ReadServerHelloMessage, c := was.v.c.(early := true)),
            Change(Client), EarlyReturn);
      return EarlyReturn;
    }

    method DoReadHelloVerifyRequest() returns (r: Wait)
      requires Valid() && state == ReadHelloVerifyRequest
      modifies this, hs, hs.transcript
      ensures Stepped(r, old(Seen()))
      ensures old(Head()) == None ==> r == ReadMessage
      ensures old(Head()) == Some(HelloVerifyRequest) && r != Error ==>
                r == Flush && state == ReadServerHelloMessage && hs.choices.cookie
      ensures old(Head()) !in {None, Some(HelloVerifyRequest)} ==>
                r == Done && state == ReadServerHelloMessage && hs.choices == old(hs.choices)
    {
      hide Valid, Stepped, Leads, Handshake.Valid, View.Ok, Shape, Grew, Tied, Asks, Rank,
        Expected, LastBody, Known.Learn, Known.Agreed, Plain;
      Inside();
      ghost var was := Seen();
      if hs.inbox == [] {
        Awaits(ReadMessage);
        return ReadMessage;
      }
      if hs.inbox[0].kind == HelloVerifyRequest {
        r := AnswerCookie();
        return;
      }
      state := ReadServerHelloMessage;
      assert Now() == was.v.(state := ReadServerHelloMessage);
      NoCookieEdge(was.v, hs.dtls);
      Silent(was, Done);
      return Done;
    }

    /** The transcript starts again with the second ClientHello. */
    method AnswerCookie() returns (r: Wait)
      requires Valid() && state == ReadHelloVerifyRequest && hs.inbox != [] && hs.inbox[0].kind == HelloVerifyRequest
      modifies this, hs, hs.transcript
      ensures Stepped(r, old(Seen()))
      ensures r != Error ==> r == Flush && state == ReadServerHelloMessage && hs.choices.cookie
    {
      hide Valid, Stepped, Leads, Handshake.Valid, View.Ok, Shape, Grew, Tied, Asks, Rank,
        Expected, LastBody, Known.Learn, Known.Agreed, Plain;
      Inside();
      ghost var was := Seen();
      NoCookieYet(was.v, hs.dtls, Shape(hs.log));
      var parsed, cookie := Choose();
      if !parsed {
        Failed(was);
        return Error;
      }
      var ok, body := Choose();
      if !ok {
        Failed(was);
        return Error;
      }
      hs.StartAgain(body);
      r := AwaitHello(was);
    }

    /** The second ClientHello is out. */
    method AwaitHello(ghost was: Snapshot) returns (r: Wait)
      requires was.v.state == ReadHelloVerifyRequest && !was.v.c.cookie && !was.tls13
      requires !tls13 && hs.side == Client && hs.Valid() && k == was.v.k && hs.received == was.received
      requires Grew(was.log, hs.log, [Msg(Server, HelloVerifyRequest), Msg(Client, ClientHello)])
      requires was.v.Ok(hs.dtls, Shape(was.log)) && Tied(hs.crypto, was.log, was.v.k)
      requires hs.choices == was.v.c.(cookie := true) && hs.transcript.buffer.Some? && hs.transcript.hash == None
      modifies this`state
      ensures Stepped(r, was)
      ensures r == Flush && state == ReadServerHelloMessage
    {
      hide Stepped, Leads, Tied, View.Ok, Grew, Handshake.Valid, Shape, Plain;
      state := ReadServerHelloMessage;
      CookieEdge(was.v, hs.dtls);
      assert Now() == was.v.(state := ReadServerHelloMessage, c := was.v.c.(cookie := true), buffered := true,
             hashed := false);
      CookieIsPlain();
      Moved(was, [Msg(Server, HelloVerifyRequest), Msg(Client, ClientHello)], Flush);
      return Flush;
    }

    method DoReadServerHello() returns (r: Wait)
      requires Valid() && state == ReadServerHelloMessage
      modifies this, hs, hs.transcript
      ensures Stepped(r, old(Seen()))
      ensures old(Head()) == None <==> r == ReadServerHello
      ensures old(Head()) !in {None, Some(ServerHello)} ==> r == Error
      ensures r !in {Error, ReadServerHello} ==>
                && r == Done && tls13 == (state == Tls13)
                && (!tls13 ==> state == if hs.choices.resumed then ReadSessionTicket else ReadServerCertificate)
    {
      hide Valid, Stepped, Leads, Handshake.Valid, View.Ok, Shape, Grew, Tied, Asks, Rank,
        Expected, LastBody, Known.Learn, Known.Agreed, Plain;
      Inside();
      ghost var was := Seen();
      if hs.inbox == [] {
        Awaits(ReadServerHello);
        return ReadServerHello;
      }
      var parsed, _ := Choose();
      if hs.inbox[0].kind != ServerHello || !parsed {
        Failed(was);
        return Error;
      }
      var newer: bool, resumed: bool := *, *;
      if newer {
        r := EnterTls13();
      } else if hs.choices.early {
        Failed(was);
        r := Error;
      } else if resumed {
        r := Resume();
      } else {
        r := StartFull();
      }
    }

    method EnterTls13() returns (r: Wait)
      requires Valid() && state == ReadServerHelloMessage
      modifies this
      ensures Stepped(r, old(Seen()))
      ensures r == Done && state == Tls13 && tls13
    {
      hide Handshake.Valid, View.Ok, Shape;
      tls13, state := true, Tls13;
      return Done;
    }

    /** A ServerHello that promises a status for a certificate it does not send. */
    lemma Contradicts(was: Snapshot, x: Crypto, k: Known)
      requires was.v.state == ReadServerHelloMessage && was.inbox != []
      requires var learnt := k.Learn(x.offers(was.inbox[0].body)); learnt.statusExpected && !learnt.certificateAuth
      ensures Misplaced(x, was)
    {
    }

    /** The server agreed to resume the session: no certificates, and the buffer can go. */
    method Resume() returns (r: Wait)
      requires Valid() && state == ReadServerHelloMessage && !hs.choices.early && hs.inbox != []
               && hs.inbox[0].kind == ServerHello
      modifies this, hs, hs.transcript
      ensures Stepped(r, old(Seen()))
      ensures r != Error ==> r == Done && state == ReadSessionTicket && hs.choices.resumed && !tls13
    {
      hide Valid, Stepped, Leads, Handshake.Valid, View.Ok, Shape, Grew, Tied, Asks, Rank,
        Expected, LastBody, Known.Learn, Known.Agreed, Plain, Misplaced;
      Inside();
      ghost var was := Seen();
      BufferYet(was.v, hs.dtls, Shape(hs.log));
      var hello := hs.inbox[0];
      var learnt := k.Learn(hs.crypto.offers(hello.body));
      if learnt.statusExpected && !learnt.certificateAuth {
        Contradicts(was, hs.crypto, k);
        Failed(was);
        return Error;
      }
      hs.TakeHello(true, false);
      ResumeEdge(was.v, learnt, hs.dtls);
      EnterAgreed(was, hello, learnt, ReadSessionTicket,
                  View(ReadSessionTicket, was.v.c.(resumed := true), learnt, false, true));
      return Done;
    }

    /** A full handshake keeps the buffer in case the client has to sign it. */
    method StartFull() returns (r: Wait)
      requires Valid() && state == ReadServerHelloMessage && !hs.choices.early && hs.inbox != []
               && hs.inbox[0].kind == ServerHello
      modifies this, hs, hs.transcript
      ensures Stepped(r, old(Seen()))
      ensures r != Error ==> r == Done && state == ReadServerCertificate && !hs.choices.resumed && !tls13
    {
      hide Valid, Stepped, Leads, Handshake.Valid, View.Ok, Shape, Grew, Tied, Asks, Rank,
        Expected, LastBody, Known.Learn, Known.Agreed, Plain, Misplaced;
      Inside();
      ghost var was := Seen();
      BufferYet(was.v, hs.dtls, Shape(hs.log));
      var hello := hs.inbox[0];
      var learnt := k.Learn(hs.crypto.offers(hello.body));
      if learnt.statusExpected && !learnt.certificateAuth {
        Contradicts(was, hs.crypto, k);
        Failed(was);
        return Error;
      }
      hs.TakeHello(false, learnt.certificateAuth);
      FullEdge(was.v, learnt, learnt.certificateAuth, hs.dtls);
      EnterAgreed(was, hello, learnt, ReadServerCertificate,
                  View(ReadServerCertificate, was.v.c.(resumed := false), learnt, learnt.certificateAuth, true));
      return Done;
    }

    /** The ServerHello has been taken, and what it settles is known. */
    method EnterAgreed(ghost was: Snapshot, ghost hello: Message, learnt: Known, next: State, ghost w: View)
      requires !tls13 && hs.side == Client && hs.Valid() && hs.log == was.log + [Sent(Server, hello)]
      requires Grew(was.log, hs.log, [Msg(Server, ServerHello)]) && hello.kind == ServerHello
      requires k == was.v.k && learnt == k.Learn(hs.crypto.offers(hello.body)) && Tied(hs.crypto, was.log, was.v.k)
      requires was.v.Ok(hs.dtls, Shape(was.log)) && Leads(was.v, w, hs.dtls, [Msg(Server, ServerHello)])
      requires w == View(next, hs.choices, learnt, hs.transcript.buffer.Some?, hs.transcript.hash.Some?)
      requires next !in {was.v.state, ReadServerHelloMessage} && hs.received == was.received && !was.tls13
      modifies this`state, this`k
      ensures Stepped(Done, was) && state == next && !tls13
    {
      hide Stepped, Leads, Tied, View.Ok, Grew, Handshake.Valid, Known.Learn, Known.Agreed;
      TiedByHello(hs.crypto, was.log, hello, was.v.k);
      k, state := learnt, next;
      MovedAndLearnt(was, [Msg(Server, ServerHello)], Done);
    }

    method DoReadServerCertificate() returns (r: Wait)
      requires Valid() && state == ReadServerCertificate
      modifies this, hs, hs.transcript
      ensures Stepped(r, old(Seen()))
      ensures !old(k.certificateAuth) ==> r == Done && state == ReadCertificateStatus && !hs.choices.certificate
      ensures old(k.certificateAuth) ==>
                && (r == ReadMessage <==> old(Head()) == None)
                && (old(Head()) !in {None, Some(Certificate)} ==> r == Error)
                && (r !in {Error, ReadMessage} ==>
                      r == Done && state == ReadCertificateStatus && hs.choices.certificate)
    {
      hide Valid, Stepped, Leads, Handshake.Valid, View.Ok, Shape, Grew, Tied, Asks, Rank,
        Expected, LastBody, Known.Learn, Known.Agreed, Plain;
      Inside();
      ghost var was := Seen();
      if !k.certificateAuth {
        r := NoCertificate();
        return;
      }
      if hs.inbox == [] {
        Awaits(ReadMessage);
        return ReadMessage;
      }
      if hs.inbox[0].kind != Certificate {
        Failed(was);
        return Error;
      }
      r := TakeCertificate();
    }

    method NoCertificate() returns (r: Wait)
      requires Valid() && state == ReadServerCertificate && !k.certificateAuth
      modifies this, hs, hs.transcript
      ensures Stepped(r, old(Seen()))
      ensures r == Done && state == ReadCertificateStatus && !hs.choices.certificate
    {
      hide Valid, Stepped, Leads, Handshake.Valid, View.Ok, Shape, Grew, Tied, Asks, Rank,
        Expected, LastBody, Known.Learn, Known.Agreed, Plain;
      Inside();
      ghost var was := Seen();
      hs.Decide(hs.choices.(certificate := false));
      state := ReadCertificateStatus;
      assert Now() == was.v.(state := ReadCertificateStatus, c := was.v.c.(certificate := false));
      NoCertificateEdge(was.v, hs.dtls);
      Silent(was, Done);
      return Done;
    }

    method TakeCertificate() returns (r: Wait)
      requires Valid() && state == ReadServerCertificate && k.certificateAuth && hs.inbox != []
               && hs.inbox[0].kind == Certificate
      modifies this, hs, hs.transcript
      ensures Stepped(r, old(Seen()))
      ensures r != Error ==> r == Done && state == ReadCertificateStatus && hs.choices.certificate
    {
      hide Valid, Stepped, Leads, Handshake.Valid, View.Ok, Shape, Grew, Tied, Asks, Rank,
        Expected, LastBody, Known.Learn, Known.Agreed, Plain, Misplaced;
      Inside();
      ghost var was := Seen();
      var shown := hs.inbox[0];
      var ok := Take(hs.choices.(certificate := true));
      if !ok {
        Failed(was);
        return Error;
      }
      k, state := k.(chain := Some(shown.body), chainAccepted := false), ReadCertificateStatus;
      assert Now() == was.v.(state := ReadCertificateStatus, c := was.v.c.(certificate := true), k := k);
      TakeCertificateEdge(was.v, k.chain, hs.dtls);
      TiedByChain(hs.crypto, was.log, shown, was.v.k);
      MovedAndLearnt(was, [Msg(Server, Certificate)], Done);
      return Done;
    }

    method DoReadCertificateStatus() returns (r: Wait)
      requires Valid() && state == ReadCertificateStatus
      modifies this, hs, hs.transcript
      ensures Stepped(r, old(Seen()))
      ensures old(k.statusExpected && Head() == None) <==> r == ReadMessage
      ensures r !in {Error, ReadMessage} ==>
                && r == Done && state == VerifyServerCertificate
                && hs.choices.status == old(k.statusExpected && Head() == Some(CertificateStatus))
    {
      hide Valid, Stepped, Leads, Handshake.Valid, View.Ok, Shape, Grew, Tied, Asks, Rank,
        Expected, LastBody, Known.Learn, Known.Agreed, Plain;
      Inside();
      ghost var was := Seen();
      if k.statusExpected && hs.inbox == [] {
        Awaits(ReadMessage);
        return ReadMessage;
      }
      if k.statusExpected && hs.inbox[0].kind == CertificateStatus {
        r := TakeStatus();
        return;
      }
      hs.Decide(hs.choices.(status := false));
      state := VerifyServerCertificate;
      assert Now() == was.v.(state := VerifyServerCertificate, c := was.v.c.(status := false));
      NoStatusEdge(was.v, hs.dtls);
      Silent(was, Done);
      return Done;
    }

    method TakeStatus() returns (r: Wait)
      requires Valid() && state == ReadCertificateStatus && k.statusExpected && hs.inbox != []
               && hs.inbox[0].kind == CertificateStatus
      modifies this, hs, hs.transcript
      ensures Stepped(r, old(Seen()))
      ensures r != Error ==> r == Done && state == VerifyServerCertificate && hs.choices.status
    {
      hide Valid, Stepped, Leads, Handshake.Valid, View.Ok, Shape, Grew, Tied, Asks, Rank,
        Expected, LastBody, Known.Learn, Known.Agreed, Plain, Misplaced;
      Inside();
      ghost var was := Seen();
      var ok := Take(hs.choices.(status := true));
      if !ok {
        Failed(was);
        return Error;
      }
      TakeStatusEdge(was.v, hs.dtls);
      Enter(was, VerifyServerCertificate, was.v.(state := VerifyServerCertificate, c := was.v.c.(status := true)),
            Msg(Server, CertificateStatus), Done);
      return Done;
    }

    /** ssl_verify_peer_cert, which may have to be asked again later. */
    method DoVerifyServerCertificate() returns (r: Wait)
      requires Valid() && state == VerifyServerCertificate
      modifies this, hs, hs.transcript
      ensures Stepped(r, old(Seen()))
      ensures r in {Done, Error, CertificateVerification} && (r == Done ==> state == ReadServerKeyExchange)
      ensures old(k.certificateAuth) ==> (r == Error ==> old(k.chain) == None || !hs.crypto.accepts(old(k.chain).value))
      ensures !old(k.certificateAuth) ==> r == Done
    {
      hide Valid, Stepped, Leads, Handshake.Valid, View.Ok, Shape, Grew, Tied, Asks, Rank,
        Expected, LastBody, Known.Learn, Known.Agreed, Plain;
      Inside();
      ghost var was := Seen();
      var later: bool := *;
      if k.certificateAuth && later {
        Again(CertificateVerification);
        return CertificateVerification;
      }
      if k.certificateAuth && (k.chain == None || !hs.crypto.accepts(k.chain.value)) {
        Failed(was);
        return Error;
      }
      k := k.(chainAccepted := k.certificateAuth);
      state := ReadServerKeyExchange;
      Verified(was);
      return Done;
    }

    lemma Verified(was: Snapshot)
      requires was.v.state == VerifyServerCertificate && state == ReadServerKeyExchange && !was.tls13
      requires !tls13 && hs.side == Client && hs.Valid() && hs.log == was.log && hs.received == was.received
      requires was.v.Ok(hs.dtls, Shape(was.log)) && Tied(hs.crypto, was.log, was.v.k)
      requires was.v.k.certificateAuth ==> was.v.k.chain.Some? && hs.crypto.accepts(was.v.k.chain.value)
      requires k == was.v.k.(chainAccepted := was.v.k.certificateAuth) && hs.choices == was.v.c
      requires hs.transcript.buffer.Some? == was.v.buffered && hs.transcript.hash.Some? == was.v.hashed
      ensures Stepped(Done, was)
    {
      hide Stepped, Leads, Tied, View.Ok, Grew, Handshake.Valid, Shape;
      VerifyEdge(was.v, hs.dtls);
      assert Now() == was.v.(state := ReadServerKeyExchange, k := was.v.k.(chainAccepted := was.v.k.certificateAuth));
      GrewByNothing(hs.log);
      TiedByVerdict(hs.crypto, hs.log, was.v.k);
      MovedAndLearnt(was, [], Done);
    }

    method DoReadServerKeyExchange() returns (r: Wait)
      requires Valid() && state == ReadServerKeyExchange
      modifies this, hs, hs.transcript
      ensures Stepped(r, old(Seen()))
      ensures old(Head()) == None <==> r == ReadMessage
      ensures old(Head()) !in {None, Some(ServerKeyExchange)} ==>
                r == if old(k.requiresKeyExchange) then Error else Done
      ensures r !in {Error, ReadMessage} ==>
                && r == Done && state == ReadCertificateRequest
                && hs.choices.keyExchange == (old(Head()) == Some(ServerKeyExchange))
    {
      hide Valid, Stepped, Leads, Handshake.Valid, View.Ok, Shape, Grew, Tied, Asks, Rank,
        Expected, LastBody, Known.Learn, Known.Agreed, Plain;
      Inside();
      ghost var was := Seen();
      if hs.inbox == [] {
        Awaits(ReadMessage);
        return ReadMessage;
      }
      if hs.inbox[0].kind == ServerKeyExchange {
        r := TakeKeyExchange();
        return;
      }
      if k.requiresKeyExchange {
        Failed(was);
        return Error;
      }
      hs.Decide(hs.choices.(keyExchange := false));
      state := ReadCertificateRequest;
      assert Now() == was.v.(state := ReadCertificateRequest, c := was.v.c.(keyExchange := false));
      NoKeyExchangeEdge(was.v, hs.dtls);
      Silent(was, Done);
      return Done;
    }

    method TakeKeyExchange() returns (r: Wait)
      requires Valid() && state == ReadServerKeyExchange && hs.inbox != [] && hs.inbox[0].kind == ServerKeyExchange
      modifies this, hs, hs.transcript
      ensures Stepped(r, old(Seen()))
      ensures r != Error ==> r == Done && state == ReadCertificateRequest && hs.choices.keyExchange
    {
      hide Valid, Stepped, Leads, Handshake.Valid, View.Ok, Shape, Grew, Tied, Asks, Rank,
        Expected, LastBody, Known.Learn, Known.Agreed, Plain, Misplaced;
      Inside();
      ghost var was := Seen();
      var ok := Take(hs.choices.(keyExchange := true));
      if !ok {
        Failed(was);
        return Error;
      }
      TakeKeyExchangeEdge(was.v, hs.dtls);
      Enter(was, ReadCertificateRequest, was.v.(state := ReadCertificateRequest, c := was.v.c.(keyExchange := true)),
            Msg(Server, ServerKeyExchange), Done);
      return Done;
    }

    method DoReadCertificateRequest() returns (r: Wait)
      requires Valid() && state == ReadCertificateRequest
      modifies this, hs, hs.transcript
      ensures Stepped(r, old(Seen()))
      ensures old(k.certificateAuth && Head() == None) <==> r == ReadMessage
      ensures !old(k.certificateAuth) || old(Head()) == Some(ServerHelloDone) ==>
                old(k.certificateAuth && Head() == None) || (r == Done && !hs.choices.request)
      ensures r !in {Error, ReadMessage} ==>
                && r == Done && state == ReadServerHelloDone
                && hs.choices.request == old(k.certificateAuth && Head() == Some(CertificateRequest))
    {
      hide Valid, Stepped, Leads, Handshake.Valid, View.Ok, Shape, Grew, Tied, Asks, Rank,
        Expected, LastBody, Known.Learn, Known.Agreed, Plain;
      Inside();
      ghost var was := Seen();
      if !k.certificateAuth {
        r := SkipRequest();
        return;
      }
      if hs.inbox == [] {
        Awaits(ReadMessage);
        return ReadMessage;
      }
      if hs.inbox[0].kind == ServerHelloDone {
        r := NoRequest();
        return;
      }
      if hs.inbox[0].kind != CertificateRequest {
        Failed(was);
        return Error;
      }
      r := TakeRequest();
    }

    method TakeRequest() returns (r: Wait)
      requires Valid() && state == ReadCertificateRequest && k.certificateAuth && hs.inbox != []
               && hs.inbox[0].kind == CertificateRequest
      modifies this, hs, hs.transcript
      ensures Stepped(r, old(Seen()))
      ensures r != Error ==> r == Done && state == ReadServerHelloDone && hs.choices.request
    {
      hide Valid, Stepped, Leads, Handshake.Valid, View.Ok, Shape, Grew, Tied, Asks, Rank,
        Expected, LastBody, Known.Learn, Known.Agreed, Plain, Misplaced;
      Inside();
      ghost var was := Seen();
      var ok := Take(hs.choices.(request := true));
      if !ok {
        Failed(was);
        return Error;
      }
      TakeRequestEdge(was.v, hs.dtls);
      Enter(was, ReadServerHelloDone, was.v.(state := ReadServerHelloDone, c := was.v.c.(request := true)),
            Msg(Server, CertificateRequest), Done);
      return Done;
    }

    method SkipRequest() returns (r: Wait)
      requires Valid() && state == ReadCertificateRequest
      modifies this, hs, hs.transcript
      ensures Stepped(r, old(Seen()))
      ensures r == Done && state == ReadServerHelloDone && !hs.choices.request
    {
      hide Valid, Stepped, Leads, Handshake.Valid, View.Ok, Shape, Grew, Tied, Asks, Rank,
        Expected, LastBody, Known.Learn, Known.Agreed, Plain;
      Inside();
      ghost var was := Seen();
      hs.Decide(hs.choices.(request := false));
      state := ReadServerHelloDone;
      assert Now() == was.v.(state := ReadServerHelloDone, c := was.v.c.(request := false));
      NoRequestEdge(was.v, was.v.buffered, hs.dtls);
      Silent(was, Done);
      return Done;
    }

    /** No client certificate is wanted, so the buffer is not needed. */
    method NoRequest() returns (r: Wait)
      requires Valid() && state == ReadCertificateRequest
      modifies this, hs, hs.transcript
      ensures Stepped(r, old(Seen()))
      ensures r == Done && state == ReadServerHelloDone && !hs.choices.request
    {
      hide Valid, Stepped, Leads, Handshake.Valid, View.Ok, Shape, Grew, Tied, Asks, Rank,
        Expected, LastBody, Known.Learn, Known.Agreed, Plain;
      Inside();
      ghost var was := Seen();
      HashedYet(was.v, hs.dtls, Shape(hs.log));
      hs.FreeBuffer();
      hs.Decide(hs.choices.(request := false));
      state := ReadServerHelloDone;
      assert Now() == was.v.(state := ReadServerHelloDone, c := was.v.c.(request := false), buffered := false);
      NoRequestEdge(was.v, false, hs.dtls);
      Silent(was, Done);
      return Done;
    }

    method DoReadServerHelloDone() returns (r: Wait)
      requires Valid() && state == ReadServerHelloDone
      modifies this, hs, hs.transcript
      ensures Stepped(r, old(Seen()))
      ensures old(Head()) == None <==> r == ReadMessage
      ensures r !in {Error, ReadMessage} ==> r == Done && state == SendClientCertificate
    {
      hide Valid, Stepped, Leads, Handshake.Valid, View.Ok, Shape, Grew, Tied, Asks, Rank,
        Expected, LastBody, Known.Learn, Known.Agreed, Plain;
      Inside();
      ghost var was := Seen();
      if hs.inbox == [] {
        Awaits(ReadMessage);
        return ReadMessage;
      }
      if hs.inbox[0].kind != ServerHelloDone {
        Failed(was);
        return Error;
      }
      var ok := Take(hs.choices);
      if !ok {
        Failed(was);
        return Error;
      }
      HelloDoneEdge(was.v, hs.dtls);
      Enter(was, SendClientCertificate, was.v.(state := SendClientCertificate), Msg(Server, ServerHelloDone), Done);
      return Done;
    }

    /** The certificate callback may have to be asked again. */
    method DoSendClientCertificate() returns (r: Wait)
      requires Valid() && state == SendClientCertificate
      modifies this, hs, hs.transcript
      ensures Stepped(r, old(Seen()))
      ensures !old(hs.choices.request) ==> r == Done
      ensures r in {Done, Error, X509Lookup} && (r == Done ==> state == SendClientKeyExchange)
    {
      hide Valid, Stepped, Leads, Handshake.Valid, View.Ok, Shape, Grew, Tied, Asks, Rank,
        Expected, LastBody, Known.Learn, Known.Agreed, Plain;
      Inside();
      ghost var was := Seen();
      if hs.choices.request {
        var later: bool := *;
        if later {
          Again(X509Lookup);
          return X509Lookup;
        }
        var ok, body := Choose();
        if !ok {
          Failed(was);
          return Error;
        }
        if hs.crypto.nonEmpty(body) {
          r := AnswerWithCertificate(body);
        } else {
          r := AnswerWithNone(body);
        }
        return;
      }
      hs.Decide(hs.choices.(answer := false));
      state := SendClientKeyExchange;
      assert Now() == was.v.(state := SendClientKeyExchange, c := was.v.c.(answer := false));
      NoAnswerEdge(was.v, hs.dtls);
      Silent(was, Done);
      return Done;
    }

    /** The client shows its certificate, and keeps the buffer to sign it. */
    method AnswerWithCertificate(body: seq<byte>) returns (r: Wait)
      requires Valid() && state == SendClientCertificate && hs.choices.request && hs.crypto.nonEmpty(body)
      modifies this, hs, hs.transcript
      ensures Stepped(r, old(Seen()))
      ensures r == Done && state == SendClientKeyExchange
    {
      hide Valid, Stepped, Leads, Handshake.Valid, View.Ok, Shape, Grew, Tied, Asks, Rank,
        Expected, LastBody, Known.Learn, Known.Agreed, Plain;
      Inside();
      ghost var was := Seen();
      HashedYet(was.v, hs.dtls, Shape(hs.log));
      var m := Handshake.NewMessage(Certificate, body);
      hs.AddAnswer(m, true);
      k := k.(hasCertificate := true);
      state := SendClientKeyExchange;
      assert Now()
             == was.v.(state := SendClientKeyExchange, c := was.v.c.(answer := true),
                 k := was.v.k.(hasCertificate := true), buffered := was.v.buffered);
      AnswerEdge(was.v, true, was.v.buffered, hs.dtls);
      TiedByAnswer(hs.crypto, was.log, m, was.v.k);
      MovedAndLearnt(was, [Msg(Client, Certificate)], Done);
      return Done;
    }

    /** Without a certificate an empty chain is sent, and the buffer can go. */
    method AnswerWithNone(body: seq<byte>) returns (r: Wait)
      requires Valid() && state == SendClientCertificate && hs.choices.request && !hs.crypto.nonEmpty(body)
      modifies this, hs, hs.transcript
      ensures Stepped(r, old(Seen()))
      ensures r == Done && state == SendClientKeyExchange
    {
      hide Valid, Stepped, Leads, Handshake.Valid, View.Ok, Shape, Grew, Tied, Asks, Rank,
        Expected, LastBody, Known.Learn, Known.Agreed, Plain;
      Inside();
      ghost var was := Seen();
      HashedYet(was.v, hs.dtls, Shape(hs.log));
      var m := Handshake.NewMessage(Certificate, body);
      hs.AddAnswer(m, false);
      k := k.(hasCertificate := false);
      state := SendClientKeyExchange;
      assert Now()
             == was.v.(state := SendClientKeyExchange, c := was.v.c.(answer := true),
                 k := was.v.k.(hasCertificate := false), buffered := false);
      AnswerEdge(was.v, false, false, hs.dtls);
      TiedByAnswer(hs.crypto, was.log, m, was.v.k);
      MovedAndLearnt(was, [Msg(Client, Certificate)], Done);
      return Done;
    }

    method DoSendClientKeyExchange() returns (r: Wait)
      requires Valid() && state == SendClientKeyExchange
      modifies this, hs, hs.transcript
      ensures Stepped(r, old(Seen()))
      ensures r != Error ==> r == Done && state == SendClientCertificateVerify
    {
      hide Valid, Stepped, Leads, Handshake.Valid, View.Ok, Shape, Grew, Tied, Asks, Rank,
        Expected, LastBody, Known.Learn, Known.Agreed, Plain;
      Inside();
      ghost var was := Seen();
      var ok, body := Choose();
      if !ok {
        Failed(was);
        return Error;
      }
      var m := Handshake.NewMessage(ClientKeyExchange, body);
      hs.AddMessage(m);
      ClientKeyEdge(was.v, hs.dtls);
      Enter(was, SendClientCertificateVerify, was.v.(state := SendClientCertificateVerify),
            Msg(Client, ClientKeyExchange), Done);
      return Done;
    }

    method DoSendClientCertificateVerify() returns (r: Wait)
      requires Valid() && state == SendClientCertificateVerify
      modifies this, hs, hs.transcript
      ensures Stepped(r, old(Seen()))
      ensures !old(hs.choices.request && k.hasCertificate) ==> r == Done
      ensures r in {Done, Error, PrivateKeyOperation} && (r == Done ==> state == SendClientFinished)
    {
      hide Valid, Stepped, Leads, Handshake.Valid, View.Ok, Shape, Grew, Tied, Asks, Rank,
        Expected, LastBody, Known.Learn, Known.Agreed, Plain;
      Inside();
      ghost var was := Seen();
      if hs.choices.request && k.hasCertificate {
        r := Sign();
        return;
      }
      hs.Decide(hs.choices.(verify := false));
      state := SendClientFinished;
      assert Now() == was.v.(state := SendClientFinished, c := was.v.c.(verify := false));
      NoSignatureEdge(was.v, hs.dtls);
      Silent(was, Done);
      return Done;
    }

    /** The private key operation may take several tries; it signs the buffered transcript. */
    method Sign() returns (r: Wait)
      requires Valid() && state == SendClientCertificateVerify && hs.choices.request && k.hasCertificate
      modifies this, hs, hs.transcript
      ensures Stepped(r, old(Seen()))
      ensures r in {Done, Error, PrivateKeyOperation} && (r == Done ==> state == SendClientFinished)
    {
      hide Valid, Stepped, Leads, Handshake.Valid, View.Ok, Shape, Grew, Tied, Asks, Rank,
        Expected, LastBody, Known.Learn, Known.Agreed, Plain, Misplaced;
      Inside();
      ghost var was := Seen();
      var later: bool := *;
      if later {
        Again(PrivateKeyOperation);
        return PrivateKeyOperation;
      }
      BufferForSigning(was.v, hs.dtls, Shape(hs.log));
      var ok, body := Choose();
      if !ok || !hs.crypto.signs(hs.transcript.buffer.value, body) {
        refused := refused + 1;
        Failed(was);
        return Error;
      }
      HashedYet(was.v, hs.dtls, Shape(hs.log));
      hs.AddCertificateVerify(body);
      SignEdge(was.v, hs.dtls);
      Enter(was, SendClientFinished,
            was.v.(state := SendClientFinished, c := was.v.c.(verify := true), buffered := false),
            Msg(Client, CertificateVerify), Done);
      return Done;
    }

    /** The Channel ID is looked up before anything that could not be done twice. */
    method DoSendClientFinished() returns (r: Wait)
      requires Valid() && state == SendClientFinished
      modifies this, hs, hs.transcript
      ensures Stepped(r, old(Seen()))
      ensures r in {Flush, Error, ChannelIdLookup} && (r == ChannelIdLookup ==> old(k.channelId))
      ensures r == Flush ==> state == FinishFlight
    {
      hide Valid, Stepped, Leads, Handshake.Valid, View.Ok, Shape, Grew, Tied, Asks, Rank,
        Expected, LastBody, Known.Learn, Known.Agreed, Plain;
      Inside();
      ghost var was := Seen();
      var later: bool := *;
      if k.channelId && later {
        Again(ChannelIdLookup);
        return ChannelIdLookup;
      }
      HashedYet(was.v, hs.dtls, Shape(hs.log));
      var ok, _ := Choose();
      if !ok {
        Failed(was);
        return Error;
      }
      hs.SendClientFlight(k.nextProto, k.channelId);
      r := AfterClientFlight(was);
    }

    method AfterClientFlight(ghost was: Snapshot) returns (r: Wait)
      requires !tls13 && hs.side == Client && hs.Valid() && state == SendClientFinished
      requires was.v.Ok(hs.dtls, Shape(was.log)) && Tied(hs.crypto, was.log, was.v.k)
      requires Now() == was.v.(c := was.v.c.(nextProto := was.v.k.nextProto, channelId := was.v.k.channelId))
      requires Grew(was.log, hs.log, LastFlight(was.v.k)) && hs.received == was.received && !was.tls13
      modifies this`state
      ensures Stepped(r, was)
      ensures r == Flush && state == FinishFlight
    {
      hide Valid, Stepped, Leads, Handshake.Valid, View.Ok, Shape, Grew, Tied, Asks, Rank, Expected, LastBody,
           LastFlight, Plain;
      state := FinishFlight;
      assert Now()
             == was.v.(state := FinishFlight,
                 c := was.v.c.(nextProto := was.v.k.nextProto, channelId := was.v.k.channelId));
      LastFlightIsPlain(was.v.k);
      FinishEdge(was.v, hs.dtls);
      Moved(was, LastFlight(was.v.k), Flush);
      return Flush;
    }

    method DoFinishFlight() returns (r: Wait)
      requires Valid() && state == FinishFlight
      modifies this, hs, hs.transcript
      ensures Stepped(r, old(Seen()))
      ensures old(hs.choices.resumed) ==> r == Done && state == FinishClientHandshake
      ensures !old(hs.choices.resumed) && r != Error ==> r in {Done, EarlyReturn} && state == ReadSessionTicket
    {
      hide Valid, Stepped, Leads, Handshake.Valid, View.Ok, Shape, Grew, Tied, Asks, Rank,
        Expected, LastBody, Known.Learn, Known.Agreed, Plain;
      Inside();
      ghost var was := Seen();
      if hs.choices.resumed {
        state := FinishClientHandshake;
        assert Now() == was.v.(state := FinishClientHandshake);
        ResumedFlightEdge(was.v, hs.dtls);
        Silent(was, Done);
        return Done;
      }
      var falseStart: bool := *;
      var ok, _ := Choose();
      if !ok {
        Failed(was);
        return Error;
      }
      state := ReadSessionTicket;
      assert Now() == was.v.(state := ReadSessionTicket);
      FullFlightEdge(was.v, hs.dtls);
      r := if falseStart then EarlyReturn else Done;
      Silent(was, r);
    }

    method DoReadSessionTicket() returns (r: Wait)
      requires Valid() && state == ReadSessionTicket
      modifies this, hs, hs.transcript
      ensures Stepped(r, old(Seen()))
      ensures old(k.ticketExpected && Head() == None) <==> r == ReadMessage
      ensures !old(k.ticketExpected) ==> r == ReadChangeCipherSpec
      ensures r !in {Error, ReadMessage} ==>
                && r == ReadChangeCipherSpec && state == ProcessChangeCipherSpec
                && hs.choices.ticket == old(k.ticketExpected)
    {
      hide Valid, Stepped, Leads, Handshake.Valid, View.Ok, Shape, Grew, Tied, Asks, Rank,
        Expected, LastBody, Known.Learn, Known.Agreed, Plain;
      Inside();
      ghost var was := Seen();
      if k.ticketExpected {
        if hs.inbox == [] {
          Awaits(ReadMessage);
          return ReadMessage;
        }
        if hs.inbox[0].kind != NewSessionTicket {
          Failed(was);
          return Error;
        }
        r := TakeTicket();
        return;
      }
      hs.Decide(hs.choices.(ticket := false));
      state := ProcessChangeCipherSpec;
      assert Now() == was.v.(state := ProcessChangeCipherSpec, c := was.v.c.(ticket := false));
      NoTicketEdge(was.v, hs.dtls);
      Silent(was, ReadChangeCipherSpec);
      return ReadChangeCipherSpec;
    }

    method TakeTicket() returns (r: Wait)
      requires Valid() && state == ReadSessionTicket && k.ticketExpected && hs.inbox != []
               && hs.inbox[0].kind == NewSessionTicket
      modifies this, hs, hs.transcript
      ensures Stepped(r, old(Seen()))
      ensures r != Error ==> r == ReadChangeCipherSpec && state == ProcessChangeCipherSpec && hs.choices.ticket
    {
      hide Valid, Stepped, Leads, Handshake.Valid, View.Ok, Shape, Grew, Tied, Asks, Rank,
        Expected, LastBody, Known.Learn, Known.Agreed, Plain, Misplaced;
      Inside();
      ghost var was := Seen();
      var ok := Take(hs.choices.(ticket := true));
      if !ok {
        Failed(was);
        return Error;
      }
      TakeTicketEdge(was.v, hs.dtls);
      Enter(was, ProcessChangeCipherSpec, was.v.(state := ProcessChangeCipherSpec, c := was.v.c.(ticket := true)),
            Msg(Server, NewSessionTicket), ReadChangeCipherSpec);
      return ReadChangeCipherSpec;
    }

    /** The server's ChangeCipherSpec has come and takes effect. */
    method DoProcessChangeCipherSpec() returns (r: Wait)
      requires Valid() && state == ProcessChangeCipherSpec
      modifies this, hs, hs.transcript
      ensures Stepped(r, old(Seen()))
      ensures r != Error ==> r == Done && state == ReadServerFinished
    {
      hide Valid, Stepped, Leads, Handshake.Valid, View.Ok, Shape, Grew, Tied, Asks, Rank,
        Expected, LastBody, Known.Learn, Known.Agreed, Plain;
      Inside();
      ghost var was := Seen();
      var ok, _ := Choose();
      if !ok {
        Failed(was);
        return Error;
      }
      hs.AddCcs(Server);
      ChangeEdge(was.v, hs.dtls);
      Enter(was, ReadServerFinished, was.v.(state := ReadServerFinished), Change(Server), Done);
      return Done;
    }

    method DoReadServerFinished() returns (r: Wait)
      requires Valid() && state == ReadServerFinished
      modifies this, hs, hs.transcript
      ensures Stepped(r, old(Seen()))
      ensures old(Head()) == None <==> r == ReadMessage
      ensures r == Done <==> && old(Head()) == Some(Finished)
                             && old(hs.inbox)[0].body == hs.crypto.mac(Server, old(hs.transcript.all))
      ensures r == Done ==> state == if old(hs.choices.resumed) then SendClientFinished else FinishClientHandshake
    {
      hide Valid, Stepped, Leads, Handshake.Valid, View.Ok, Shape, Grew, Tied, Asks, Rank,
        Expected, LastBody, Known.Learn, Known.Agreed, Plain;
      Inside();
      ghost var was := Seen();
      HashedYet(was.v, hs.dtls, Shape(hs.log));
      var got := hs.GetFinished();
      if got == Error {
        Failed(was);
        return Error;
      }
      if got == ReadMessage {
        assert Seen() == was;
        Awaits(ReadMessage);
        return ReadMessage;
      }
      r := AfterServerFinished(was);
    }

    method AfterServerFinished(ghost was: Snapshot) returns (r: Wait)
      requires !tls13 && hs.side == Client && hs.Valid() && state == ReadServerFinished && Now() == was.v
      requires was.v.Ok(hs.dtls, Shape(was.log)) && Grew(was.log, hs.log, [Msg(Server, Finished)])
      requires Tied(hs.crypto, was.log, was.v.k) && hs.received == was.received && !was.tls13
      modifies this`state
      ensures Stepped(r, was)
      ensures r == Done && state == if hs.choices.resumed then SendClientFinished else FinishClientHandshake
    {
      hide Valid, Stepped, Leads, Handshake.Valid, View.Ok, Shape, Grew, Tied, Asks, Rank,
        Expected, LastBody, Known.Learn, Known.Agreed, Plain;
      if hs.choices.resumed {
        state := SendClientFinished;
        ResumedFinishedEdge(was.v, hs.dtls);
        assert Now() == was.v.(state := SendClientFinished);
        MovedBy(was, Msg(Server, Finished), Done);
        return Done;
      }
      state := FinishClientHandshake;
      FullFinishedEdge(was.v, hs.dtls);
      assert Now() == was.v.(state := FinishClientHandshake);
      MovedBy(was, Msg(Server, Finished), Done);
      return Done;
    }

    method DoFinishClientHandshake() returns (r: Wait)
      requires Valid() && state == FinishClientHandshake
      modifies this, hs, hs.transcript
      ensures Stepped(r, old(Seen()))
      ensures r != Error ==> r == Done && state == Complete
    {
      hide Handshake.Valid, Leads, View.Ok, Shape, Tied;
      ghost var was := Seen();
      var ok, _ := Choose();
      if !ok {
        return Error;
      }
      if !tls13 {
        LastEdge(was.v, hs.dtls);
        state := Complete;
        assert Now() == was.v.(state := Complete);
        Silent(was, Done);
      } else {
        state := Complete;
      }
      return Done;
    }

    /** The TLS 1.3 machine, not modelled: it finishes or waits. */
    method DoTls13() returns (r: Wait)
      requires Valid() && state == Tls13
      modifies this
      ensures Stepped(r, old(Seen()))
    {
      hide Handshake.Valid;
      r := *;
      if r == Done {
        state := FinishClientHandshake;
      }
      refused := refused + if r == Error then 1 else 0;
    }

    /** A client that is done below TLS 1.3: the flow is one the standard allows, each side has sent one
        Finished, each over the transcript of all that went before. In a full handshake, if the cipher that
        the ServerHello chose authenticates by certificate, the server has shown a chain and that chain was
        accepted; and the client has signed exactly if it was asked to and has shown a chain itself. What
        was negotiated has gone to and fro, and nothing else. */
    lemma AtTheEnd()
      requires Valid() && state == Complete && !tls13
      ensures Shape(hs.log) == Flow(hs.choices)
      ensures Count(Shape(hs.log), Msg(Client, Finished)) == 1 && Count(Shape(hs.log), Msg(Server, Finished)) == 1
      ensures Authentic(hs.crypto, hs.log, hs.choices.cookie)
      ensures hs.transcript.all == Raws(hs.crypto.raw, hs.Hashed())
      ensures LastBody(Server, ServerHello, hs.log).Some?
      ensures var offer := hs.crypto.offers(LastBody(Server, ServerHello, hs.log).value);
              && (!hs.choices.resumed && offer.certificateAuth ==> Accepts(hs.crypto, Server, hs.log))
              && (!hs.choices.resumed && offer.requiresKeyExchange ==> Msg(Server, ServerKeyExchange) in Shape(hs.log))
              && (hs.choices.nextProto, hs.choices.channelId, hs.choices.ticket)
                 == (offer.nextProto, offer.channelId, offer.ticketExpected)
      ensures !hs.choices.resumed ==> hs.choices.verify == (hs.choices.request && Shows(hs.crypto, Client, hs.log))
    {
      hide Flow, Count, Authentic, Raws, LastBody, Shape;
      OneFinishedEach(hs.choices, Client);
      OneFinishedEach(hs.choices, Server);
      FlowHas(hs.choices);
      HasBody(Server, ServerHello, hs.log);
    }

    /** A HelloVerifyRequest in answer to the first ClientHello is never out of its turn. */
    lemma CookieIsNoError()
      requires Valid() && !tls13 && hs.dtls && !hs.choices.cookie && Rank(state, false) >= 17
      requires Head() == Some(HelloVerifyRequest)
      ensures !Misplaced(hs.crypto, Seen())
    {
    }

    /** A message comes in. */
    method Inbound(m: Message)
      requires Valid() && !tls13
      modifies hs`inbox, hs`received
      ensures Valid() && hs.received == old(hs.received) + [m]
    {
      hide Handshake.Valid, View.Ok, Shape, Tied;
      hs.Receive(m);
    }

    /** ssl_client_handshake: runs until something has to be waited for, and cannot run for ever. */
    method ClientHandshake() returns (r: Wait)
      requires Valid()
      modifies this, hs, hs.transcript
      ensures r != Error ==> Valid() && old(hs.log) <= hs.log
      ensures r != Error ==> Rank(state, hs.choices.resumed) <= old(Rank(state, hs.choices.resumed))
      ensures r == Done ==> state == Complete
      ensures r != Error ==> Asks(r, |old(hs.log)|) && hs.received == old(hs.received) && (old(tls13) ==> tls13)
    {
      hide Valid, Handshake.Valid, Rank;
      r := Done;
      while state != Complete
        invariant Valid() && old(hs.log) <= hs.log && r == Done
        invariant Rank(state, hs.choices.resumed) <= old(Rank(state, hs.choices.resumed))
        invariant hs.received == old(hs.received) && (old(tls13) ==> tls13)
        decreases Rank(state, hs.choices.resumed)
      {
        r := Step();
        if r != Done {
          return r;
        }
      }
    }

    /** The switch over the state. */
    method Step() returns (r: Wait)
      requires Valid() && state != Complete
      modifies this, hs, hs.transcript
      ensures Stepped(r, old(Seen()))
    {
      hide Valid, Stepped;
      match state {
        case StartConnect => r := DoStartConnect();
        case EnterEarlyData => r := DoEnterEarlyData();
        case ReadHelloVerifyRequest => r := DoReadHelloVerifyRequest();
        case ReadServerHelloMessage => r := DoReadServerHello();
        case Tls13 => r := DoTls13();
        case ReadServerCertificate => r := DoReadServerCertificate();
        case ReadCertificateStatus => r := DoReadCertificateStatus();
        case VerifyServerCertificate => r := DoVerifyServerCertificate();
        case ReadServerKeyExchange => r := DoReadServerKeyExchange();
        case ReadCertificateRequest => r := DoReadCertificateRequest();
        case ReadServerHelloDone => r := DoReadServerHelloDone();
        case SendClientCertificate => r := DoSendClientCertificate();
        case SendClientKeyExchange => r := DoSendClientKeyExchange();
        case SendClientCertificateVerify => r := DoSendClientCertificateVerify();
        case SendClientFinished => r := DoSendClientFinished();
        case FinishFlight => r := DoFinishFlight();
        case ReadSessionTicket => r := DoReadSessionTicket();
        case ProcessChangeCipherSpec => r := DoProcessChangeCipherSpec();
        case ReadServerFinished => r := DoReadServerFinished();
        case FinishClientHandshake => r := DoFinishClientHandshake();
      }
    }
  }
}
