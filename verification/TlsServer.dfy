/** The server state machine below TLS 1.3. */
module TlsServer {
  import opened Bytes
  import opened Options
  import opened TlsFlow
  import opened TlsHandshake

  datatype State =
    | StartAccept | ReadClientHello | SelectCertificate | Tls13 | SelectParameters | SendServerHello
    | SendServerCertificate | SendServerKeyExchange | SendServerHelloDone | ReadClientCertificate
    | VerifyClientCertificate | ReadClientKeyExchange | ReadClientCertificateVerify | ReadClientChangeCipherSpec
    | ProcessChangeCipherSpec | ReadNextProto | ReadChannelId | ReadClientFinished | SendServerFinished
    | FinishServerHandshake | Complete

  /** What has gone to and fro when a state is entered, given the choices made so far. */
  function Expected(state: State, c: Choices): seq<Step> {
    match state
    case StartAccept => []
    case ReadClientHello => []
    case SelectCertificate => []
    case Tls13 => []
    case SelectParameters => []
    case SendServerHello => FirstHello(c)
    case SendServerCertificate => Hellos(c)
    case SendServerKeyExchange => UpToStatus(c)
    case SendServerHelloDone => UpToKeyExchange(c)
    case ReadClientCertificate => UpToHelloDone(c)
    case VerifyClientCertificate => UpToAnswer(c)
    case ReadClientKeyExchange => UpToAnswer(c)
    case ReadClientCertificateVerify => UpToClientKey(c)
    case ReadClientChangeCipherSpec => BeforeClientFinish(c)
    case ProcessChangeCipherSpec => BeforeClientFinish(c)
    case ReadNextProto => BeforeClientFinish(c) + [Change(Client)]
    case ReadChannelId => BeforeClientFinish(c) + [Change(Client)] + Maybe(c.nextProto, Client, NextProto)
    case ReadClientFinished =>
      BeforeClientFinish(c) + [Change(Client)] + Maybe(c.nextProto, Client, NextProto)
          + Maybe(c.channelId, Client, ChannelId)
    case SendServerFinished => if c.resumed then Hellos(c) else ClientFinish(UpToVerify(c), c)
    case FinishServerHandshake => Flow(c)
    case Complete => Flow(c)
  }

  function BeforeClientFinish(c: Choices): seq<Step> {
    if c.resumed then ServerFinish(Hellos(c), c) else UpToVerify(c)
  }

  /** How far a state is from the end. */
  function Rank(state: State, resumed: bool): nat {
    match state
    case StartAccept => 20
    case ReadClientHello => 19
    case SelectCertificate => 18
    case SelectParameters => 17
    case SendServerHello => 16
    case SendServerCertificate => 15
    case SendServerKeyExchange => 14
    case SendServerHelloDone => 13
    case ReadClientCertificate => 12
    case VerifyClientCertificate => 11
    case ReadClientKeyExchange => 10
    case ReadClientCertificateVerify => 9
    case ReadClientChangeCipherSpec => 8
    case ProcessChangeCipherSpec => 7
    case ReadNextProto => 6
    case ReadChannelId => 5
    case ReadClientFinished => 4
    case SendServerFinished => if resumed then 9 else 3
    case Tls13 => 2
    case FinishServerHandshake => 1
    case Complete => 0
  }

  /** What the server knows besides the messages exchanged. */
  datatype Known = Known(
    certificateAuth: bool,       // the cipher authenticates the server by certificate
    requiresKeyExchange: bool,   // the key exchange cannot do without a ServerKeyExchange
    params: bool,                // there are parameters for a ServerKeyExchange
    statusExpected: bool,        // a CertificateStatus is to be sent
    wantsCertificate: bool,      // the client is to be asked for a certificate
    chain: Option<seq<byte>>,    // the client's Certificate
    shown: bool,                 // it shows at least one certificate
    chainAccepted: bool,         // and they were verified
    ticketExpected: bool,
    ecdhe: bool,                 // the key exchange is ECDHE
    sessionHash: bool,           // the session resumed has its original handshake's hash
    nextProto: bool,
    channelId: bool)
  {
    /** What is chosen with the parameters, but for what the ServerHello may still withdraw. */
    predicate SameChoice(o: Known) {
      && certificateAuth == o.certificateAuth && requiresKeyExchange == o.requiresKeyExchange
      && wantsCertificate == o.wantsCertificate && ticketExpected == o.ticketExpected
      && ecdhe == o.ecdhe && sessionHash == o.sessionHash
    }

    /** The terms of the handshake, which do not change any more once the ServerHello is out. */
    predicate SameTerms(o: Known) {
      SameChoice(o) && nextProto == o.nextProto && channelId == o.channelId
    }

    /** The ServerHello withdraws extensions and grants none. */
    predicate Narrows(o: Known) {
      SameChoice(o) && (o.nextProto ==> nextProto) && (o.channelId ==> channelId)
    }

    /** Channel ID goes with ECDHE, and in a resumed handshake with the hash of the original one. */
    predicate ChannelIdAllowed(resumed: bool) {
      channelId ==> ecdhe && (resumed ==> sessionHash)
    }

    predicate SameChain(o: Known) {
      chain == o.chain && shown == o.shown && chainAccepted == o.chainAccepted
    }

    function Learn(o: Offer, wants: bool, ecdhe: bool, sessionHash: bool): (k: Known)
      ensures SameChain(k) && k.shown == shown && k.certificateAuth == o.certificateAuth && k.wantsCertificate == wants
    {
      Known(o.certificateAuth, o.requiresKeyExchange, false, o.statusExpected, wants, chain, shown, chainAccepted,
        o.ticketExpected, ecdhe, sessionHash, o.nextProto, o.channelId)
    }
  }

  const NOTHING: Known :=
    Known(false, false, false, false, false, None, false, false, false, false, false, false, false)

  /** What a step that leaves this state does to the terms. */
  predicate TermsKept(state: State, a: Known, b: Known) {
    state == SelectParameters || if state == SendServerHello then a.Narrows(b) else a.SameTerms(b)
  }

  /** What the server knows of the client's chain is what the log says. */
  ghost predicate Tied(x: Crypto, log: seq<Event>, k: Known) {
    && k.chain == LastBody(Client, Certificate, log)
    && k.shown == Shows(x, Client, log)
    && (k.chainAccepted ==> Accepts(x, Client, log))
  }

  lemma TiedKept(x: Crypto, a: seq<Event>, b: seq<Event>, steps: seq<Step>, k: Known, l: Known)
    requires Tied(x, a, k) && Grew(a, b, steps) && Msg(Client, Certificate) !in steps
    requires k.SameChain(l)
    ensures Tied(x, b, l)
  {
    hide LastBody, Grew;
    LastBodyKept(Client, Certificate, a, b, steps);
  }

  lemma OnlyChain(k: Known, chain: Option<seq<byte>>, shown: bool, accepted: bool)
    ensures k.SameTerms(k.(chain := chain, shown := shown, chainAccepted := accepted))
  {
  }

  lemma NothingNew(k: Known)
    ensures k.SameTerms(k) && k.SameChain(k)
  {
  }

  /** What the ServerHello may withdraw, and the status that a full handshake may add. */
  lemma Withdrawn(k: Known, nextProto: bool, channelId: bool, status: bool)
    requires (nextProto ==> k.nextProto) && (channelId ==> k.channelId)
    ensures var l := k.(statusExpected := status, nextProto := nextProto, channelId := channelId);
            k.Narrows(l) && k.SameChain(l)
    ensures var l := k.(nextProto := nextProto, channelId := channelId); k.Narrows(l) && k.SameChain(l)
  {
  }

  lemma OnlyStatus(k: Known, status: bool, params: bool)
    ensures k.SameTerms(k.(statusExpected := status)) && k.SameChain(k.(statusExpected := status))
    ensures k.SameTerms(k.(params := params)) && k.SameChain(k.(params := params))
  {
  }

  /** The client shows its chain, which has not been looked at yet. */
  lemma TiedByChain(x: Crypto, a: seq<Event>, m: Message, k: Known)
    requires m.kind == Certificate
    ensures Tied(x, a + [Sent(Client, m)],
            k.(chain := Some(m.body), shown := x.nonEmpty(m.body), chainAccepted := false))
  {
    hide LastBody;
    LastBodyOfNext(Client, m, a);
  }

  /** The verdict on the chain that was shown. */
  lemma TiedByVerdict(x: Crypto, log: seq<Event>, k: Known)
    requires Tied(x, log, k) && (k.shown ==> k.chain.Some? && x.accepts(k.chain.value))
    ensures Tied(x, log, k.(chainAccepted := k.shown))
  {
    hide LastBody;
  }

  datatype View = View(
    state: State,
    c: Choices,
    k: Known,
    buffered: bool,              // the transcript buffer is there
    hashed: bool)                // the transcript hash is running
  {
    /** What has been settled by the time each state is reached. */
    predicate Settled() {
      var rank := Rank(state, c.resumed);
      && !c.cookie && !c.early && Negotiated(rank)
      && if rank >= 17 then buffered && !k.shown
         else
           && hashed
           && if c.resumed then state in {SendServerHello, SendServerFinished} || rank <= 8
              else SettledInFull(rank)
    }

    /** What was negotiated comes in and goes out, in either kind of handshake, by the distance from its end. */
    predicate Negotiated(rank: nat) {
      state != Tls13 ==>
        && (rank <= 15 ==> k.ChannelIdAllowed(c.resumed))
        && (rank <= (if c.resumed then 8 else 2) ==> c.ticket == k.ticketExpected)
        && (rank <= 5 ==> c.nextProto == k.nextProto)
        && (rank <= 4 ==> c.channelId == k.channelId)
    }

    /** The same for a full handshake, by the distance from its end. */
    predicate SettledInFull(rank: nat) {
      && (k.wantsCertificate ==> k.certificateAuth)
      && (rank >= 12 ==> !k.shown)
      && (rank >= 12 && k.wantsCertificate ==> buffered)
      && (rank <= 15 ==> (k.statusExpected ==> k.certificateAuth))
      && (rank <= 14 ==>
            c.certificate == k.certificateAuth && c.status == k.statusExpected && (k.requiresKeyExchange ==> k.params))
      && (rank <= 13 ==> c.keyExchange == k.params)
      && (rank <= 12 ==> c.request == k.wantsCertificate)
      && (rank <= 11 ==> c.answer == c.request && (k.shown ==> c.answer))
      && (9 <= rank <= 11 && k.shown ==> buffered)
      && (rank <= 10 ==> (k.shown ==> k.chainAccepted))
      && (rank <= 8 ==> c.verify == k.shown)
    }

    predicate Ok(shape: seq<Step>) {
      state != Tls13 && Settled() && shape == Expected(state, c)
    }
  }

  /** The server and all that a step could leave a trace in. */
  datatype Snapshot = Snapshot(
    v: View, log: seq<Event>, inbox: seq<Message>, received: seq<Message>, all: seq<byte>, tls13: bool, refused: nat)

  /** What a server cannot go on from: in front of it is a message that is out of its turn, a signature that does
      not cover the transcript, or a Finished that does not fit; or it does not accept the chain it was shown. */
  ghost predicate Misplaced(x: Crypto, s: Snapshot) {
    var k := s.v.k;
    match s.v.state
    case VerifyClientCertificate => k.shown && (k.chain == None || !x.accepts(k.chain.value))
    case _ =>
      s.inbox != [] &&
      var m := s.inbox[0];
      match s.v.state
      case ReadClientHello => m.kind != ClientHello
      case ReadClientCertificate => k.wantsCertificate && m.kind != Certificate
      case ReadClientKeyExchange => m.kind != ClientKeyExchange
      case ReadClientCertificateVerify => k.shown && (m.kind != CertificateVerify || !x.signs(s.all, m.body))
      case ReadNextProto => k.nextProto && m.kind != NextProto
      case ReadChannelId => k.channelId && m.kind != ChannelId
      case ReadClientFinished => m.kind != Finished || m.body != x.mac(Client, s.all)
      case _ => false
  }

  /** From v to w, with these steps in between, everything stays as it should and the end comes nearer. */
  predicate Leads(v: View, w: View, steps: seq<Step>) {
    && Rank(w.state, w.c.resumed) < Rank(v.state, v.c.resumed)
    && (v.Settled() ==> w.Settled() && w.state != Tls13 && Expected(w.state, w.c) == Expected(v.state, v.c) + steps)
  }

  // The edges of the machine.

  lemma PeekEdges(v: View)
    ensures v.state == StartAccept ==> Leads(v, v.(state := ReadClientHello), [])
    ensures v.state == ReadClientHello ==> Leads(v, v.(state := SelectCertificate), [])
    ensures v.state == SelectCertificate ==> Leads(v, v.(state := SelectParameters), [])
  {
    hide FirstHello, Hellos, Flow, BeforeClientFinish;
  }

  lemma ParametersShape(c: Choices, resumed: bool)
    requires !c.cookie && !c.early
    ensures Expected(SendServerHello, c.(resumed := resumed)) == [Msg(Client, ClientHello)]
  {
    var none: seq<Step> := [];
    assert [Msg(Client, ClientHello)] + none + none == [Msg(Client, ClientHello)];
  }

  lemma ResumeEdge(v: View, k: Known)
    requires v.state == SelectParameters
    ensures Leads(v, View(SendServerHello, v.c.(resumed := true), k, false, true), [Msg(Client, ClientHello)])
  {
    hide FirstHello, Hellos, Flow, BeforeClientFinish;
    if v.Settled() {
      ParametersShape(v.c, true);
    }
  }

  lemma FullEdge(v: View, k: Known, buffered: bool)
    requires v.state == SelectParameters && !k.shown && (k.wantsCertificate ==> k.certificateAuth && buffered)
    ensures Leads(v, View(SendServerHello, v.c.(resumed := false), k, buffered, true), [Msg(Client, ClientHello)])
  {
    hide FirstHello, Hellos, Flow, BeforeClientFinish;
    if v.Settled() {
      ParametersShape(v.c, false);
    }
  }

  lemma ResumedHelloEdge(v: View, nextProto: bool, channelId: bool)
    requires v.state == SendServerHello && v.c.resumed && (channelId ==> v.k.ecdhe && v.k.sessionHash)
    ensures Leads(v, v.(state := SendServerFinished, k := v.k.(nextProto := nextProto, channelId := channelId)),
                  [Msg(Server, ServerHello)])
  {
    hide FirstHello, UpToVerify, ClientFinish, Flow, BeforeClientFinish;
  }

  lemma FullHelloEdge(v: View, nextProto: bool, channelId: bool, status: bool)
    requires v.state == SendServerHello && !v.c.resumed && (status ==> v.k.certificateAuth) && (channelId ==> v.k.ecdhe)
    ensures Leads(v, v.(state := SendServerCertificate,
                        k := v.k.(statusExpected := status, nextProto := nextProto, channelId := channelId)),
                  [Msg(Server, ServerHello)])
  {
    hide FirstHello, UpToVerify, ClientFinish, Flow, BeforeClientFinish;
  }

  lemma CertificateShape(c: Choices, certificate: bool, status: bool)
    ensures Expected(SendServerKeyExchange, c.(certificate := certificate, status := status))
         == Expected(SendServerCertificate, c)
             + (Maybe(certificate, Server, Certificate) + Maybe(status, Server, CertificateStatus))
  {
    hide Hellos, FirstHello, Maybe;
    SameHellos(c, c.(certificate := certificate, status := status));
  }

  lemma CertificateEdge(v: View, params: bool)
    requires v.state == SendServerCertificate && (v.k.requiresKeyExchange ==> params)
    ensures Leads(v,
            v.(state := SendServerKeyExchange,
                c := v.c.(certificate := v.k.certificateAuth, status := v.k.statusExpected),
                        k := v.k.(params := params)),
                  Maybe(v.k.certificateAuth, Server, Certificate)
                      + Maybe(v.k.statusExpected, Server, CertificateStatus))
  {
    hide Expected;
    CertificateShape(v.c, v.k.certificateAuth, v.k.statusExpected);
  }

  lemma NoKeyExchangeEdge(v: View)
    requires v.state == SendServerKeyExchange && !v.k.params
    ensures Leads(v, v.(state := SendServerHelloDone, c := v.c.(keyExchange := false)), [])
  {
    hide UpToStatus, UpToRequest, Flow, BeforeClientFinish, FirstHello;
    SameToStatus(v.c, v.c.(keyExchange := false));
  }

  lemma KeyExchangeEdge(v: View)
    requires v.state == SendServerKeyExchange && v.k.params
    ensures Leads(v, v.(state := SendServerHelloDone, c := v.c.(keyExchange := true)), [Msg(Server, ServerKeyExchange)])
  {
    hide UpToStatus, UpToRequest, Flow, BeforeClientFinish, FirstHello;
    SameToStatus(v.c, v.c.(keyExchange := true));
  }

  lemma HelloDoneShape(c: Choices, request: bool)
    ensures Expected(ReadClientCertificate, c.(request := request))
         == Expected(SendServerHelloDone, c)
             + (Maybe(request, Server, CertificateRequest) + [Msg(Server, ServerHelloDone)])
  {
    hide UpToKeyExchange, Maybe;
    SameToKeyExchange(c, c.(request := request));
  }

  lemma HelloDoneEdge(v: View)
    requires v.state == SendServerHelloDone
    ensures Leads(v, v.(state := ReadClientCertificate, c := v.c.(request := v.k.wantsCertificate)),
                  Maybe(v.k.wantsCertificate, Server, CertificateRequest) + [Msg(Server, ServerHelloDone)])
  {
    hide Expected;
    HelloDoneShape(v.c, v.k.wantsCertificate);
  }

  lemma AnswerShape(c: Choices, answer: bool)
    ensures Expected(VerifyClientCertificate, c.(answer := answer))
         == Expected(ReadClientCertificate, c) + Maybe(answer, Client, Certificate)
  {
    hide UpToHelloDone;
    SameToHelloDone(c, c.(answer := answer));
  }

  lemma NoAnswerEdge(v: View)
    requires v.state == ReadClientCertificate && !v.k.wantsCertificate
    ensures Leads(v, v.(state := VerifyClientCertificate, c := v.c.(answer := false)), [])
  {
    hide Expected;
    AnswerShape(v.c, false);
  }

  lemma AnswerEdge(v: View, chain: Option<seq<byte>>)
    requires v.state == ReadClientCertificate && v.k.wantsCertificate
    ensures Leads(v, v.(state := VerifyClientCertificate, c := v.c.(answer := true),
                        k := v.k.(chain := chain, shown := true, chainAccepted := false)), [Msg(Client, Certificate)])
  {
    hide Expected;
    AnswerShape(v.c, true);
  }

  lemma EmptyAnswerEdge(v: View, chain: Option<seq<byte>>)
    requires v.state == ReadClientCertificate && v.k.wantsCertificate
    ensures Leads(v, v.(state := VerifyClientCertificate, c := v.c.(answer := true), buffered := false,
                        k := v.k.(chain := chain, shown := false, chainAccepted := false)), [Msg(Client, Certificate)])
  {
    hide Expected;
    AnswerShape(v.c, true);
  }

  lemma VerifyEdge(v: View)
    requires v.state == VerifyClientCertificate
    ensures Leads(v, v.(state := ReadClientKeyExchange, k := v.k.(chainAccepted := v.k.shown)), [])
  {
    hide UpToAnswer, UpToClientKey, Flow, BeforeClientFinish, FirstHello;
  }

  lemma ClientKeyEdge(v: View)
    requires v.state == ReadClientKeyExchange
    ensures Leads(v, v.(state := ReadClientCertificateVerify), [Msg(Client, ClientKeyExchange)])
  {
    hide UpToAnswer, UpToVerify, Flow, BeforeClientFinish, FirstHello;
  }

  lemma VerifyShape(c: Choices, verify: bool)
    requires !c.resumed
    ensures Expected(ReadClientChangeCipherSpec, c.(verify := verify))
         == Expected(ReadClientCertificateVerify, c) + Maybe(verify, Client, CertificateVerify)
  {
    hide UpToClientKey;
    SameToClientKey(c, c.(verify := verify));
  }

  lemma NoSignatureEdge(v: View)
    requires v.state == ReadClientCertificateVerify && !v.k.shown
    ensures Leads(v, v.(state := ReadClientChangeCipherSpec, c := v.c.(verify := false), buffered := false), [])
  {
    hide Expected;
    if !v.c.resumed {
      VerifyShape(v.c, false);
    }
  }

  lemma SignatureEdge(v: View)
    requires v.state == ReadClientCertificateVerify && v.k.shown
    ensures Leads(v, v.(state := ReadClientChangeCipherSpec, c := v.c.(verify := true), buffered := false),
            [Msg(Client, CertificateVerify)])
  {
    hide Expected;
    if !v.c.resumed {
      VerifyShape(v.c, true);
    }
  }

  lemma WaitEdge(v: View)
    requires v.state == ReadClientChangeCipherSpec
    ensures Leads(v, v.(state := ProcessChangeCipherSpec), [])
  {
    hide BeforeClientFinish, FirstHello, Hellos, UpToVerify, Flow;
  }

  lemma ChangeEdge(v: View)
    requires v.state == ProcessChangeCipherSpec
    ensures Leads(v, v.(state := ReadNextProto), [Change(Client)])
  {
    hide BeforeClientFinish, FirstHello, Hellos, UpToVerify, Flow;
  }

  lemma SameBefore(c: Choices, d: Choices)
    requires SameServerChoices(c, d) && c.request == d.request && c.answer == d.answer && c.verify == d.verify
    requires c.resumed == d.resumed && c.ticket == d.ticket
    ensures BeforeClientFinish(c) == BeforeClientFinish(d)
  {
    hide UpToVerify, Hellos, Maybe;
    SameToVerify(c, d);
    SameHellos(c, d);
  }

  lemma NextProtoShape(c: Choices, nextProto: bool)
    ensures Expected(ReadChannelId, c.(nextProto := nextProto)) == Expected(ReadNextProto, c)
            + Maybe(nextProto, Client, NextProto)
  {
    hide BeforeClientFinish, Maybe;
    SameBefore(c, c.(nextProto := nextProto));
  }

  lemma NoNextProtoEdge(v: View)
    requires v.state == ReadNextProto && !v.k.nextProto
    ensures Leads(v, v.(state := ReadChannelId, c := v.c.(nextProto := false)), [])
  {
    hide Expected;
    NextProtoShape(v.c, false);
  }

  lemma NextProtoEdge(v: View)
    requires v.state == ReadNextProto && v.k.nextProto
    ensures Leads(v, v.(state := ReadChannelId, c := v.c.(nextProto := true)), [Msg(Client, NextProto)])
  {
    hide Expected;
    NextProtoShape(v.c, true);
  }

  lemma ChannelIdShape(c: Choices, channelId: bool)
    ensures Expected(ReadClientFinished, c.(channelId := channelId)) == Expected(ReadChannelId, c)
            + Maybe(channelId, Client, ChannelId)
  {
    hide BeforeClientFinish, Maybe;
    SameBefore(c, c.(channelId := channelId));
  }

  lemma NoChannelIdEdge(v: View)
    requires v.state == ReadChannelId && !v.k.channelId
    ensures Leads(v, v.(state := ReadClientFinished, c := v.c.(channelId := false)), [])
  {
    hide Expected;
    ChannelIdShape(v.c, false);
  }

  lemma ChannelIdEdge(v: View)
    requires v.state == ReadChannelId && v.k.channelId
    ensures Leads(v, v.(state := ReadClientFinished, c := v.c.(channelId := true)), [Msg(Client, ChannelId)])
  {
    hide Expected;
    ChannelIdShape(v.c, true);
  }

  lemma ResumedFinishedEdge(v: View)
    requires v.state == ReadClientFinished && v.c.resumed
    ensures Leads(v, v.(state := FinishServerHandshake), [Msg(Client, Finished)])
  {
    hide FirstHello, Hellos, UpToVerify, Maybe, ServerFinish;
  }

  lemma FullFinishedEdge(v: View)
    requires v.state == ReadClientFinished && !v.c.resumed
    ensures Leads(v, v.(state := SendServerFinished), [Msg(Client, Finished)])
  {
    hide FirstHello, Hellos, UpToVerify, Maybe, ServerFinish;
  }

  lemma ServerFinishOf(before: seq<Step>, c: Choices)
    ensures ServerFinish(before, c)
            == before + (Maybe(c.ticket, Server, NewSessionTicket) + [Change(Server)] + [Msg(Server, Finished)])
  {
  }

  lemma SameClientFinish(before: seq<Step>, c: Choices, d: Choices)
    requires c.nextProto == d.nextProto && c.channelId == d.channelId
    ensures ClientFinish(before, c) == ClientFinish(before, d)
  {
  }

  lemma ResumedFinishShape(c: Choices, ticket: bool)
    requires c.resumed
    ensures Expected(ReadClientChangeCipherSpec, c.(ticket := ticket))
         == Expected(SendServerFinished, c)
             + (Maybe(ticket, Server, NewSessionTicket) + [Change(Server)] + [Msg(Server, Finished)])
  {
    hide UpToVerify, Hellos, FirstHello, Maybe, ServerFinish, ClientFinish, Flow;
    SameHellos(c, c.(ticket := ticket));
    ServerFinishOf(Hellos(c), c.(ticket := ticket));
  }

  lemma FullFinishShape(c: Choices, ticket: bool)
    requires !c.resumed
    ensures Expected(FinishServerHandshake, c.(ticket := ticket))
         == Expected(SendServerFinished, c)
             + (Maybe(ticket, Server, NewSessionTicket) + [Change(Server)] + [Msg(Server, Finished)])
  {
    hide UpToVerify, Hellos, FirstHello, Maybe, ServerFinish, ClientFinish, BeforeClientFinish;
    var d := c.(ticket := ticket);
    SameToVerify(c, d);
    SameClientFinish(UpToVerify(c), c, d);
    ServerFinishOf(ClientFinish(UpToVerify(c), c), d);
  }

  lemma ResumedFlightEdge(v: View)
    requires v.state == SendServerFinished && v.c.resumed
    ensures Leads(v, v.(state := ReadClientChangeCipherSpec, c := v.c.(ticket := v.k.ticketExpected)),
                  Maybe(v.k.ticketExpected, Server, NewSessionTicket) + [Change(Server)] + [Msg(Server, Finished)])
  {
    hide Expected, Maybe;
    ResumedFinishShape(v.c, v.k.ticketExpected);
  }

  lemma FullFlightEdge(v: View)
    requires v.state == SendServerFinished && !v.c.resumed
    ensures Leads(v, v.(state := FinishServerHandshake, c := v.c.(ticket := v.k.ticketExpected)),
                  Maybe(v.k.ticketExpected, Server, NewSessionTicket) + [Change(Server)] + [Msg(Server, Finished)])
  {
    hide Expected, Maybe;
    FullFinishShape(v.c, v.k.ticketExpected);
  }

  lemma LastEdge(v: View)
    requires v.state == FinishServerHandshake
    ensures Leads(v, v.(state := Complete), [])
  {
    hide FirstHello, Flow, BeforeClientFinish, Hellos, UpToVerify;
  }

  /** The states that take a message. */
  predicate Reads(state: State) {
    state in {ReadClientHello, ReadClientCertificate, ReadClientKeyExchange, ReadClientCertificateVerify, ReadNextProto,
      ReadChannelId, ReadClientFinished}
  }

  class Machine {
    const hs: Handshake
    var state: State
    var k: Known
    var tls13: bool
    ghost var refused: nat        // how often code outside this model has refused something

    function Now(): View
      reads this, hs, hs.transcript
    {
      View(state, hs.choices, k, hs.transcript.buffer.Some?, hs.transcript.hash.Some?)
    }

    /** Once looked at, the ClientHello stays at the head of the inbox until it is hashed. */
    predicate Looking()
      reads this, hs
    {
      state in {SelectCertificate, SelectParameters} ==> hs.inbox != [] && hs.inbox[0].kind == ClientHello
    }

    ghost predicate Valid()
      reads this, hs, hs.transcript
    {
      && hs.side == Server
      && if tls13 then state in {Tls13, FinishServerHandshake, Complete}
         else hs.Valid() && Now().Ok(Shape(hs.log)) && Looking() && Tied(hs.crypto, hs.log, k)
    }

    /** The kind of the message in front. */
    function Head(): Option<Kind>
      reads hs
    {
      if hs.inbox == [] then None else Some(hs.inbox[0].kind)
    }

    ghost function Seen(): Snapshot
      reads this, hs, hs.transcript
    {
      Snapshot(Now(), hs.log, hs.inbox, hs.received, hs.transcript.all, tls13, refused)
    }

    /** What is asked for is needed: a message only when none is there and this state takes one, a flush
        only when something was added to a log this long, a ChangeCipherSpec only when it is due. */
    ghost predicate Asks(r: Wait, before: nat)
      reads this, hs
    {
      tls13 || match r
        case ReadMessage => hs.inbox == [] && Reads(state)
        case ReadServerHello => hs.inbox == [] && Reads(state)
        case ReadChangeCipherSpec => state == ProcessChangeCipherSpec
        case Flush => before < |hs.log|
        case _ => true
    }

    /** What each step of the machine promises, whatever it met: the order kept, progress when it goes
        on, no trace when it has to be tried again, and an error only for a reason. */
    ghost predicate Stepped(r: Wait, was: Snapshot)
      reads this, hs, hs.transcript
    {
      if r == Error then refused > was.refused || Misplaced(hs.crypto, was)
      else
        && Valid() && was.log <= hs.log
        && (state == was.v.state ==> r != Done && Seen() == was)
        && (state != was.v.state ==> Rank(state, hs.choices.resumed) < Rank(was.v.state, was.v.c.resumed))
        && Asks(r, |was.log|) && hs.received == was.received && (was.tls13 ==> tls13)
        && TermsKept(was.v.state, was.v.k, k)
    }

    constructor (dtls: bool, crypto: Crypto)
      ensures Valid() && state == StartAccept && fresh(hs) && fresh(hs.transcript) && hs.crypto == crypto
    {
      hs := new Handshake(Server, dtls, crypto);
      state := StartAccept;
      k, tls13, refused := NOTHING, false, 0;
    }

    /** What code outside this model decides: whether it succeeds, and the body of a message. */
    method Choose() returns (ok: bool, body: seq<byte>)
      modifies this`refused
      ensures refused == old(refused) + if ok then 0 else 1
      ensures old(Valid()) ==> Valid()
    {
      hide Handshake.Valid, View.Ok, Shape, Tied;
      ok := *;
      body := *;
      refused := refused + if ok then 0 else 1;
    }

    /** The message in front is hashed and released, and decides this, unless its contents are refused. */
    method Take(c: Choices) returns (ok: bool)
      requires hs.Valid() && hs.inbox != [] && hs.inbox[0].kind !in {Finished, CertificateVerify}
               && c.cookie == hs.choices.cookie
      modifies this`refused, hs`inbox, hs`log, hs`choices, hs.transcript
      ensures refused == old(refused) + if ok then 0 else 1
      ensures ok ==>
                && hs.Valid() && hs.choices == c
                && Grew(old(hs.log), hs.log, [Msg(hs.side.Other(), old(hs.inbox)[0].kind)])
                && hs.log == old(hs.log) + [Sent(hs.side.Other(), old(hs.inbox)[0])]
                && hs.inbox == old(hs.inbox)[1..]
                && hs.transcript.buffer.Some? == old(hs.transcript.buffer.Some?)
                && hs.transcript.hash.Some? == old(hs.transcript.hash.Some?)
    {
      hide Handshake.Valid, Valid, Grew;
      var body;
      ok, body := Choose();
      if ok {
        hs.HashAndRelease(c);
      }
    }

    // The ways a step ends.

    lemma Inside()
      requires Valid() && state !in {Tls13, FinishServerHandshake, Complete}
      ensures !tls13 && hs.side == Server && hs.Valid() && Now().Ok(Shape(hs.log)) && Looking()
              && Tied(hs.crypto, hs.log, k)
    {
    }

    lemma Again(r: Wait)
      requires Valid() && r !in {Done, Error, ReadMessage, ReadServerHello, ReadChangeCipherSpec, Flush}
      ensures Stepped(r, Seen())
    {
    }

    lemma Awaits(r: Wait)
      requires Valid() && r == ReadMessage && hs.inbox == [] && Reads(state)
      ensures Stepped(r, Seen())
    {
    }

    lemma Failed(was: Snapshot)
      requires refused > was.refused || Misplaced(hs.crypto, was)
      ensures Stepped(Error, was)
    {
    }

    /** A step that changes nothing the server knows of the client's chain. */
    lemma Moved(was: Snapshot, steps: seq<Step>, r: Wait)
      requires !tls13 && hs.side == Server && hs.Valid() && Looking() && Grew(was.log, hs.log, steps)
      requires was.v.Ok(Shape(was.log)) && Leads(was.v, Now(), steps) && state != was.v.state
      requires r !in {Error, ReadMessage, ReadServerHello} && (r == Flush ==> steps != [])
      requires r == ReadChangeCipherSpec ==> state == ProcessChangeCipherSpec
      requires Tied(hs.crypto, was.log, was.v.k) && Msg(Client, Certificate) !in steps
      requires was.v.k.SameChain(k)
      requires TermsKept(was.v.state, was.v.k, k)
      requires hs.received == was.received && !was.tls13
      ensures Stepped(r, was)
    {
      hide Stepped, Leads, Tied, View.Ok, Grew, Handshake.Valid;
      TiedKept(hs.crypto, was.log, hs.log, steps, was.v.k, k);
      MovedAndLearnt(was, steps, r);
    }

    /** The same for a step that adds nothing to the log, and for one that adds one event. */
    lemma Silent(was: Snapshot, r: Wait)
      requires !tls13 && hs.side == Server && hs.Valid() && Looking() && hs.log == was.log
      requires was.v.Ok(Shape(was.log)) && Leads(was.v, Now(), []) && state != was.v.state
      requires r !in {Error, ReadMessage, ReadServerHello, Flush}
      requires r == ReadChangeCipherSpec ==> state == ProcessChangeCipherSpec
      requires Tied(hs.crypto, was.log, was.v.k) && k == was.v.k && hs.received == was.received && !was.tls13
      ensures Stepped(r, was)
    {
      hide Stepped, Leads, Tied, View.Ok, Grew, Handshake.Valid;
      GrewByNothing(hs.log);
      Moved(was, [], r);
    }

    lemma MovedBy(was: Snapshot, step: Step, r: Wait)
      requires !tls13 && hs.side == Server && hs.Valid() && Looking() && Grew(was.log, hs.log, [step])
      requires was.v.Ok(Shape(was.log)) && Leads(was.v, Now(), [step]) && state != was.v.state
      requires r !in {Error, ReadMessage, ReadServerHello} && step != Msg(Client, Certificate)
      requires r == ReadChangeCipherSpec ==> state == ProcessChangeCipherSpec
      requires Tied(hs.crypto, was.log, was.v.k) && k == was.v.k && hs.received == was.received && !was.tls13
      ensures Stepped(r, was)
    {
      hide Stepped, Leads, Tied, View.Ok, Grew, Handshake.Valid;
      Moved(was, [step], r);
    }

    /** One event has been added to the log, and with it the next state is entered. */
    method Enter(ghost was: Snapshot, next: State, ghost w: View, ghost step: Step)
      requires !tls13 && hs.side == Server && hs.Valid()
      requires Grew(was.log, hs.log, [step]) && step != Msg(Client, Certificate)
      requires was.v.Ok(Shape(was.log)) && Leads(was.v, w, [step]) && next != was.v.state
      requires w == View(next, hs.choices, k, hs.transcript.buffer.Some?, hs.transcript.hash.Some?)
      requires next !in {SelectCertificate, SelectParameters}
      requires Tied(hs.crypto, was.log, was.v.k) && k == was.v.k && hs.received == was.received && !was.tls13
      modifies this`state
      ensures Stepped(Done, was) && state == next
    {
      hide Stepped, Leads, Tied, View.Ok, Grew, Handshake.Valid;
      state := next;
      MovedBy(was, step, Done);
    }

    lemma MovedAndLearnt(was: Snapshot, steps: seq<Step>, r: Wait)
      requires !tls13 && hs.side == Server && hs.Valid() && Looking() && Grew(was.log, hs.log, steps)
      requires was.v.Ok(Shape(was.log)) && Leads(was.v, Now(), steps) && state != was.v.state
      requires r !in {Error, ReadMessage, ReadServerHello} && (r == Flush ==> steps != [])
      requires r == ReadChangeCipherSpec ==> state == ProcessChangeCipherSpec
      requires Tied(hs.crypto, hs.log, k) && hs.received == was.received && !was.tls13
      requires TermsKept(was.v.state, was.v.k, k)
      ensures Stepped(r, was)
    {
    }

    lemma HelloStays()
      requires Looking() && state == SelectParameters
      ensures hs.inbox != [] && hs.inbox[0].kind == ClientHello
    {
    }

    lemma BufferYet(v: View, shape: seq<Step>)
      requires v.state == SelectParameters && v.Ok(shape)
      ensures v.buffered && !v.k.shown
    {
    }

    lemma HashedYet(v: View, shape: seq<Step>)
      requires v.state !in {StartAccept, ReadClientHello, SelectCertificate, SelectParameters} && v.Ok(shape)
      ensures v.hashed
    {
    }

    lemma BufferForChecking(v: View, shape: seq<Step>)
      requires v.state == ReadClientCertificateVerify && v.k.shown && v.Ok(shape)
      ensures v.buffered && v.hashed
    {
    }

    method DoStartAccept() returns (r: Wait)
      requires Valid() && state == StartAccept
      modifies this, hs, hs.transcript
      ensures Stepped(r, old(Seen()))
      ensures r == Done && state == ReadClientHello
    {
      hide Valid, Stepped, Leads, Handshake.Valid, View.Ok, Shape, Grew, Tied, Asks, Rank,
        Expected, LastBody, Known.Learn, Known.SameTerms, Known.SameChain,
        View.Settled, Reads, Shows, Accepts, Handshake.HeadHashed;
      Inside();
      ghost var was := Seen();
      state := ReadClientHello;
      assert Now() == was.v.(state := ReadClientHello);
      PeekEdges(was.v);
      Silent(was, Done);
      return Done;
    }

    /** The ClientHello is looked at, and stays where it is. */
    method DoReadClientHello() returns (r: Wait)
      requires Valid() && state == ReadClientHello
      modifies this, hs, hs.transcript
      ensures Stepped(r, old(Seen()))
      ensures old(Head()) == None <==> r == ReadMessage
      ensures old(Head()) !in {None, Some(ClientHello)} ==> r == Error
      ensures r in {Done, Error, ReadMessage, Handoff, CertificateSelectionPending}
      ensures r == Done ==> state == SelectCertificate
    {
      hide Valid, Stepped, Leads, Handshake.Valid, View.Ok, Shape, Grew, Tied, Asks, Rank,
        Expected, LastBody, Known.Learn, Known.SameTerms, Known.SameChain,
        View.Settled, Reads, Shows, Accepts, Handshake.HeadHashed;
      Inside();
      ghost var was := Seen();
      if hs.inbox == [] {
        Awaits(ReadMessage);
        return ReadMessage;
      }
      if hs.inbox[0].kind != ClientHello {
        Failed(was);
        return Error;
      }
      var handoff: bool, pending: bool := *, *;
      if handoff || pending {
        r := if handoff then Handoff else CertificateSelectionPending;
        Again(r);
        return;
      }
      var ok, _ := Choose();
      if !ok {
        Failed(was);
        return Error;
      }
      state := SelectCertificate;
      assert Now() == was.v.(state := SelectCertificate);
      PeekEdges(was.v);
      Silent(was, Done);
      return Done;
    }

    method DoSelectCertificate() returns (r: Wait)
      requires Valid() && state == SelectCertificate
      modifies this, hs, hs.transcript
      ensures Stepped(r, old(Seen()))
      ensures r in {Done, Error, X509Lookup}
      ensures r == Done ==> state == if tls13 then Tls13 else SelectParameters
    {
      hide Valid, Stepped, Leads, Handshake.Valid, View.Ok, Shape, Grew, Tied, Asks, Rank,
        Expected, LastBody, Known.Learn, Known.SameTerms, Known.SameChain,
        View.Settled, Reads, Shows, Accepts, Handshake.HeadHashed;
      Inside();
      ghost var was := Seen();
      if hs.inbox == [] {
        Awaits(ReadMessage);
        return ReadMessage;
      }
      var later: bool, newer: bool := *, *;
      if later {
        Again(X509Lookup);
        return X509Lookup;
      }
      var ok, _ := Choose();
      if !ok {
        Failed(was);
        return Error;
      }
      if newer {
        r := EnterTls13();
        return;
      }
      state := SelectParameters;
      assert Now() == was.v.(state := SelectParameters);
      PeekEdges(was.v);
      Silent(was, Done);
      return Done;
    }

    method EnterTls13() returns (r: Wait)
      requires Valid() && state == SelectCertificate
      modifies this
      ensures Stepped(r, old(Seen()))
      ensures r == Done && state == Tls13 && tls13
    {
      hide Handshake.Valid, View.Ok, Shape;
      tls13, state := true, Tls13;
      return Done;
    }

    /** Session, cipher and whether to ask for a certificate are settled, and the ClientHello is hashed. */
    method DoSelectParameters() returns (r: Wait)
      requires Valid() && state == SelectParameters
      modifies this, hs, hs.transcript
      ensures Stepped(r, old(Seen()))
      ensures r in {Done, Error, PendingSession, PendingTicket} && (r == Done ==> state == SendServerHello)
      ensures r == Done && !hs.choices.resumed ==>
                hs.transcript.buffer.Some? == k.wantsCertificate && (k.wantsCertificate ==> k.certificateAuth)
      ensures r == Done && hs.choices.resumed ==> hs.transcript.buffer == None && !k.wantsCertificate
    {
      hide Valid, Stepped, Leads, Handshake.Valid, View.Ok, Shape, Grew, Tied, Asks, Rank,
        Expected, LastBody, Known.Learn, Known.SameTerms, Known.SameChain,
        View.Settled, Reads, Shows, Accepts, Handshake.HeadHashed;
      Inside();
      ghost var was := Seen();
      if hs.inbox == [] {
        Awaits(ReadMessage);
        return ReadMessage;
      }
      var wait: Wait, resumed: bool, offer: Offer, wants: bool, ecdhe: bool := *, *, *, *, *;
      if wait in {PendingSession, PendingTicket} {
        Again(wait);
        return wait;
      }
      var ok, _ := Choose();
      if !ok {
        Failed(was);
        return Error;
      }
      if resumed {
        r := Resume(offer, ecdhe);
      } else {
        r := StartFull(offer, wants && offer.certificateAuth, ecdhe);
      }
    }

    method Resume(offer: Offer, ecdhe: bool) returns (r: Wait)
      requires Valid() && state == SelectParameters
      modifies this, hs, hs.transcript
      ensures Stepped(r, old(Seen()))
      ensures r == Done && state == SendServerHello && hs.choices.resumed
      ensures hs.transcript.buffer == None && !k.wantsCertificate
    {
      hide Valid, Stepped, Leads, Handshake.Valid, View.Ok, Shape, Grew, Tied, Asks, Rank,
        Expected, LastBody, Known.Learn, Known.SameTerms, Known.SameChain,
        View.Settled, Reads, Shows, Accepts, Handshake.HeadHashed;
      Inside();
      ghost var was := Seen();
      HelloStays();
      BufferYet(was.v, Shape(hs.log));
      hs.TakeHello(true, false);
      var sessionHash: bool := *;
      k := k.Learn(offer, false, ecdhe, sessionHash);
      state := SendServerHello;
      Resumed(was);
      return Done;
    }

    lemma Resumed(was: Snapshot)
      requires was.v.state == SelectParameters && !was.tls13
      requires !tls13 && hs.side == Server && hs.Valid() && Grew(was.log, hs.log, [Msg(Client, ClientHello)])
      requires was.v.Ok(Shape(was.log)) && hs.received == was.received
      requires Tied(hs.crypto, was.log, was.v.k) && was.v.k.SameChain(k)
      requires state == SendServerHello && hs.choices == was.v.c.(resumed := true)
      requires hs.transcript.buffer == None && hs.transcript.hash.Some?
      ensures Stepped(Done, was)
    {
      hide Stepped, Leads, Handshake.Valid, View.Ok, Shape, Grew, Tied, Rank, Known.SameTerms, Known.SameChain;
      ResumeEdge(was.v, k);
      assert Now() == View(SendServerHello, was.v.c.(resumed := true), k, false, true);
      Moved(was, [Msg(Client, ClientHello)], Done);
    }

    /** The buffer is kept only for a client certificate. */
    method StartFull(offer: Offer, wants: bool, ecdhe: bool) returns (r: Wait)
      requires Valid() && state == SelectParameters && (wants ==> offer.certificateAuth)
      modifies this, hs, hs.transcript
      ensures Stepped(r, old(Seen()))
      ensures r == Done && state == SendServerHello && !hs.choices.resumed
      ensures hs.transcript.buffer.Some? == wants == k.wantsCertificate && k.certificateAuth == offer.certificateAuth
    {
      hide Valid, Stepped, Leads, Handshake.Valid, View.Ok, Shape, Grew, Tied, Asks, Rank,
        Expected, LastBody, Known.Learn, Known.SameTerms, Known.SameChain,
        View.Settled, Reads, Shows, Accepts, Handshake.HeadHashed;
      Inside();
      ghost var was := Seen();
      HelloStays();
      BufferYet(was.v, Shape(hs.log));
      hs.TakeHello(false, wants);
      k := k.Learn(offer, wants, ecdhe, false);
      state := SendServerHello;
      StartedFull(was);
      return Done;
    }

    lemma StartedFull(was: Snapshot)
      requires was.v.state == SelectParameters && !was.tls13
      requires !tls13 && hs.side == Server && hs.Valid() && Grew(was.log, hs.log, [Msg(Client, ClientHello)])
      requires was.v.Ok(Shape(was.log)) && hs.received == was.received
      requires Tied(hs.crypto, was.log, was.v.k) && was.v.k.SameChain(k) && !k.shown
      requires k.wantsCertificate ==> k.certificateAuth && hs.transcript.buffer.Some?
      requires state == SendServerHello && hs.choices == was.v.c.(resumed := false) && hs.transcript.hash.Some?
      ensures Stepped(Done, was)
    {
      hide Stepped, Leads, Handshake.Valid, View.Ok, Shape, Grew, Tied, Rank, Known.SameTerms, Known.SameChain;
      FullEdge(was.v, k, hs.transcript.buffer.Some?);
      assert Now() == View(SendServerHello, was.v.c.(resumed := false), k, hs.transcript.buffer.Some?, true);
      Moved(was, [Msg(Client, ClientHello)], Done);
    }

    /** Channel ID is withdrawn without ECDHE, or if the session resumed lacks the hash it needs; the next
        protocol is withdrawn if there turns out to be nothing to advertise. */
    method DoSendServerHello() returns (r: Wait)
      requires Valid() && state == SendServerHello
      modifies this, hs, hs.transcript
      ensures Stepped(r, old(Seen()))
      ensures r != Error ==>
                r == Done && state == if old(hs.choices.resumed) then SendServerFinished else SendServerCertificate
      ensures r != Error ==> (k.nextProto ==> old(k.nextProto)) && (k.channelId ==> old(k.channelId && k.ecdhe))
      ensures r != Error && old(hs.choices.resumed) ==> (k.channelId <==> old(k.channelId && k.ecdhe && k.sessionHash))
      ensures r != Error && !old(hs.choices.resumed) ==> (k.channelId <==> old(k.channelId && k.ecdhe))
    {
      hide Valid, Stepped, Leads, Handshake.Valid, View.Ok, Shape, Grew, Tied, Asks, Rank,
        Expected, LastBody, Known.Learn, Known.SameTerms, Known.SameChain,
        View.Settled, Reads, Shows, Accepts, Handshake.HeadHashed;
      Inside();
      ghost var was := Seen();
      var ok, body := Choose();
      if !ok {
        Failed(was);
        return Error;
      }
      var advertised: bool := *;
      var nextProto, channelId := k.nextProto && advertised, k.channelId && k.ecdhe;
      if hs.choices.resumed {
        r := SendResumedHello(body, nextProto, channelId && k.sessionHash);
      } else {
        r := SendFullHello(body, nextProto, channelId);
      }
    }

    method SendResumedHello(body: seq<byte>, nextProto: bool, channelId: bool) returns (r: Wait)
      requires Valid() && state == SendServerHello && hs.choices.resumed
      requires (nextProto ==> k.nextProto) && (channelId ==> k.channelId && k.ecdhe && k.sessionHash)
      modifies this, hs, hs.transcript
      ensures Stepped(r, old(Seen()))
      ensures r != Error ==> (k.nextProto, k.channelId) == (nextProto, channelId)
      ensures r == Done && state == SendServerFinished
    {
      hide Valid, Stepped, Leads, Handshake.Valid, View.Ok, Shape, Grew, Tied, Asks, Rank,
        Expected, LastBody, Known.Learn, Known.SameTerms, Known.SameChain,
        View.Settled, Reads, Shows, Accepts, Handshake.HeadHashed;
      Inside();
      ghost var was := Seen();
      var m := Handshake.NewMessage(ServerHello, body);
      hs.AddMessage(m);
      k, state := k.(nextProto := nextProto, channelId := channelId), SendServerFinished;
      ResumedHelloSent(was, nextProto, channelId);
      return Done;
    }

    lemma ResumedHelloSent(was: Snapshot, nextProto: bool, channelId: bool)
      requires was.v.state == SendServerHello && was.v.c.resumed && !was.tls13
      requires nextProto ==> was.v.k.nextProto
      requires channelId ==> was.v.k.channelId && was.v.k.ecdhe && was.v.k.sessionHash
      requires !tls13 && hs.side == Server && hs.Valid() && Grew(was.log, hs.log, [Msg(Server, ServerHello)])
      requires was.v.Ok(Shape(was.log)) && hs.received == was.received && Tied(hs.crypto, was.log, was.v.k)
      requires k == was.v.k.(nextProto := nextProto, channelId := channelId)
      requires state == SendServerFinished && hs.choices == was.v.c
      requires hs.transcript.buffer.Some? == was.v.buffered && hs.transcript.hash.Some? == was.v.hashed
      ensures Stepped(Done, was)
    {
      hide Stepped, Leads, Handshake.Valid, View.Ok, Shape, Grew, Tied, Rank, Known.SameTerms, Known.Narrows,
        Known.SameChain;
      ResumedHelloEdge(was.v, nextProto, channelId);
      assert Now() == was.v.(state := SendServerFinished, k := k);
      Withdrawn(was.v.k, nextProto, channelId, false);
      Moved(was, [Msg(Server, ServerHello)], Done);
    }

    method SendFullHello(body: seq<byte>, nextProto: bool, channelId: bool) returns (r: Wait)
      requires Valid() && state == SendServerHello && !hs.choices.resumed
      requires (nextProto ==> k.nextProto) && (channelId ==> k.channelId && k.ecdhe)
      modifies this, hs, hs.transcript
      ensures Stepped(r, old(Seen()))
      ensures r != Error ==> (k.nextProto, k.channelId) == (nextProto, channelId)
      ensures r == Done && state == SendServerCertificate
    {
      hide Valid, Stepped, Leads, Handshake.Valid, View.Ok, Shape, Grew, Tied, Asks, Rank,
        Expected, LastBody, Known.Learn, Known.SameTerms, Known.SameChain,
        View.Settled, Reads, Shows, Accepts, Handshake.HeadHashed;
      Inside();
      ghost var was := Seen();
      var m := Handshake.NewMessage(ServerHello, body);
      hs.AddMessage(m);
      var stapled: bool := *;
      r := SettleFull(was, nextProto, channelId, stapled && k.certificateAuth);
    }

    /** The ServerHello is out, and the terms are settled. */
    method SettleFull(ghost was: Snapshot, nextProto: bool, channelId: bool, status: bool) returns (r: Wait)
      requires state == SendServerHello && !hs.choices.resumed && (status ==> k.certificateAuth)
      requires (nextProto ==> k.nextProto) && (channelId ==> k.channelId && k.ecdhe)
      requires !tls13 && hs.side == Server && hs.Valid() && Grew(was.log, hs.log, [Msg(Server, ServerHello)])
      requires was.v.Ok(Shape(was.log)) && hs.received == was.received && Tied(hs.crypto, was.log, was.v.k)
      requires Now() == was.v && !was.tls13
      modifies this`k, this`state
      ensures Stepped(r, was)
      ensures r != Error ==> (k.nextProto, k.channelId) == (nextProto, channelId)
      ensures r == Done && state == SendServerCertificate
    {
      hide Stepped, Leads, Handshake.Valid, View.Ok, Shape, Grew, Tied, Rank, Known.Narrows, Known.SameChoice;
      k := k.(statusExpected := status, nextProto := nextProto, channelId := channelId);
      state := SendServerCertificate;
      FullHelloSent(was, nextProto, channelId, status);
      return Done;
    }

    lemma FullHelloSent(was: Snapshot, nextProto: bool, channelId: bool, status: bool)
      requires was.v.state == SendServerHello && !was.v.c.resumed && !was.tls13 && (status ==> was.v.k.certificateAuth)
      requires (nextProto ==> was.v.k.nextProto) && (channelId ==> was.v.k.channelId && was.v.k.ecdhe)
      requires !tls13 && hs.side == Server && hs.Valid() && Grew(was.log, hs.log, [Msg(Server, ServerHello)])
      requires was.v.Ok(Shape(was.log)) && hs.received == was.received && Tied(hs.crypto, was.log, was.v.k)
      requires k == was.v.k.(statusExpected := status, nextProto := nextProto, channelId := channelId)
      requires state == SendServerCertificate && hs.choices == was.v.c
      requires hs.transcript.buffer.Some? == was.v.buffered && hs.transcript.hash.Some? == was.v.hashed
      ensures Stepped(Done, was)
    {
      hide Stepped, Leads, Handshake.Valid, View.Ok, Shape, Grew, Tied, Rank, Known.SameTerms, Known.Narrows,
        Known.SameChain;
      FullHelloEdge(was.v, nextProto, channelId, status);
      assert Now() == was.v.(state := SendServerCertificate, k := k);
      Withdrawn(was.v.k, nextProto, channelId, status);
      Moved(was, [Msg(Server, ServerHello)], Done);
    }

    /** The parameters of a key exchange are prepared here and signed in the next state. */
    method DoSendServerCertificate() returns (r: Wait)
      requires Valid() && state == SendServerCertificate
      modifies this, hs, hs.transcript
      ensures Stepped(r, old(Seen()))
      ensures r != Error ==>
                && r == Done && state == SendServerKeyExchange && hs.choices.certificate == old(k.certificateAuth)
                && hs.choices.status == old(k.statusExpected)
    {
      hide Valid, Stepped, Leads, Handshake.Valid, View.Ok, Shape, Grew, Tied, Asks, Rank,
        Expected, LastBody, Known.Learn, Known.SameTerms, Known.SameChain,
        View.Settled, Reads, Shows, Accepts, Handshake.HeadHashed;
      Inside();
      ghost var was := Seen();
      var hint: bool := *;
      HashedYet(was.v, Shape(hs.log));
      var ok, _ := Choose();
      if !ok {
        Failed(was);
        return Error;
      }
      hs.SendCertificates(k.certificateAuth, k.statusExpected);
      r := AfterCertificates(k.requiresKeyExchange || hint, was);
    }

    method AfterCertificates(params: bool, ghost was: Snapshot) returns (r: Wait)
      requires !tls13 && hs.side == Server && hs.Valid() && state == SendServerCertificate && was.v.Ok(Shape(was.log))
      requires Now() == was.v.(c := was.v.c.(certificate := was.v.k.certificateAuth, status := was.v.k.statusExpected))
      requires was.v.k.requiresKeyExchange ==> params
      requires Grew(was.log, hs.log, Maybe(was.v.k.certificateAuth, Server, Certificate)
               + Maybe(was.v.k.statusExpected, Server, CertificateStatus))
      requires Tied(hs.crypto, was.log, was.v.k) && Looking() && hs.received == was.received && !was.tls13
      modifies this`state, this`k
      ensures Stepped(r, was)
      ensures r == Done && state == SendServerKeyExchange && hs.choices == old(hs.choices)
    {
      hide Valid, Stepped, Leads, Handshake.Valid, View.Ok, Shape, Grew, Tied, Asks, Rank,
        Expected, LastBody, Maybe, Known.Learn, Known.SameTerms, Known.SameChain,
        View.Settled, Reads, Shows, Accepts, Handshake.HeadHashed;
      k, state := k.(params := params), SendServerKeyExchange;
      CertificateEdge(was.v, params);
      OnlyStatus(was.v.k, false, params);
      NotInMaybe(was.v.k.certificateAuth, Server, Certificate, Msg(Client, Certificate));
      NotInMaybe(was.v.k.statusExpected, Server, CertificateStatus, Msg(Client, Certificate));
      Moved(was, Maybe(was.v.k.certificateAuth, Server, Certificate)
          + Maybe(was.v.k.statusExpected, Server, CertificateStatus), Done);
      return Done;
    }

    method DoSendServerKeyExchange() returns (r: Wait)
      requires Valid() && state == SendServerKeyExchange
      modifies this, hs, hs.transcript
      ensures Stepped(r, old(Seen()))
      ensures r in {Done, Error, PrivateKeyOperation}
      ensures !old(k.params) ==> r == Done
      ensures r == Done ==> state == SendServerHelloDone && hs.choices.keyExchange == old(k.params)
    {
      hide Valid, Stepped, Leads, Handshake.Valid, View.Ok, Shape, Grew, Tied, Asks, Rank,
        Expected, LastBody, Known.Learn, Known.SameTerms, Known.SameChain,
        View.Settled, Reads, Shows, Accepts, Handshake.HeadHashed;
      Inside();
      ghost var was := Seen();
      if k.params {
        r := SendKeyExchange();
        return;
      }
      hs.Decide(hs.choices.(keyExchange := false));
      state := SendServerHelloDone;
      assert Now() == was.v.(state := SendServerHelloDone, c := was.v.c.(keyExchange := false));
      NoKeyExchangeEdge(was.v);
      Silent(was, Done);
      return Done;
    }

    /** The signature may take several tries; the message is added once. */
    method SendKeyExchange() returns (r: Wait)
      requires Valid() && state == SendServerKeyExchange && k.params
      modifies this, hs, hs.transcript
      ensures Stepped(r, old(Seen()))
      ensures r in {Done, Error, PrivateKeyOperation}
      ensures r == Done ==> state == SendServerHelloDone && hs.choices.keyExchange
    {
      hide Valid, Stepped, Leads, Handshake.Valid, View.Ok, Shape, Grew, Tied, Asks, Rank,
        Expected, LastBody, Known.Learn, Known.SameTerms, Known.SameChain,
        View.Settled, Reads, Shows, Accepts, Handshake.HeadHashed, Misplaced;
      Inside();
      ghost var was := Seen();
      var later: bool := *;
      if later {
        Again(PrivateKeyOperation);
        return PrivateKeyOperation;
      }
      var ok, body := Choose();
      if !ok {
        Failed(was);
        return Error;
      }
      var m := Handshake.NewMessage(ServerKeyExchange, body);
      hs.AddMessage(m);
      hs.Decide(hs.choices.(keyExchange := true));
      state := SendServerHelloDone;
      KeyExchangeSent(was);
      return Done;
    }

    lemma KeyExchangeSent(was: Snapshot)
      requires was.v.state == SendServerKeyExchange && was.v.k.params && !was.tls13
      requires !tls13 && hs.side == Server && hs.Valid() && Grew(was.log, hs.log, [Msg(Server, ServerKeyExchange)])
      requires was.v.Ok(Shape(was.log)) && hs.received == was.received
      requires Tied(hs.crypto, was.log, was.v.k) && k == was.v.k
      requires state == SendServerHelloDone && hs.choices == was.v.c.(keyExchange := true)
      requires hs.transcript.buffer.Some? == was.v.buffered && hs.transcript.hash.Some? == was.v.hashed
      ensures Stepped(Done, was)
    {
      hide Stepped, Leads, Handshake.Valid, View.Ok, Shape, Grew, Tied, Rank, Known.SameTerms;
      KeyExchangeEdge(was.v);
      assert Now() == was.v.(state := SendServerHelloDone, c := was.v.c.(keyExchange := true));
      MovedBy(was, Msg(Server, ServerKeyExchange), Done);
    }

    method DoSendServerHelloDone() returns (r: Wait)
      requires Valid() && state == SendServerHelloDone
      modifies this, hs, hs.transcript
      ensures Stepped(r, old(Seen()))
      ensures r != Error ==>
                r == Flush && state == ReadClientCertificate && hs.choices.request == old(k.wantsCertificate)
    {
      hide Valid, Stepped, Leads, Handshake.Valid, View.Ok, Shape, Grew, Tied, Asks, Rank,
        Expected, LastBody, Known.Learn, Known.SameTerms, Known.SameChain,
        View.Settled, Reads, Shows, Accepts, Handshake.HeadHashed;
      Inside();
      ghost var was := Seen();
      HashedYet(was.v, Shape(hs.log));
      var ok, _ := Choose();
      if !ok {
        Failed(was);
        return Error;
      }
      hs.SendHelloDone(k.wantsCertificate);
      r := AfterHelloDone(was);
    }

    method AfterHelloDone(ghost was: Snapshot) returns (r: Wait)
      requires !tls13 && hs.side == Server && hs.Valid() && state == SendServerHelloDone && was.v.Ok(Shape(was.log))
      requires Now() == was.v.(c := was.v.c.(request := was.v.k.wantsCertificate))
      requires Grew(was.log, hs.log, Maybe(was.v.k.wantsCertificate, Server, CertificateRequest)
               + [Msg(Server, ServerHelloDone)])
      requires Tied(hs.crypto, was.log, was.v.k) && Looking() && hs.received == was.received && !was.tls13
      modifies this`state
      ensures Stepped(r, was)
      ensures r == Flush && state == ReadClientCertificate
    {
      hide Valid, Stepped, Leads, Handshake.Valid, View.Ok, Shape, Grew, Tied, Asks, Rank,
        Expected, LastBody, Maybe, Known.Learn, Known.SameTerms, Known.SameChain,
        View.Settled, Reads, Shows, Accepts, Handshake.HeadHashed;
      state := ReadClientCertificate;
      HelloDoneEdge(was.v);
      NotInMaybe(was.v.k.wantsCertificate, Server, CertificateRequest, Msg(Client, Certificate));
      NothingNew(k);
      Moved(was, Maybe(was.v.k.wantsCertificate, Server, CertificateRequest) + [Msg(Server, ServerHelloDone)], Flush);
      return Flush;
    }

    method DoReadClientCertificate() returns (r: Wait)
      requires Valid() && state == ReadClientCertificate
      modifies this, hs, hs.transcript
      ensures Stepped(r, old(Seen()))
      ensures old(k.wantsCertificate && Head() == None) <==> r == ReadMessage
      ensures !old(k.wantsCertificate) ==> r == Done
      ensures old(k.wantsCertificate && Head() !in {None, Some(Certificate)}) ==> r == Error
      ensures r !in {Error, ReadMessage} ==>
                && r == Done && state == VerifyClientCertificate && hs.choices.answer == old(k.wantsCertificate)
    {
      hide Valid, Stepped, Leads, Handshake.Valid, View.Ok, Shape, Grew, Tied, Asks, Rank,
        Expected, LastBody, Known.Learn, Known.SameTerms, Known.SameChain,
        View.Settled, Reads, Shows, Accepts, Handshake.HeadHashed;
      Inside();
      ghost var was := Seen();
      if !k.wantsCertificate {
        r := NoCertificate();
        return;
      }
      if hs.inbox == [] {
        Awaits(ReadMessage);
        return ReadMessage;
      }
      if hs.inbox[0].kind != Certificate {
        Failed(was);
        return Error;
      }
      if hs.crypto.nonEmpty(hs.inbox[0].body) {
        r := TakeCertificate();
      } else {
        r := TakeEmptyCertificate();
      }
    }

    method NoCertificate() returns (r: Wait)
      requires Valid() && state == ReadClientCertificate && !k.wantsCertificate
      modifies this, hs, hs.transcript
      ensures Stepped(r, old(Seen()))
      ensures r == Done && state == VerifyClientCertificate && !hs.choices.answer
    {
      hide Valid, Stepped, Leads, Handshake.Valid, View.Ok, Shape, Grew, Tied, Asks, Rank,
        Expected, LastBody, Known.Learn, Known.SameTerms, Known.SameChain,
        View.Settled, Reads, Shows, Accepts, Handshake.HeadHashed;
      Inside();
      ghost var was := Seen();
      hs.Decide(hs.choices.(answer := false));
      state := VerifyClientCertificate;
      assert Now() == was.v.(state := VerifyClientCertificate, c := was.v.c.(answer := false));
      NoAnswerEdge(was.v);
      Silent(was, Done);
      return Done;
    }

    method TakeCertificate() returns (r: Wait)
      requires Valid() && state == ReadClientCertificate && k.wantsCertificate && hs.inbox != []
               && hs.inbox[0].kind == Certificate
      requires hs.crypto.nonEmpty(hs.inbox[0].body)
      modifies this, hs, hs.transcript
      ensures Stepped(r, old(Seen()))
      ensures r != Error ==> r == Done && state == VerifyClientCertificate && hs.choices.answer && k.shown
    {
      hide Valid, Stepped, Leads, Handshake.Valid, View.Ok, Shape, Grew, Tied, Asks, Rank,
        Expected, LastBody, Known.Learn, Known.SameTerms, Known.SameChain,
        View.Settled, Reads, Shows, Accepts, Handshake.HeadHashed, Misplaced;
      Inside();
      ghost var was := Seen();
      var chain := hs.inbox[0];
      var ok := Take(hs.choices.(answer := true));
      if !ok {
        Failed(was);
        return Error;
      }
      k, state := k.(chain := Some(chain.body), shown := true, chainAccepted := false), VerifyClientCertificate;
      ChainTaken(was, chain);
      return Done;
    }

    lemma ChainTaken(was: Snapshot, chain: Message)
      requires was.v.state == ReadClientCertificate && was.v.k.wantsCertificate && !was.tls13
      requires chain.kind == Certificate && hs.crypto.nonEmpty(chain.body) && hs.log == was.log + [Sent(Client, chain)]
      requires !tls13 && hs.side == Server && hs.Valid() && Grew(was.log, hs.log, [Msg(Client, Certificate)])
      requires was.v.Ok(Shape(was.log)) && hs.received == was.received
      requires k == was.v.k.(chain := Some(chain.body), shown := true, chainAccepted := false)
      requires state == VerifyClientCertificate && hs.choices == was.v.c.(answer := true)
      requires hs.transcript.buffer.Some? == was.v.buffered && hs.transcript.hash.Some? == was.v.hashed
      ensures Stepped(Done, was)
    {
      hide Stepped, Leads, Handshake.Valid, View.Ok, Shape, Grew, Tied, Rank, Known.SameTerms;
      AnswerEdge(was.v, k.chain);
      assert Now() == was.v.(state := VerifyClientCertificate, c := was.v.c.(answer := true), k := k);
      TiedByChain(hs.crypto, was.log, chain, was.v.k);
      OnlyChain(was.v.k, k.chain, k.shown, false);
      MovedAndLearnt(was, [Msg(Client, Certificate)], Done);
    }

    /** An empty chain, accepted unless a certificate is required: there will be no signature to check. */
    method TakeEmptyCertificate() returns (r: Wait)
      requires Valid() && state == ReadClientCertificate && k.wantsCertificate && hs.inbox != []
               && hs.inbox[0].kind == Certificate
      requires !hs.crypto.nonEmpty(hs.inbox[0].body)
      modifies this, hs, hs.transcript
      ensures Stepped(r, old(Seen()))
      ensures r != Error ==> r == Done && state == VerifyClientCertificate && hs.choices.answer && !k.shown
    {
      hide Valid, Stepped, Leads, Handshake.Valid, View.Ok, Shape, Grew, Tied, Asks, Rank,
        Expected, LastBody, Known.Learn, Known.SameTerms, Known.SameChain,
        View.Settled, Reads, Shows, Accepts, Handshake.HeadHashed, Misplaced;
      Inside();
      ghost var was := Seen();
      HashedYet(was.v, Shape(hs.log));
      var chain := hs.inbox[0];
      var ok := Take(hs.choices.(answer := true));
      if !ok {
        Failed(was);
        return Error;
      }
      DropBuffer(was, chain);
      return Done;
    }

    /** The empty chain has been taken: no signature will be checked, so the buffer can go. */
    method DropBuffer(ghost was: Snapshot, chain: Message)
      requires was.v.state == ReadClientCertificate && was.v.k.wantsCertificate && !was.tls13 && state == was.v.state
      requires chain.kind == Certificate && !hs.crypto.nonEmpty(chain.body) && hs.log == was.log + [Sent(Client, chain)]
      requires !tls13 && hs.side == Server && hs.Valid() && Grew(was.log, hs.log, [Msg(Client, Certificate)])
      requires was.v.Ok(Shape(was.log)) && hs.received == was.received && k == was.v.k
      requires hs.choices == was.v.c.(answer := true) && hs.transcript.hash.Some? == was.v.hashed == true
      modifies this`k, this`state, hs.transcript`buffer
      ensures Stepped(Done, was) && state == VerifyClientCertificate && !k.shown
    {
      hide Stepped, Leads, Handshake.Valid, View.Ok, Shape, Grew, Tied, Handshake.HeadHashed;
      hs.FreeBuffer();
      k, state := k.(chain := Some(chain.body), shown := false, chainAccepted := false), VerifyClientCertificate;
      EmptyChainTaken(was, chain);
    }

    lemma EmptyChainTaken(was: Snapshot, chain: Message)
      requires was.v.state == ReadClientCertificate && was.v.k.wantsCertificate && !was.tls13
      requires chain.kind == Certificate && !hs.crypto.nonEmpty(chain.body) && hs.log == was.log + [Sent(Client, chain)]
      requires !tls13 && hs.side == Server && hs.Valid() && Grew(was.log, hs.log, [Msg(Client, Certificate)])
      requires was.v.Ok(Shape(was.log)) && hs.received == was.received
      requires k == was.v.k.(chain := Some(chain.body), shown := false, chainAccepted := false)
      requires state == VerifyClientCertificate && hs.choices == was.v.c.(answer := true)
      requires hs.transcript.buffer == None && hs.transcript.hash.Some? == was.v.hashed
      ensures Stepped(Done, was)
    {
      hide Stepped, Leads, Handshake.Valid, View.Ok, Shape, Grew, Tied, Rank, Known.SameTerms;
      EmptyAnswerEdge(was.v, k.chain);
      assert Now() == was.v.(state := VerifyClientCertificate, c := was.v.c.(answer := true), buffered := false,
                             k := k);
      TiedByChain(hs.crypto, was.log, chain, was.v.k);
      OnlyChain(was.v.k, k.chain, k.shown, false);
      MovedAndLearnt(was, [Msg(Client, Certificate)], Done);
    }

    method DoVerifyClientCertificate() returns (r: Wait)
      requires Valid() && state == VerifyClientCertificate
      modifies this, hs, hs.transcript
      ensures Stepped(r, old(Seen()))
      ensures r in {Done, Error, CertificateVerification} && (r == Done ==> state == ReadClientKeyExchange)
      ensures !old(k.shown) ==> r == Done
    {
      hide Valid, Stepped, Leads, Handshake.Valid, View.Ok, Shape, Grew, Tied, Asks, Rank,
        Expected, LastBody, Known.Learn, Known.SameTerms, Known.SameChain,
        View.Settled, Reads, Shows, Accepts, Handshake.HeadHashed;
      Inside();
      ghost var was := Seen();
      var later: bool := *;
      if k.shown && later {
        Again(CertificateVerification);
        return CertificateVerification;
      }
      if k.shown && (k.chain == None || !hs.crypto.accepts(k.chain.value)) {
        Failed(was);
        return Error;
      }
      k := k.(chainAccepted := k.shown);
      state := ReadClientKeyExchange;
      assert Now() == was.v.(state := ReadClientKeyExchange, k := was.v.k.(chainAccepted := was.v.k.shown));
      VerifyEdge(was.v);
      GrewByNothing(hs.log);
      TiedByVerdict(hs.crypto, hs.log, was.v.k);
      OnlyChain(was.v.k, k.chain, k.shown, k.shown);
      MovedAndLearnt(was, [], Done);
      return Done;
    }

    /** A decryption that has to be waited for comes before anything is hashed. */
    method DoReadClientKeyExchange() returns (r: Wait)
      requires Valid() && state == ReadClientKeyExchange
      modifies this, hs, hs.transcript
      ensures Stepped(r, old(Seen()))
      ensures old(Head()) == None <==> r == ReadMessage
      ensures old(Head()) !in {None, Some(ClientKeyExchange)} ==> r == Error
      ensures r in {Done, Error, ReadMessage, PrivateKeyOperation}
      ensures r == Done ==> state == ReadClientCertificateVerify
    {
      hide Valid, Stepped, Leads, Handshake.Valid, View.Ok, Shape, Grew, Tied, Asks, Rank,
        Expected, LastBody, Known.Learn, Known.SameTerms, Known.SameChain,
        View.Settled, Reads, Shows, Accepts, Handshake.HeadHashed;
      Inside();
      ghost var was := Seen();
      if hs.inbox == [] {
        Awaits(ReadMessage);
        return ReadMessage;
      }
      if hs.inbox[0].kind != ClientKeyExchange {
        Failed(was);
        return Error;
      }
      var later: bool := *;
      if later {
        Again(PrivateKeyOperation);
        return PrivateKeyOperation;
      }
      var ok := Take(hs.choices);
      if !ok {
        Failed(was);
        return Error;
      }
      ClientKeyEdge(was.v);
      Enter(was, ReadClientCertificateVerify, was.v.(state := ReadClientCertificateVerify),
            Msg(Client, ClientKeyExchange));
      return Done;
    }

    /** Required if and only if the client has shown a certificate. */
    method DoReadClientCertificateVerify() returns (r: Wait)
      requires Valid() && state == ReadClientCertificateVerify
      modifies this, hs, hs.transcript
      ensures Stepped(r, old(Seen()))
      ensures old(k.shown && Head() == None) <==> r == ReadMessage
      ensures old(k.shown && Head() !in {None, Some(CertificateVerify)}) ==> r == Error
      ensures !old(k.shown) ==> r == Done && !hs.choices.verify
      ensures r !in {Error, ReadMessage} ==>
                r == Done && state == ReadClientChangeCipherSpec && hs.choices.verify == old(k.shown)
    {
      hide Valid, Stepped, Leads, Handshake.Valid, View.Ok, Shape, Grew, Tied, Asks, Rank,
        Expected, LastBody, Known.Learn, Known.SameTerms, Known.SameChain,
        View.Settled, Reads, Shows, Accepts, Handshake.HeadHashed;
      Inside();
      ghost var was := Seen();
      if !k.shown {
        r := NoSignature();
        return;
      }
      if hs.inbox == [] {
        Awaits(ReadMessage);
        return ReadMessage;
      }
      if hs.inbox[0].kind != CertificateVerify {
        Failed(was);
        return Error;
      }
      r := TakeSignature();
    }

    /** The signature must cover the transcript before it. */
    method TakeSignature() returns (r: Wait)
      requires Valid() && state == ReadClientCertificateVerify && k.shown && hs.inbox != []
               && hs.inbox[0].kind == CertificateVerify
      modifies this, hs, hs.transcript
      ensures Stepped(r, old(Seen()))
      ensures r != Error ==> r == Done && state == ReadClientChangeCipherSpec && hs.choices.verify
      ensures r == Done <==> hs.crypto.signs(old(hs.transcript.all), old(hs.inbox)[0].body)
    {
      hide Valid, Stepped, Leads, Handshake.Valid, View.Ok, Shape, Grew, Tied, Asks, Rank,
        Expected, LastBody, Known.Learn, Known.SameTerms, Known.SameChain,
        View.Settled, Reads, Shows, Accepts, Handshake.HeadHashed;
      Inside();
      ghost var was := Seen();
      BufferForChecking(was.v, Shape(hs.log));
      var ok := hs.TakeCertificateVerify();
      if !ok {
        Failed(was);
        return Error;
      }
      SignatureEdge(was.v);
      Enter(was, ReadClientChangeCipherSpec,
            was.v.(state := ReadClientChangeCipherSpec, c := was.v.c.(verify := true), buffered := false),
            Msg(Client, CertificateVerify));
      return Done;
    }

    method NoSignature() returns (r: Wait)
      requires Valid() && state == ReadClientCertificateVerify && !k.shown
      modifies this, hs, hs.transcript
      ensures Stepped(r, old(Seen()))
      ensures r == Done && state == ReadClientChangeCipherSpec && !hs.choices.verify
    {
      hide Valid, Stepped, Leads, Handshake.Valid, View.Ok, Shape, Grew, Tied, Asks, Rank,
        Expected, LastBody, Known.Learn, Known.SameTerms, Known.SameChain,
        View.Settled, Reads, Shows, Accepts, Handshake.HeadHashed;
      Inside();
      ghost var was := Seen();
      HashedYet(was.v, Shape(hs.log));
      hs.FreeBuffer();
      hs.Decide(hs.choices.(verify := false));
      state := ReadClientChangeCipherSpec;
      assert Now() == was.v.(state := ReadClientChangeCipherSpec, c := was.v.c.(verify := false), buffered := false);
      NoSignatureEdge(was.v);
      Silent(was, Done);
      return Done;
    }

    method DoReadChangeCipherSpec() returns (r: Wait)
      requires Valid() && state == ReadClientChangeCipherSpec
      modifies this, hs, hs.transcript
      ensures Stepped(r, old(Seen()))
      ensures r == ReadChangeCipherSpec && state == ProcessChangeCipherSpec
    {
      hide Valid, Stepped, Leads, Handshake.Valid, View.Ok, Shape, Grew, Tied, Asks, Rank,
        Expected, LastBody, Known.Learn, Known.SameTerms, Known.SameChain,
        View.Settled, Reads, Shows, Accepts, Handshake.HeadHashed;
      Inside();
      ghost var was := Seen();
      state := ProcessChangeCipherSpec;
      assert Now() == was.v.(state := ProcessChangeCipherSpec);
      WaitEdge(was.v);
      Silent(was, ReadChangeCipherSpec);
      return ReadChangeCipherSpec;
    }

    method DoProcessChangeCipherSpec() returns (r: Wait)
      requires Valid() && state == ProcessChangeCipherSpec
      modifies this, hs, hs.transcript
      ensures Stepped(r, old(Seen()))
      ensures r != Error ==> r == Done && state == ReadNextProto
    {
      hide Valid, Stepped, Leads, Handshake.Valid, View.Ok, Shape, Grew, Tied, Asks, Rank,
        Expected, LastBody, Known.Learn, Known.SameTerms, Known.SameChain,
        View.Settled, Reads, Shows, Accepts, Handshake.HeadHashed, Misplaced;
      Inside();
      ghost var was := Seen();
      var ok, _ := Choose();
      if !ok {
        Failed(was);
        return Error;
      }
      hs.AddCcs(Client);
      state := ReadNextProto;
      assert Now() == was.v.(state := ReadNextProto);
      ChangeEdge(was.v);
      MovedBy(was, Change(Client), Done);
      return Done;
    }

    method DoReadNextProto() returns (r: Wait)
      requires Valid() && state == ReadNextProto
      modifies this, hs, hs.transcript
      ensures Stepped(r, old(Seen()))
      ensures old(k.nextProto && Head() == None) <==> r == ReadMessage
      ensures r !in {Error, ReadMessage} ==>
                r == Done && state == ReadChannelId && hs.choices.nextProto == old(k.nextProto)
    {
      hide Valid, Stepped, Leads, Handshake.Valid, View.Ok, Shape, Grew, Tied, Asks, Rank,
        Expected, LastBody, Known.Learn, Known.SameTerms, Known.SameChain,
        View.Settled, Reads, Shows, Accepts, Handshake.HeadHashed;
      Inside();
      ghost var was := Seen();
      if k.nextProto {
        if hs.inbox == [] {
          Awaits(ReadMessage);
          return ReadMessage;
        }
        if hs.inbox[0].kind != NextProto {
          Failed(was);
          return Error;
        }
        r := TakeNextProto();
        return;
      }
      hs.Decide(hs.choices.(nextProto := false));
      state := ReadChannelId;
      assert Now() == was.v.(state := ReadChannelId, c := was.v.c.(nextProto := false));
      NoNextProtoEdge(was.v);
      Silent(was, Done);
      return Done;
    }

    method TakeNextProto() returns (r: Wait)
      requires Valid() && state == ReadNextProto && k.nextProto && hs.inbox != [] && hs.inbox[0].kind == NextProto
      modifies this, hs, hs.transcript
      ensures Stepped(r, old(Seen()))
      ensures r != Error ==> r == Done && state == ReadChannelId && hs.choices.nextProto
    {
      hide Valid, Stepped, Leads, Handshake.Valid, View.Ok, Shape, Grew, Tied, Asks, Rank,
        Expected, LastBody, Known.Learn, Known.SameTerms, Known.SameChain,
        View.Settled, Reads, Shows, Accepts, Handshake.HeadHashed, Misplaced;
      Inside();
      ghost var was := Seen();
      var ok := Take(hs.choices.(nextProto := true));
      if !ok {
        Failed(was);
        return Error;
      }
      NextProtoEdge(was.v);
      Enter(was, ReadChannelId, was.v.(state := ReadChannelId, c := was.v.c.(nextProto := true)),
            Msg(Client, NextProto));
      return Done;
    }

    method DoReadChannelId() returns (r: Wait)
      requires Valid() && state == ReadChannelId
      modifies this, hs, hs.transcript
      ensures Stepped(r, old(Seen()))
      ensures old(k.channelId && Head() == None) <==> r == ReadMessage
      ensures r !in {Error, ReadMessage} ==>
                r == Done && state == ReadClientFinished && hs.choices.channelId == old(k.channelId)
    {
      hide Valid, Stepped, Leads, Handshake.Valid, View.Ok, Shape, Grew, Tied, Asks, Rank,
        Expected, LastBody, Known.Learn, Known.SameTerms, Known.SameChain,
        View.Settled, Reads, Shows, Accepts, Handshake.HeadHashed;
      Inside();
      ghost var was := Seen();
      if k.channelId {
        if hs.inbox == [] {
          Awaits(ReadMessage);
          return ReadMessage;
        }
        if hs.inbox[0].kind != ChannelId {
          Failed(was);
          return Error;
        }
        r := TakeChannelId();
        return;
      }
      hs.Decide(hs.choices.(channelId := false));
      state := ReadClientFinished;
      assert Now() == was.v.(state := ReadClientFinished, c := was.v.c.(channelId := false));
      NoChannelIdEdge(was.v);
      Silent(was, Done);
      return Done;
    }

    method TakeChannelId() returns (r: Wait)
      requires Valid() && state == ReadChannelId && k.channelId && hs.inbox != [] && hs.inbox[0].kind == ChannelId
      modifies this, hs, hs.transcript
      ensures Stepped(r, old(Seen()))
      ensures r != Error ==> r == Done && state == ReadClientFinished && hs.choices.channelId
    {
      hide Valid, Stepped, Leads, Handshake.Valid, View.Ok, Shape, Grew, Tied, Asks, Rank,
        Expected, LastBody, Known.Learn, Known.SameTerms, Known.SameChain,
        View.Settled, Reads, Shows, Accepts, Handshake.HeadHashed, Misplaced;
      Inside();
      ghost var was := Seen();
      var ok := Take(hs.choices.(channelId := true));
      if !ok {
        Failed(was);
        return Error;
      }
      ChannelIdEdge(was.v);
      Enter(was, ReadClientFinished, was.v.(state := ReadClientFinished, c := was.v.c.(channelId := true)),
            Msg(Client, ChannelId));
      return Done;
    }

    method DoReadClientFinished() returns (r: Wait)
      requires Valid() && state == ReadClientFinished
      modifies this, hs, hs.transcript
      ensures Stepped(r, old(Seen()))
      ensures old(Head()) == None <==> r == ReadMessage
      ensures r == Done ==> && old(Head()) == Some(Finished)
                            && old(hs.inbox)[0].body == hs.crypto.mac(Client, old(hs.transcript.all))
      ensures r !in {Error, ReadMessage} ==>
                r == Done && state == if old(hs.choices.resumed) then FinishServerHandshake else SendServerFinished
    {
      hide Valid, Stepped, Leads, Handshake.Valid, View.Ok, Shape, Grew, Tied, Asks, Rank,
        Expected, LastBody, Known.Learn, Known.SameTerms, Known.SameChain,
        View.Settled, Reads, Shows, Accepts, Handshake.HeadHashed;
      Inside();
      ghost var was := Seen();
      HashedYet(was.v, Shape(hs.log));
      var got := hs.GetFinished();
      if got == Error {
        Failed(was);
        return Error;
      }
      if got == ReadMessage {
        assert Seen() == was;
        Awaits(ReadMessage);
        return ReadMessage;
      }
      r := AfterClientFinished(was);
    }

    method AfterClientFinished(ghost was: Snapshot) returns (r: Wait)
      requires !tls13 && hs.side == Server && hs.Valid() && state == ReadClientFinished && Now() == was.v
      requires was.v.Ok(Shape(was.log)) && Grew(was.log, hs.log, [Msg(Client, Finished)])
      requires Tied(hs.crypto, was.log, was.v.k) && Looking() && hs.received == was.received && !was.tls13
      requires refused == was.refused
      modifies this`state, this`refused
      ensures Stepped(r, was)
      ensures r != Error ==>
                r == Done && state == if hs.choices.resumed then FinishServerHandshake else SendServerFinished
      ensures hs.choices == old(hs.choices)
    {
      hide Valid, Stepped, Leads, Handshake.Valid, View.Ok, Shape, Grew, Tied, Asks, Rank,
        Expected, LastBody, Known.Learn, Known.SameTerms, Known.SameChain,
        View.Settled, Reads, Shows, Accepts, Handshake.HeadHashed, Misplaced;
      if hs.choices.resumed {
        state := FinishServerHandshake;
        ResumedFinishedEdge(was.v);
        assert Now() == was.v.(state := FinishServerHandshake);
        MovedBy(was, Msg(Client, Finished), Done);
        return Done;
      }
      var recorded, _ := Choose();
      if !recorded {
        Failed(was);
        return Error;
      }
      state := SendServerFinished;
      FullFinishedEdge(was.v);
      assert Now() == was.v.(state := SendServerFinished);
      MovedBy(was, Msg(Client, Finished), Done);
      return Done;
    }

    method DoSendServerFinished() returns (r: Wait)
      requires Valid() && state == SendServerFinished
      modifies this, hs, hs.transcript
      ensures Stepped(r, old(Seen()))
      ensures r != Error ==>
                && r == Flush
                && state == if old(hs.choices.resumed) then ReadClientChangeCipherSpec else FinishServerHandshake
      ensures r != Error ==> hs.choices.ticket == old(k.ticketExpected)
    {
      hide Valid, Stepped, Leads, Handshake.Valid, View.Ok, Shape, Grew, Tied, Asks, Rank,
        Expected, LastBody, Known.Learn, Known.SameTerms, Known.SameChain,
        View.Settled, Reads, Shows, Accepts, Handshake.HeadHashed;
      Inside();
      ghost var was := Seen();
      HashedYet(was.v, Shape(hs.log));
      var ok, _ := Choose();
      if !ok {
        Failed(was);
        return Error;
      }
      hs.SendServerFlight(k.ticketExpected);
      r := AfterServerFlight(was);
    }

    method AfterServerFlight(ghost was: Snapshot) returns (r: Wait)
      requires !tls13 && hs.side == Server && hs.Valid() && state == SendServerFinished
      requires was.v.Ok(Shape(was.log)) && Now() == was.v.(c := was.v.c.(ticket := was.v.k.ticketExpected))
      requires Grew(was.log, hs.log, Maybe(was.v.k.ticketExpected, Server, NewSessionTicket) + [Change(Server)]
               + [Msg(Server, Finished)])
      requires Tied(hs.crypto, was.log, was.v.k) && Looking() && hs.received == was.received && !was.tls13
      modifies this`state
      ensures Stepped(r, was)
      ensures r == Flush && state == if hs.choices.resumed then ReadClientChangeCipherSpec else FinishServerHandshake
    {
      hide Valid, Stepped, Leads, Handshake.Valid, View.Ok, Shape, Grew, Tied, Asks, Rank,
        Expected, LastBody, Maybe, Known.Learn, Known.SameTerms, Known.SameChain,
        View.Settled, Reads, Shows, Accepts, Handshake.HeadHashed;
      ghost var steps := Maybe(was.v.k.ticketExpected, Server, NewSessionTicket) + [Change(Server)]
          + [Msg(Server, Finished)];
      NotInMaybe(was.v.k.ticketExpected, Server, NewSessionTicket, Msg(Client, Certificate));
      NothingNew(k);
      if hs.choices.resumed {
        state := ReadClientChangeCipherSpec;
        ResumedFlightEdge(was.v);
        assert Now() == was.v.(state := ReadClientChangeCipherSpec, c := was.v.c.(ticket := was.v.k.ticketExpected));
        Moved(was, steps, Flush);
        return Flush;
      }
      state := FinishServerHandshake;
      FullFlightEdge(was.v);
      assert Now() == was.v.(state := FinishServerHandshake, c := was.v.c.(ticket := was.v.k.ticketExpected));
      Moved(was, steps, Flush);
      return Flush;
    }

    method DoFinishServerHandshake() returns (r: Wait)
      requires Valid() && state == FinishServerHandshake
      modifies this
      ensures Stepped(r, old(Seen()))
      ensures r == Done && state == Complete
    {
      hide Handshake.Valid, Leads, View.Ok, Shape, Tied, Known.SameTerms;
      ghost var was := Seen();
      NothingNew(k);
      if !tls13 {
        LastEdge(was.v);
        state := Complete;
        assert Now() == was.v.(state := Complete);
        Silent(was, Done);
      } else {
        state := Complete;
      }
      return Done;
    }

    /** The TLS 1.3 machine, not modelled: it finishes or waits. */
    method DoTls13() returns (r: Wait)
      requires Valid() && state == Tls13
      modifies this
      ensures Stepped(r, old(Seen()))
    {
      hide Handshake.Valid;
      r := *;
      if r == Done {
        state := FinishServerHandshake;
      }
      refused := refused + if r == Error then 1 else 0;
    }

    /** A message comes in. */
    method Inbound(m: Message)
      requires Valid() && !tls13
      modifies hs`inbox, hs`received
      ensures Valid() && hs.received == old(hs.received) + [m]
    {
      hide Handshake.Valid, View.Ok, Shape, Tied;
      hs.Receive(m);
    }

    /** ssl_server_handshake: runs until something has to be waited for, and cannot run for ever. */
    method ServerHandshake() returns (r: Wait)
      requires Valid()
      modifies this, hs, hs.transcript
      ensures r != Error ==> Valid() && old(hs.log) <= hs.log
      ensures r != Error ==> Rank(state, hs.choices.resumed) <= old(Rank(state, hs.choices.resumed))
      ensures r == Done ==> state == Complete
      ensures r != Error ==> Asks(r, |old(hs.log)|) && hs.received == old(hs.received) && (old(tls13) ==> tls13)
    {
      hide Valid, Handshake.Valid, Rank;
      r := Done;
      while state != Complete
        invariant Valid() && old(hs.log) <= hs.log && r == Done
        invariant Rank(state, hs.choices.resumed) <= old(Rank(state, hs.choices.resumed))
        invariant hs.received == old(hs.received) && (old(tls13) ==> tls13)
        decreases Rank(state, hs.choices.resumed)
      {
        r := Step();
        if r != Done {
          return r;
        }
      }
    }

    /** The switch over the state. */
    method Step() returns (r: Wait)
      requires Valid() && state != Complete
      modifies this, hs, hs.transcript
      ensures Stepped(r, old(Seen()))
    {
      hide Valid, Stepped;
      match state {
        case StartAccept => r := DoStartAccept();
        case ReadClientHello => r := DoReadClientHello();
        case SelectCertificate => r := DoSelectCertificate();
        case Tls13 => r := DoTls13();
        case SelectParameters => r := DoSelectParameters();
        case SendServerHello => r := DoSendServerHello();
        case SendServerCertificate => r := DoSendServerCertificate();
        case SendServerKeyExchange => r := DoSendServerKeyExchange();
        case SendServerHelloDone => r := DoSendServerHelloDone();
        case ReadClientCertificate => r := DoReadClientCertificate();
        case VerifyClientCertificate => r := DoVerifyClientCertificate();
        case ReadClientKeyExchange => r := DoReadClientKeyExchange();
        case ReadClientCertificateVerify => r := DoReadClientCertificateVerify();
        case ReadClientChangeCipherSpec => r := DoReadChangeCipherSpec();
        case ProcessChangeCipherSpec => r := DoProcessChangeCipherSpec();
        case ReadNextProto => r := DoReadNextProto();
        case ReadChannelId => r := DoReadChannelId();
        case ReadClientFinished => r := DoReadClientFinished();
        case SendServerFinished => r := DoSendServerFinished();
        case FinishServerHandshake => r := DoFinishServerHandshake();
      }
    }

    /** A server that is done below TLS 1.3: the flow is one the standard allows, each side has sent one
        Finished, each over the transcript of all that went before. In a full handshake, a client whose
        Certificate shows a chain has had that chain accepted and has proved that it holds the key, by a
        signature over the transcript. What was negotiated has gone to and fro, and nothing else. */
    lemma AtTheEnd()
      requires Valid() && state == Complete && !tls13
      ensures Shape(hs.log) == Flow(hs.choices)
      ensures Count(Shape(hs.log), Msg(Client, Finished)) == 1 && Count(Shape(hs.log), Msg(Server, Finished)) == 1
      ensures Authentic(hs.crypto, hs.log, hs.choices.cookie)
      ensures hs.transcript.all == Raws(hs.crypto.raw, hs.Hashed())
      ensures !hs.choices.resumed && Shows(hs.crypto, Client, hs.log) ==>
                Accepts(hs.crypto, Client, hs.log) && Msg(Client, CertificateVerify) in Shape(hs.log)
      ensures !hs.choices.resumed ==>
                && hs.choices.certificate == k.certificateAuth && hs.choices.request == k.wantsCertificate
                && (k.requiresKeyExchange ==> Msg(Server, ServerKeyExchange) in Shape(hs.log))
      ensures (hs.choices.nextProto, hs.choices.channelId, hs.choices.ticket)
              == (k.nextProto, k.channelId, k.ticketExpected)
      ensures hs.choices.channelId ==> k.ecdhe && (hs.choices.resumed ==> k.sessionHash)
    {
      hide Flow, Count, Authentic, Raws, LastBody, Shape;
      OneFinishedEach(hs.choices, Client);
      OneFinishedEach(hs.choices, Server);
      FlowHas(hs.choices);
    }
  }
}
