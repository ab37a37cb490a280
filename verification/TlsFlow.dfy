/** The order of handshake messages below TLS 1.3, as RFC 5246 section 7.3 lays it down (with the
    messages of RFC 4347, 5077, 6066 and Channel ID), and what a transcript of them contains. */
module TlsFlow {
  import opened Bytes
  import opened Options

  datatype Side = Client | Server {
    function Other(): Side {
      if this == Client then Server else Client
    }
  }

  datatype Kind =
    | ClientHello | HelloVerifyRequest | ServerHello | Certificate | CertificateStatus | ServerKeyExchange
    | CertificateRequest | ServerHelloDone | ClientKeyExchange | CertificateVerify | NextProto | ChannelId
    | Finished | NewSessionTicket

  /** A handshake message. The number is the one DTLS gives it; TLS has none, and it is zero. */
  datatype Message = Message(kind: Kind, number: nat, body: seq<byte>)

  /** What happens between the two sides, in order. */
  datatype Event = Sent(side: Side, m: Message) | Ccs(side: Side)

  datatype Step = Msg(side: Side, kind: Kind) | Change(side: Side)

  /** The optional parts of a handshake. */
  datatype Choices = Choices(
    cookie: bool,        // the server asked for the ClientHello again (DTLS)
    early: bool,         // a ChangeCipherSpec before early data, which only TLS 1.3 can go on from
    resumed: bool,
    certificate: bool, status: bool, keyExchange: bool, request: bool,
    answer: bool, verify: bool,
    nextProto: bool, channelId: bool,
    ticket: bool)

  function Maybe(b: bool, side: Side, kind: Kind): seq<Step> {
    if b then [Msg(side, kind)] else []
  }

  lemma NotInMaybe(b: bool, side: Side, kind: Kind, step: Step)
    requires step != Msg(side, kind)
    ensures step !in Maybe(b, side, kind)
  {
  }

  // The flights, each as everything up to some point.

  function FirstHello(o: Choices): seq<Step> {
    [Msg(Client, ClientHello)]
    + (if o.early then [Change(Client)] else [])
    + if o.cookie then [Msg(Server, HelloVerifyRequest), Msg(Client, ClientHello)] else []
  }

  function Hellos(o: Choices): seq<Step> {
    FirstHello(o) + [Msg(Server, ServerHello)]
  }

  function UpToCertificate(o: Choices): seq<Step> {
    Hellos(o) + Maybe(o.certificate, Server, Certificate)
  }

  function UpToStatus(o: Choices): seq<Step> {
    UpToCertificate(o) + Maybe(o.status, Server, CertificateStatus)
  }

  function UpToKeyExchange(o: Choices): seq<Step> {
    UpToStatus(o) + Maybe(o.keyExchange, Server, ServerKeyExchange)
  }

  function UpToRequest(o: Choices): seq<Step> {
    UpToKeyExchange(o) + Maybe(o.request, Server, CertificateRequest)
  }

  function UpToHelloDone(o: Choices): seq<Step> {
    UpToRequest(o) + [Msg(Server, ServerHelloDone)]
  }

  function UpToAnswer(o: Choices): seq<Step> {
    UpToHelloDone(o) + Maybe(o.answer, Client, Certificate)
  }

  function UpToClientKey(o: Choices): seq<Step> {
    UpToAnswer(o) + [Msg(Client, ClientKeyExchange)]
  }

  function UpToVerify(o: Choices): seq<Step> {
    UpToClientKey(o) + Maybe(o.verify, Client, CertificateVerify)
  }

  function ClientFinish(before: seq<Step>, o: Choices): seq<Step> {
    before + [Change(Client)] + Maybe(o.nextProto, Client, NextProto) + Maybe(o.channelId, Client, ChannelId)
    + [Msg(Client, Finished)]
  }

  function ServerFinish(before: seq<Step>, o: Choices): seq<Step> {
    before + Maybe(o.ticket, Server, NewSessionTicket) + [Change(Server)] + [Msg(Server, Finished)]
  }

  /** A whole handshake: in a full one the client finishes first, in an abbreviated one the server. */
  function Flow(o: Choices): seq<Step> {
    if o.resumed then ClientFinish(ServerFinish(Hellos(o), o), o) else ServerFinish(ClientFinish(UpToVerify(o), o), o)
  }

  /** The longest full handshake, message by message. */
  lemma LongestFull(o: Choices)
    requires o.cookie && o.certificate && o.status && o.keyExchange && o.request && o.answer && o.verify
    requires o.nextProto && o.channelId && o.ticket && !o.resumed && !o.early
    ensures Flow(o) == [
              Msg(Client, ClientHello), Msg(Server, HelloVerifyRequest), Msg(Client, ClientHello),
              Msg(Server, ServerHello), Msg(Server, Certificate), Msg(Server, CertificateStatus),
              Msg(Server, ServerKeyExchange), Msg(Server, CertificateRequest), Msg(Server, ServerHelloDone),
              Msg(Client, Certificate), Msg(Client, ClientKeyExchange), Msg(Client, CertificateVerify),
              Change(Client), Msg(Client, NextProto), Msg(Client, ChannelId), Msg(Client, Finished),
              Msg(Server, NewSessionTicket), Change(Server), Msg(Server, Finished)]
  {
  }

  /** The longest abbreviated one. */
  lemma LongestResumed(o: Choices)
    requires o.cookie && o.nextProto && o.channelId && o.ticket && o.resumed && !o.early
    ensures Flow(o) == [
              Msg(Client, ClientHello), Msg(Server, HelloVerifyRequest), Msg(Client, ClientHello),
              Msg(Server, ServerHello), Msg(Server, NewSessionTicket), Change(Server), Msg(Server, Finished),
              Change(Client), Msg(Client, NextProto), Msg(Client, ChannelId), Msg(Client, Finished)]
  {
  }

  /** The shortest ones. */
  lemma Shortest(o: Choices)
    requires !o.cookie && !o.early && !o.nextProto && !o.channelId && !o.ticket
    requires !o.resumed ==> !o.certificate && !o.status && !o.keyExchange && !o.request && !o.answer && !o.verify
    ensures !o.resumed ==> Flow(o) == [
              Msg(Client, ClientHello), Msg(Server, ServerHello), Msg(Server, ServerHelloDone),
              Msg(Client, ClientKeyExchange), Change(Client), Msg(Client, Finished),
              Change(Server), Msg(Server, Finished)]
    ensures o.resumed ==> Flow(o) == [
              Msg(Client, ClientHello), Msg(Server, ServerHello), Change(Server), Msg(Server, Finished),
              Change(Client), Msg(Client, Finished)]
  {
  }

  // What is not decided yet does not matter: each part of a flow depends on the choices up to it.

  lemma SameHellos(c: Choices, d: Choices)
    requires c.cookie == d.cookie && c.early == d.early
    ensures FirstHello(c) == FirstHello(d) && Hellos(c) == Hellos(d)
  {
  }

  lemma SameToCertificate(c: Choices, d: Choices)
    requires c.cookie == d.cookie && c.early == d.early && c.certificate == d.certificate
    ensures UpToCertificate(c) == UpToCertificate(d)
  {
    hide Hellos;
    SameHellos(c, d);
  }

  lemma SameToStatus(c: Choices, d: Choices)
    requires c.cookie == d.cookie && c.early == d.early && c.certificate == d.certificate && c.status == d.status
    ensures UpToStatus(c) == UpToStatus(d)
  {
    hide UpToCertificate;
    SameToCertificate(c, d);
  }

  predicate SameServerChoices(c: Choices, d: Choices) {
    && c.cookie == d.cookie && c.early == d.early && c.certificate == d.certificate && c.status == d.status
    && c.keyExchange == d.keyExchange
  }

  lemma SameToKeyExchange(c: Choices, d: Choices)
    requires SameServerChoices(c, d)
    ensures UpToKeyExchange(c) == UpToKeyExchange(d)
  {
    hide UpToStatus;
    SameToStatus(c, d);
  }

  lemma SameToHelloDone(c: Choices, d: Choices)
    requires SameServerChoices(c, d) && c.request == d.request
    ensures UpToRequest(c) == UpToRequest(d) && UpToHelloDone(c) == UpToHelloDone(d)
  {
    hide UpToKeyExchange;
    SameToKeyExchange(c, d);
  }

  lemma SameToClientKey(c: Choices, d: Choices)
    requires SameServerChoices(c, d) && c.request == d.request && c.answer == d.answer
    ensures UpToAnswer(c) == UpToAnswer(d) && UpToClientKey(c) == UpToClientKey(d)
  {
    hide UpToHelloDone;
    SameToHelloDone(c, d);
  }

  lemma SameToVerify(c: Choices, d: Choices)
    requires SameServerChoices(c, d) && c.request == d.request && c.answer == d.answer && c.verify == d.verify
    ensures UpToVerify(c) == UpToVerify(d)
  {
    hide UpToClientKey;
    SameToClientKey(c, d);
  }

  function StepOf(e: Event): Step {
    match e
    case Sent(side, m) => Msg(side, m.kind)
    case Ccs(side) => Change(side)
  }

  function Shape(log: seq<Event>): (s: seq<Step>)
    ensures |s| == |log|
  {
    seq(|log|, k requires 0 <= k < |log| => StepOf(log[k]))
  }

  lemma ShapeOfNext(log: seq<Event>, e: Event)
    ensures Shape(log + [e]) == Shape(log) + [StepOf(e)]
  {
  }

  /** From log a to log b, with these steps in between. */
  predicate Grew(a: seq<Event>, b: seq<Event>, steps: seq<Step>) {
    a <= b && Shape(b) == Shape(a) + steps
  }

  lemma GrewByNothing(a: seq<Event>)
    ensures Grew(a, a, [])
  {
  }

  lemma GrewTwice(a: seq<Event>, b: seq<Event>, c: seq<Event>, s: seq<Step>, t: seq<Step>)
    requires Grew(a, b, s) && Grew(b, c, t)
    ensures Grew(a, c, s + t)
  {
  }

  lemma GrewByOne(a: seq<Event>, e: Event)
    ensures Grew(a, a + [e], [StepOf(e)])
  {
    ShapeOfNext(a, e);
  }

  /** The body of the last message of a side and kind. */
  function LastBody(side: Side, kind: Kind, log: seq<Event>): Option<seq<byte>> {
    if log == [] then None
    else
      var e := log[|log| - 1];
      if e.Sent? && e.side == side && e.m.kind == kind then Some(e.m.body)
      else LastBody(side, kind, log[..|log| - 1])
  }

  lemma LastBodyOfNext(side: Side, m: Message, log: seq<Event>)
    ensures LastBody(side, m.kind, log + [Sent(side, m)]) == Some(m.body)
  {
  }

  /** Other steps leave it as it was. */
  lemma {:induction false} LastBodyKept(side: Side, kind: Kind, a: seq<Event>, b: seq<Event>, steps: seq<Step>)
    requires Grew(a, b, steps) && Msg(side, kind) !in steps
    ensures LastBody(side, kind, b) == LastBody(side, kind, a)
    decreases |b|
  {
    if |a| < |b| {
      var init, last := b[..|b| - 1], steps[|steps| - 1];
      assert Shape(b)[|b| - 1] == last == StepOf(b[|b| - 1]);
      assert Shape(init) == Shape(b)[..|b| - 1] == Shape(a) + steps[..|steps| - 1];
      LastBodyKept(side, kind, a, init, steps[..|steps| - 1]);
    } else {
      assert a == b;
    }
  }

  /** A flow that has such a step has such a message. */
  lemma {:induction false} HasBody(side: Side, kind: Kind, log: seq<Event>)
    requires Msg(side, kind) in Shape(log)
    ensures LastBody(side, kind, log).Some?
  {
    var init := log[..|log| - 1];
    assert Shape(log) == Shape(init) + [StepOf(log[|log| - 1])];
    if Msg(side, kind) in Shape(init) {
      HasBody(side, kind, init);
    }
  }

  function Count<T(==)>(s: seq<T>, x: T): nat {
    if s == [] then 0 else (if s[0] == x then 1 else 0) + Count(s[1..], x)
  }

  lemma {:induction false} CountConcat<T>(s: seq<T>, t: seq<T>, x: T)
    ensures Count(s + t, x) == Count(s, x) + Count(t, x)
  {
    if s == [] {
      assert s + t == t;
    } else {
      assert (s + t)[1..] == s[1..] + t;
      CountConcat(s[1..], t, x);
    }
  }

  lemma CountOptional(b: bool, side: Side, kind: Kind, x: Step)
    ensures Count(Maybe(b, side, kind), x) == if b && x == Msg(side, kind) then 1 else 0
  {
  }

  lemma CountOne(y: Step, x: Step)
    ensures Count([y], x) == if x == y then 1 else 0
  {
    assert [y][1..] == [];
  }

  lemma NoFinishedBefore(o: Choices, side: Side)
    ensures Count(Hellos(o), Msg(side, Finished)) == 0 && Count(UpToVerify(o), Msg(side, Finished)) == 0
  {
    hide Maybe, Count, FirstHello, Hellos, UpToCertificate, UpToStatus, UpToKeyExchange, UpToRequest, UpToHelloDone,
      UpToAnswer, UpToClientKey, UpToVerify;
    var x := Msg(side, Finished);
    NoFinishedInHello(o, side);
    OptionalStep(Hellos(o), UpToCertificate(o), o.certificate, Server, Certificate, x) by { UnfoldServer(o); }
    OptionalStep(UpToCertificate(o), UpToStatus(o), o.status, Server, CertificateStatus, x) by { UnfoldServer(o); }
    OptionalStep(UpToStatus(o), UpToKeyExchange(o), o.keyExchange, Server, ServerKeyExchange, x) by { UnfoldServer(o); }
    OptionalStep(UpToKeyExchange(o), UpToRequest(o), o.request, Server, CertificateRequest, x) by { UnfoldServer(o); }
    OptionalStep(UpToRequest(o), UpToHelloDone(o), true, Server, ServerHelloDone, x) by { UnfoldServer(o); }
    OptionalStep(UpToHelloDone(o), UpToAnswer(o), o.answer, Client, Certificate, x) by { UnfoldClient(o); }
    OptionalStep(UpToAnswer(o), UpToClientKey(o), true, Client, ClientKeyExchange, x) by { UnfoldClient(o); }
    OptionalStep(UpToClientKey(o), UpToVerify(o), o.verify, Client, CertificateVerify, x) by { UnfoldClient(o); }
  }

  lemma OptionalStep(s: seq<Step>, t: seq<Step>, b: bool, side: Side, kind: Kind, x: Step)
    requires t == s + Maybe(b, side, kind)
    ensures Count(t, x) == Count(s, x) + if b && x == Msg(side, kind) then 1 else 0
  {
    CountConcat(s, Maybe(b, side, kind), x);
    CountOptional(b, side, kind, x);
  }

  lemma UnfoldServer(o: Choices)
    ensures UpToCertificate(o) == Hellos(o) + Maybe(o.certificate, Server, Certificate)
    ensures UpToStatus(o) == UpToCertificate(o) + Maybe(o.status, Server, CertificateStatus)
    ensures UpToKeyExchange(o) == UpToStatus(o) + Maybe(o.keyExchange, Server, ServerKeyExchange)
    ensures UpToRequest(o) == UpToKeyExchange(o) + Maybe(o.request, Server, CertificateRequest)
    ensures UpToHelloDone(o) == UpToRequest(o) + Maybe(true, Server, ServerHelloDone)
  {
    hide Hellos;
  }

  lemma UnfoldClient(o: Choices)
    ensures UpToAnswer(o) == UpToHelloDone(o) + Maybe(o.answer, Client, Certificate)
    ensures UpToClientKey(o) == UpToAnswer(o) + Maybe(true, Client, ClientKeyExchange)
    ensures UpToVerify(o) == UpToClientKey(o) + Maybe(o.verify, Client, CertificateVerify)
  {
    hide UpToHelloDone;
  }

  lemma NoFinishedInHello(o: Choices, side: Side)
    ensures Count(Hellos(o), Msg(side, Finished)) == 0
  {
    hide Count;
    var x := Msg(side, Finished);
    var e := if o.early then [Change(Client)] else [];
    var c := if o.cookie then [Msg(Server, HelloVerifyRequest), Msg(Client, ClientHello)] else [];
    CountConcat(FirstHello(o), [Msg(Server, ServerHello)], x);
    CountConcat([Msg(Client, ClientHello)] + e, c, x);
    CountConcat([Msg(Client, ClientHello)], e, x);
    CountOne(Msg(Server, ServerHello), x);
    CountOne(Msg(Client, ClientHello), x);
    CountOne(Change(Client), x);
    CountOne(Msg(Server, HelloVerifyRequest), x);
    CountConcat([Msg(Server, HelloVerifyRequest)], [Msg(Client, ClientHello)], x);
    assert c == if o.cookie then [Msg(Server, HelloVerifyRequest)] + [Msg(Client, ClientHello)] else [];
    CountNone(x);
  }

  lemma CountNone(x: Step)
    ensures Count([], x) == 0
  {
  }

  lemma CountClientFinish(before: seq<Step>, o: Choices, side: Side)
    ensures Count(ClientFinish(before, o), Msg(side, Finished))
         == Count(before, Msg(side, Finished)) + if side == Client then 1 else 0
  {
    hide Count, Maybe;
    var x := Msg(side, Finished);
    var proto, id := Maybe(o.nextProto, Client, NextProto), Maybe(o.channelId, Client, ChannelId);
    CountConcat(before + [Change(Client)] + proto + id, [Msg(Client, Finished)], x);
    CountConcat(before + [Change(Client)] + Maybe(o.nextProto, Client, NextProto),
                Maybe(o.channelId, Client, ChannelId), x);
    CountConcat(before + [Change(Client)], Maybe(o.nextProto, Client, NextProto), x);
    CountConcat(before, [Change(Client)], x);
    CountOptional(o.nextProto, Client, NextProto, x);
    CountOptional(o.channelId, Client, ChannelId, x);
    CountOne(Change(Client), x);
    CountOne(Msg(Client, Finished), x);
  }

  lemma CountServerFinish(before: seq<Step>, o: Choices, side: Side)
    ensures Count(ServerFinish(before, o), Msg(side, Finished))
         == Count(before, Msg(side, Finished)) + if side == Server then 1 else 0
  {
    hide Count, Maybe;
    var x := Msg(side, Finished);
    CountConcat(before + Maybe(o.ticket, Server, NewSessionTicket) + [Change(Server)], [Msg(Server, Finished)], x);
    CountConcat(before + Maybe(o.ticket, Server, NewSessionTicket), [Change(Server)], x);
    CountConcat(before, Maybe(o.ticket, Server, NewSessionTicket), x);
    CountOptional(o.ticket, Server, NewSessionTicket, x);
    CountOne(Change(Server), x);
    CountOne(Msg(Server, Finished), x);
  }

  /** A finished handshake has exactly one Finished from each side. */
  lemma OneFinishedEach(o: Choices, side: Side)
    ensures Count(Flow(o), Msg(side, Finished)) == 1
  {
    hide Count, ClientFinish, ServerFinish, Hellos, UpToVerify;
    NoFinishedBefore(o, side);
    if o.resumed {
      CountServerFinish(Hellos(o), o, side);
      CountClientFinish(ServerFinish(Hellos(o), o), o, side);
    } else {
      CountClientFinish(UpToVerify(o), o, side);
      CountServerFinish(ClientFinish(UpToVerify(o), o), o, side);
    }
  }

  /** Every flow has a ServerHello, and a full one the messages that were chosen. */
  lemma FlowHas(o: Choices)
    ensures Msg(Server, ServerHello) in Flow(o)
    ensures !o.resumed && o.keyExchange ==> Msg(Server, ServerKeyExchange) in Flow(o)
    ensures !o.resumed && o.verify ==> Msg(Client, CertificateVerify) in Flow(o)
  {
    hide FirstHello;
    assert Msg(Server, ServerHello) in Hellos(o);
  }

  // Transcripts.

  type Framing = Message -> seq<byte>

  /** The framed messages of a log, one after the other; ChangeCipherSpec is no handshake message. */
  function Raws(raw: Framing, log: seq<Event>): seq<byte> {
    if log == [] then []
    else
      var e := log[|log| - 1];
      Raws(raw, log[..|log| - 1]) + if e.Sent? then raw(e.m) else []
  }

  lemma RawsOfNext(raw: Framing, log: seq<Event>, e: Event)
    ensures Raws(raw, log + [e]) == Raws(raw, log) + if e.Sent? then raw(e.m) else []
  {
    assert (log + [e])[..|log|] == log;
  }

  /** The part of a log that the transcript covers: without the first ClientHello and the
      HelloVerifyRequest that answered it. */
  function Covered(log: seq<Event>, cookie: bool): seq<Event> {
    if cookie && |log| >= 2 then log[2..] else log
  }

  /** The messages of one side, in order. */
  function From(side: Side, log: seq<Event>): seq<Message> {
    if log == [] then []
    else
      var e := log[|log| - 1];
      From(side, log[..|log| - 1]) + if e.Sent? && e.side == side then [e.m] else []
  }

  lemma FromNext(side: Side, log: seq<Event>, e: Event)
    ensures From(side, log + [e]) == From(side, log) + if e.Sent? && e.side == side then [e.m] else []
  {
    assert (log + [e])[..|log|] == log;
  }

  /** What a ServerHello settles. */
  datatype Offer = Offer(
    certificateAuth: bool,       // the cipher authenticates the server by certificate
    requiresKeyExchange: bool,   // the key exchange cannot do without a ServerKeyExchange
    statusExpected: bool,        // a CertificateStatus may come
    ticketExpected: bool,
    nextProto: bool,
    channelId: bool)

  type Mac = (Side, seq<byte>) -> seq<byte>
  type Signs = (seq<byte>, seq<byte>) -> bool

  /** Everything the two machines are told about message contents, uninterpreted: framing, the verify_data
      of a side's Finished, whether a signature with the client's key is over a transcript, whether a
      Certificate shows a chain and whether that chain is accepted, and what a ServerHello settles. */
  datatype Crypto = Crypto(
    raw: Framing, mac: Mac, signs: Signs,
    nonEmpty: seq<byte> -> bool, accepts: seq<byte> -> bool, offers: seq<byte> -> Offer)

  /** A side has shown a chain of at least one certificate. */
  predicate Shows(x: Crypto, side: Side, log: seq<Event>) {
    match LastBody(side, Certificate, log)
    case None => false
    case Some(body) => x.nonEmpty(body)
  }

  /** The Certificate of a side has been accepted. */
  predicate Accepts(x: Crypto, side: Side, log: seq<Event>) {
    match LastBody(side, Certificate, log)
    case None => false
    case Some(body) => x.accepts(body)
  }

  /** A message that vouches for a transcript does so for the one given. */
  predicate Vouches(x: Crypto, e: Event, transcript: seq<byte>) {
    && (e.Sent? && e.m.kind == Finished ==> e.m.body == x.mac(e.side, transcript))
    && (e.Sent? && e.m.kind == CertificateVerify ==> x.signs(transcript, e.m.body))
  }

  /** Each Finished and each CertificateVerify is over the transcript of all the messages before it. */
  ghost predicate Authentic(x: Crypto, log: seq<Event>, cookie: bool) {
    forall k | 0 <= k < |log| :: Vouches(x, log[k], Raws(x.raw, Covered(log[..k], cookie)))
  }

  lemma AuthenticNext(x: Crypto, log: seq<Event>, cookie: bool, e: Event)
    requires Authentic(x, log, cookie) && Vouches(x, e, Raws(x.raw, Covered(log, cookie)))
    ensures Authentic(x, log + [e], cookie)
  {
    forall k | 0 <= k < |log + [e]| ensures Vouches(x, (log + [e])[k], Raws(x.raw, Covered((log + [e])[..k], cookie))) {
      assert (log + [e])[..k] == log[..k];
      assert k == |log| ==> log[..k] == log;
    }
  }
}
