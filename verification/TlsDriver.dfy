/** The driver around the two state machines: it resolves what a machine waits for, runs it again, and never
    runs it again after an error. */
module TlsDriver {
  import opened Options
  import opened TlsFlow
  import opened TlsHandshake
  import C = TlsClient
  import S = TlsServer

  /** What the transport does when asked to send or to receive. */
  datatype Io =
    | FlushResult(ret: int)
    | Opened(messages: seq<Message>)   // a record was read; its handshake messages join the inbox
    | Discarded                        // a record was read and dropped: read another
    | ReadFailed(ret: int)

  /** What resolving a wait comes to. */
  datatype Resolution =
    | Go(messages: seq<Message>)       // these have come in, and the machine may run
    | Again                            // read another record
    | Stop(ret: int, early: bool, cleared: bool)   // back to the caller, who need not be waited for again

  /** Waits that are handed to the caller, who has to act and come back. */
  predicate ForTheCaller(w: Wait) {
    w in {CertificateSelectionPending, Handoff, X509Lookup, ChannelIdLookup, PrivateKeyOperation,
          PendingSession, PendingTicket, CertificateVerification}
  }

  function Failure(ret: int): Resolution {
    Stop(if ret > 0 then -1 else ret, false, false)
  }

  /** The switch of ssl_run_handshake over the wait, given what the transport does next. */
  function Resolve(wait: Wait, script: seq<Io>): (Resolution, seq<Io>) {
    if ForTheCaller(wait) then (Stop(-1, false, true), script)
    else if wait == EarlyReturn then (Stop(1, true, true), script)
    else if wait == Done then (Go([]), script)
    else if script == [] then (Failure(-1), script)
    else
      match script[0]
      case FlushResult(r) =>
        if wait != Flush then (Failure(-1), script)
        else if r > 0 then (Go([]), script[1..])
        else (Failure(r), script[1..])
      case Opened(messages) => if wait == Flush then (Failure(-1), script) else (Go(messages), script[1..])
      case Discarded => if wait == Flush then (Failure(-1), script) else (Again, script[1..])
      case ReadFailed(r) => if wait == Flush then (Failure(-1), script) else (Failure(r), script[1..])
  }

  /** The messages of the records that a script reads. */
  function Carried(script: seq<Io>): seq<Message> {
    if script == [] then []
    else (if script[0].Opened? then script[0].messages else []) + Carried(script[1..])
  }

  /** A script is used from its front. */
  ghost predicate Used(script: seq<Io>, left: seq<Io>, used: nat) {
    used <= |script| && left == script[used..]
  }

  lemma {:induction false} CarriedConcat(a: seq<Io>, b: seq<Io>)
    ensures Carried(a + b) == Carried(a) + Carried(b)
  {
    if a == [] {
      assert a + b == b;
    } else {
      assert (a + b)[1..] == a[1..] + b;
      CarriedConcat(a[1..], b);
    }
  }

  lemma Unread(script: seq<Io>)
    ensures Used(script, script, 0) && Carried(script[..0]) == []
  {
  }

  /** What a wait can stop with: success only by returning early. */
  lemma StopsHow(wait: Wait, script: seq<Io>)
    requires wait != Error && Resolve(wait, script).0.Stop?
    ensures var r := Resolve(wait, script).0;
            && (r.ret > 0 ==> r.early)
            && (!r.cleared ==> wait in {Flush, ReadMessage, ReadServerHello, ReadChangeCipherSpec})
  {
  }

  /** What each wait is for: the caller is told to come back and is not waited for again, an early return is a
      success, a flush goes on once the transport has taken everything, and a read once a record has been opened. */
  lemma ResolvesHow(wait: Wait, script: seq<Io>)
    requires wait != Error
    ensures var (r, left) := Resolve(wait, script);
            var caller := {CertificateSelectionPending, Handoff, X509Lookup, ChannelIdLookup, PrivateKeyOperation,
                           PendingSession, PendingTicket, CertificateVerification};
            && (wait in caller <==> r == Stop(-1, false, true))
            && (wait == EarlyReturn <==> r == Stop(1, true, true))
            && (wait == Flush ==>
                  && (r == Go([]) <==> script != [] && script[0].FlushResult? && script[0].ret > 0)
                  && (r != Go([]) ==> r.Stop? && r.ret <= 0 && !r.cleared))
            && (wait in {ReadMessage, ReadServerHello, ReadChangeCipherSpec} ==>
                  && (r.Go? <==> script != [] && script[0].Opened?) && (r.Go? ==> r.messages == script[0].messages)
                  && (r == Again <==> script != [] && script[0].Discarded?)
                  && (r.Stop? ==> r.ret <= 0 && !r.cleared))
            && (wait == Done ==> r == Go([]) && left == script)
  {
  }

  /** Resolving a wait takes at most one entry, and hands on exactly the messages in it. */
  lemma ResolveUses(script: seq<Io>, left: seq<Io>, used: nat, wait: Wait)
    requires Used(script, left, used)
    ensures var (r, rest) := Resolve(wait, left);
            var now := |script| - |rest|;
            && Used(script, rest, now) && used <= now <= used + 1
            && Carried(script[..now]) == Carried(script[..used]) + (if r.Go? then r.messages else [])
            && (now == used ==> r != Again && (r.Go? ==> wait == Done))
  {
    var (r, rest) := Resolve(wait, left);
    var now := |script| - |rest|;
    if now == used {
      assert rest == left;
    } else {
      assert script[..now] == script[..used] + [left[0]];
      assert Carried([left[0]]) == (if left[0].Opened? then left[0].messages else []) + Carried([]);
      CarriedConcat(script[..used], [left[0]]);
    }
  }

  class ClientConnection {
    const m: C.Machine
    var wait: Wait

    ghost predicate Valid()
      reads this, m, m.hs, m.hs.transcript
    {
      wait != Error ==> m.Valid()
    }

    constructor (dtls: bool, crypto: Crypto)
      ensures Valid() && fresh(m) && fresh(m.hs) && fresh(m.hs.transcript) && wait == Done
    {
      m := new C.Machine(dtls, crypto);
      wait := Done;
    }

    /** The messages of a record, in order. TLS 1.3 takes care of its own. */
    method ReceiveAll(messages: seq<Message>)
      requires m.Valid()
      modifies m.hs`inbox, m.hs`received
      ensures m.Valid() && (!m.tls13 ==> m.hs.received == old(m.hs.received) + messages)
    {
      hide C.Machine.Valid;
      var i := 0;
      while i < |messages| && !m.tls13
        modifies m.hs`inbox, m.hs`received
        invariant i <= |messages| && m.Valid()
        invariant !m.tls13 ==> m.hs.received == old(m.hs.received) + messages[..i]
      {
        m.Inbound(messages[i]);
        assert messages[..i + 1] == messages[..i] + [messages[i]];
        i := i + 1;
      }
      assert messages[..|messages|] == messages;
    }

    /** ssl_run_handshake, until it is done, fails, or needs the caller or the transport. An error is
        remembered and returned for ever, without touching the machine again. Unless it failed, the machine
        has received exactly the messages of the records read, in order and each once. */
    method RunHandshake(script: seq<Io>) returns (ret: int, early: bool, left: seq<Io>, ghost used: nat)
      requires Valid()
      modifies this, m, m.hs, m.hs.transcript
      ensures Valid() && Used(script, left, used)
      ensures old(wait) == Error ==>
                && ret == -1 && wait == Error && used == 0
                && unchanged(m) && unchanged(m.hs) && unchanged(m.hs.transcript)
      ensures ret > 0 && !early ==> wait == Done && m.state == C.Complete
      ensures wait == Error ==> ret == -1
      ensures wait in {Done, Error, Flush, ReadMessage, ReadServerHello, ReadChangeCipherSpec}
      ensures wait != Error ==> old(m.hs.log) <= m.hs.log
      ensures wait != Error && !m.tls13 ==> m.hs.received == old(m.hs.received) + Carried(script[..used])
    {
      hide C.Machine.Valid, C.Rank, Carried, Resolve, ForTheCaller;
      ret, early, left, used := -1, false, script, 0;
      Unread(script);
      if wait == Error {
        return;
      }
      while true
        invariant Valid() && wait != Error && Used(script, left, used) && !early && old(m.hs.log) <= m.hs.log
        invariant !m.tls13 ==> m.hs.received == old(m.hs.received) + Carried(script[..used])
        decreases |left|, if wait == Done then 1 else 0
      {
        ResolveUses(script, left, used, wait);
        if Resolve(wait, left).0.Stop? {
          StopsHow(wait, left);
        }
        var (resolution, rest) := Resolve(wait, left);
        left, used := rest, |script| - |rest|;
        if resolution.Stop? {
          wait := if resolution.cleared then Done else wait;
          return resolution.ret, resolution.early, left, used;
        }
        if resolution.Go? {
          ReceiveAll(resolution.messages);
          wait := m.ClientHandshake();
          if wait == Error {
            return -1, false, left, used;
          }
          if wait == Done {
            return 1, false, left, used;
          }
        }
      }
    }
  }

  /** The same around the server. */
  class ServerConnection {
    const m: S.Machine
    var wait: Wait

    ghost predicate Valid()
      reads this, m, m.hs, m.hs.transcript
    {
      wait != Error ==> m.Valid()
    }

    constructor (dtls: bool, crypto: Crypto)
      ensures Valid() && fresh(m) && fresh(m.hs) && fresh(m.hs.transcript) && wait == Done
    {
      m := new S.Machine(dtls, crypto);
      wait := Done;
    }

    /** The messages of a record, in order. TLS 1.3 takes care of its own. */
    method ReceiveAll(messages: seq<Message>)
      requires m.Valid()
      modifies m.hs`inbox, m.hs`received
      ensures m.Valid() && (!m.tls13 ==> m.hs.received == old(m.hs.received) + messages)
    {
      hide S.Machine.Valid;
      var i := 0;
      while i < |messages| && !m.tls13
        modifies m.hs`inbox, m.hs`received
        invariant i <= |messages| && m.Valid()
        invariant !m.tls13 ==> m.hs.received == old(m.hs.received) + messages[..i]
      {
        m.Inbound(messages[i]);
        assert messages[..i + 1] == messages[..i] + [messages[i]];
        i := i + 1;
      }
      assert messages[..|messages|] == messages;
    }

    /** ssl_run_handshake, until it is done, fails, or needs the caller or the transport. An error is
        remembered and returned for ever, without touching the machine again. Unless it failed, the machine
        has received exactly the messages of the records read, in order and each once. */
    method RunHandshake(script: seq<Io>) returns (ret: int, early: bool, left: seq<Io>, ghost used: nat)
      requires Valid()
      modifies this, m, m.hs, m.hs.transcript
      ensures Valid() && Used(script, left, used)
      ensures old(wait) == Error ==>
                && ret == -1 && wait == Error && used == 0
                && unchanged(m) && unchanged(m.hs) && unchanged(m.hs.transcript)
      ensures ret > 0 && !early ==> wait == Done && m.state == S.Complete
      ensures wait == Error ==> ret == -1
      ensures wait in {Done, Error, Flush, ReadMessage, ReadServerHello, ReadChangeCipherSpec}
      ensures wait != Error ==> old(m.hs.log) <= m.hs.log
      ensures wait != Error && !m.tls13 ==> m.hs.received == old(m.hs.received) + Carried(script[..used])
    {
      hide S.Machine.Valid, S.Rank, Carried, Resolve, ForTheCaller;
      ret, early, left, used := -1, false, script, 0;
      Unread(script);
      if wait == Error {
        return;
      }
      while true
        invariant Valid() && wait != Error && Used(script, left, used) && !early && old(m.hs.log) <= m.hs.log
        invariant !m.tls13 ==> m.hs.received == old(m.hs.received) + Carried(script[..used])
        decreases |left|, if wait == Done then 1 else 0
      {
        ResolveUses(script, left, used, wait);
        if Resolve(wait, left).0.Stop? {
          StopsHow(wait, left);
        }
        var (resolution, rest) := Resolve(wait, left);
        left, used := rest, |script| - |rest|;
        if resolution.Stop? {
          wait := if resolution.cleared then Done else wait;
          return resolution.ret, resolution.early, left, used;
        }
        if resolution.Go? {
          ReceiveAll(resolution.messages);
          wait := m.ServerHandshake();
          if wait == Error {
            return -1, false, left, used;
          }
          if wait == Done {
            return 1, false, left, used;
          }
        }
      }
    }
  }
}
