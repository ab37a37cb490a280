/** The retransmission timer of DTLS (RFC 6347, section 4.2.4.1) and its two users: an expired timer,
    and a peer that repeats its Finished after the handshake. */
module DtlsTimer {
  import opened Bytes
  import opened Options
  import opened DtlsWire
  import opened DtlsSender
  import opened Flight
  import opened RecordWriter
  import I = IncomingMessages
  import R = DtlsReceiver

  const MTU_TIMEOUTS: nat := 2
  const MAX_TIMEOUTS: nat := 12
  const MAX_DURATION_MS: nat := 60000
  const SECOND: nat := 1_000_000   // microseconds
  const INT_MAX: nat := 0x7fff_ffff
  const MT_FINISHED: byte := 20

  /** A moment, or a length of time. */
  datatype Time = Time(sec: nat, usec: nat) {
    predicate Valid() {
      usec < SECOND
    }

    function Micros(): nat {
      sec * SECOND + usec
    }
  }

  const UNSET: Time := Time(0, 0)

  function Doubled(initial: nat, k: nat): nat {
    if k == 0 then initial else 2 * Doubled(initial, k - 1)
  }

  /** The duration after k expirations: doubled each time, up to a minute. */
  function Backoff(initial: nat, k: nat): nat {
    if Doubled(initial, k) > MAX_DURATION_MS then MAX_DURATION_MS else Doubled(initial, k)
  }

  lemma {:induction false} BackoffNext(initial: nat, k: nat)
    ensures Backoff(initial, k + 1) ==
            if 2 * Backoff(initial, k) > 60000 then 60000 else 2 * Backoff(initial, k)
    ensures initial <= 60000 ==> Backoff(initial, 0) == initial
  {
  }

  /** What dtls1_open_app_data makes of a record of the handshake type: a retransmitted Finished of the
      peer calls for the last flight again, but only its first fragment. */
  datatype Verdict = Malformed | Repeat | Ignore | Unexpected

  function JudgeHandshake(plain: seq<byte>, readSeq: nat): Verdict {
    match ParseFragment(plain)
    case None => Malformed
    case Some(f) =>
      if f.hdr.typ == MT_FINISHED && f.hdr.seqNo + 1 == readSeq then
        if f.hdr.fragOff == 0 then Repeat else Ignore
      else Unexpected
  }

  /** The octets begin with a fragment of the Finished that the peer sent last, its first one or a later one. */
  ghost predicate LateFinished(plain: seq<byte>, readSeq: nat, first: bool) {
    exists h: HmHeader, body, rest :: h.Fits() && |body| == h.fragLen && plain == SerializeHeader(h) + body + rest
                                      && h.typ == 20 && h.seqNo + 1 == readSeq && first == (h.fragOff == 0)
  }

  lemma JudgedLate(plain: seq<byte>, readSeq: nat)
    ensures LateFinished(plain, readSeq, true) <==> JudgeHandshake(plain, readSeq) == Repeat
    ensures LateFinished(plain, readSeq, false) <==> JudgeHandshake(plain, readSeq) == Ignore
  {
    hide ParseFragment, SerializeHeader;
    forall h: HmHeader, body, rest | h.Fits() && |body| == h.fragLen && plain == SerializeHeader(h) + body + rest
      ensures ParseFragment(plain) == Some(Fragment(h, body, rest))
    {
      ParseSerialized(h, body, rest);
    }
    if ParseFragment(plain).Some? {
      SerializeParsed(plain);
    }
  }

  /** A Finished that the peer's sender repeats is such a fragment, however it is cut this time. */
  lemma RepeatedFinished(msgs: seq<OutMessage>, pos: Pos, item: Item)
    requires FlightOk(msgs) && PosOk(msgs, pos) && ConsumeItem(msgs, pos, item).Some?
    requires !msgs[pos.written].isCcs && Header(msgs[pos.written]).typ == 20
    ensures item.rec.typ == RT_HANDSHAKE
            && LateFinished(item.plain, Header(msgs[pos.written]).seqNo + 1, pos.offset == 0)
  {
    hide SerializeHeader;
    JudgedLate(item.plain, Header(msgs[pos.written]).seqNo + 1);
  }

  datatype AppResult = Data(bytes: seq<byte>) | Discarded | Failed

  class Timer {
    const sender: Sender
    const initial: nat
    var next: Time                    // when the timer expires; unset when it is not running
    var duration: nat                 // milliseconds
    var timeouts: nat
    var flightHasReply: bool          // the peer has answered the flight that is complete
    ghost var expirations: nat        // since the timer was last started afresh
    ghost var base: nat               // the sender's count of retransmissions when it was last stopped

    /** How often the sender has sent a flight again since the timer was last stopped. */
    ghost function Retransmissions(): int
      reads this, sender
    {
      sender.retransmitted - base
    }

    ghost predicate Valid()
      reads this, sender, sender.writer
    {
      && sender.Valid()
      && 1 <= initial <= 60000 && next.Valid()
      && duration == Backoff(initial, expirations)
      && 0 <= Retransmissions() <= timeouts && Retransmissions() <= 12
    }

    /** At most twelve retransmissions between two stops of the timer, whoever asks for them. */
    lemma AtMostTwelve()
      requires Valid()
      ensures sender.retransmitted <= base + 12
    {
    }

    constructor (sender: Sender, initial: nat)
      requires sender.Valid() && 1 <= initial <= MAX_DURATION_MS
      ensures Valid() && this.sender == sender && this.initial == initial && next == UNSET && Retransmissions() == 0
    {
      this.sender, this.initial := sender, initial;
      next, duration, timeouts, expirations, base := UNSET, initial, 0, 0, sender.retransmitted;
      flightHasReply := false;
    }

    /** dtls1_start_timer: due in exactly the current duration. */
    method Start(now: Time)
      requires Valid() && now.Valid()
      modifies this`next, this`duration, this`expirations
      ensures Valid() && next != UNSET
      ensures expirations == if old(next) == UNSET then 0 else old(expirations)
      ensures next.Micros() == now.Micros() + 1000 * Backoff(initial, expirations)
    {
      if next == UNSET {
        duration, expirations := initial, 0;
      }
      BackoffPositive(initial, expirations);
      var sec, usec := now.sec + duration / 1000, now.usec + duration % 1000 * 1000;
      if usec >= SECOND {
        sec, usec := sec + 1, usec - SECOND;
      }
      next := Time(sec, usec);
    }

    /** dtls1_stop_timer. */
    method Stop()
      requires Valid()
      modifies this`next, this`duration, this`timeouts, this`expirations, this`base
      ensures Valid() && next == UNSET && timeouts == 0 && Retransmissions() == 0 && duration == initial
    {
      next, duration, timeouts, expirations, base := UNSET, initial, 0, 0, sender.retransmitted;
    }

    /** DTLSv1_get_timeout: the time left, if the timer runs. */
    method GetTimeout(now: Time) returns (left: Option<Time>)
      requires next.Valid() && now.Valid()
      ensures left == None <==> next == UNSET
      ensures left.Some? ==> left.value.Valid()
      ensures left.Some? && next.Micros() < now.Micros() + 15000 ==> left.value.Micros() == 0
      ensures left.Some? && next.Micros() >= now.Micros() + 15000 && next.sec - now.sec <= INT_MAX ==>
                left.value.Micros() == next.Micros() - now.Micros()
      ensures left.Some? && next.Micros() >= now.Micros() + 15000 ==> left.value.Micros() > 0
    {
      if next == UNSET {
        return None;
      }
      if next.sec < now.sec || (next.sec == now.sec && next.usec <= now.usec) {
        return Some(Time(0, 0));
      }
      var sec, usec := next.sec - now.sec, next.usec;
      if usec >= now.usec {
        usec := usec - now.usec;
      } else {
        usec := SECOND + usec - now.usec;
        sec := sec - 1;
      }
      if sec == 0 && usec < 15000 {
        sec, usec := 0, 0;
      }
      return Some(Time(if sec > INT_MAX then INT_MAX else sec, usec));
    }

    /** dtls1_check_timeout_num: counts one more timeout, perhaps lowers the MTU to what the transport
        suggests, and refuses the thirteenth. */
    method CheckTimeoutNum(noQuery: bool, fallbackMtu: int) returns (ok: bool)
      requires Valid()
      modifies this`timeouts, sender`mtu
      ensures Valid() && timeouts == old(timeouts) + 1 && ok == (old(timeouts) < 12)
      ensures ok ==> Retransmissions() < 12 && Retransmissions() < timeouts
      ensures sender.mtu ==
              if old(timeouts) >= 2 && !noQuery && 228 <= fallbackMtu <= 0x4000_0000 then fallbackMtu
                            else old(sender.mtu)
    {
      timeouts := timeouts + 1;
      if timeouts > MTU_TIMEOUTS && !noQuery {
        if 0 <= fallbackMtu <= 0x4000_0000 && fallbackMtu >= MIN_MTU {
          sender.mtu := fallbackMtu;
        }
      }
      if timeouts > MAX_TIMEOUTS {
        return false;
      }
      return true;
    }

    /** The whole flight has been written again: the packets carry it from its start, and up to its end unless the
        transport or the cipher failed. */
    twostate predicate SentAgain(packets: seq<seq<Item>>, lost: seq<Item>)
      requires sender.Valid() && forall p | p in packets :: AllSealed(sender.writer.keys, p)
      reads sender, sender.writer, sender.bio
    {
      && sender.retransmitted == old(sender.retransmitted) + 1 && sender.outgoing == old(sender.outgoing)
      && sender.bio.log == old(sender.bio.log) + AllBytes(sender.writer.keys, packets)
      && Walk(sender.outgoing, Pos(0, 0), Flat(packets) + lost) == Some(sender.At())
      && ((lost == [] && sender.written == |sender.outgoing|) || Failing())
    }

    /** What kept a flight from being sent to its end. */
    twostate predicate Failing()
      reads sender, sender.writer, sender.bio
    {
      || sender.shutdown || sender.Blocked(sender.mtu) || sender.bio.refused > old(sender.bio.refused)
      || sender.writer.failures > old(sender.writer.failures)
    }

    /** DTLSv1_handle_timeout: an expired timer doubles the duration and sends the flight again, once. */
    method HandleTimeout(now: Time, noQuery: bool, fallbackMtu: int, queried: int)
      returns (ret: int, ghost packets: seq<seq<Item>>, ghost lost: seq<Item>)
      requires Valid() && now.Valid()
      modifies this`next, this`duration, this`timeouts, this`expirations
      modifies sender, sender.bio, sender.writer
      ensures Valid() && forall p | p in packets :: AllSealed(sender.writer.keys, p)
      ensures old(next) == UNSET || old(next.Micros()) >= now.Micros() + 15000 ==>
                && ret == 0 && next == old(next) && duration == old(duration) && timeouts == old(timeouts)
                && sender.retransmitted == old(sender.retransmitted) && sender.bio.log == old(sender.bio.log)
      ensures old(next) != UNSET && old(next.Micros()) < now.Micros() + 15000 && old(timeouts) >= 12 ==>
                && ret == -1 && next == old(next)
                && sender.retransmitted == old(sender.retransmitted) && sender.bio.log == old(sender.bio.log)
      ensures old(next) != UNSET && old(next.Micros()) < now.Micros() + 15000 && old(timeouts) < 12 ==>
                && SentAgain(packets, lost)
                && (if ret > 0 then lost == [] && sender.written == |sender.outgoing| else Failing())
                && duration == Backoff(initial, old(expirations) + 1)
                && next.Micros() == now.Micros() + 1000 * duration
    {
      hide Sender.Valid, Walk, Flat, AllBytes, AllSealed, BytesOf, Carried, Whole, Doubled;
      packets, lost := [], [];
      var left := GetTimeout(now);
      if left == None || left.value.sec > 0 || left.value.usec > 0 {
        return 0, packets, lost;
      }
      var ok := CheckTimeoutNum(noQuery, fallbackMtu);
      if !ok {
        return -1, packets, lost;
      }
      DoubleTimeout();
      Start(now);
      ret, packets, lost := sender.Retransmit(noQuery, queried);
    }

    /** dtls1_double_timeout. */
    method DoubleTimeout()
      requires Valid()
      modifies this`duration, this`expirations
      ensures Valid() && expirations == old(expirations) + 1
    {
      BackoffNext(initial, expirations);
      duration := duration * 2;
      if duration > MAX_DURATION_MS {
        duration := MAX_DURATION_MS;
      }
      expirations := expirations + 1;
    }

    /** dtls1_open_app_data on an opened record. The retransmissions count with those of the timer. */
    method OpenAppData(typ: byte, plain: seq<byte>, readSeq: nat, noQuery: bool, fallbackMtu: int, queried: int)
      returns (r: AppResult, ghost packets: seq<seq<Item>>, ghost lost: seq<Item>)
      requires Valid()
      modifies this`timeouts
      modifies sender, sender.bio, sender.writer
      ensures Valid() && forall p | p in packets :: AllSealed(sender.writer.keys, p)
      ensures typ == RT_APPLICATION_DATA ==> r == if plain == [] then Discarded else Data(plain)
      ensures typ != RT_APPLICATION_DATA && typ != RT_HANDSHAKE ==> r == Failed
      ensures typ == RT_HANDSHAKE ==>
                r == if LateFinished(plain, readSeq, true) then if old(timeouts) < 12 then Discarded else Failed
                     else if LateFinished(plain, readSeq, false) then Discarded
                     else Failed
      ensures if typ == RT_HANDSHAKE && LateFinished(plain, readSeq, true) && old(timeouts) < 12
              then SentAgain(packets, lost)
              else sender.retransmitted == old(sender.retransmitted) && sender.bio.log == old(sender.bio.log)
      ensures timeouts == old(timeouts) + if typ == RT_HANDSHAKE && LateFinished(plain, readSeq, true) then 1 else 0
    {
      hide LateFinished, JudgeHandshake;
      JudgedLate(plain, readSeq);
      packets, lost := [], [];
      if typ == RT_HANDSHAKE {
        var verdict := JudgeHandshake(plain, readSeq);
        if verdict == Malformed {
          return Failed, packets, lost;
        }
        if verdict == Repeat {
          var ok := CheckTimeoutNum(noQuery, fallbackMtu);
          if !ok {
            return Failed, packets, lost;
          }
          var ret;
          ret, packets, lost := sender.Retransmit(noQuery, queried);
          return Discarded, packets, lost;
        }
        if verdict == Ignore {
          return Discarded, packets, lost;
        }
      }
      if typ != RT_APPLICATION_DATA {
        return Failed, packets, lost;
      }
      return if plain == [] then Discarded else Data(plain), packets, lost;
    }

    /** dtls1_flush_flight: a flight is complete, and the timer runs from when it is first sent. */
    method FlushFlight(now: Time, noQuery: bool, queried: int)
      returns (ret: int, ghost packets: seq<seq<Item>>, ghost lost: seq<Item>)
      requires Valid() && now.Valid()
      modifies this`next, this`duration, this`expirations
      modifies sender, sender.bio, sender.writer
      ensures Valid() && next != UNSET && sender.complete && sender.retransmitted == old(sender.retransmitted)
      ensures next.Micros() == now.Micros() + 1000 * Backoff(initial, if old(next) == UNSET then 0
              else old(expirations))
      ensures forall p | p in packets :: AllSealed(sender.writer.keys, p)
      ensures sender.bio.log == old(sender.bio.log) + AllBytes(sender.writer.keys, packets)
      ensures sender.outgoing == old(sender.outgoing)
      ensures Walk(sender.outgoing, old(sender.At()), Flat(packets) + lost) == Some(sender.At())
      ensures if ret > 0 then lost == [] && sender.written == |sender.outgoing| else Failing()
    {
      Start(now);
      ret, packets, lost := sender.FlushFlight(noQuery, queried);
    }

    /** The first message after a flight that is complete stops the timer and starts another flight: between
        two stops of the timer there is one flight. */
    method AddMessage(typ: byte, body: seq<byte>) returns (ok: bool)
      requires Valid() && |body| < 0x100_0000 && sender.writeSeqNo < 0x1_0000
      modifies this`next, this`duration, this`timeouts, this`expirations, this`base, this`flightHasReply
      modifies sender
      ensures Valid() && sender.retransmitted == old(sender.retransmitted)
      ensures sender.sent == old(sender.sent) + if ok then [Message(typ, body)] else []
      ensures ok <==> (if old(sender.complete) then 0 else old(|sender.outgoing|)) < 7
      ensures ok ==> !sender.complete && sender.At() == (if old(sender.complete) then Pos(0, 0) else old(sender.At()))
      ensures ok ==>
                sender.outgoing == (if old(sender.complete) then [] else old(sender.outgoing))
                    + [OutMessage(Raw(Message(typ, body), old(sender.writeSeqNo)), sender.writer.epoch, false)]
      ensures if old(sender.complete) then next == UNSET && timeouts == 0 && Retransmissions() == 0 && !flightHasReply
              else next == old(next) && timeouts == old(timeouts) && base == old(base)
    {
      if sender.complete {
        Stop();
        flightHasReply := false;
      }
      ok := sender.AddMessage(typ, body);
    }

    /** A ChangeCipherSpec may be the first of a flight, too. */
    method AddChangeCipherSpec() returns (ok: bool)
      requires Valid()
      modifies this`next, this`duration, this`timeouts, this`expirations, this`base, this`flightHasReply
      modifies sender
      ensures Valid() && sender.retransmitted == old(sender.retransmitted) && sender.sent == old(sender.sent)
      ensures ok <==> (if old(sender.complete) then 0 else old(|sender.outgoing|)) < 7
      ensures if old(sender.complete) then next == UNSET && timeouts == 0 && Retransmissions() == 0 && !flightHasReply
              else next == old(next) && timeouts == old(timeouts) && base == old(base)
    {
      if sender.complete {
        Stop();
        flightHasReply := false;
      }
      ok := sender.AddChangeCipherSpec();
    }

    /** The end of dtls1_next_message: a message taken answers a flight that is complete. */
    method MessageTaken()
      requires Valid()
      modifies this`flightHasReply
      ensures Valid() && flightHasReply == (old(flightHasReply) || sender.complete)
    {
      if sender.complete {
        flightHasReply := true;
      }
    }

    /** dtls1_on_handshake_complete: the last flight is kept for a peer that has not received it, and only
        then. */
    method OnHandshakeComplete()
      requires Valid()
      modifies this`next, this`duration, this`timeouts, this`expirations, this`base, this`flightHasReply
      modifies sender
      ensures Valid() && next == UNSET && Retransmissions() == 0 && !flightHasReply
      ensures sender.outgoing == if old(flightHasReply) then [] else old(sender.outgoing)
      ensures sender.sent == old(sender.sent) && sender.retransmitted == old(sender.retransmitted)
    {
      Stop();
      if flightHasReply {
        sender.ClearOutgoing();
        flightHasReply := false;
      }
    }
  }

  /** One end of a connection: what it receives and what it sends. */
  class Endpoint {
    const receiver: R.Receiver
    const timer: Timer

    ghost predicate Valid()
      reads this, timer, timer.sender, timer.sender.writer, receiver, receiver.Repr
    {
      && receiver.Valid() && timer.Valid()
      && timer !in receiver.Repr && timer.sender !in receiver.Repr && timer.sender.writer !in receiver.Repr
    }

    constructor (receiver: R.Receiver, timer: Timer)
      requires receiver.Valid() && timer.Valid()
      requires timer !in receiver.Repr && timer.sender !in receiver.Repr && timer.sender.writer !in receiver.Repr
      ensures Valid() && this.receiver == receiver && this.timer == timer
    {
      this.receiver, this.timer := receiver, timer;
    }

    /** dtls1_next_message, the whole of it: the window moves on, and a flight that is complete is answered. */
    method NextMessage()
      requires Valid() && receiver.queue.hasMessage
      modifies receiver.queue, receiver.queue.slots, timer`flightHasReply
      ensures Valid() && !receiver.queue.hasMessage
      ensures receiver.queue.View()
           == I.Inbox(old(receiver.queue.readSeq) + 1, old(receiver.queue.pending) - {old(receiver.queue.readSeq)})
      ensures timer.flightHasReply == (old(timer.flightHasReply) || timer.sender.complete)
    {
      hide Timer.Valid;
      receiver.NextMessage();
      timer.MessageTaken();
    }
  }

  lemma {:induction false} BackoffPositive(initial: nat, k: nat)
    requires initial >= 1
    ensures Backoff(initial, k) >= 1 && Doubled(initial, k) >= 1
  {
    if k > 0 {
      BackoffPositive(initial, k - 1);
    }
  }
}
