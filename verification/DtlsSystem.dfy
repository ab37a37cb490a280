/** Sender, network and receiver together. However fragments are cut, packed, lost, duplicated,
    reordered and retransmitted, and across epoch changes, what the receiver hands out is a prefix,
    octet for octet, of what the sender added: RFC 6347, section 4.2.3. */
module DtlsSystem {
  import opened Bytes
  import opened Options
  import opened Aead
  import opened DtlsWire
  import opened Reassembly
  import opened IncomingMessages
  import opened ReplayWindow
  import R = DtlsReceiver
  import opened RecordWriter
  import opened Flight

  // What a byte string on the receiving side owes to the messages sent.

  /** The fragment is a piece of the message of its number. */
  predicate FragmentOf(h: HmHeader, body: seq<byte>, sent: seq<Message>) {
    && h.seqNo < |sent| && h.typ == sent[h.seqNo].typ && h.msgLen == |sent[h.seqNo].body|
    && h.fragOff + |body| <= h.msgLen && h.fragLen == |body|
    && body == sent[h.seqNo].body[h.fragOff..h.fragOff + |body|]
  }

  /** Every fragment that a handshake record parses into is a piece of a message sent. */
  predicate Truthful(plain: seq<byte>, sent: seq<Message>)
    decreases |plain|
  {
    match ParseFragment(plain)
    case None => true
    case Some(f) => FragmentOf(f.hdr, f.body, sent) && Truthful(f.rest, sent)
  }

  /** A sealed record that carries nothing but pieces of messages sent, if it is a handshake record, and the octet 1,
      if it is a ChangeCipherSpec. */
  ghost predicate GenuineItem(keys: Keys, i: Item, sent: seq<Message>) {
    && SealedUnder(keys, i) && (i.rec.typ == RT_HANDSHAKE ==> Truthful(i.plain, sent))
    && (i.rec.typ == RT_CHANGE_CIPHER_SPEC ==> i.plain == [MT_CCS])
  }

  /** The records a packet parses into were all emitted; what does not parse may be anything. */
  ghost predicate MadeOf(packet: seq<byte>, emitted: seq<Item>)
    decreases |packet|
  {
    match ParseRecord(packet)
    case None => true
    case Some((r, rest)) => (exists i :: i in emitted && i.rec == r) && MadeOf(rest, emitted)
  }

  lemma {:induction false} TruthfulGrows(plain: seq<byte>, sent: seq<Message>, more: seq<Message>)
    requires Truthful(plain, sent)
    ensures Truthful(plain, sent + more)
    decreases |plain|
  {
    var f := ParseFragment(plain);
    if f.Some? {
      TruthfulGrows(f.value.rest, sent, more);
    }
  }

  lemma {:induction false} MadeOfGrows(packet: seq<byte>, emitted: seq<Item>, more: seq<Item>)
    requires MadeOf(packet, emitted)
    ensures MadeOf(packet, emitted + more)
    decreases |packet|
  {
    var r := ParseRecord(packet);
    if r.Some? {
      MadeOfGrows(r.value.1, emitted, more);
      var i :| i in emitted && i.rec == r.value.0;
      assert i in emitted + more;
    }
  }

  /** The packets a sender writes are made of the records sealed in them. A record that a receiver
      would find too long makes the rest of its packet unreadable, which does no harm. */
  lemma {:induction false} PacketsAreMadeOfTheirRecords(keys: Keys, items: seq<Item>, emitted: seq<Item>)
    requires AllSealed(keys, items) && forall i | i in items :: i in emitted
    ensures MadeOf(PacketBytes(items), emitted)
    decreases items
  {
    if items != [] {
      var i, tail := items[0], items[1..];
      assert i in items && forall j | j in tail :: j in items;
      assert SealedUnder(keys, i);
      PacketsAreMadeOfTheirRecords(keys, tail, emitted);
      if |i.rec.body| <= RT_MAX_ENCRYPTED_LENGTH {
        ParseSerializedRecord(i.rec, PacketBytes(tail));
      } else {
        TooLongIsUnreadable(i.rec, PacketBytes(tail));
      }
    }
  }

  lemma TooLongIsUnreadable(r: Record, rest: seq<byte>)
    requires |r.number| == 8 && RT_MAX_ENCRYPTED_LENGTH < |r.body| < 0x1_0000
    ensures ParseRecord(SerializeRecord(r) + rest) == None
  {
    PowersUsed();
    var s := SerializeRecord(r) + rest;
    ValueOfBigEndian(|r.body|, 2);
    assert s[11..13] == BigEndian(|r.body|, 2);
  }

  // The receiving side of the invariant.

  /** What has arrived of a message agrees with the message. */
  ghost predicate PieceOf(p: Partial, m: Message) {
    && p.typ == m.typ && p.msgLen == |m.body|
    && forall k | k in p.got :: k < |m.body| && p.got[k] == m.body[k]
  }

  ghost predicate InboxOk(b: Inbox, sent: seq<Message>) {
    && b.next <= |sent|
    && forall s | s in b.pending :: b.next <= s < |sent| && PieceOf(b.pending[s], sent[s])
  }

  lemma AcceptKeeps(b: Inbox, epoch: nat, maxLen: nat, h: HmHeader, body: seq<byte>, sent: seq<Message>)
    requires InboxOk(b, sent) && FragmentOf(h, body, sent)
    ensures var r := Accept(b, epoch, maxLen, h, body); r.Some? ==> InboxOk(r.value, sent) && r.value.next == b.next
  {
    var r := Accept(b, epoch, maxLen, h, body);
    if r.Some? && r.value != b {
      AbsorbKeeps(b.Partially(h), h, body, sent);
    }
  }

  lemma AbsorbKeeps(p: Partial, h: HmHeader, body: seq<byte>, sent: seq<Message>)
    requires FragmentOf(h, body, sent) && PieceOf(p, sent[h.seqNo])
    ensures PieceOf(p.Absorb(h.fragOff, body), sent[h.seqNo])
  {
    var m := sent[h.seqNo];
    var q := p.Absorb(h.fragOff, body);
    forall k | k in q.got ensures k < |m.body| && q.got[k] == m.body[k] {
      if k in Placed(h.fragOff, body) {
        assert m.body[k] == body[k - h.fragOff];
      }
    }
  }

  lemma {:induction false} OpenFragmentsKeeps(b: Inbox, epoch: nat, maxLen: nat, plain: seq<byte>, sent: seq<Message>)
    requires InboxOk(b, sent) && Truthful(plain, sent)
    ensures InboxOk(R.OpenFragments(b, epoch, maxLen, plain).1, sent)
    ensures R.OpenFragments(b, epoch, maxLen, plain).1.next == b.next
    decreases |plain|
  {
    var f := ParseFragment(plain);
    if plain != [] && f.Some? {
      AcceptKeeps(b, epoch, maxLen, f.value.hdr, f.value.body, sent);
      var after := Accept(b, epoch, maxLen, f.value.hdr, f.value.body);
      if after.Some? {
        OpenFragmentsKeeps(after.value, epoch, maxLen, f.value.rest, sent);
      }
    }
  }

  /** A complete message is the one sent under its number. */
  lemma CompleteIsWhole(b: Inbox, sent: seq<Message>)
    requires InboxOk(b, sent) && b.next in b.pending && b.pending[b.next].Complete()
    ensures b.next < |sent|
    ensures HandedOut(b) == Raw(sent[b.next], b.next)
  {
    var p, m := b.pending[b.next], sent[b.next];
    forall k | 0 <= k < p.msgLen ensures p.Body()[k] == m.body[k] {
      assert k in Interval(0, p.msgLen);
    }
    assert p.Body() == m.body;
  }

  /** What dtls1_get_message exposes of the current message. */
  function HandedOut(b: Inbox): seq<byte>
    requires b.next in b.pending && b.pending[b.next].Complete()
  {
    var p := b.pending[b.next];
    SerializeHeader(HmHeader(p.typ, p.msgLen, b.next, 0, p.msgLen)) + p.Body()
  }

  // The system as a transition relation.

  datatype State = State(
    sent: seq<Message>,            // messages added by the sender
    emitted: seq<Item>,            // records in packets handed to the transport
    incoming: seq<byte>,           // what the receiver has not yet consumed of the current packet
    reader: R.ReadState,
    inbox: Inbox,
    maxLen: nat,
    delivered: seq<seq<byte>>)     // messages taken out by the receiver

  ghost predicate Initial(keys: Keys, s: State) {
    && s.sent == [] && s.emitted == [] && s.incoming == [] && s.delivered == []
    && s.reader == R.ReadState(false, 0, 0, keys(0), {}, 0) && s.inbox == Inbox(0, map[])
  }

  /** The sender adds messages and emits records that carry pieces of messages added. */
  ghost predicate Sends(keys: Keys, s: State, t: State) {
    && t == s.(sent := t.sent, emitted := t.emitted) && s.sent <= t.sent && s.emitted <= t.emitted
    && forall i | i in t.emitted[|s.emitted|..] :: GenuineItem(keys, i, t.sent)
  }

  /** The network delivers any arrangement of emitted records, any number of times, in any order. */
  ghost predicate Arrives(s: State, t: State) {
    t == s.(incoming := t.incoming) && MadeOf(t.incoming, s.emitted)
  }

  /** The receiver opens the next record of the current packet. */
  ghost predicate Opens(s: State, t: State) {
    var o := R.Open(s.reader, s.incoming);
    && R.Consumed(o) <= |s.incoming|
    && t == s.(incoming := s.incoming[R.Consumed(o)..], reader := R.Noted(s.reader, o),
               inbox := R.Handle(o, s.reader, s.inbox, s.maxLen).inbox)
  }

  /** The receiver takes the current message out. */
  ghost predicate Takes(s: State, t: State) {
    && s.inbox.next in s.inbox.pending && s.inbox.pending[s.inbox.next].Complete()
    && t == s.(inbox := Inbox(s.inbox.next + 1, s.inbox.pending - {s.inbox.next}),
               delivered := s.delivered + [HandedOut(s.inbox)])
  }

  /** The read epoch changes, or the phase does and with it the longest message allowed. */
  ghost predicate Reconfigures(keys: Keys, s: State, t: State) {
    || t == s.(maxLen := t.maxLen)
    || (&& s.inbox.pending.Keys <= {s.inbox.next}
        && t == s.(reader := s.reader.(epoch := s.reader.epoch + 1, ctx := keys(s.reader.epoch + 1), accepted := {},
           max := 0)))
  }

  ghost predicate Next(keys: Keys, s: State, t: State) {
    Sends(keys, s, t) || Arrives(s, t) || Opens(s, t) || Takes(s, t) || Reconfigures(keys, s, t)
  }

  ghost predicate Inv(keys: Keys, s: State) {
    && s.reader.ctx == keys(s.reader.epoch)
    && (forall i | i in s.emitted :: GenuineItem(keys, i, s.sent))
    && MadeOf(s.incoming, s.emitted)
    && InboxOk(s.inbox, s.sent)
    && InOrder(s.delivered, s.sent) && |s.delivered| == s.inbox.next
  }

  /** Exactly the first messages sent, in order, octet for octet. */
  predicate InOrder(delivered: seq<seq<byte>>, sent: seq<Message>) {
    && |delivered| <= |sent|
    && forall k | 0 <= k < |delivered| :: delivered[k] == Raw(sent[k], k)
  }

  lemma SendsKeeps(keys: Keys, s: State, t: State)
    requires Inv(keys, s) && Sends(keys, s, t)
    ensures Inv(keys, t)
  {
    var more, items := t.sent[|s.sent|..], t.emitted[|s.emitted|..];
    assert t.sent == s.sent + more && t.emitted == s.emitted + items;
    MadeOfGrows(s.incoming, s.emitted, items);
    forall i | i in t.emitted ensures GenuineItem(keys, i, t.sent) {
      if i in s.emitted && i.rec.typ == RT_HANDSHAKE {
        TruthfulGrows(i.plain, s.sent, more);
      }
    }
  }

  /** A record accepted by the receiver was sealed by the sender, and opens to what was sealed. */
  lemma OpensToSealed(keys: Keys, s: State)
    requires (forall e :: keys(e).Sound()) && Inv(keys, s)
    ensures var o := R.Open(s.reader, s.incoming);
            && R.Consumed(o) <= |s.incoming| && MadeOf(s.incoming[R.Consumed(o)..], s.emitted)
            && (o.Success? && o.typ == RT_HANDSHAKE ==> Truthful(o.plain, s.sent))
  {
    var o := R.Open(s.reader, s.incoming);
    var parsed := ParseRecord(s.incoming);
    if !s.reader.closed && s.incoming != [] {
      if parsed.Some? {
        var (r, rest) := parsed.value;
        assert s.incoming[|s.incoming| - |rest|..] == rest;
        if o.Success? {
          var i :| i in s.emitted && i.rec == r;
          assert GenuineItem(keys, i, s.sent) && SealedUnder(keys, i);
          assert keys(EpochOf(i.rec)).Protects(r.typ, r.version, r.number, i.plain);
          assert o.plain == i.plain;
        }
      }
      assert ParseRecord([]) == None;
    }
  }

  /** The reader opens a record of the packet in front of it that is neither of another epoch nor too old. */
  ghost predicate Offered(s: State, i: Item) {
    var parsed := ParseRecord(s.incoming);
    && parsed.Some? && parsed.value.0 == i.rec
    && |i.rec.number| == 8 && Value(i.rec.number[..2]) == s.reader.epoch
    && (if s.reader.ctx.isNull then i.rec.version / 256 == 0xfe else i.rec.version == s.reader.ctx.version)
    && |i.plain| <= 16384
    && !s.reader.closed
    && (Value(i.rec.number) in s.reader.accepted || Value(i.rec.number) + 64 > s.reader.max)
  }

  /** A ChangeCipherSpec of the sender, offered in time, opens to what the receiver takes for one. */
  lemma ChangeCipherSpecOpens(keys: Keys, s: State, i: Item)
    requires (forall e :: keys(e).Sound()) && Inv(keys, s) && i in s.emitted && i.rec.typ == RT_CHANGE_CIPHER_SPEC
    requires Offered(s, i) && Value(i.rec.number) !in s.reader.accepted
    ensures var o := R.Open(s.reader, s.incoming); o.Success? && o.typ == 20 && o.plain == [1]
  {
    hide InboxOk, InOrder, MadeOf;
    assert GenuineItem(keys, i, s.sent);
    assert keys(EpochOf(i.rec)).Protects(i.rec.typ, i.rec.version, i.rec.number, i.plain);
  }

  lemma OpensKeeps(keys: Keys, s: State, t: State)
    requires (forall e :: keys(e).Sound()) && Inv(keys, s) && Opens(s, t)
    ensures Inv(keys, t)
  {
    hide GenuineItem, InOrder, InboxOk, Truthful;
    OpensToSealed(keys, s);
    var o := R.Open(s.reader, s.incoming);
    if o.Success? && o.typ == RT_HANDSHAKE {
      OpenFragmentsKeeps(s.inbox, s.reader.epoch, s.maxLen, o.plain, s.sent);
    }
  }

  lemma TakesKeeps(keys: Keys, s: State, t: State)
    requires Inv(keys, s) && Takes(s, t)
    ensures Inv(keys, t)
  {
    hide GenuineItem, HandedOut;
    CompleteIsWhole(s.inbox, s.sent);
  }

  lemma StepKeeps(keys: Keys, s: State, t: State)
    requires (forall e :: keys(e).Sound()) && Inv(keys, s) && Next(keys, s, t)
    ensures Inv(keys, t)
  {
    hide GenuineItem, InOrder, InboxOk;
    if Sends(keys, s, t) {
      SendsKeeps(keys, s, t);
    } else if Opens(s, t) {
      OpensKeeps(keys, s, t);
    } else if Takes(s, t) {
      TakesKeeps(keys, s, t);
    }
  }

  ghost predicate Behaviour(keys: Keys, run: seq<State>) {
    && run != [] && Initial(keys, run[0])
    && forall k | 0 <= k < |run| - 1 :: Next(keys, run[k], run[k + 1])
  }

  /** In every state of every run, the messages delivered are a prefix of the messages sent. */
  lemma {:induction false} EndToEnd(keys: Keys, run: seq<State>, k: nat)
    requires (forall e :: keys(e).Sound()) && Behaviour(keys, run) && k < |run|
    ensures Inv(keys, run[k]) && InOrder(run[k].delivered, run[k].sent)
    decreases k
  {
    if k > 0 {
      EndToEnd(keys, run, k - 1);
      StepKeeps(keys, run[k - 1], run[k]);
    } else {
      assert ParseRecord([]) == None;
    }
  }
}
