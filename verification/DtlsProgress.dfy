/** The other half of reliable delivery: when the records of one full transmission of a flight have
    all been read, in any order and any number of times, every message of it is complete. */
module DtlsProgress {
  import opened Bytes
  import opened Options
  import opened DtlsWire
  import opened Reassembly
  import opened IncomingMessages
  import opened ReplayWindow
  import opened RecordWriter
  import opened SequenceNumbers
  import opened Aead
  import opened Flight
  import opened DtlsSystem
  import D = DtlsSender
  import R = DtlsReceiver
  import S = DtlsSession

  /** The positions of a message that a set of them has arrived for. */
  ghost predicate Holds(b: Inbox, seqNo: nat, positions: set<nat>) {
    seqNo in b.pending && positions <= b.pending[seqNo].got.Keys
  }

  /** A message the receiver has room for now: within the window, not too long, and in its turn if
      the epoch demands that. */
  predicate Acceptable(b: Inbox, epoch: nat, maxLen: nat, seqNo: nat, length: nat) {
    seqNo < b.next + MAX_HANDSHAKE_FLIGHT && length <= maxLen && (epoch == 1 ==> seqNo == b.next)
  }

  /** A record with one fragment, a piece of a message sent. */
  predicate Single(i: Item, sent: seq<Message>) {
    var f := ParseFragment(i.plain);
    f.Some? && f.value.rest == [] && FragmentOf(f.value.hdr, f.value.body, sent)
  }

  /** A handshake record with one fragment, a piece of an acceptable message. */
  predicate Readable(b: Inbox, epoch: nat, maxLen: nat, i: Item, sent: seq<Message>) {
    i.rec.typ == RT_HANDSHAKE ==>
      && Single(i, sent)
      && var h := ParseFragment(i.plain).value.hdr; Acceptable(b, epoch, maxLen, h.seqNo, h.msgLen)
  }

  /** The positions a record fills. */
  function Fills(i: Item, seqNo: nat): Option<set<nat>> {
    var f := ParseFragment(i.plain);
    if i.rec.typ == RT_HANDSHAKE && f.Some? && f.value.hdr.seqNo == seqNo then
      Some(Interval(f.value.hdr.fragOff, f.value.hdr.fragOff + |f.value.body|))
    else None
  }

  /** Reading records one after the other. */
  function ReadAll(b: Inbox, epoch: nat, maxLen: nat, items: seq<Item>): (bool, Inbox)
    decreases items
  {
    if items == [] then (true, b)
    else
      var (ok, next) := Read(b, epoch, maxLen, items[0]);
      if ok then ReadAll(next, epoch, maxLen, items[1..]) else (false, next)
  }

  function Read(b: Inbox, epoch: nat, maxLen: nat, i: Item): (bool, Inbox) {
    if i.rec.typ == RT_HANDSHAKE then R.OpenFragments(b, epoch, maxLen, i.plain) else (true, b)
  }

  /** Reading an acceptable fragment loses nothing that was there and adds what it carries. */
  lemma AcceptFills(b: Inbox, epoch: nat, maxLen: nat, h: HmHeader, body: seq<byte>, sent: seq<Message>)
    requires InboxOk(b, sent) && FragmentOf(h, body, sent) && Acceptable(b, epoch, maxLen, h.seqNo, h.msgLen)
    ensures var r := Accept(b, epoch, maxLen, h, body);
            && r.Some? && r.value.next == b.next
            && (h.seqNo >= b.next ==> Holds(r.value, h.seqNo, Interval(h.fragOff, h.fragOff + |body|)))
            && forall s, ps | Holds(b, s, ps) :: Holds(r.value, s, ps)
  {
    if h.seqNo >= b.next {
      var p := b.Partially(h);
      assert p.typ == h.typ && p.msgLen == h.msgLen;
      if p.Complete() {
        assert Interval(h.fragOff, h.fragOff + |body|) <= Interval(0, p.msgLen);
      }
    }
  }

  lemma ReadFills(b: Inbox, epoch: nat, maxLen: nat, i: Item, sent: seq<Message>)
    requires InboxOk(b, sent) && Readable(b, epoch, maxLen, i, sent)
    ensures var (ok, after) := Read(b, epoch, maxLen, i);
            && ok && after.next == b.next && InboxOk(after, sent)
            && (forall s, ps | Holds(b, s, ps) :: Holds(after, s, ps))
            && (forall s | s >= b.next && Fills(i, s).Some? :: Holds(after, s, Fills(i, s).value))
  {
    hide Holds, InboxOk, Accept, ParseFragment;
    if i.rec.typ == RT_HANDSHAKE {
      var f := ParseFragment(i.plain).value;
      AcceptFills(b, epoch, maxLen, f.hdr, f.body, sent);
      AcceptKeeps(b, epoch, maxLen, f.hdr, f.body, sent);
      var after := Accept(b, epoch, maxLen, f.hdr, f.body).value;
      assert R.OpenFragments(after, epoch, maxLen, []) == (true, after);
      Unfold(b, epoch, maxLen, i.plain, f, after);
    }
  }

  lemma Unfold(b: Inbox, epoch: nat, maxLen: nat, plain: seq<byte>, f: Fragment, after: Inbox)
    requires ParseFragment(plain) == Some(f) && f.rest == [] && Accept(b, epoch, maxLen, f.hdr, f.body) == Some(after)
    ensures R.OpenFragments(b, epoch, maxLen, plain) == (true, after)
  {
    hide Accept;
    assert plain != [];
  }

  lemma {:induction false} ReadAllFills(b: Inbox, epoch: nat, maxLen: nat, items: seq<Item>, sent: seq<Message>)
    requires InboxOk(b, sent) && forall i | i in items :: Readable(b, epoch, maxLen, i, sent)
    ensures var (ok, after) := ReadAll(b, epoch, maxLen, items);
            && ok && after.next == b.next && InboxOk(after, sent)
            && (forall s, ps | Holds(b, s, ps) :: Holds(after, s, ps))
            && (forall i, s | i in items && s >= b.next && Fills(i, s).Some? :: Holds(after, s, Fills(i, s).value))
    decreases items
  {
    hide Holds, InboxOk, Read, Fills;
    if items != [] {
      var i, tail := items[0], items[1..];
      assert i in items && forall j | j in tail :: j in items;
      ReadFills(b, epoch, maxLen, i, sent);
      var next := Read(b, epoch, maxLen, i).1;
      forall j | j in tail ensures Readable(next, epoch, maxLen, j, sent) {
        assert Readable(b, epoch, maxLen, j, sent);
      }
      ReadAllFills(next, epoch, maxLen, tail, sent);
    }
  }

  /** Each octet still to be sent of a message is in some record of a walk to the end, and so is the
      message itself, even if it has no octets. */
  lemma {:induction false} WalkCovers(msgs: seq<OutMessage>, pos: Pos, items: seq<Item>, k: nat, at: nat)
    requires FlightOk(msgs) && PosOk(msgs, pos) && pos.written <= k < |msgs| && !msgs[k].isCcs
    requires Walk(msgs, pos, items) == Some(Pos(|msgs|, 0))
    requires k == pos.written ==> pos.offset <= at
    requires at < |Body(msgs[k])| || (at == 0 && |Body(msgs[k])| == 0)
    ensures exists i :: i in items && Fills(i, Header(msgs[k]).seqNo).Some?
              && (at < |Body(msgs[k])| ==> at in Fills(i, Header(msgs[k]).seqNo).value)
    decreases items
  {
    hide Whole, Header, Body, ParseFragment;
    assert items != [];
    var i, s := items[0], Header(msgs[k]).seqNo;
    assert i in items;
    var next := ConsumeItem(msgs, pos, i).value;
    if k == pos.written && (next.written > k || at < next.offset) {
      var f := ParseFragment(i.plain).value;
      assert Fills(i, s) == Some(Interval(pos.offset, pos.offset + |f.body|));
    } else {
      WalkCovers(msgs, next, items[1..], k, at);
      assert forall j | j in items[1..] :: j in items;
    }
  }

  /** Every handshake record of a walk along a genuine flight is one fragment of a message of it. */
  lemma {:induction false} WalkIsSingle(msgs: seq<OutMessage>, pos: Pos, items: seq<Item>, sent: seq<Message>, i: Item)
    returns (k: nat)
    requires FlightOk(msgs) && PosOk(msgs, pos) && Walk(msgs, pos, items).Some?
    requires forall m | m in msgs :: D.Genuine(m, sent)
    requires i in items && i.rec.typ == RT_HANDSHAKE
    ensures Single(i, sent)
    ensures k < |msgs| && !msgs[k].isCcs && Whole(msgs[k])
    ensures var h := ParseFragment(i.plain).value.hdr; h.seqNo == Header(msgs[k]).seqNo && h.msgLen == |Body(msgs[k])|
    decreases items
  {
    hide Whole, Header, Body, ParseFragment;
    var next := ConsumeItem(msgs, pos, items[0]).value;
    if i == items[0] {
      k := pos.written;
      assert D.Genuine(msgs[k], sent);
    } else {
      assert i in items[1..];
      k := WalkIsSingle(msgs, next, items[1..], sent, i);
    }
  }

  /** Whatever the order, duplicated or mixed with other readable records: once all the records of a
      complete transmission are read, every message of the flight not yet taken out is complete. */
  lemma FlightArrives(b: Inbox, epoch: nat, maxLen: nat, msgs: seq<OutMessage>, items: seq<Item>, arrived: seq<Item>,
                      sent: seq<Message>, k: nat)
    requires InboxOk(b, sent) && FlightOk(msgs)
    requires forall m | m in msgs :: D.Genuine(m, sent)
    requires Walk(msgs, Pos(0, 0), items) == Some(Pos(|msgs|, 0))
    requires forall i | i in arrived :: Readable(b, epoch, maxLen, i, sent)
    requires forall i | i in items :: i in arrived
    requires k < |msgs| && !msgs[k].isCcs && Header(msgs[k]).seqNo >= b.next
    ensures var (ok, after) := ReadAll(b, epoch, maxLen, arrived);
            ok && Header(msgs[k]).seqNo in after.pending && after.pending[Header(msgs[k]).seqNo].Complete()
  {
    hide ReadAll, Walk, ParseFragment, Readable;
    ReadAllFills(b, epoch, maxLen, arrived, sent);
    var after, s := ReadAll(b, epoch, maxLen, arrived).1, Header(msgs[k]).seqNo;
    assert D.Genuine(msgs[k], sent);
    WalkCovers(msgs, Pos(0, 0), items, k, 0);
    forall at | at in Interval(0, |Body(msgs[k])|) ensures at in after.pending[s].got.Keys {
      WalkCovers(msgs, Pos(0, 0), items, k, at);
    }
    assert after.pending[s].got.Keys == Interval(0, |Body(msgs[k])|);
  }

  // The same of the receiver itself: records pass the replay window, and messages are taken out meanwhile.

  /** Unless the message was taken out, what the accepted ones of these records carry of it is there. */
  ghost predicate Caught(s: State, items: seq<Item>, q: nat) {
    forall i | i in items && Value(i.rec.number) in s.reader.accepted && q >= s.inbox.next && Fills(i, q).Some? ::
      Holds(s.inbox, q, Fills(i, q).value)
  }

  /** Reading a record never loses what has arrived, even if one of its fragments is refused. */
  lemma {:induction false} OpenFragmentsHolds(b: Inbox, epoch: nat, maxLen: nat, plain: seq<byte>, q: nat, ps: set<nat>)
    requires Holds(b, q, ps)
    ensures Holds(R.OpenFragments(b, epoch, maxLen, plain).1, q, ps)
    ensures R.OpenFragments(b, epoch, maxLen, plain).1.next == b.next
    decreases |plain|
  {
    var f := ParseFragment(plain);
    if plain != [] && f.Some? {
      var after := Accept(b, epoch, maxLen, f.value.hdr, f.value.body);
      if after.Some? {
        OpenFragmentsHolds(after.value, epoch, maxLen, f.value.rest, q, ps);
      }
    }
  }

  /** What an accepted record is, and that it opened to what was sealed in it. */
  lemma AcceptedItem(keys: Keys, s: State, all: seq<Item>) returns (i: Item)
    requires (forall e :: keys(e).Sound()) && Inv(keys, s) && (forall j | j in s.emitted :: j in all)
    requires R.Accepted(R.Open(s.reader, s.incoming))
    ensures var o := R.Open(s.reader, s.incoming);
            && i in all && o.number == Value(i.rec.number)
            && if o.Alert? then i.rec.typ == RT_ALERT else i.rec.typ == o.typ && i.plain == o.plain
  {
    hide InboxOk, InOrder, Truthful;
    var (r, rest) := ParseRecord(s.incoming).value;
    i :| i in s.emitted && i.rec == r;
    assert GenuineItem(keys, i, s.sent);
    assert keys(EpochOf(i.rec)).Protects(r.typ, r.version, r.number, i.plain);
  }

  /** A record offered in time is accepted now or was before. */
  lemma OfferedIsAccepted(keys: Keys, s: State, t: State, i: Item, all: seq<Item>)
    requires (forall e :: keys(e).Sound()) && Inv(keys, s) && Opens(s, t)
    requires OnePerNumber(all) && i in all && forall j | j in s.emitted :: j in all
    requires Offered(s, i)
    ensures Value(i.rec.number) in t.reader.accepted
  {
    hide InboxOk, InOrder, Truthful;
    var (r, rest) := ParseRecord(s.incoming).value;
    var j :| j in s.emitted && j.rec == r;
    assert j == i && GenuineItem(keys, i, s.sent);
    assert keys(EpochOf(i.rec)).Protects(r.typ, r.version, r.number, i.plain);
  }

  lemma AcceptableStays(start: Inbox, b: Inbox, epoch: nat, maxLen: nat, i: Item, q: nat, sent: seq<Message>)
    requires Readable(start, epoch, maxLen, i, sent) && Fills(i, q).Some? && start.next <= b.next <= q
    ensures Readable(b, epoch, maxLen, i, sent)
  {
  }

  /** Opening a record keeps what the records of a flight that were accepted carry. */
  lemma OpensCatches(keys: Keys, s: State, t: State, i: Item, q: nat, all: seq<Item>, start: Inbox, sent: seq<Message>)
    requires (forall e :: keys(e).Sound()) && Inv(keys, s) && Opens(s, t)
    requires OnePerNumber(all) && i in all && forall j | j in s.emitted :: j in all
    requires s.sent <= sent && start.next <= s.inbox.next <= q
    requires Readable(start, s.reader.epoch, s.maxLen, i, sent)
    requires Value(i.rec.number) in t.reader.accepted && Fills(i, q).Some?
    requires Value(i.rec.number) in s.reader.accepted ==> Holds(s.inbox, q, Fills(i, q).value)
    ensures Holds(t.inbox, q, Fills(i, q).value)
  {
    hide Inv, R.Open, R.OpenFragments, Readable, Holds, ParseFragment, Read;
    var o := R.Open(s.reader, s.incoming);
    if Value(i.rec.number) in s.reader.accepted {
      if o.Success? {
        OpenFragmentsHolds(s.inbox, s.reader.epoch, s.maxLen, o.plain, q, Fills(i, q).value);
      }
    } else {
      var j := AcceptedItem(keys, s, all);
      assert j == i;
      AcceptableStays(start, s.inbox, s.reader.epoch, s.maxLen, i, q, sent);
      InboxOkGrows(keys, s, sent);
      ReadFills(s.inbox, s.reader.epoch, s.maxLen, i, sent);
      Reads(s.inbox, s.reader.epoch, s.maxLen, i);
    }
  }

  lemma Reads(b: Inbox, epoch: nat, maxLen: nat, i: Item)
    requires i.rec.typ == RT_HANDSHAKE
    ensures Read(b, epoch, maxLen, i) == R.OpenFragments(b, epoch, maxLen, i.plain)
  {
  }

  lemma InboxOkGrows(keys: Keys, s: State, sent: seq<Message>)
    requires Inv(keys, s) && s.sent <= sent
    ensures InboxOk(s.inbox, sent)
  {
  }

  lemma OpensNext(s: State, t: State)
    requires Opens(s, t)
    ensures t.inbox.next == s.inbox.next
  {
    hide R.Open;
    var o := R.Open(s.reader, s.incoming);
    if o.Success? {
      OpenFragmentsNext(s.inbox, s.reader.epoch, s.maxLen, o.plain);
    }
  }

  lemma {:induction false} OpenFragmentsNext(b: Inbox, epoch: nat, maxLen: nat, plain: seq<byte>)
    ensures R.OpenFragments(b, epoch, maxLen, plain).1.next == b.next
    decreases |plain|
  {
    var f := ParseFragment(plain);
    if plain != [] && f.Some? {
      var after := Accept(b, epoch, maxLen, f.value.hdr, f.value.body);
      if after.Some? {
        OpenFragmentsNext(after.value, epoch, maxLen, f.value.rest);
      }
    }
  }

  /** A stretch of a run within one epoch of the receiver and one phase of its handshake. */
  ghost predicate Stretch(keys: Keys, run: seq<State>) {
    && run != [] && Inv(keys, run[0])
    && forall k | 0 <= k < |run| - 1 ::
         Next(keys, run[k], run[k + 1]) && run[k + 1].reader.epoch == run[k].reader.epoch
             && run[k + 1].maxLen == run[k].maxLen
  }

  /** In one step of a stretch nothing read is lost, and messages are only taken in their turn. */
  lemma StepCatches(keys: Keys, s: State, t: State, items: seq<Item>, q: nat, all: seq<Item>, start: Inbox,
                    sent: seq<Message>)
    requires (forall e :: keys(e).Sound()) && Inv(keys, s) && Next(keys, s, t)
    requires t.reader.epoch == s.reader.epoch && t.maxLen == s.maxLen
    requires OnePerNumber(all) && (forall i | i in items :: i in all) && (forall j | j in s.emitted :: j in all)
    requires s.sent <= sent && start.next <= s.inbox.next
    requires forall i | i in items && Fills(i, q).Some? :: Readable(start, s.reader.epoch, s.maxLen, i, sent)
    requires Caught(s, items, q)
    ensures Caught(t, items, q) && s.inbox.next <= t.inbox.next && s.reader.accepted <= t.reader.accepted
  {
    hide Inv, OnePerNumber, Readable, Fills, R.Open;
    if Opens(s, t) {
      OpensNext(s, t);
      forall i | i in items && Value(i.rec.number) in t.reader.accepted && q >= t.inbox.next && Fills(i, q).Some?
        ensures Holds(t.inbox, q, Fills(i, q).value)
      {
        OpensCatches(keys, s, t, i, q, all, start, sent);
      }
    }
  }

  lemma {:induction false} Grows(keys: Keys, run: seq<State>, j: nat, k: nat)
    requires Stretch(keys, run) && j <= k < |run|
    ensures run[j].sent <= run[k].sent && run[j].emitted <= run[k].emitted
    ensures forall i | i in run[j].emitted :: i in run[k].emitted
    decreases k - j
  {
    hide Inv, R.Open, R.Handle, R.Noted, GenuineItem, MadeOf;
    if j < k {
      Grows(keys, run, j + 1, k);
      assert Next(keys, run[j], run[j + 1]);
    }
  }

  /** The same over a stretch. */
  lemma {:induction false} StretchCatches(keys: Keys, run: seq<State>, k: nat, items: seq<Item>, q: nat)
    requires (forall e :: keys(e).Sound()) && Stretch(keys, run) && k < |run|
    requires OnePerNumber(run[|run| - 1].emitted) && forall i | i in items :: i in run[|run| - 1].emitted
    requires forall i | i in items && Fills(i, q).Some? ::
               Readable(run[0].inbox, run[0].reader.epoch, run[0].maxLen, i, run[|run| - 1].sent)
    requires Caught(run[0], items, q)
    ensures Inv(keys, run[k]) && Caught(run[k], items, q) && run[0].inbox.next <= run[k].inbox.next
    ensures run[k].reader.epoch == run[0].reader.epoch && run[k].maxLen == run[0].maxLen
    decreases k
  {
    hide Inv, Next, Caught, OnePerNumber, Readable, Fills;
    if k > 0 {
      StretchCatches(keys, run, k - 1, items, q);
      assert Next(keys, run[k - 1], run[k]);
      StepKeeps(keys, run[k - 1], run[k]);
      Grows(keys, run, k - 1, |run| - 1);
      StepCatches(keys, run[k - 1], run[k], items, q, run[|run| - 1].emitted, run[0].inbox, run[|run| - 1].sent);
    }
  }

  lemma {:induction false} AcceptedStays(keys: Keys, run: seq<State>, j: nat, k: nat, n: nat)
    requires Stretch(keys, run) && j <= k < |run| && n in run[j].reader.accepted
    ensures n in run[k].reader.accepted
    decreases k - j
  {
    hide Inv, R.Open;
    if j < k {
      assert Next(keys, run[j], run[j + 1]);
      AcceptedStays(keys, run, j + 1, k, n);
    }
  }

  /** At some moment the receiver opened this record, in time. */
  ghost predicate WasOpened(run: seq<State>, i: Item) {
    exists k :: 0 <= k < |run| - 1 && Offered(run[k], i) && Opens(run[k], run[k + 1])
  }

  lemma OpenedIsAccepted(keys: Keys, run: seq<State>, i: Item, items: seq<Item>, q: nat)
    requires (forall e :: keys(e).Sound()) && Stretch(keys, run) && WasOpened(run, i) && i in items
    requires OnePerNumber(run[|run| - 1].emitted) && forall j | j in items :: j in run[|run| - 1].emitted
    requires forall j | j in items && Fills(j, q).Some? ::
               Readable(run[0].inbox, run[0].reader.epoch, run[0].maxLen, j, run[|run| - 1].sent)
    requires Caught(run[0], items, q)
    ensures Value(i.rec.number) in run[|run| - 1].reader.accepted
  {
    hide Inv, Caught, OnePerNumber, Readable, Fills, Opens, Stretch, Offered;
    var k :| 0 <= k < |run| - 1 && Offered(run[k], i) && Opens(run[k], run[k + 1]);
    StretchCatches(keys, run, k, items, q);
    Grows(keys, run, k, |run| - 1);
    OfferedIsAccepted(keys, run[k], run[k + 1], i, run[|run| - 1].emitted);
    AcceptedStays(keys, run, k + 1, |run| - 1, Value(i.rec.number));
  }

  /** A message arrives. While the receiver stays in one epoch and one phase, let the network deliver what it
      likes in any order and as often as it likes, and let messages be sent, read and taken out: if each
      record of one complete transmission that carries a piece of the message was opened at some moment, not
      older than the replay window, then the message is complete or has been taken out. */
  lemma MessageArrives(keys: Keys, run: seq<State>, msgs: seq<OutMessage>, items: seq<Item>, m: nat)
    requires (forall e :: keys(e).Sound()) && Stretch(keys, run) && OnePerNumber(run[|run| - 1].emitted)
    requires FlightOk(msgs) && forall o | o in msgs :: D.Genuine(o, run[|run| - 1].sent)
    requires Walk(msgs, Pos(0, 0), items) == Some(Pos(|msgs|, 0))
             && forall i | i in items :: i in run[|run| - 1].emitted
    requires m < |msgs| && !msgs[m].isCcs
    requires Acceptable(run[0].inbox, run[0].reader.epoch, run[0].maxLen, Header(msgs[m]).seqNo, |Body(msgs[m])|)
    requires forall i | i in items && Fills(i, Header(msgs[m]).seqNo).Some? ::
               WasOpened(run, i) && Value(i.rec.number) !in run[0].reader.accepted
    ensures var after, q := run[|run| - 1].inbox, Header(msgs[m]).seqNo;
            q < after.next || (q in after.pending && after.pending[q].Complete())
  {
    hide Walk, ParseFragment, Readable, Inv, WasOpened, OnePerNumber, Whole, Fills;
    var last, q, sent := run[|run| - 1], Header(msgs[m]).seqNo, run[|run| - 1].sent;
    forall i | i in items && Fills(i, q).Some?
      ensures Readable(run[0].inbox, run[0].reader.epoch, run[0].maxLen, i, sent)
    {
      PieceIsReadable(run[0].inbox, run[0].reader.epoch, run[0].maxLen, msgs, items, m, sent, i);
    }
    StretchCatches(keys, run, |run| - 1, items, q);
    if q >= last.inbox.next {
      forall i | i in items && Fills(i, q).Some? ensures Holds(last.inbox, q, Fills(i, q).value) {
        OpenedIsAccepted(keys, run, i, items, q);
      }
      AllHeld(keys, last, msgs, items, m);
    }
  }

  lemma PieceIsReadable(b: Inbox, epoch: nat, maxLen: nat, msgs: seq<OutMessage>, items: seq<Item>, m: nat,
                        sent: seq<Message>, i: Item)
    requires FlightOk(msgs) && (forall o | o in msgs :: D.Genuine(o, sent)) && m < |msgs| && !msgs[m].isCcs
    requires Walk(msgs, Pos(0, 0), items).Some? && i in items && Fills(i, Header(msgs[m]).seqNo).Some?
    requires Acceptable(b, epoch, maxLen, Header(msgs[m]).seqNo, |Body(msgs[m])|)
    ensures Readable(b, epoch, maxLen, i, sent)
  {
    hide Walk, ParseFragment, Header, Body, Whole;
    var k := WalkIsSingle(msgs, Pos(0, 0), items, sent, i);
    assert D.Genuine(msgs[m], sent) && D.Genuine(msgs[k], sent);
  }

  /** A message all of whose records are held is complete. */
  lemma AllHeld(keys: Keys, s: State, msgs: seq<OutMessage>, items: seq<Item>, m: nat)
    requires Inv(keys, s) && FlightOk(msgs) && (forall o | o in msgs :: D.Genuine(o, s.sent)) && m < |msgs|
             && !msgs[m].isCcs
    requires Walk(msgs, Pos(0, 0), items) == Some(Pos(|msgs|, 0))
    requires forall i | i in items && Fills(i, Header(msgs[m]).seqNo).Some? ::
               Holds(s.inbox, Header(msgs[m]).seqNo, Fills(i, Header(msgs[m]).seqNo).value)
    ensures var q := Header(msgs[m]).seqNo; q in s.inbox.pending && s.inbox.pending[q].Complete()
  {
    hide Walk, ParseFragment, Fills;
    var q := Header(msgs[m]).seqNo;
    assert D.Genuine(msgs[m], s.sent);
    WalkCovers(msgs, Pos(0, 0), items, m, 0);
    forall at | at in Interval(0, |Body(msgs[m])|) ensures at in s.inbox.pending[q].got.Keys {
      WalkCovers(msgs, Pos(0, 0), items, m, at);
    }
    assert s.inbox.pending[q].got.Keys == Interval(0, |Body(msgs[m])|);
  }

  /** So it is between the sender and the receiver of a session, if the run led to where the session now is and
      the sender never used a counter after it had run over. */
  lemma SessionMessageArrives(session: S.Session, run: seq<State>, msgs: seq<OutMessage>, items: seq<Item>, m: nat)
    requires session.Valid() && StopsInTime(START, NONE, session.sender.writer.history)
    requires Stretch(session.sender.writer.keys, run) && run[|run| - 1] == session.View()
    requires FlightOk(msgs) && forall o | o in msgs :: D.Genuine(o, session.sender.sent)
    requires Walk(msgs, Pos(0, 0), items) == Some(Pos(|msgs|, 0)) && forall i | i in items :: i in session.emitted
    requires m < |msgs| && !msgs[m].isCcs
    requires Acceptable(run[0].inbox, run[0].reader.epoch, run[0].maxLen, Header(msgs[m]).seqNo, |Body(msgs[m])|)
    requires forall i | i in items && Fills(i, Header(msgs[m]).seqNo).Some? ::
               WasOpened(run, i) && Value(i.rec.number) !in run[0].reader.accepted
    ensures var queue, q := session.receiver.queue, Header(msgs[m]).seqNo;
            q < queue.readSeq || (q in queue.pending && queue.pending[q].Complete())
  {
    hide Walk, Stretch, WasOpened, Acceptable, Fills, StopsInTime, OnePerNumber, Inv;
    session.OneRecordPerNumber();
    MessageArrives(session.sender.writer.keys, run, msgs, items, m);
  }
}
