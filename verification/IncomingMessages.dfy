/** The queue of handshake messages being received: a ring of seven slots, indexed by message
    number modulo seven, that refines a map from message numbers to partial messages. */
module IncomingMessages {
  import opened Bytes
  import opened DtlsWire
  import opened Options
  import opened Reassembly

  const MAX_HANDSHAKE_FLIGHT: nat := 7

  /** What the ring stands for: the number of the next message to hand out, and whatever has
      arrived of that one and of later ones. */
  datatype Inbox = Inbox(next: nat, pending: map<nat, Partial>) {
    /** What has arrived so far of the message that a header belongs to. */
    function Partially(h: HmHeader): Partial {
      if h.seqNo in pending then pending[h.seqNo] else Partial(h.typ, h.msgLen, map[])
    }
  }

  /** One fragment on arrival; None is a fatal error. Fragments of past messages, of messages too far
      ahead and of complete messages change nothing. A message exactly seven ahead passes the
      first test on its number but not the one made when its slot is looked up. */
  function Accept(b: Inbox, epoch: nat, maxLen: nat, h: HmHeader, body: seq<byte>): Option<Inbox> {
    if h.fragOff > h.msgLen || h.fragOff + h.fragLen > h.msgLen || h.msgLen > maxLen then None
    else if epoch == 1 && h.seqNo != b.next then None
    else if h.seqNo < b.next || h.seqNo > b.next + MAX_HANDSHAKE_FLIGHT then Some(b)
    else if h.seqNo - b.next >= MAX_HANDSHAKE_FLIGHT then None
    else
      var p := b.Partially(h);
      if p.typ != h.typ || p.msgLen != h.msgLen then None
      else Some(b.(pending := b.pending[h.seqNo := if p.Complete() then p else p.Absorb(h.fragOff, body)]))
  }

  /** Two messages of the window that share a slot are the same message. */
  lemma SameSlot(a: nat, b: nat, next: nat)
    requires next <= a < next + MAX_HANDSHAKE_FLIGHT && next <= b < next + MAX_HANDSHAKE_FLIGHT
    requires a % MAX_HANDSHAKE_FLIGHT == b % MAX_HANDSHAKE_FLIGHT
    ensures a == b
  {
  }

  class Queue {
    const slots: array<HmFragment?>
    var readSeq: nat
    var hasMessage: bool   // the current message has been handed out and not yet released
    ghost var pending: map<nat, Partial>
    ghost var Repr: set<object>

    /** Slot k holds only a message of the current window whose number is k modulo seven; the ghost
        map lists exactly the filled slots. */
    ghost predicate Valid()
      reads this, Repr
      ensures Valid() ==> this in Repr
    {
      && this in Repr && slots in Repr && slots.Length == MAX_HANDSHAKE_FLIGHT
      && (forall k | 0 <= k < MAX_HANDSHAKE_FLIGHT && slots[k] != null ::
            slots[k] in Repr && slots[k].Valid() && SlotValid(k, slots[k]))
      && (forall s | s in pending ::
            slots[s % MAX_HANDSHAKE_FLIGHT] != null && slots[s % MAX_HANDSHAKE_FLIGHT].seqNo == s)
      && (hasMessage ==> CurrentComplete())
    }

    ghost predicate SlotValid(k: nat, f: HmFragment)
      requires f.Valid()
      reads this, f
    {
      && f.seqNo % MAX_HANDSHAKE_FLIGHT == k && readSeq <= f.seqNo < readSeq + MAX_HANDSHAKE_FLIGHT
      && f.seqNo in pending && pending[f.seqNo] == f.Value()
    }

    /** dtls1_is_current_message_complete. */
    predicate CurrentComplete()
      requires slots.Length == MAX_HANDSHAKE_FLIGHT
      reads this, slots, slots[readSeq % MAX_HANDSHAKE_FLIGHT]
    {
      var f := slots[readSeq % MAX_HANDSHAKE_FLIGHT];
      f != null && f.reassembly == None
    }

    ghost function View(): Inbox
      reads this
    {
      Inbox(readSeq, pending)
    }

    constructor ()
      ensures Valid() && fresh(Repr) && View() == Inbox(0, map[]) && !hasMessage
    {
      slots := new HmFragment?[MAX_HANDSHAKE_FLIGHT](_ => null);
      readSeq, hasMessage, pending := 0, false, map[];
      new;
      Repr := {this, slots};
    }

    /** A message number of the window is in the map exactly when its slot holds that message. */
    lemma Lookup(s: nat)
      requires Valid() && readSeq <= s < readSeq + MAX_HANDSHAKE_FLIGHT
      ensures var f := slots[s % MAX_HANDSHAKE_FLIGHT];
              if f == null then s !in pending
              else s in pending && f in Repr && f.seqNo == s && f.Valid() && pending[s] == f.Value()
    {
      var k := s % MAX_HANDSHAKE_FLIGHT;
      if slots[k] != null {
        assert SlotValid(k, slots[k]);
        SameSlot(slots[k].seqNo, s, readSeq);
      }
    }

    /** The fragment for a message number in the window, made on first use; null when the header
        disagrees with an earlier fragment of that message or its number is out of the window. */
    method GetIncomingMessage(h: HmHeader) returns (f: HmFragment?)
      requires Valid()
      modifies this`Repr, this`pending, slots
      ensures Valid() && fresh(Repr - old(Repr))
      ensures f == null ==> View() == old(View())
      ensures f == null <==>
                || h.seqNo < readSeq || h.seqNo - readSeq >= MAX_HANDSHAKE_FLIGHT
                || old(View()).Partially(h).typ != h.typ || old(View()).Partially(h).msgLen != h.msgLen
      ensures f != null ==> f == slots[h.seqNo % MAX_HANDSHAKE_FLIGHT] && f.typ == h.typ && f.msgLen == h.msgLen
      ensures f != null ==> pending == old(pending)[h.seqNo := old(View()).Partially(h)]
    {
      if h.seqNo < readSeq || h.seqNo - readSeq >= MAX_HANDSHAKE_FLIGHT {
        return null;
      }
      var idx := h.seqNo % MAX_HANDSHAKE_FLIGHT;
      f := slots[idx];
      Lookup(h.seqNo);
      if f != null {
        if f.typ != h.typ || f.msgLen != h.msgLen {
          return null;
        }
        assert pending == pending[h.seqNo := pending[h.seqNo]];
        return f;
      }
      f := new HmFragment(h);
      Place(f);
    }

    /** Puts a new fragment into the free slot of its message number. */
    method Place(f: HmFragment)
      requires Valid() && f.Valid() && f !in Repr && readSeq <= f.seqNo < readSeq + MAX_HANDSHAKE_FLIGHT
      requires slots[f.seqNo % MAX_HANDSHAKE_FLIGHT] == null
      modifies this`Repr, this`pending, slots
      ensures Valid() && Repr == old(Repr) + {f}
      ensures slots[f.seqNo % MAX_HANDSHAKE_FLIGHT] == f && pending == old(pending)[f.seqNo := f.Value()]
    {
      var idx := f.seqNo % MAX_HANDSHAKE_FLIGHT;
      slots[idx] := f;
      pending := pending[f.seqNo := f.Value()];
      Repr := Repr + {f};
    }

    /** The body of the loop over a record's fragments in dtls1_open_handshake. */
    method AcceptFragment(h: HmHeader, body: seq<byte>, epoch: nat, maxLen: nat) returns (ok: bool)
      requires Valid() && |body| == h.fragLen
      modifies Repr
      ensures Valid() && fresh(Repr - old(Repr)) && hasMessage == old(hasMessage)
      ensures var r := Accept(old(View()), epoch, maxLen, h, body);
              ok == r.Some? && View() == if ok then r.value else old(View())
      ensures var p := old(View()).Partially(h);
              && (ok <==> && h.fragOff + |body| <= h.msgLen <= maxLen && (epoch == 1 ==> h.seqNo == readSeq)
                          && h.seqNo != readSeq + 7
                          && (readSeq <= h.seqNo < readSeq + 7 ==> p.typ == h.typ && p.msgLen == h.msgLen))
              && readSeq == old(readSeq)
              && pending == if ok && readSeq <= h.seqNo < readSeq + 7
                            then old(pending)[h.seqNo := if p.Complete() then p else p.Absorb(h.fragOff, body)]
                            else old(pending)
    {
      if h.fragOff > h.msgLen || h.fragOff + h.fragLen > h.msgLen || h.msgLen > maxLen {
        return false;
      }
      if epoch == 1 && h.seqNo != readSeq {
        return false;
      }
      if h.seqNo < readSeq || h.seqNo > readSeq + MAX_HANDSHAKE_FLIGHT {
        return true;
      }
      ok := Merge(h, body);
    }

    /** Adds a fragment of a message at most seven ahead to what has arrived of that message. */
    method Merge(h: HmHeader, body: seq<byte>) returns (ok: bool)
      requires Valid() && h.fragOff + |body| <= h.msgLen && readSeq <= h.seqNo
      modifies Repr
      ensures Valid() && fresh(Repr - old(Repr)) && hasMessage == old(hasMessage) && readSeq == old(readSeq)
      ensures var p := old(View()).Partially(h);
              && (ok <==> h.seqNo < readSeq + MAX_HANDSHAKE_FLIGHT && p.typ == h.typ && p.msgLen == h.msgLen)
              && pending == if !ok then old(pending)
                            else old(pending)[h.seqNo := if p.Complete() then p else p.Absorb(h.fragOff, body)]
    {
      hide HmFragment.Valid, HmFragment.Value, HmFragment.Received, Partial.Absorb;
      ghost var p := View().Partially(h);
      var f := GetIncomingMessage(h);
      if f == null {
        return false;
      }
      Lookup(h.seqNo);
      f.MaskGoneIffComplete();
      assert f.Value() == p;
      if f.reassembly.Some? {
        StoreIn(f, h.fragOff, body);
        assert pending == old(pending)[h.seqNo := p.Absorb(h.fragOff, body)];
      }
      return true;
    }

    method StoreIn(f: HmFragment, off: nat, body: seq<byte>)
      requires Valid() && f in Repr && slots[f.seqNo % MAX_HANDSHAKE_FLIGHT] == f
      requires f.Valid() && f.reassembly.Some? && off + |body| <= f.msgLen
      requires f.seqNo in pending && pending[f.seqNo] == f.Value()
      modifies f, this`pending
      ensures Valid() && pending == old(pending)[f.seqNo := old(pending)[f.seqNo].Absorb(off, body)]
    {
      hide HmFragment.Valid, HmFragment.Value, HmFragment.Received, Partial.Absorb;
      f.Store(off, body);
      pending := pending[f.seqNo := f.Value()];
    }

    /** dtls1_get_message: the current message with its header, once every octet of it has come. */
    method GetMessage() returns (raw: Option<seq<byte>>)
      requires Valid()
      modifies this`hasMessage
      ensures Valid() && hasMessage == (old(hasMessage) || raw.Some?)
      ensures raw.Some? <==> readSeq in pending && pending[readSeq].Complete()
      ensures raw.Some? ==> var p := pending[readSeq];
                raw.value == SerializeHeader(HmHeader(p.typ, p.msgLen, readSeq, 0, p.msgLen)) + p.Body()
    {
      Lookup(readSeq);
      var f := slots[readSeq % MAX_HANDSHAKE_FLIGHT];
      if f == null {
        return None;
      }
      f.MaskGoneIffComplete();
      if f.reassembly.Some? {
        return None;
      }
      f.CompleteData();
      hasMessage := true;
      return Some(f.data);
    }

    /** dtls1_next_message: releases the message that was handed out. */
    method NextMessage()
      requires Valid() && hasMessage
      modifies this`readSeq, this`pending, this`hasMessage, slots
      ensures Valid() && !hasMessage
      ensures View() == Inbox(old(readSeq) + 1, old(pending) - {old(readSeq)})
    {
      hide HmFragment.Valid, HmFragment.Value;
      Lookup(readSeq);
      forall s | s in pending && s != readSeq ensures s % MAX_HANDSHAKE_FLIGHT != readSeq % MAX_HANDSHAKE_FLIGHT {
        assert SlotValid(s % MAX_HANDSHAKE_FLIGHT, slots[s % MAX_HANDSHAKE_FLIGHT]);
      }
      slots[readSeq % MAX_HANDSHAKE_FLIGHT] := null;
      pending := pending - {readSeq};
      readSeq := readSeq + 1;
      hasMessage := false;
    }

    /** The buffered-message part of dtls_has_unprocessed_handshake_data. */
    method HasOther() returns (other: bool)
      requires Valid()
      ensures other <==> exists s :: s in pending && !(hasMessage && s == readSeq)
    {
      var current := readSeq % MAX_HANDSHAKE_FLIGHT;
      for i := 0 to MAX_HANDSHAKE_FLIGHT
        invariant forall k | 0 <= k < i && !(hasMessage && k == current) :: slots[k] == null
      {
        if !(hasMessage && i == current) && slots[i] != null {
          assert SlotValid(i, slots[i]) && slots[i].seqNo in pending;
          return true;
        }
      }
      forall s | s in pending ensures hasMessage && s == readSeq {
        if s % MAX_HANDSHAKE_FLIGHT == current {
          SameSlot(s, readSeq, readSeq);
        }
      }
      return false;
    }
  }
}
