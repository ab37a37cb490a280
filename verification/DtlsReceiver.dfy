/** The receiving half of DTLS: records are admitted, checked against the replay window, and their
    handshake fragments given to the queue of incoming messages. RFC 6347, sections 4.1 and 4.2. */
module DtlsReceiver {
  import opened Bytes
  import opened Options
  import opened Aead
  import opened Alerts
  import opened DtlsWire
  import opened IncomingMessages
  import opened ReplayWindow

  const VERSION_MAJOR: nat := 0xfe

  datatype Opening =
    | NeedMore                        // nothing buffered
    | CloseNotify                     // the peer has closed before
    | Discard(consumed: nat)
    | Failure(consumed: nat)
    | Alert(consumed: nat, number: nat, answer: Answer, warnings: nat)
    | Success(consumed: nat, number: nat, typ: byte, plain: seq<byte>)

  /** How much of the packet an opening uses up. */
  function Consumed(o: Opening): nat {
    match o
    case NeedMore => 0
    case CloseNotify => 0
    case Discard(n) => n
    case Failure(n) => n
    case Alert(n, _, _, _) => n
    case Success(n, _, _, _) => n
  }

  /** Whether the record was accepted, and its number with it. */
  predicate Accepted(o: Opening) {
    o.Alert? || o.Success?
  }

  /** What the reader remembers, with the replay window as the numbers accepted in this epoch. The warnings
      are those that have come in a row. */
  datatype ReadState =
    ReadState(closed: bool, warnings: nat, epoch: nat, ctx: Context, accepted: set<nat>, max: nat)

  predicate VersionOk(ctx: Context, version: nat) {
    if ctx.isNull then version / 256 == VERSION_MAJOR else version == ctx.version
  }

  function EpochOf(r: Record): nat
    requires |r.number| == 8
  {
    Value(r.number[..2])
  }

  /** What opening the first record of a packet comes to. */
  function Open(s: ReadState, input: seq<byte>): Opening {
    if s.closed then CloseNotify
    else if input == [] then NeedMore
    else match ParseRecord(input)
      case None => Discard(|input|)
      case Some((r, rest)) =>
        var number := Value(r.number);
        var consumed := |input| - |rest|;
        if !VersionOk(s.ctx, r.version) then Discard(|input|)
        else if EpochOf(r) != s.epoch || number in s.accepted || Stale(number, s.max) then Discard(consumed)
        else match s.ctx.open(r.typ, r.version, r.number, r.body)
          case None => Discard(consumed)
          case Some(plain) =>
            if |plain| > RT_MAX_PLAIN_LENGTH then Failure(consumed)
            else if r.typ == RT_ALERT then
              var (answer, warnings) := ProcessAlert(plain, s.warnings);
              Alert(consumed, number, answer, warnings)
            else Success(consumed, number, r.typ, plain)
  }

  /** The reader after opening a record: a number accepted is remembered, and so is an alert that closes. */
  function Noted(s: ReadState, o: Opening): ReadState {
    if Accepted(o) then
      s.(accepted := s.accepted + {o.number}, max := if o.number > s.max then o.number else s.max,
         closed := o.Alert? && o.answer == Closes, warnings := if o.Alert? then o.warnings else 0)
    else s
  }

  class RecordReader {
    var closed: bool
    var warnings: nat
    var epoch: nat
    var ctx: Context
    const window: Bitmap
    ghost var admitted: set<nat>   // the numbers of all records ever accepted

    /** The window knows exactly the accepted numbers of this epoch, and no later epoch has any. */
    ghost predicate Valid()
      reads this, window
    {
      && window.Valid()
      && (forall n | n in admitted :: n / Pow256(6) <= epoch)
      && (forall n | n in window.accepted :: n in admitted)
      && (forall n | n in admitted && n / Pow256(6) == epoch :: n in window.accepted)
    }

    ghost function State(): ReadState
      reads this, window
    {
      ReadState(closed, warnings, epoch, ctx, window.accepted, window.max)
    }

    constructor (ctx: Context)
      ensures Valid() && fresh(window) && admitted == {}
      ensures State() == ReadState(false, 0, 0, ctx, {}, 0)
    {
      closed, warnings, epoch, this.ctx, admitted := false, 0, 0, ctx, {};
      window := new Bitmap();
    }

    /** dtls_open_record. A record is accepted only if no record of its number ever was before. */
    method OpenRecord(input: seq<byte>) returns (r: Opening)
      requires Valid()
      modifies this`admitted, this`closed, this`warnings, window
      ensures Valid() && r == Open(old(State()), input) && State() == Noted(old(State()), r)
      ensures admitted == old(admitted) + (if Accepted(r) then {r.number} else {})
      ensures Accepted(r) ==> r.number !in old(admitted)
      ensures (r.CloseNotify? <==> old(closed)) && (r.NeedMore? <==> !old(closed) && input == [])
      ensures !old(closed) && input != [] ==>
                Consumed(r) ==
                match ParseRecord(input)
                case None => |input|
                case Some((rec, rest)) => |input| - if VersionOk(ctx, rec.version) then |rest| else 0
      ensures closed == (old(closed) || (r.Alert? && r.answer == Closes))
      ensures warnings == if r.Success? then 0 else if r.Alert? then r.warnings else old(warnings)
      ensures Accepted(r) ==>
                && ParseRecord(input).Some?
                && var (rec, rest) := ParseRecord(input).value;
                && Value(rec.number[..2]) == epoch && r.number == Value(rec.number)
                && (if ctx.isNull then rec.version / 256 == 0xfe else rec.version == ctx.version)
                && ctx.open(rec.typ, rec.version, rec.number, rec.body).Some?
                && |input| == r.consumed + |rest| && (r.Alert? <==> rec.typ == 21)
                && (r.Success? ==>
                      && r.typ == rec.typ && |r.plain| <= 16384
                      && ctx.open(rec.typ, rec.version, rec.number, rec.body) == Some(r.plain))
    {
      hide ProcessAlert, Value, Pow256, Bitmap.Valid;
      if closed {
        return CloseNotify;
      }
      if input == [] {
        return NeedMore;
      }
      var parsed := ParseRecord(input);
      if parsed == None || !VersionOk(ctx, parsed.value.0.version) {
        return Discard(|input|);
      }
      var (rec, rest) := parsed.value;
      var number := Value(rec.number);
      var consumed := |input| - |rest|;
      if EpochOf(rec) != epoch {
        return Discard(consumed);
      }
      var discard := window.ShouldDiscard(number);
      if discard {
        return Discard(consumed);
      }
      var plain := ctx.open(rec.typ, rec.version, rec.number, rec.body);
      if plain == None {
        return Discard(consumed);
      }
      if |plain.value| > RT_MAX_PLAIN_LENGTH {
        return Failure(consumed);
      }
      UpperBits(rec.number);
      Admit(number);
      if rec.typ == RT_ALERT {
        var (answer, count) := ProcessAlert(plain.value, warnings);
        closed, warnings := answer == Closes, count;
        return Alert(consumed, number, answer, count);
      }
      warnings := 0;
      return Success(consumed, number, rec.typ, plain.value);
    }

    /** A number of this epoch that was never accepted before is now. */
    method Admit(number: nat)
      requires Valid() && number / Pow256(6) == epoch && number !in window.accepted && !Stale(number, window.max)
      modifies this`admitted, window
      ensures Valid() && admitted == old(admitted) + {number} && number !in old(admitted)
      ensures window.accepted == old(window.accepted) + {number}
      ensures window.max == if number > old(window.max) then number else old(window.max)
    {
      hide Bitmap.Valid, Pow256;
      window.Record(number);
      admitted := admitted + {number};
    }

    /** The record-layer part of dtls1_set_read_state. */
    method ChangeEpoch(ctx: Context)
      requires Valid()
      modifies this, window
      ensures Valid() && admitted == old(admitted)
      ensures State() == old(State()).(epoch := old(epoch) + 1, ctx := ctx, accepted := {}, max := 0)
    {
      epoch := epoch + 1;
      window.Reset();
      this.ctx := ctx;
    }
  }

  /** The epoch is the upper 16 bits of a record number. */
  lemma UpperBits(number: seq<byte>)
    requires |number| == 8
    ensures Value(number) / Pow256(6) == Value(number[..2])
  {
    ValueOfConcat(number[..2], number[2..]);
    BigEndianOfValue(number[2..]);
    assert number == number[..2] + number[2..];
    PowersUsed();
  }

  datatype Result = Ok | Again | Fatal | Ended | Wait

  /** All the fragments of one handshake record, in order, up to the first error. */
  function OpenFragments(b: Inbox, epoch: nat, maxLen: nat, plain: seq<byte>): (bool, Inbox)
    decreases |plain|
  {
    if plain == [] then (true, b)
    else match ParseFragment(plain)
      case None => (false, b)
      case Some(f) =>
        match Accept(b, epoch, maxLen, f.hdr, f.body)
        case None => (false, b)
        case Some(next) => OpenFragments(next, epoch, maxLen, f.rest)
  }

  /** Fragments one after the other, as a record carries them. */
  function Packed(fragments: seq<(HmHeader, seq<byte>)>): seq<byte>
    decreases fragments
  {
    if fragments == [] then []
    else SerializeHeader(fragments[0].0) + fragments[0].1 + Packed(fragments[1..])
  }

  /** All of them accepted, each after the one before. */
  function AcceptAll(b: Inbox, epoch: nat, maxLen: nat, fragments: seq<(HmHeader, seq<byte>)>): Option<Inbox>
    decreases fragments
  {
    if fragments == [] then Some(b)
    else match Accept(b, epoch, maxLen, fragments[0].0, fragments[0].1)
      case None => None
      case Some(next) => AcceptAll(next, epoch, maxLen, fragments[1..])
  }

  predicate WellFormed(fragments: seq<(HmHeader, seq<byte>)>) {
    forall f | f in fragments :: f.0.Fits() && |f.1| == f.0.fragLen
  }

  /** A handshake record is read to its end exactly if it is made of whole fragments that are all accepted. */
  lemma ReadExactly(b: Inbox, epoch: nat, maxLen: nat, plain: seq<byte>, after: Inbox)
    ensures OpenFragments(b, epoch, maxLen, plain) == (true, after) <==>
            exists fs :: WellFormed(fs) && plain == Packed(fs) && AcceptAll(b, epoch, maxLen, fs) == Some(after)
  {
    hide WellFormed, Packed, AcceptAll, OpenFragments;
    if OpenFragments(b, epoch, maxLen, plain) == (true, after) {
      var fs := Unpacked(b, epoch, maxLen, plain);
    }
    forall fs | WellFormed(fs) && plain == Packed(fs) && AcceptAll(b, epoch, maxLen, fs) == Some(after)
      ensures OpenFragments(b, epoch, maxLen, plain) == (true, after)
    {
      ReadPacked(b, epoch, maxLen, fs);
    }
  }

  lemma {:induction false} ReadPacked(b: Inbox, epoch: nat, maxLen: nat, fs: seq<(HmHeader, seq<byte>)>)
    requires WellFormed(fs) && AcceptAll(b, epoch, maxLen, fs).Some?
    ensures OpenFragments(b, epoch, maxLen, Packed(fs)) == (true, AcceptAll(b, epoch, maxLen, fs).value)
    decreases fs
  {
    hide Accept, ParseFragment, SerializeHeader;
    if fs != [] {
      var next := Accept(b, epoch, maxLen, fs[0].0, fs[0].1).value;
      assert fs[0] in fs && forall f | f in fs[1..] :: f in fs;
      ReadPacked(next, epoch, maxLen, fs[1..]);
      ParseSerialized(fs[0].0, fs[0].1, Packed(fs[1..]));
    }
  }

  lemma {:induction false} Unpacked(b: Inbox, epoch: nat, maxLen: nat, plain: seq<byte>)
    returns (fs: seq<(HmHeader, seq<byte>)>)
    requires OpenFragments(b, epoch, maxLen, plain).0
    ensures WellFormed(fs) && plain == Packed(fs)
    ensures AcceptAll(b, epoch, maxLen, fs) == Some(OpenFragments(b, epoch, maxLen, plain).1)
    decreases |plain|
  {
    hide Accept, SerializeHeader;
    fs := [];
    if plain != [] {
      var f := ParseFragment(plain).value;
      var tail := Unpacked(Accept(b, epoch, maxLen, f.hdr, f.body).value, epoch, maxLen, f.rest);
      SerializeParsed(plain);
      fs := [(f.hdr, f.body)] + tail;
      assert fs[1..] == tail;
    }
  }

  function Answered(answer: Answer): Result {
    match answer
    case Closes => Ended
    case Passed => Again
    case Fails => Fatal
  }

  datatype Step = Step(result: Result, inbox: Inbox, sawCcs: bool)

  /** What one call of dtls1_open_handshake does with the record it opened. */
  function Handle(o: Opening, s: ReadState, b: Inbox, maxLen: nat): Step {
    match o
    case NeedMore => Step(Wait, b, false)
    case CloseNotify => Step(Ended, b, false)
    case Discard(_) => Step(Again, b, false)
    case Failure(_) => Step(Fatal, b, false)
    case Alert(_, _, answer, _) => Step(Answered(answer), b, false)
    case Success(_, _, typ, plain) =>
      if typ == RT_APPLICATION_DATA then Step(if s.ctx.isNull then Fatal else Again, b, false)
      else if typ == RT_CHANGE_CIPHER_SPEC then
        if s.ctx.isNull && plain == [MT_CCS] then Step(Ok, b, true) else Step(Fatal, b, false)
      else if typ == RT_HANDSHAKE then
        var (ok, after) := OpenFragments(b, s.epoch, maxLen, plain);
        Step(if ok then Ok else Fatal, after, false)
      else Step(Fatal, b, false)
  }

  class Receiver {
    const reader: RecordReader
    const queue: Queue
    var hasChangeCipherSpec: bool
    var maxLen: nat   // the longest handshake message accepted in the current phase
    ghost var Repr: set<object>

    ghost predicate Valid()
      reads this, Repr
      ensures Valid() ==> this in Repr
    {
      && this in Repr && reader in Repr && reader.window in Repr && queue in Repr && queue.Repr <= Repr
      && this !in queue.Repr && reader !in queue.Repr && reader.window !in queue.Repr
      && reader.Valid() && queue.Valid()
    }

    constructor (ctx: Context, maxLen: nat)
      ensures Valid() && fresh(Repr) && !hasChangeCipherSpec && this.maxLen == maxLen
      ensures reader.State() == ReadState(false, 0, 0, ctx, {}, 0) && queue.View() == Inbox(0, map[])
      ensures reader.admitted == {} && !queue.hasMessage
    {
      reader := new RecordReader(ctx);
      queue := new Queue();
      hasChangeCipherSpec := false;
      this.maxLen := maxLen;
      new;
      Repr := {this, reader, reader.window} + queue.Repr;
    }

    /** dtls1_open_handshake on the bytes of a packet not yet consumed. */
    method OpenHandshake(input: seq<byte>) returns (result: Result, consumed: nat, ghost o: Opening)
      requires Valid()
      modifies Repr
      ensures Valid() && fresh(Repr - old(Repr))
      ensures o == Open(old(reader.State()), input) && consumed == Consumed(o)
      ensures reader.State() == Noted(old(reader.State()), o)
      ensures reader.admitted == old(reader.admitted) + (if Accepted(o) then {o.number} else {})
      ensures Accepted(o) ==> o.number !in old(reader.admitted)
      ensures var step := Handle(o, old(reader.State()), old(queue.View()), maxLen);
              && result == step.result && queue.View() == step.inbox
              && hasChangeCipherSpec == (old(hasChangeCipherSpec) || step.sawCcs)
      ensures o.Success? && o.typ == 20 ==> result == if reader.ctx.isNull && o.plain == [1] then Ok else Fatal
      ensures o.Success? && o.typ == 23 ==> result == if reader.ctx.isNull then Fatal else Again
      ensures o.Success? && o.typ == 22 ==>
                var (ok, after) := OpenFragments(old(queue.View()), reader.epoch, maxLen, o.plain);
                result == (if ok then Ok else Fatal) && queue.View() == after
      ensures o.Success? && o.typ !in {20, 22, 23} ==> result == Fatal
      ensures o.Alert? && o.answer != Passed ==> result == if o.answer == Closes then Ended else Fatal
      ensures o.Discard? || (o.Alert? && o.answer == Passed) ==> result == Again
      ensures o.NeedMore? ==> result == Wait
      ensures o.CloseNotify? ==> result == Ended
      ensures o.Failure? ==> result == Fatal
      ensures !(o.Success? && o.typ == 22) ==> queue.View() == old(queue.View())
      ensures hasChangeCipherSpec == (old(hasChangeCipherSpec) || (o.Success? && o.typ == 20 && result == Ok))
      ensures maxLen == old(maxLen) && reader.epoch == old(reader.epoch) && reader.ctx == old(reader.ctx)
      ensures queue.hasMessage == old(queue.hasMessage)
    {
      hide Open, RecordReader.Valid, Queue.Valid, OpenFragments, Value;
      var r := reader.OpenRecord(input);
      o, consumed := r, Consumed(r);
      match r
      case NeedMore => return Wait, consumed, r;
      case CloseNotify => return Ended, consumed, r;
      case Discard(_) => return Again, consumed, r;
      case Failure(_) => return Fatal, consumed, r;
      case Alert(_, _, answer, _) => return Answered(answer), consumed, r;
      case Success(_, _, typ, plain) =>
        if typ == RT_APPLICATION_DATA {
          return (if reader.ctx.isNull then Fatal else Again), consumed, r;
        }
        if typ == RT_CHANGE_CIPHER_SPEC {
          if !reader.ctx.isNull || plain != [MT_CCS] {
            return Fatal, consumed, r;
          }
          hasChangeCipherSpec := true;
          return Ok, consumed, r;
        }
        if typ != RT_HANDSHAKE {
          return Fatal, consumed, r;
        }
        var ok := ReadFragments(plain);
        return (if ok then Ok else Fatal), consumed, r;
    }

    method ReadFragments(plain: seq<byte>) returns (ok: bool)
      requires Valid()
      modifies queue.Repr, this`Repr
      ensures Valid() && fresh(Repr - old(Repr))
      ensures (ok, queue.View()) == OpenFragments(old(queue.View()), reader.epoch, maxLen, plain)
      ensures queue.hasMessage == old(queue.hasMessage)
    {
      var rest := plain;
      while rest != []
        invariant Valid() && fresh(Repr - old(Repr)) && fresh(queue.Repr - old(queue.Repr))
        invariant queue.hasMessage == old(queue.hasMessage)
        invariant OpenFragments(queue.View(), reader.epoch, maxLen, rest)
               == OpenFragments(old(queue.View()), reader.epoch, maxLen, plain)
        decreases |rest|
      {
        var f := ParseFragment(rest);
        if f == None {
          return false;
        }
        var fine := queue.AcceptFragment(f.value.hdr, f.value.body, reader.epoch, maxLen);
        Repr := Repr + queue.Repr;
        if !fine {
          return false;
        }
        rest := f.value.rest;
      }
      return true;
    }

    method GetMessage() returns (raw: Option<seq<byte>>)
      requires Valid()
      modifies queue`hasMessage
      ensures Valid() && queue.hasMessage == (old(queue.hasMessage) || raw.Some?)
      ensures raw.Some? <==> queue.readSeq in queue.pending && queue.pending[queue.readSeq].Complete()
      ensures raw.Some? ==> var p := queue.pending[queue.readSeq];
                raw.value == SerializeHeader(HmHeader(p.typ, p.msgLen, queue.readSeq, 0, p.msgLen)) + p.Body()
    {
      raw := queue.GetMessage();
    }

    method NextMessage()
      requires Valid() && queue.hasMessage
      modifies queue, queue.slots
      ensures Valid() && !queue.hasMessage && queue.Repr == old(queue.Repr)
      ensures queue.View() == Inbox(old(queue.readSeq) + 1, old(queue.pending) - {old(queue.readSeq)})
    {
      queue.NextMessage();
    }

    /** dtls1_set_read_state: refused while anything but the message handed out is buffered, so no
        other message of the old epoch outlives the change. */
    method SetReadState(ctx: Context) returns (ok: bool)
      requires Valid()
      modifies reader, reader.window
      ensures Valid() && queue.View() == old(queue.View()) && reader.admitted == old(reader.admitted)
      ensures ok <==> !hasChangeCipherSpec && forall s | s in queue.pending :: queue.hasMessage && s == queue.readSeq
      ensures reader.State() == if !ok then old(reader.State())
                else old(reader.State()).(epoch := old(reader.epoch) + 1, ctx := ctx, accepted := {}, max := 0)
    {
      if hasChangeCipherSpec {
        return false;
      }
      var other := queue.HasOther();
      if other {
        return false;
      }
      reader.ChangeEpoch(ctx);
      return true;
    }

    /** dtls1_open_change_cipher_spec. */
    method OpenChangeCipherSpec(input: seq<byte>) returns (result: Result, consumed: nat, ghost o: Option<Opening>)
      requires Valid()
      modifies Repr
      ensures Valid() && fresh(Repr - old(Repr))
      ensures o == if old(hasChangeCipherSpec) then None else Some(Open(old(reader.State()), input))
      ensures o == None ==> result == Ok && consumed == 0 && !hasChangeCipherSpec
      ensures o == None ==> queue.View() == old(queue.View()) && reader.State() == old(reader.State())
      ensures o.Some? ==>
                var step := Handle(o.value, old(reader.State()), old(queue.View()), maxLen);
                && queue.View() == step.inbox && !hasChangeCipherSpec
                && consumed == Consumed(o.value) && reader.State() == Noted(old(reader.State()), o.value)
                && result == if step.result == Ok && !step.sawCcs then Again else step.result
      ensures result == Ok <==>
                || old(hasChangeCipherSpec)
                || (reader.ctx.isNull && o.value.Success? && o.value.typ == 20 && o.value.plain == [1])
      ensures o.Some? && !(o.value.Success? && o.value.typ == 22) ==> queue.View() == old(queue.View())
      ensures maxLen == old(maxLen) && reader.epoch == old(reader.epoch) && reader.ctx == old(reader.ctx)
      ensures queue.hasMessage == old(queue.hasMessage)
    {
      hide Open, RecordReader.Valid, Queue.Valid, OpenFragments, Value;
      consumed := 0;
      if !hasChangeCipherSpec {
        ghost var opening;
        var r;
        r, consumed, opening := OpenHandshake(input);
        o := Some(opening);
        if r != Ok {
          return r, consumed, o;
        }
      } else {
        o := None;
      }
      if hasChangeCipherSpec {
        hasChangeCipherSpec := false;
        return Ok, consumed, o;
      }
      return Again, consumed, o;
    }
  }
}
