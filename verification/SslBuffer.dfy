/** The buffers between the record layer and the transport: a window of memory that stands for a byte
    sequence, filled from one end and consumed from the other. */
module SslBuffer {
  import opened Bytes

  const ALIGN_PAYLOAD: nat := 8
  const UINT16: nat := 0x1_0000

  /** The transport. It gives and takes as many octets at a time as it likes, or none. */
  class Bio {
    var input: seq<byte>    // arrived and not yet read
    var output: seq<byte>   // everything written so far
    var script: seq<int>    // how the calls to come turn out
    ghost var failures: nat // how many calls have come to nothing

    constructor (script: seq<int>)
      ensures input == [] && output == []
    {
      input, output, this.script, failures := [], [], script, 0;
    }

    /** The outcome of the next call, at most limit. */
    method Outcome(limit: nat) returns (ret: int)
      modifies this`script, this`failures
      ensures ret <= limit && failures == old(failures) + if ret > 0 then 0 else 1
    {
      if script == [] {
        failures := failures + 1;
        return -1;
      }
      ret := script[0];
      script := script[1..];
      if ret > limit {
        ret := limit;
      }
      failures := failures + if ret > 0 then 0 else 1;
    }

    method Read(max: nat) returns (ret: int, data: seq<byte>)
      modifies this`script, this`failures, this`input
      ensures failures == old(failures) + if ret > 0 then 0 else 1
      ensures ret <= max && |data| == if ret <= 0 then 0 else ret
      ensures old(input) == data + input
    {
      ret := Outcome(if max < |input| then max else |input|);
      data := if ret <= 0 then [] else input[..ret];
      input := input[|data|..];
    }

    method Write(data: seq<byte>) returns (ret: int)
      modifies this`script, this`failures, this`output
      ensures failures == old(failures) + if ret > 0 then 0 else 1
      ensures ret <= |data| && output == old(output) + if ret <= 0 then [] else data[..ret]
    {
      ret := Outcome(|data|);
      output := output + if ret <= 0 then [] else data[..ret];
    }
  }

  class SSLBuffer {
    var buf: array?<byte>
    var offset: nat
    var size: nat
    var cap: nat

    /** The window lies inside the memory. */
    ghost predicate Held()
      reads this, buf
    {
      if buf == null then offset == 0 && size == 0 && cap == 0 else size <= cap && offset + cap <= buf.Length
    }

    /** Moreover its end can be named by a 16-bit offset. */
    ghost predicate Valid()
      reads this, buf
      ensures Valid() ==> Held()
    {
      Held() && offset + cap < UINT16
    }

    /** The octets waiting to be consumed. */
    function Contents(): (s: seq<byte>)
      requires Held()
      reads this, buf
      ensures |s| == size
    {
      if buf == null then [] else buf[offset..offset + size]
    }

    constructor ()
      ensures Valid() && Contents() == [] && buf == null
    {
      buf, offset, size, cap := null, 0, 0, 0;
    }

    method Clear()
      modifies this
      ensures Valid() && Contents() == [] && buf == null
    {
      buf, offset, size, cap := null, 0, 0, 0;
    }

    /** The contents, copied to other memory. */
    method CopyTo(memory: array<byte>, at: nat)
      requires Held() && memory != buf && at + size <= memory.Length
      modifies memory
      ensures memory[at..at + size] == old(Contents())
    {
      CopyInto(memory, at, Contents());
    }

    /** Room for newCap octets, counted from the front of the window. The contents stay; memory obtained
        anew at this address is entered where what follows the header is aligned. Seven octets below the
        limit the end of the window may no longer have a 16-bit offset. */
    method EnsureCap(headerLen: nat, newCap: nat, address: nat) returns (ok: bool)
      requires Valid()
      modifies this
      ensures Held() && Contents() == old(Contents()) && (buf == old(buf) || fresh(buf))
      ensures buf == old(buf) ==> (offset, size, cap) == old((offset, size, cap))
      ensures newCap > 0xffff || newCap + ALIGN_PAYLOAD - 1 < UINT16 ==> Valid()
      ensures buf != old(buf) ==> offset < ALIGN_PAYLOAD
      ensures ok == (newCap <= 0xffff) && (ok ==> cap >= newCap)
      ensures buf != old(buf) ==> cap == newCap && (address + offset + headerLen) % ALIGN_PAYLOAD == 0
    {
      if newCap > 0xffff {
        return false;
      }
      if cap >= newCap {
        return true;
      }
      var newBuf := new byte[newCap + ALIGN_PAYLOAD - 1];
      var newOffset := -(headerLen + address) % ALIGN_PAYLOAD;
      CopyTo(newBuf, newOffset);
      buf, offset, cap := newBuf, newOffset, newCap;
      return true;
    }

    /** The next n octets behind the contents, which the caller has filled in, join them. */
    method DidWrite(n: nat)
      requires Held() && n <= cap - size
      modifies this`size
      ensures Held() && size == old(size) + n && (old(Valid()) ==> Valid())
      ensures buf != null ==> Contents() == buf[offset..offset + old(size) + n]
    {
      size := size + n;
    }

    /** Copies data behind the contents, where there is memory. */
    method CopyBehind(data: seq<byte>)
      requires Held() && buf != null && |data| <= cap - size
      modifies buf
      ensures buf[offset..offset + size + |data|] == old(Contents()) + data
    {
      ghost var before := Contents();
      assert forall k | offset <= k < offset + size :: buf[k] == before[k - offset];
      CopyInto(buf, offset + size, data);
      SliceIs(buf, offset, before);
      Concatenated(buf, offset, offset + size, offset + size + |data|);
    }

    /** The same, and takes it in. */
    method Append(data: seq<byte>)
      requires Held() && |data| <= cap - size
      modifies this`size, buf
      ensures Held() && (old(Valid()) ==> Valid()) && Contents() == old(Contents()) + data
    {
      if buf != null {
        CopyBehind(data);
      }
      DidWrite(|data|);
    }

    /** Drops len octets from the front. The counters are 16 bits wide; inside a valid buffer none wraps. */
    method Consume(len: nat)
      requires Valid() && len <= size
      modifies this`offset, this`size, this`cap
      ensures Valid() && Contents() == old(Contents())[len..]
    {
      hide Advance;
      AdvanceIsExact(offset, cap);
      if buf != null {
        DropFrom(buf, offset, offset + size, len);
      }
      offset, size, cap := Advance(offset, len), size - len, cap - len;
    }

    method DiscardConsumed()
      requires Held()
      modifies this
      ensures Held() && (old(Valid()) ==> Valid())
      ensures Contents() == old(Contents()) && (buf == old(buf) || buf == null)
      ensures size == 0 ==> buf == null
    {
      if size == 0 {
        Clear();
      }
    }
  }

  lemma DropFrom(a: array<byte>, i: nat, j: nat, n: nat)
    requires i + n <= j <= a.Length
    ensures a[i..j][n..] == a[i + n..j]
  {
  }

  /** A 16-bit offset moved on by the low 16 bits of a length. */
  function Advance(offset: nat, len: nat): nat {
    (offset + len % UINT16) % UINT16
  }

  /** Why room has to be left for the slack: a buffer of 65535 octets that starts at offset 7 is back at
      offset 0 when six octets of it are still unread. */
  lemma SlackIsNeeded()
    ensures var (newCap, offset, len) := (0xffff, 7, 0xfff9);
            newCap <= 0xffff && offset < ALIGN_PAYLOAD && newCap - len == 6 && Advance(offset, len) == 0
  {
  }

  /** An offset moves on exactly as long as the window ends before 65536. */
  lemma AdvanceIsExact(offset: nat, cap: nat)
    requires offset < UINT16 && cap < UINT16
    ensures (forall len | 0 <= len <= cap :: Advance(offset, len) == offset + len) <==> offset + cap < UINT16
  {
    if offset + cap >= UINT16 {
      assert Advance(offset, cap) < UINT16;
    }
  }

  /** One read of at most max octets into the room behind the contents. */
  method Fill(b: SSLBuffer, bio: Bio, max: nat) returns (ret: int)
    requires b.Held() && max <= b.cap - b.size
    modifies b`size, b.buf, bio`input, bio`script, bio`failures
    ensures b.Held() && (old(b.Valid()) ==> b.Valid()) && b.Contents() + bio.input == old(b.Contents() + bio.input)
    ensures b.size == old(b.size) + (if ret > 0 then ret else 0) && ret <= max
    ensures bio.failures == old(bio.failures) + if ret > 0 then 0 else 1
  {
    var data;
    ghost var before := b.Contents();
    ret, data := bio.Read(max);
    assert before + (data + bio.input) == (before + data) + bio.input;
    b.Append(data);
  }

  /** tls_read_buffer_extend_to: reads until the buffer holds len octets. */
  method ExtendTo(b: SSLBuffer, bio: Bio, len: nat) returns (ret: int)
    requires b.Held() && len <= b.cap
    modifies b`size, b.buf, bio`input, bio`script, bio`failures
    ensures b.Held() && (old(b.Valid()) ==> b.Valid()) && b.Contents() + bio.input == old(b.Contents() + bio.input)
    ensures old(b.size) <= b.size && (b.size <= len || b.size == old(b.size))
    ensures ret > 0 ==> b.size >= len
    ensures bio.failures == old(bio.failures) + if ret > 0 then 0 else 1
  {
    while b.size < len
      invariant b.Held() && (old(b.Valid()) ==> b.Valid()) && len <= b.cap
      invariant b.Contents() + bio.input == old(b.Contents() + bio.input)
      invariant old(b.size) <= b.size && (b.size <= len || b.size == old(b.size))
      invariant bio.failures == old(bio.failures)
      decreases len - b.size
    {
      ret := Fill(b, bio, len - b.size);
      if ret <= 0 {
        return ret;
      }
    }
    return 1;
  }

  /** ssl_read_buffer_extend_to. No octet is lost, repeated or put out of order however the transport
      cuts them, and none beyond len is read. */
  method ReadBufferExtendTo(b: SSLBuffer, bio: Bio, prefixLen: nat, len: nat, address: nat) returns (ret: int)
    requires b.Valid()
    modifies b, b.buf, bio`input, bio`script, bio`failures
    ensures b.Held() && (len > 0xffff || len + ALIGN_PAYLOAD - 1 < UINT16 ==> b.Valid())
    ensures (b.buf == null || b.buf == old(b.buf) || fresh(b.buf))
    ensures b.Contents() + bio.input == old(b.Contents() + bio.input)
    ensures old(b.size) <= b.size && (b.size <= len || b.size == old(b.size))
    ensures ret > 0 ==> b.size >= len
    ensures ret <= 0 ==> len > 0xffff || bio.failures > old(bio.failures)
  {
    b.DiscardConsumed();
    var ok := b.EnsureCap(prefixLen, len, address);
    if !ok {
      return -1;
    }
    ret := ExtendTo(b, bio, len);
    if ret <= 0 {
      b.DiscardConsumed();
    }
  }

  lemma NothingMoves(written: seq<byte>, rest: seq<byte>)
    ensures written + [] == written && written + [] + rest == written + rest
  {
  }

  /** The first k octets of what is left go over to what is written. */
  lemma Moves(written: seq<byte>, rest: seq<byte>, k: nat)
    requires k <= |rest|
    ensures written + rest[..k] + rest[k..] == written + rest && written <= written + rest[..k]
  {
    assert rest == rest[..k] + rest[k..];
  }

  /** tls_write_buffer_flush: over all attempts every octet of the buffer is written once, in order; after a
      failed attempt the rest is still there. */
  method WriteBufferFlush(b: SSLBuffer, bio: Bio) returns (ret: int)
    requires b.Valid()
    modifies b, bio`output, bio`script, bio`failures
    ensures b.Valid() && (b.buf == old(b.buf) || b.buf == null)
    ensures bio.output + b.Contents() == old(bio.output + b.Contents()) && old(bio.output) <= bio.output
    ensures ret > 0 ==> b.Contents() == []
    ensures ret <= 0 ==> bio.failures > old(bio.failures)
    ensures bio.failures >= old(bio.failures)
  {
    ghost var all := bio.output + b.Contents();
    while b.size > 0
      modifies b, bio`output, bio`script, bio`failures
      invariant b.Valid() && b.buf == old(b.buf)
      invariant bio.output + b.Contents() == all && old(bio.output) <= bio.output
      invariant bio.failures == old(bio.failures)
      decreases b.size
    {
      ghost var before, written := b.Contents(), bio.output;
      ret := bio.Write(b.Contents());
      if ret <= 0 {
        NothingMoves(written, before);
        return ret;
      }
      b.Consume(ret);
      Moves(written, before, ret);
    }
    b.Clear();
    return 1;
  }
}
