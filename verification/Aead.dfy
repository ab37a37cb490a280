/** Record protection, uninterpreted: only what the record layer is told about it. */
module Aead {
  import opened Bytes
  import opened Options

  /** One direction of one epoch's keys. The null cipher of epoch zero is an instance. */
  datatype Context = Context(
    isNull: bool,
    version: nat,
    explicitNonceLen: nat,
    maxOverhead: nat,
    seal: (byte, nat, seq<byte>, seq<byte>) -> Option<seq<byte>>,
    open: (byte, nat, seq<byte>, seq<byte>) -> Option<seq<byte>>) {

    /** Open undoes Seal, a ciphertext exceeds its plaintext by at most maxOverhead octets, and that
        bound covers the explicit nonce. Seal may fail. */
    ghost predicate Sound() {
      && version < 0x1_0000 && explicitNonceLen <= maxOverhead
      && forall typ, v, number, plain :: Protects(typ, v, number, plain)
    }

    ghost predicate Protects(typ: byte, v: nat, number: seq<byte>, plain: seq<byte>) {
      match seal(typ, v, number, plain)
      case None => true
      case Some(c) => |c| <= |plain| + maxOverhead && open(typ, v, number, c) == Some(plain)
    }
  }

  /** The keys of every epoch; both ends derive the same ones. */
  type Keys = nat -> Context
}
