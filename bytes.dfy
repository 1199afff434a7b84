/**
 * Byte views handed to the transport (`amqp_bytes_t`: a length and the buffer
 * it points into) and the copies the binding makes out of them.
 */
module Bytes {
  import opened Ints
  import opened Wrappers
  import Utf8

  /**
   * `amqp_bytes_t`. `bytes` stands for the buffer the pointer designates;
   * `len` is the C field (a u64; no Rust vector is long enough to overflow it).
   */
  datatype AmqpBytes = AmqpBytes(len: nat, bytes: seq<u8>)

  /** The pointer designates at least `len` readable bytes. */
  predicate ValidView(b: AmqpBytes) {
    b.len <= |b.bytes|
  }

  /** `amqp_bytes_to_vec`: copy the `len` bytes the view designates. */
  function AmqpBytesToVec(b: AmqpBytes): (r: seq<u8>)
    requires ValidView(b)
    ensures |r| == b.len
    ensures forall i :: 0 <= i < |r| ==> r[i] == b.bytes[i]
  {
    b.bytes[..b.len]
  }

  /**
   * `amqp_bytes_to_str`: the buffer of the Rust `String` it builds. The source
   * copies the bytes without checking that they are UTF-8, and so does this.
   */
  function AmqpBytesToStr(b: AmqpBytes): (r: seq<u8>)
    requires ValidView(b)
    ensures r == AmqpBytesToVec(b)
  {
    b.bytes[..b.len]
  }

  /** `vec_to_amqp_bytes`: a view of exactly the vector's bytes. */
  function VecToAmqpBytes(v: seq<u8>): (r: AmqpBytes)
    ensures ValidView(r) && r.len == |v|
    ensures AmqpBytesToVec(r) == v
  {
    AmqpBytes(|v|, v)
  }

  /** The view carries the text `s`: it is readable and holds exactly the UTF-8 bytes of `s`. */
  predicate Carries(view: AmqpBytes, s: string) {
    ValidView(view) && AmqpBytesToStr(view) == Utf8.Encode(s)
  }

  /** A view that carries a text reads back as that text, and as no other. */
  lemma CarriesReadsBack(view: AmqpBytes, s: string)
    requires ValidView(view)
    ensures Carries(view, s) <==> Utf8.Decode(AmqpBytesToStr(view)) == Some(s)
  {
    Utf8.DecodeExactly(AmqpBytesToStr(view));
  }

  /** `str_to_amqp_bytes`: a view of the string's UTF-8 bytes, neither truncated nor NUL-terminated. */
  function StrToAmqpBytes(s: string): (r: AmqpBytes)
    ensures r.len == |Utf8.Encode(s)|
    ensures Carries(r, s)
    ensures Utf8.Decode(AmqpBytesToStr(r)) == Some(s)
  {
    Utf8.DecodeEncode(s);
    VecToAmqpBytes(Utf8.Encode(s))
  }

  /** `amqp_message`: a delivery whose body was copied out of its envelope. */
  datatype AmqpMessage = AmqpMessage(body: seq<u8>)

  /** `amqp_message::str_body`: the body as text when it is well-formed UTF-8. */
  function StrBody(m: AmqpMessage): (r: Option<string>)
    ensures forall s :: r == Some(s) <==> Utf8.Encode(s) == m.body
  {
    Utf8.DecodeExactly(m.body);
    Utf8.Decode(m.body)
  }
}
