/** UTF-8 as section 3 of RFC 3629 defines it.  Text is a string in which each character is one byte. */
module Utf8 {

  predicate IsScalar(c: nat) {
    c < 0xD800 || 0xE000 <= c < 0x110000
  }

  predicate Bytes(t: string) {
    forall i :: 0 <= i < |t| ==> t[i] as int < 256
  }

  function Byte(b: nat): (c: char)
    requires b < 256
    ensures c as int == b
  {
    b as char
  }

  predicate IsContinuation(b: nat) {
    b / 64 == 2
  }

  function Continuation(bits: nat): (c: char)
    ensures c as int < 256 && IsContinuation(c as int) && c as int % 64 == bits % 64
  {
    Byte(0x80 + bits % 64)
  }

  function Encode(c: nat): (t: string)
    requires c < 0x110000
    ensures Bytes(t) && 1 <= |t| <= 4
  {
    if c < 0x80 then [Byte(c)]
    else if c < 0x800 then [Byte(0xC0 + c / 0x40), Continuation(c)]
    else if c < 0x10000 then [Byte(0xE0 + c / 0x1000), Continuation(c / 0x40), Continuation(c)]
    else [Byte(0xF0 + c / 0x40000), Continuation(c / 0x1000), Continuation(c / 0x40), Continuation(c)]
  }

  predicate AllScalars(cs: seq<nat>) {
    cs == [] || (IsScalar(cs[0]) && AllScalars(cs[1..]))
  }

  /** Well-formed text. */
  function EncodeAll(cs: seq<nat>): (t: string)
    requires AllScalars(cs)
    ensures Bytes(t)
  {
    if cs == [] then [] else Encode(cs[0]) + EncodeAll(cs[1..])
  }

  /** The byte `k` places on; the end of the text reads as NUL. */
  function At(t: string, k: nat): char {
    if k < |t| then t[k] else '\0'
  }

  function ByteAt(t: string, k: nat): (b: nat)
    requires Bytes(t)
    ensures b < 256
  {
    At(t, k) as int
  }

  /** The bits of a scalar value, put together from the bytes that carry them. */
  lemma Reassembled(c: nat)
    requires c < 0x110000
    ensures c < 0x800 ==> c / 0x40 * 0x40 + c % 0x40 == c
    ensures c / 0x1000 * 0x1000 + c / 0x40 % 0x40 * 0x40 + c % 0x40 == c
    ensures c / 0x40000 * 0x40000 + c / 0x1000 % 0x40 * 0x1000 + c / 0x40 % 0x40 * 0x40 + c % 0x40 == c
  {
  }
}
