/** The 32-bit Fowler–Noll–Vo (variant 1a) hash that seeds each worker's
    random generator.  The key is read through a plain `char` pointer, so the
    byte-to-word conversion depends on whether `char` is signed on the
    platform; the model keeps that choice as the parameter `signedChar`. */
module Fnv {

  const OffsetBasis: bv32 := 0x811c_9dc5
  const Prime: bv32 := 0x0100_0193

  /** The value a `char` holding byte `b` has in C. */
  function CharValue(b: bv8, signedChar: bool): (v: int)
    ensures signedChar ==> -128 <= v < 128
    ensures !signedChar ==> 0 <= v < 256
    ensures v % 256 == b as int
  {
    if signedChar && b >= 0x80 then b as int - 256 else b as int
  }

  /** The word XORed into the hash: the `char` converted to `unsigned int`. */
  function CharToWord(b: bv8, signedChar: bool): bv32
  {
    if signedChar && b >= 0x80 then 0xFFFF_FF00 | b as bv32 else b as bv32
  }

  /** The conversion follows C's rule for unsigned targets: the `char` value
      is taken modulo 2^32, so a negative `char` becomes that value plus
      2^32 (it is sign-extended), and the low byte is always the key byte. */
  lemma CharToWordIsModular(b: bv8, signedChar: bool)
    ensures var v := CharValue(b, signedChar);
      CharToWord(b, signedChar) as int == if v < 0 then v + 0x1_0000_0000 else v
    ensures CharToWord(b, signedChar) & 0xFF == b as bv32
  {
    if signedChar && b >= 0x80 {
      SignExtendedWord(b);
    } else {
      ZeroExtendedWord(b);
    }
  }

  lemma SignExtendedWord(b: bv8)
    requires b >= 0x80
    ensures (0xFFFF_FF00 | b as bv32) as int == b as int - 256 + 0x1_0000_0000
    ensures (0xFFFF_FF00 | b as bv32) & 0xFF == b as bv32
  {
  }

  lemma ZeroExtendedWord(b: bv8)
    ensures (b as bv32) as int == b as int
    ensures (b as bv32) & 0xFF == b as bv32
  {
  }

  /** The hash as a left fold over the key, one byte per step. */
  function HashSpec(key: seq<bv8>, signedChar: bool): bv32
  {
    if key == [] then OffsetBasis
    else Mix(HashSpec(key[..|key| - 1], signedChar), CharToWord(key[|key| - 1], signedChar))
  }

  /** One round: XOR the word in, then multiply by the prime modulo 2^32. */
  function Mix(hval: bv32, w: bv32): bv32
  {
    (hval ^ w) * Prime
  }

  /** The two defining equations: the empty key hashes to the offset basis,
      and each further byte is XORed in and multiplied by the prime. */
  lemma HashSteps(key: seq<bv8>, b: bv8, signedChar: bool)
    ensures HashSpec([], signedChar) == 0x811c_9dc5
    ensures HashSpec(key + [b], signedChar)
         == Mix(HashSpec(key, signedChar), CharToWord(b, signedChar))
  {
    assert (key + [b])[..|key|] == key;
  }

  /** The loop of the source: walk the key with a countdown of the bytes
      left and an index of the current byte. */
  method Hash(key: seq<bv8>, signedChar: bool) returns (hval: bv32)
    ensures hval == HashSpec(key, signedChar)
  {
    var size: nat := |key|;
    var ptr := 0;
    hval := OffsetBasis;
    while size > 0
      invariant ptr + size == |key|
      invariant hval == HashSpec(key[..ptr], signedChar)
    {
      size := size - 1;
      HashSteps(key[..ptr], key[ptr], signedChar);
      assert key[..ptr + 1] == key[..ptr] + [key[ptr]];
      hval := Mix(hval, CharToWord(key[ptr], signedChar));
      ptr := ptr + 1;
    }
    assert key[..ptr] == key;
  }

  predicate IsAscii(key: seq<bv8>)
  {
    forall i :: 0 <= i < |key| ==> key[i] < 0x80
  }

  /** On keys whose bytes are all below 0x80 the two platform conventions
      agree, so the result there is the canonical FNV-1a hash. */
  lemma {:induction false} AsciiKeysHashCanonically(key: seq<bv8>)
    requires IsAscii(key)
    ensures HashSpec(key, true) == HashSpec(key, false)
  {
    if key != [] {
      AsciiKeysHashCanonically(key[..|key| - 1]);
    }
  }

  /** With a signed `char`, a single byte 0x80 hashes differently from the
      canonical FNV-1a hash of the same byte. */
  lemma SignExtensionChangesHash()
    ensures HashSpec([0x80], true) != HashSpec([0x80], false)
  {
    HashSteps([], 0x80, true);
    HashSteps([], 0x80, false);
    assert [] + [0x80 as bv8] == [0x80];
  }
}
