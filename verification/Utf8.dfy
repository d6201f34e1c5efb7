/**
 The parts of Go's unicode/utf8 the keyboard reader and the cell arithmetic rely on:
 how many bytes the first rune takes, and whether more bytes are needed to know it.
 The byte classes are those of the table in section 4 of RFC 3629.
 */
module Utf8 {
  import opened Basics

  /** The length a leading byte announces: 1 for ASCII and for bytes that lead nothing. */
  function Announced(b: byte): (n: nat)
    ensures 1 <= n <= 4
  {
    if 0xC2 <= b <= 0xDF then 2
    else if 0xE0 <= b <= 0xEF then 3
    else if 0xF0 <= b <= 0xF4 then 4
    else 1
  }

  predicate Continuation(b: byte) {
    0x80 <= b <= 0xBF
  }

  /** The second byte is restricted further after E0, ED, F0 and F4. */
  predicate SecondOk(lead: byte, b: byte) {
    && Continuation(b)
    && (lead == 0xE0 ==> 0xA0 <= b)
    && (lead == 0xED ==> b <= 0x9F)
    && (lead == 0xF0 ==> 0x90 <= b)
    && (lead == 0xF4 ==> b <= 0x8F)
  }

  /** utf8.FullRune: the bytes begin with a whole rune, valid or not. */
  predicate FullRune(p: seq<byte>) {
    p != [] &&
    var n := Announced(p[0]);
    || n <= |p|
    || (1 < |p| && !SecondOk(p[0], p[1]))
    || (2 < |p| && !Continuation(p[2]))
  }

  predicate Leads(b: byte) {
    b < 0x80 || 0xC2 <= b < 0xF5
  }

  /** The bytes begin with a correctly encoded rune of the announced length. */
  predicate ValidRune(p: seq<byte>) {
    p != [] && Leads(p[0]) &&
    var n := Announced(p[0]);
    && n <= |p|
    && (1 < n ==> SecondOk(p[0], p[1]))
    && (2 < n ==> Continuation(p[2]))
    && (3 < n ==> Continuation(p[3]))
  }

  /** utf8.DecodeRune: a broken encoding is one error rune of one byte. */
  function RuneSize(p: seq<byte>): (n: nat)
    requires p != []
    ensures 1 <= n <= |p| && n <= 4
  {
    if ValidRune(p) then Announced(p[0]) else 1
  }

  /** A full rune keeps its size whatever follows. */
  lemma {:induction false} FullRuneStable(p: seq<byte>, q: seq<byte>)
    requires FullRune(p)
    ensures FullRune(p + q) && RuneSize(p + q) == RuneSize(p)
  {
  }

  lemma {:induction false} ValidRuneStays(r: seq<byte>, more: seq<byte>)
    requires ValidRune(r) && RuneSize(r) == |r|
    ensures ValidRune(r + more) && RuneSize(r + more) == |r| && FullRune(r + more)
  {
    assert forall i :: 0 <= i < |r| ==> (r + more)[i] == r[i];
  }

  // ---------------------------------------------------------------- code points

  /** A Unicode scalar value: any code point but the surrogates. */
  predicate IsScalar(c: nat) {
    c < 0xD800 || 0xE000 <= c < 0x110000
  }

  /** The encoding of section 3 of RFC 3629. */
  function Encode(c: nat): seq<byte>
    requires IsScalar(c)
  {
    if c < 0x80 then [c]
    else if c < 0x800 then [0xC0 + c / 64, 0x80 + c % 64]
    else if c < 0x10000 then [0xE0 + c / 4096, 0x80 + (c / 64) % 64, 0x80 + c % 64]
    else [0xF0 + c / 262144, 0x80 + (c / 4096) % 64, 0x80 + (c / 64) % 64, 0x80 + c % 64]
  }

  /** Every scalar value is encoded as one valid rune. */
  lemma {:induction false} EncodedIsValid(c: nat)
    requires IsScalar(c)
    ensures ValidRune(Encode(c)) && RuneSize(Encode(c)) == |Encode(c)|
  {
  }

  function Low(b: byte): nat
    requires Continuation(b)
  {
    b - 0x80
  }

  /** The code point of a valid rune. */
  function Decode(p: seq<byte>): nat
    requires ValidRune(p)
  {
    match Announced(p[0])
    case 1 => p[0]
    case 2 => (p[0] - 0xC0) * 64 + Low(p[1])
    case 3 => (p[0] - 0xE0) * 4096 + Low(p[1]) * 64 + Low(p[2])
    case _ => (p[0] - 0xF0) * 262144 + Low(p[1]) * 4096 + Low(p[2]) * 64 + Low(p[3])
  }

  lemma {:induction false} Digits(a: nat, b: nat, c: nat, d: nat)
    requires b < 64 && c < 64 && d < 64
    ensures var n := a * 262144 + b * 4096 + c * 64 + d;
            n / 262144 == a && (n / 4096) % 64 == b && (n / 64) % 64 == c && n % 64 == d
  {
    var n := a * 262144 + b * 4096 + c * 64 + d;
    assert n / 64 == a * 4096 + b * 64 + c;
    assert n / 4096 == a * 64 + b;
  }

  /** Nothing else is valid: a valid rune is the encoding of a scalar value. */
  lemma {:induction false} ValidIsEncoded(p: seq<byte>)
    requires ValidRune(p)
    ensures IsScalar(Decode(p)) && Encode(Decode(p)) == p[..RuneSize(p)]
  {
    var n := Announced(p[0]);
    if n == 2 {
      Digits(0, 0, p[0] - 0xC0, Low(p[1]));
    } else if n == 3 {
      Digits(0, p[0] - 0xE0, Low(p[1]), Low(p[2]));
    } else if n == 4 {
      Digits(p[0] - 0xF0, Low(p[1]), Low(p[2]), Low(p[3]));
    }
  }
}
