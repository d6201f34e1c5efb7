/**
 Text as a Go loop over a string goes through it: rune by rune, where a byte that does not encode one stands for
 the replacement character U+FFFD.
 */
module RuneText {
  import opened Basics
  import opened Utf8

  type Text = seq<byte>

  /** A rune is its encoding. */
  type Rune = seq<byte>

  const REPLACEMENT: Rune := [0xef, 0xbf, 0xbd]

  function FirstRune(p: Text): Rune
    requires p != []
  {
    if ValidRune(p) then p[..RuneSize(p)] else REPLACEMENT
  }

  /** What a Go loop over a string goes through. */
  function Runes(p: Text): seq<Rune>
    decreases |p|
  {
    if p == [] then [] else [FirstRune(p)] + Runes(p[RuneSize(p)..])
  }

  /** The text with every broken byte replaced: what the splitter can give back at best. */
  function Mended(p: Text): Text {
    Concat(Runes(p))
  }

  // ---------------------------------------------------------------- the runes of joined text

  predicate IsAscii(b: byte) {
    b < 0x80
  }

  /** An ASCII byte is a rune by itself, and no other rune holds one. */
  lemma {:induction false} AsciiStandsAlone(p: Text)
    requires p != []
    ensures IsAscii(p[0]) ==> FirstRune(p) == [p[0]] && RuneSize(p) == 1
    ensures !IsAscii(p[0]) ==> forall b :: b in FirstRune(p) || b in p[..RuneSize(p)] ==> !IsAscii(b)
  {
  }

  lemma {:induction false} RunesOfAscii(b: byte, p: Text)
    requires IsAscii(b)
    ensures Runes([b] + p) == [[b]] + Runes(p)
  {
    AsciiStandsAlone([b] + p);
    assert ([b] + p)[1..] == p;
  }

  lemma {:induction false} RuneBeforeAscii(a: Text, b: Text)
    requires a != [] && (b == [] || IsAscii(b[0]))
    ensures RuneSize(a + b) == RuneSize(a) && FirstRune(a + b) == FirstRune(a)
  {
    var c := a + b;
    assert forall i :: 0 <= i < |a| ==> c[i] == a[i];
    assert b != [] ==> c[|a|] == b[0];
    if ValidRune(a) {
      assert c[..RuneSize(a)] == a[..RuneSize(a)];
    }
  }

  /** What is in front of an ASCII byte is decoded by itself. */
  lemma {:induction false} RunesJoin(a: Text, b: Text)
    requires b == [] || IsAscii(b[0])
    ensures Runes(a + b) == Runes(a) + Runes(b)
    decreases |a|
  {
    if a == [] {
      assert a + b == b;
    } else {
      RuneBeforeAscii(a, b);
      var n := RuneSize(a);
      assert (a + b)[n..] == a[n..] + b;
      RunesJoin(a[n..], b);
      Assoc([FirstRune(a)], Runes(a[n..]), Runes(b));
    }
  }

  // ---------------------------------------------------------------- valid text

  /** Correctly encoded throughout (section 3 of RFC 3629). */
  predicate ValidText(p: Text)
    decreases |p|
  {
    p == [] || (ValidRune(p) && ValidText(p[RuneSize(p)..]))
  }

  lemma {:induction false} MendedStep(p: Text)
    requires p != []
    ensures Mended(p) == FirstRune(p) + Mended(p[RuneSize(p)..])
  {
    assert Runes(p)[0] == FirstRune(p) && Runes(p)[1..] == Runes(p[RuneSize(p)..]);
  }

  lemma {:induction false} RuneLength(p: Text)
    requires p != []
    ensures RuneSize(p) <= |FirstRune(p)|
    ensures |FirstRune(p)| == RuneSize(p) <==> ValidRune(p)
    ensures ValidRune(p) ==> FirstRune(p) == p[..RuneSize(p)]
  {
  }

  /** Every replacement makes the text longer. */
  lemma {:induction false} MendedSize(p: Text)
    ensures |p| <= |Mended(p)|
    ensures |Mended(p)| == |p| ==> ValidText(p)
    decreases |p|
  {
    if p != [] {
      RuneLength(p);
      MendedStep(p);
      MendedSize(p[RuneSize(p)..]);
    }
  }

  lemma {:induction false} ValidIsKept(p: Text)
    requires ValidText(p)
    ensures Mended(p) == p
    decreases |p|
  {
    if p != [] {
      var n := RuneSize(p);
      ValidIsKept(p[n..]);
      MendedStep(p);
      RuneLength(p);
      CutIsKept(p, n);
    }
  }

  lemma {:induction false} CutIsKept(p: Text, n: nat)
    requires n <= |p|
    ensures p[..n] + p[n..] == p
  {
  }

  lemma {:induction false} ValidBehindAscii(b: byte, p: Text)
    requires IsAscii(b) && ValidText(p)
    ensures ValidText([b] + p)
  {
    AsciiStandsAlone([b] + p);
    assert ([b] + p)[1..] == p;
  }

  lemma {:induction false} ThreeAsciiAreValid(a: byte, b: byte, c: byte)
    requires IsAscii(a) && IsAscii(b) && IsAscii(c)
    ensures ValidText([a, b, c])
  {
    ValidBehindAscii(c, []);
    ValidBehindAscii(b, [c] + []);
    ValidBehindAscii(a, [b] + ([c] + []));
    assert [a, b, c] == [a] + ([b] + ([c] + []));
  }

  /** Only valid text is left alone. */
  lemma {:induction false} MendedIff(p: Text)
    ensures Mended(p) == p <==> ValidText(p)
  {
    MendedSize(p);
    if ValidText(p) {
      ValidIsKept(p);
    }
  }
}
