/**
 What splitCommandLine makes of lines that the printer never writes: double quotes, escapes, and the lines it
 refuses.
 */
module CommandLines {
  import opened Basics
  import opened Utf8
  import opened RuneText
  import opened Quoting

  lemma {:induction false} RuneOf(p: Text, b: byte)
    requires p != [] && IsAscii(b) && p[0] != b
    ensures FirstRune(p) != [b]
  {
    AsciiStandsAlone(p);
    assert FirstRune(p) != [];
    assert !IsAscii(p[0]) ==> FirstRune(p)[0] in FirstRune(p);
  }

  /** Inside quotes everything but the closing quote, and in double quotes the backslash, joins the field. */
  lemma {:induction false} QuotedTextJoins(s: Split, p: Text, quote: byte)
    requires (quote == QUOTE || quote == DOUBLE_QUOTE) && !s.escaped && s.quote == Some([quote]) && s.have
    requires quote !in p && (quote == DOUBLE_QUOTE ==> BACKSLASH !in p)
    ensures Scan(s, Runes(p)) == Grown(s, Mended(p))
    decreases |p|
  {
    if p == [] {
      assert s.current + [] == s.current;
    } else {
      var r, rest := FirstRune(p), p[RuneSize(p)..];
      assert p[0] in p;
      RuneOf(p, quote);
      if quote == DOUBLE_QUOTE {
        RuneOf(p, BACKSLASH);
      }
      ScanFirst(s, p);
      MendedStep(p);
      QuotedTextJoins(Grown(s, r), rest, quote);
      Assoc(s.current, r, Mended(rest));
    }
  }

  /** A line that ends outside quotes and escapes, and what is behind it. */
  lemma {:induction false} ScanBehind(a: Text, b: byte, p: Text)
    requires IsAscii(b)
    ensures Scan(START, Runes(a + ([b] + p))) == Scan(Step(Scan(START, Runes(a)), [b]), Runes(p))
  {
    RunesJoin(a, [b] + p);
    RunesOfAscii(b, p);
    ScanConcat(START, Runes(a), [[b]] + Runes(p));
    ScanStep(Scan(START, Runes(a)), [b], Runes(p));
  }

  lemma {:induction false} AcceptedIsPlain(a: Text)
    ensures Parse(a).Ok? <==> Plain(Scan(START, Runes(a)))
  {
  }

  /** Text in double quotes without a quote or a backslash is one field. */
  lemma {:induction false} DoubleQuotedIsOneField(p: Text)
    requires DOUBLE_QUOTE !in p && BACKSLASH !in p
    ensures Parse([DOUBLE_QUOTE] + (p + [DOUBLE_QUOTE])) == Ok([Mended(p)])
  {
    var inner := START.(quote := Some([DOUBLE_QUOTE]), have := true);
    RunesOfAscii(DOUBLE_QUOTE, p + [DOUBLE_QUOTE]);
    RunesJoin(p, [DOUBLE_QUOTE]);
    RunesOfAscii(DOUBLE_QUOTE, []);
    assert [DOUBLE_QUOTE] + [] == [DOUBLE_QUOTE] && Runes([DOUBLE_QUOTE]) == [[DOUBLE_QUOTE]];
    ScanStep(START, [DOUBLE_QUOTE], Runes(p) + [[DOUBLE_QUOTE]]);
    ScanConcat(inner, Runes(p), [[DOUBLE_QUOTE]]);
    QuotedTextJoins(inner, p, DOUBLE_QUOTE);
    ScanOne(Grown(inner, Mended(p)), [DOUBLE_QUOTE]);
    assert [] + Mended(p) == Mended(p) && [] + [Mended(p)] == [Mended(p)];
  }

  /** Outside single quotes a backslash makes the next rune, whatever it is, part of the field. */
  lemma {:induction false} EscapedRuneJoins(s: Split, r: Rune)
    requires !s.escaped && s.quote != Some([QUOTE])
    ensures Scan(s, [[BACKSLASH], r]) == Grown(s, r)
  {
    assert [[BACKSLASH], r] == [[BACKSLASH]] + [r];
    ScanStep(s, [BACKSLASH], [r]);
    ScanOne(Step(s, [BACKSLASH]), r);
  }

  /** Blanks part fields, however many there are. */
  lemma {:induction false} BlanksPart(s: Split, r: Rune)
    requires Plain(s) && IsBlank(r)
    ensures Step(s, r) == Ended(s) && Step(Step(s, r), r) == Step(s, r)
  {
  }

  /** A backslash at the end of a good line is an unfinished escape. */
  lemma {:induction false} TrailingBackslash(a: Text)
    requires Parse(a).Ok?
    ensures Parse(a + [BACKSLASH]) == Err(UnfinishedEscape)
  {
    AcceptedIsPlain(a);
    ScanBehind(a, BACKSLASH, []);
    assert [BACKSLASH] + [] == [BACKSLASH];
  }

  /** A quote behind a good line that is not closed is an unterminated quote. */
  lemma {:induction false} OpenQuote(a: Text, quote: byte, p: Text)
    requires Parse(a).Ok? && (quote == QUOTE || quote == DOUBLE_QUOTE)
    requires quote !in p && (quote == DOUBLE_QUOTE ==> BACKSLASH !in p)
    ensures Parse(a + ([quote] + p)) == Err(UnterminatedQuote)
  {
    AcceptedIsPlain(a);
    ScanBehind(a, quote, p);
    QuotedTextJoins(Step(Scan(START, Runes(a)), [quote]), p, quote);
  }

  /** Only a backslash or a quote can make a line an error. */
  lemma {:induction false} PlainLineIsAccepted(s: Split, p: Text)
    requires Plain(s) && BACKSLASH !in p && QUOTE !in p && DOUBLE_QUOTE !in p
    ensures Plain(Scan(s, Runes(p)))
    decreases |p|
  {
    if p != [] {
      assert p[0] in p;
      RuneOf(p, BACKSLASH);
      RuneOf(p, QUOTE);
      RuneOf(p, DOUBLE_QUOTE);
      ScanFirst(s, p);
      PlainLineIsAccepted(Step(s, FirstRune(p)), p[RuneSize(p)..]);
    }
  }

  /** So a line without them always splits. */
  lemma {:induction false} PlainLineSplits(p: Text)
    requires BACKSLASH !in p && QUOTE !in p && DOUBLE_QUOTE !in p
    ensures Parse(p).Ok?
  {
    PlainLineIsAccepted(START, p);
  }

  // ---------------------------------------------------------------- words between blanks

  predicate BlankText(p: Text) {
    forall i :: 0 <= i < |p| ==> p[i] == 0x20 || p[i] == 0x09 || p[i] == 0x0a || p[i] == 0x0d
  }

  /** A word that needs no quotes and holds no carriage return. */
  predicate BareWord(p: Text) {
    !NeedsQuotes(p) && 0x0d !in p
  }

  lemma {:induction false} BlanksEnd(s: Split, p: Text)
    requires Plain(s) && BlankText(p)
    ensures Scan(s, Runes(p)) == if p == [] then s else Ended(s)
    decreases |p|
  {
    if p != [] {
      AsciiStandsAlone(p);
      ScanFirst(s, p);
      BlanksEnd(Ended(s), p[1..]);
    }
  }

  /** Blanks and a word, again and again. */
  datatype Piece = Piece(blanks: Text, word: Text)

  predicate Laid(ps: seq<Piece>) {
    forall i :: 0 <= i < |ps| ==>
      BlankText(ps[i].blanks) && BareWord(ps[i].word) && (0 < i ==> ps[i].blanks != [])
  }

  function Line(ps: seq<Piece>): Text {
    if ps == [] then [] else Line(ps[..|ps| - 1]) + (ps[|ps| - 1].blanks + ps[|ps| - 1].word)
  }

  function Words(ps: seq<Piece>): seq<Text> {
    if ps == [] then [] else Words(ps[..|ps| - 1]) + [Mended(ps[|ps| - 1].word)]
  }

  lemma {:induction false} WordBehindBlanks(s: Split, blanks: Text, word: Text)
    requires Plain(s) && BlankText(blanks) && BareWord(word) && (blanks != [] || !s.have) && (s.have || s.current == [])
    ensures Scan(Scan(s, Runes(blanks)), Runes(word))
         == Split(if s.have then s.fields + [s.current] else s.fields, Mended(word), true, false, None)
  {
    BlanksEnd(s, blanks);
    ScanBareWord(Scan(s, Runes(blanks)), word);
    assert [] + Mended(word) == Mended(word);
  }

  lemma {:induction false} RunesOfPiece(front: Text, p: Piece)
    requires BlankText(p.blanks) && BareWord(p.word) && (front == [] || p.blanks != [])
    ensures Runes(front + (p.blanks + p.word)) == Runes(front) + (Runes(p.blanks) + Runes(p.word))
  {
    RunesOfBlanks(p.blanks, p.word);
    if front == [] {
      assert front + (p.blanks + p.word) == p.blanks + p.word;
      assert Runes(front) + (Runes(p.blanks) + Runes(p.word)) == Runes(p.blanks) + Runes(p.word);
    } else {
      assert (p.blanks + p.word)[0] == p.blanks[0];
      RunesJoin(front, p.blanks + p.word);
    }
  }

  lemma {:induction false} RunesOfBlanks(blanks: Text, p: Text)
    requires BlankText(blanks)
    ensures Runes(blanks + p) == Runes(blanks) + Runes(p)
    decreases |blanks|
  {
    if blanks == [] {
      assert blanks + p == p;
    } else {
      var rest := blanks[1..];
      assert blanks == [blanks[0]] + rest;
      Assoc([blanks[0]], rest, p);
      RunesOfAscii(blanks[0], rest + p);
      RunesOfAscii(blanks[0], rest);
      RunesOfBlanks(rest, p);
      Assoc([[blanks[0]]], Runes(rest), Runes(p));
    }
  }

  lemma {:induction false} LaidIsScanned(ps: seq<Piece>)
    requires Laid(ps)
    ensures var s := Scan(START, Runes(Line(ps)));
            && Plain(s) && (s.have <==> ps != []) && (ps == [] ==> s == START)
            && Words(ps) == (if s.have then s.fields + [s.current] else [])
    decreases |ps|
  {
    if ps != [] {
      var front, p := ps[..|ps| - 1], ps[|ps| - 1];
      assert Laid(front);
      LaidIsScanned(front);
      LineIsEmpty(front);
      RunesOfPiece(Line(front), p);
      var s := Scan(START, Runes(Line(front)));
      ScanConcat(START, Runes(Line(front)), Runes(p.blanks) + Runes(p.word));
      ScanConcat(s, Runes(p.blanks), Runes(p.word));
      WordBehindBlanks(s, p.blanks, p.word);
    }
  }

  lemma {:induction false} LineIsEmpty(ps: seq<Piece>)
    requires Laid(ps)
    ensures Line(ps) == [] <==> ps == []
  {
  }

  /** Bare words between spaces, tabs, line feeds and carriage returns come apart into exactly the words, with any
      blanks before the first and behind the last. */
  lemma {:induction false} WordsComeApart(ps: seq<Piece>, end: Text)
    requires Laid(ps) && BlankText(end)
    ensures Parse(Line(ps) + end) == Ok(Words(ps))
  {
    LaidIsScanned(ps);
    var line := Line(ps);
    var s := Scan(START, Runes(line));
    RunesJoin(line, end);
    ScanConcat(START, Runes(line), Runes(end));
    BlanksEnd(s, end);
  }

  /** The characters that make the printer quote. */
  lemma {:induction false} SpecialIs(b: byte)
    ensures IsSpecial(b) <==> b as char in " \t\n\"'\\$`&|;<>(){}[]*?!#~="
  {
  }
}
