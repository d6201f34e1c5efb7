/**
 The printer of shell commands (shellQuote and formatGitCommand in cmd/client/main.go) against the
 command-line splitter (splitCommandLine in cmd/ducklord/main.go).

 Quoting follows section 2.2 of the POSIX.1-2017 Shell Command Language: single quotes preserve
 everything up to the next one, a backslash outside single quotes preserves the next character.

 Text is bytes, as in Go. The printer works on bytes; the splitter goes over runes, and a byte that does
 not encode one comes out as the replacement character U+FFFD.
 */
module Quoting {
  import opened Basics
  import opened Utf8
  import opened RuneText

  const TAB: byte := 0x09
  const LINE_FEED: byte := 0x0a
  const RETURN: byte := 0x0d
  const SPACE: byte := 0x20
  const DOUBLE_QUOTE: byte := 0x22
  const QUOTE: byte := 0x27
  const BACKSLASH: byte := 0x5c

  const GIT: Text := [0x67, 0x69, 0x74]

  // ---------------------------------------------------------------- printing

  /** Blanks, quotes, the backslash and $ ` & | ; < > ( ) { } [ ] * ? ! # ~ = */
  predicate IsSpecial(b: byte) {
    || b == TAB || b == LINE_FEED
    || 0x20 <= b <= 0x24       // space ! " # $
    || 0x26 <= b <= 0x2a       // & ' ( ) *
    || 0x3b <= b <= 0x3f       // ; < = > ?
    || 0x5b <= b <= 0x5d       // [ \ ]
    || b == 0x60               // `
    || 0x7b <= b <= 0x7e       // { | } ~
  }

  predicate NeedsQuotes(s: Text) {
    s == [] || exists i :: 0 <= i < |s| && IsSpecial(s[i])
  }

  /** Inside single quotes, a single quote is written as '\'' . */
  const ESCAPED_QUOTE: Text := [QUOTE, BACKSLASH, QUOTE, QUOTE]

  function EscapeQuotes(s: Text): Text {
    if s == [] then [] else (if s[0] == QUOTE then ESCAPED_QUOTE else [s[0]]) + EscapeQuotes(s[1..])
  }

  function ShellQuote(s: Text): Text {
    if s == [] then [QUOTE, QUOTE] else if !NeedsQuotes(s) then s else [QUOTE] + (EscapeQuotes(s) + [QUOTE])
  }

  function QuoteAll(args: seq<Text>): seq<Text> {
    if args == [] then [] else [ShellQuote(args[0])] + QuoteAll(args[1..])
  }

  function Join(parts: seq<Text>): Text {
    if parts == [] then [] else if |parts| == 1 then parts[0] else parts[0] + [SPACE] + Join(parts[1..])
  }

  function Format(args: seq<Text>): Text {
    Join([GIT] + QuoteAll(args))
  }

  /** formatGitCommand. */
  method FormatGitCommand(args: seq<Text>) returns (line: Text)
    ensures line == Format(args)
  {
    var parts := [GIT];
    for i := 0 to |args|
      invariant parts + QuoteAll(args[i..]) == [GIT] + QuoteAll(args)
    {
      assert args[i..][1..] == args[i + 1..];
      parts := parts + [ShellQuote(args[i])];
    }
    assert parts + [] == parts;
    line := Join(parts);
  }

  // ---------------------------------------------------------------- splitting

  datatype Error = UnfinishedEscape | UnterminatedQuote
  datatype Result = Ok(fields: seq<Text>) | Err(error: Error)

  /** The splitter's variables: finished fields, the field being built, whether there is one, and
      whether the next rune is escaped or quoted. */
  datatype Split = Split(fields: seq<Text>, current: Text, have: bool, escaped: bool, quote: Option<Rune>)

  predicate IsBlank(r: Rune) {
    r == [SPACE] || r == [TAB] || r == [LINE_FEED] || r == [RETURN]
  }

  function Grown(s: Split, text: Text): Split {
    s.(current := s.current + text, have := true)
  }

  function Ended(s: Split): Split {
    if s.have then s.(fields := s.fields + [s.current], current := [], have := false) else s
  }

  function Step(s: Split, r: Rune): Split {
    if s.escaped then Grown(s, r).(escaped := false)
    else if s.quote != Some([QUOTE]) && r == [BACKSLASH] then s.(escaped := true)
    else if s.quote.Some? then if r == s.quote.value then s.(quote := None, have := true) else Grown(s, r)
    else if r == [QUOTE] || r == [DOUBLE_QUOTE] then s.(quote := Some(r), have := true)
    else if IsBlank(r) then Ended(s)
    else Grown(s, r)
  }

  function Scan(s: Split, rs: seq<Rune>): Split
    decreases |rs|
  {
    if rs == [] then s else Scan(Step(s, rs[0]), rs[1..])
  }

  function Finish(s: Split): Result {
    if s.escaped then Err(UnfinishedEscape)
    else if s.quote.Some? then Err(UnterminatedQuote)
    else if s.have then Ok(s.fields + [s.current]) else Ok(s.fields)
  }

  const START := Split([], [], false, false, None)

  function Parse(line: Text): Result {
    Finish(Scan(START, Runes(line)))
  }

  /** splitCommandLine. */
  method SplitCommandLine(line: Text) returns (r: Result)
    ensures r == Parse(line)
  {
    var fields: seq<Text>, current: Text, quote: Option<Rune>, escaped, have := [], [], None, false, false;
    var rest := line;
    while rest != []
      invariant Scan(START, Runes(line)) == Scan(Split(fields, current, have, escaped, quote), Runes(rest))
      decreases |rest|
    {
      var c := FirstRune(rest);
      ScanFirst(Split(fields, current, have, escaped, quote), rest);
      rest := rest[RuneSize(rest)..];
      if escaped {
        current, have, escaped := current + c, true, false;
        continue;
      }
      if quote != Some([QUOTE]) && c == [BACKSLASH] {
        escaped := true;
        continue;
      }
      if quote.Some? {
        if c == quote.value {
          quote, have := None, true;
          continue;
        }
        current, have := current + c, true;
        continue;
      }
      if c == [QUOTE] || c == [DOUBLE_QUOTE] {
        quote, have := Some(c), true;
      } else if IsBlank(c) {
        if have {
          fields, current, have := fields + [current], [], false;
        }
      } else {
        current, have := current + c, true;
      }
    }
    if escaped {
      return Err(UnfinishedEscape);
    }
    if quote.Some? {
      return Err(UnterminatedQuote);
    }
    if have {
      fields := fields + [current];
    }
    r := Ok(fields);
  }

  lemma {:induction false} ScanFirst(s: Split, p: Text)
    requires p != []
    ensures Scan(s, Runes(p)) == Scan(Step(s, FirstRune(p)), Runes(p[RuneSize(p)..]))
  {
    var rs := Runes(p);
    assert rs[0] == FirstRune(p) && rs[1..] == Runes(p[RuneSize(p)..]);
  }

  // ---------------------------------------------------------------- the runes of escaped text

  lemma {:induction false} EscapeConcat(a: Text, b: Text)
    ensures EscapeQuotes(a + b) == EscapeQuotes(a) + EscapeQuotes(b)
    decreases |a|
  {
    if a == [] {
      assert a + b == b;
    } else {
      EscapeConcat(a[1..], b);
      assert (a + b)[0] == a[0] && (a + b)[1..] == a[1..] + b;
      Assoc(if a[0] == QUOTE then ESCAPED_QUOTE else [a[0]], EscapeQuotes(a[1..]), EscapeQuotes(b));
    }
  }

  lemma {:induction false} EscapeKeeps(a: Text)
    requires QUOTE !in a
    ensures EscapeQuotes(a) == a
  {
    if a != [] {
      EscapeKeeps(a[1..]);
      assert a == [a[0]] + a[1..];
    }
  }

  /** In front of the first quote, escaping changes nothing. */
  lemma {:induction false} EscapedFront(p: Text, k: nat)
    requires k < |EscapeQuotes(p)| && forall i :: 0 <= i <= k ==> EscapeQuotes(p)[i] != QUOTE
    ensures k < |p| && p[k] == EscapeQuotes(p)[k]
    decreases k
  {
    assert EscapeQuotes(p)[0] != QUOTE;
    if k != 0 {
      assert forall i :: 0 <= i <= k - 1 ==> EscapeQuotes(p[1..])[i] == EscapeQuotes(p)[i + 1];
      EscapedFront(p[1..], k - 1);
    }
  }

  /** A broken byte stays broken when what follows it is escaped. */
  lemma {:induction false} BrokenStays(p: Text)
    requires p != [] && !IsAscii(p[0])
    ensures ValidRune([p[0]] + EscapeQuotes(p[1..])) ==> ValidRune(p)
  {
    var rest := p[1..];
    var e := EscapeQuotes(rest);
    var q := [p[0]] + e;
    if ValidRune(q) {
      var n := RuneSize(q);
      assert forall i :: 1 <= i < n ==> q[i] == e[i - 1] && Continuation(q[i]);
      forall i | 1 <= i < n
        ensures i < |p| && p[i] == q[i]
      {
        EscapedFront(rest, i - 1);
      }
    }
  }

  lemma {:induction false} ValidStays(p: Text, more: Text)
    requires p != [] && ValidRune(p)
    ensures var q := p[..RuneSize(p)] + more;
            ValidRune(q) && RuneSize(q) == RuneSize(p) && FirstRune(q) == FirstRune(p)
  {
    var n := RuneSize(p);
    var q := p[..n] + more;
    assert forall i :: 0 <= i < n ==> q[i] == p[i];
    assert q[..n] == p[..n];
  }

  /** The first rune of text that starts with no quote survives the escaping. */
  lemma {:induction false} EscapedRune(p: Text)
    requires p != [] && p[0] != QUOTE
    ensures var n, e := RuneSize(p), EscapeQuotes(p);
            && e == p[..n] + EscapeQuotes(p[n..]) && e != []
            && RuneSize(e) == n && FirstRune(e) == FirstRune(p)
  {
    var n, e := RuneSize(p), EscapeQuotes(p);
    AsciiStandsAlone(p);
    assert p == p[..n] + p[n..];
    EscapeConcat(p[..n], p[n..]);
    assert QUOTE !in p[..n];
    EscapeKeeps(p[..n]);
    if ValidRune(p) {
      ValidStays(p, EscapeQuotes(p[n..]));
    } else if IsAscii(p[0]) {
      AsciiStandsAlone(e);
    } else {
      BrokenStays(p);
    }
  }

  /** Escaping, rune by rune. */
  function EscapeRunes(rs: seq<Rune>): seq<Rune> {
    if rs == [] then []
    else (if rs[0] == [QUOTE] then [[QUOTE], [BACKSLASH], [QUOTE], [QUOTE]] else [rs[0]]) + EscapeRunes(rs[1..])
  }

  lemma {:induction false} RunesOfTwo(a: byte, b: byte, p: Text)
    requires IsAscii(a) && IsAscii(b)
    ensures Runes([a, b] + p) == [[a], [b]] + Runes(p)
  {
    TwoInFront(a, b, p);
    RunesOfAscii(b, p);
    RunesOfAscii(a, [b] + p);
    TwoInFront([a], [b], Runes(p));
  }

  lemma {:induction false} RunesOfEscapedQuote(p: Text)
    ensures Runes(ESCAPED_QUOTE + p) == [[QUOTE], [BACKSLASH], [QUOTE], [QUOTE]] + Runes(p)
  {
    assert ESCAPED_QUOTE == [QUOTE, BACKSLASH] + [QUOTE, QUOTE];
    Assoc([QUOTE, BACKSLASH], [QUOTE, QUOTE], p);
    RunesOfTwo(QUOTE, QUOTE, p);
    RunesOfTwo(QUOTE, BACKSLASH, [QUOTE, QUOTE] + p);
    Assoc([[QUOTE], [BACKSLASH]], [[QUOTE], [QUOTE]], Runes(p));
  }

  lemma {:induction false} RunesOfEscaped(p: Text)
    ensures Runes(EscapeQuotes(p)) == EscapeRunes(Runes(p))
    decreases |p|
  {
    if p != [] {
      var n := RuneSize(p);
      AsciiStandsAlone(p);
      RunesOfEscaped(p[n..]);
      assert Runes(p)[0] == FirstRune(p) && Runes(p)[1..] == Runes(p[n..]);
      if p[0] == QUOTE {
        RunesOfEscapedQuote(EscapeQuotes(p[1..]));
      } else {
        EscapedRune(p);
        assert EscapeQuotes(p)[n..] == EscapeQuotes(p[n..]);
        assert FirstRune(p) != [QUOTE];
      }
    }
  }

  lemma {:induction false} RunesOfQuoted(arg: Text)
    requires NeedsQuotes(arg)
    ensures Runes(ShellQuote(arg)) == [[QUOTE]] + (EscapeRunes(Runes(arg)) + [[QUOTE]])
  {
    var e := EscapeQuotes(arg);
    RunesOfAscii(QUOTE, e + [QUOTE]);
    RunesJoin(e, [QUOTE]);
    RunesOfAscii(QUOTE, []);
    assert [QUOTE] + [] == [QUOTE] && Runes([QUOTE]) == [[QUOTE]];
    RunesOfEscaped(arg);
    if arg == [] {
      assert [QUOTE] + (e + [QUOTE]) == [QUOTE, QUOTE];
    }
  }

  // ---------------------------------------------------------------- scanning what was printed

  lemma {:induction false} ScanConcat(s: Split, a: seq<Rune>, b: seq<Rune>)
    ensures Scan(s, a + b) == Scan(Scan(s, a), b)
    decreases |a|
  {
    if a == [] {
      assert a + b == b;
    } else {
      assert (a + b)[0] == a[0] && (a + b)[1..] == a[1..] + b;
      ScanConcat(Step(s, a[0]), a[1..], b);
    }
  }

  lemma {:induction false} ScanOne(s: Split, r: Rune)
    ensures Scan(s, [r]) == Step(s, r)
  {
    assert [r][1..] == [];
  }

  predicate Plain(s: Split) {
    !s.escaped && s.quote.None?
  }

  lemma {:induction false} ScanEscapedQuote(s: Split)
    requires !s.escaped && s.quote == Some([QUOTE]) && s.have
    ensures Scan(s, [[QUOTE], [BACKSLASH], [QUOTE], [QUOTE]]) == Grown(s, [QUOTE])
  {
    var r1: seq<Rune> := [[QUOTE]];
    var r2, s1 := [[QUOTE]] + r1, Step(s, [QUOTE]);
    var r3, s2 := [[BACKSLASH]] + r2, Step(s1, [BACKSLASH]);
    assert [[QUOTE], [BACKSLASH], [QUOTE], [QUOTE]] == [[QUOTE]] + r3;
    ScanStep(s, [QUOTE], r3);
    ScanStep(s1, [BACKSLASH], r2);
    ScanStep(s2, [QUOTE], r1);
    ScanOne(Step(s2, [QUOTE]), [QUOTE]);
  }

  lemma {:induction false} ScanStep(s: Split, r: Rune, rs: seq<Rune>)
    ensures Scan(s, [r] + rs) == Scan(Step(s, r), rs)
  {
    assert ([r] + rs)[1..] == rs;
  }

  lemma {:induction false} ScanQuoted(s: Split, rs: seq<Rune>)
    requires !s.escaped && s.quote == Some([QUOTE]) && s.have
    ensures Scan(s, EscapeRunes(rs)) == Grown(s, Concat(rs))
    decreases |rs|
  {
    if rs == [] {
      assert s.current + [] == s.current;
    } else {
      var head := if rs[0] == [QUOTE] then [[QUOTE], [BACKSLASH], [QUOTE], [QUOTE]] else [rs[0]];
      var s1 := Grown(s, rs[0]);
      ScanEscapedQuote(s);
      ScanOne(s, rs[0]);
      assert Scan(s, head) == s1;
      ScanConcat(s, head, EscapeRunes(rs[1..]));
      ScanQuoted(s1, rs[1..]);
      Assoc(s.current, rs[0], Concat(rs[1..]));
    }
  }

  lemma {:induction false} ScanQuotedWord(s: Split, arg: Text)
    requires Plain(s) && NeedsQuotes(arg)
    ensures Scan(s, Runes(ShellQuote(arg))) == Grown(s, Mended(arg))
  {
    var inner, e := s.(quote := Some([QUOTE]), have := true), EscapeRunes(Runes(arg));
    RunesOfQuoted(arg);
    ScanConcat(s, [[QUOTE]], e + [[QUOTE]]);
    ScanConcat(inner, e, [[QUOTE]]);
    ScanOne(s, [QUOTE]);
    ScanQuoted(inner, Runes(arg));
    ScanOne(Grown(inner, Mended(arg)), [QUOTE]);
  }

  ghost predicate AllPlain(text: Text) {
    forall i :: 0 <= i < |text| ==> !IsSpecial(text[i])
  }

  lemma {:induction false} AllPlainRest(p: Text, n: nat)
    requires AllPlain(p) && n <= |p|
    ensures AllPlain(p[n..])
  {
  }

  /** Outside quotes a carriage return ends the field, any other rune of a bare word joins it. */
  lemma {:induction false} BareStep(s: Split, p: Text)
    requires Plain(s) && p != [] && !IsSpecial(p[0])
    ensures Step(s, FirstRune(p)) == if p[0] == RETURN then Ended(s) else Grown(s, FirstRune(p))
  {
    AsciiStandsAlone(p);
    var r := FirstRune(p);
    assert r != [];
    assert !IsAscii(p[0]) ==> r[0] in r;
  }

  lemma {:induction false} ScanBareWord(s: Split, p: Text)
    requires Plain(s) && AllPlain(p) && p != [] && RETURN !in p
    ensures Scan(s, Runes(p)) == Grown(s, Mended(p))
    decreases |p|
  {
    var n, r := RuneSize(p), FirstRune(p);
    var rest := p[n..];
    BareStep(s, p);
    ScanFirst(s, p);
    assert Runes(p)[0] == r && Runes(p)[1..] == Runes(rest);
    if rest == [] {
      assert Concat(Runes(rest)) == [] && r + [] == r;
    } else {
      AllPlainRest(p, n);
      ScanBareWord(Grown(s, r), rest);
      Assoc(s.current, r, Mended(rest));
    }
  }

  // ---------------------------------------------------------------- the round trip

  /** A carriage return is kept only inside quotes. */
  predicate Survives(arg: Text) {
    RETURN in arg ==> NeedsQuotes(arg)
  }

  function Tail(parts: seq<Text>): Text {
    if parts == [] then [] else [SPACE] + (parts[0] + Tail(parts[1..]))
  }

  lemma {:induction false} JoinIsTail(first: Text, parts: seq<Text>)
    ensures Join([first] + parts) == first + Tail(parts)
    decreases |parts|
  {
    var all := [first] + parts;
    if parts == [] {
      assert all == [first];
      assert first + [] == first;
    } else {
      JoinIsTail(parts[0], parts[1..]);
      assert parts == [parts[0]] + parts[1..] && all[1..] == parts;
      Assoc(first, [SPACE], parts[0] + Tail(parts[1..]));
    }
  }

  lemma {:induction false} RunesOfTail(args: seq<Text>)
    requires args != []
    ensures Runes(Tail(QuoteAll(args)))
         == [[SPACE]] + (Runes(ShellQuote(args[0])) + Runes(Tail(QuoteAll(args[1..]))))
  {
    var quoted, rest := ShellQuote(args[0]), Tail(QuoteAll(args[1..]));
    assert QuoteAll(args)[0] == quoted && QuoteAll(args)[1..] == QuoteAll(args[1..]);
    RunesOfAscii(SPACE, quoted + rest);
    RunesJoin(quoted, rest);
  }

  lemma {:induction false} ScanWord(s: Split, arg: Text)
    requires Plain(s) && Survives(arg)
    ensures Scan(s, Runes(ShellQuote(arg))) == Grown(s, Mended(arg))
  {
    if NeedsQuotes(arg) {
      ScanQuotedWord(s, arg);
    } else {
      ScanBareWord(s, arg);
    }
  }

  lemma {:induction false} ScanTailStep(s: Split, args: seq<Text>)
    requires args != []
    ensures Scan(s, Runes(Tail(QuoteAll(args))))
         == Scan(Scan(Step(s, [SPACE]), Runes(ShellQuote(args[0]))), Runes(Tail(QuoteAll(args[1..]))))
  {
    var a, b := Runes(ShellQuote(args[0])), Runes(Tail(QuoteAll(args[1..])));
    RunesOfTail(args);
    ScanConcat(s, [[SPACE]], a + b);
    ScanOne(s, [SPACE]);
    ScanConcat(Step(s, [SPACE]), a, b);
  }

  ghost function AllFields(s: Split): seq<Text> {
    s.fields + [s.current]
  }

  function MendAll(args: seq<Text>): seq<Text> {
    if args == [] then [] else [Mended(args[0])] + MendAll(args[1..])
  }

  lemma {:induction false} ScanTail(s: Split, args: seq<Text>)
    requires Plain(s) && s.have
    requires forall i :: 0 <= i < |args| ==> Survives(args[i])
    ensures var e := Scan(s, Runes(Tail(QuoteAll(args))));
            Plain(e) && e.have && AllFields(e) == AllFields(s) + MendAll(args)
    decreases |args|
  {
    if args == [] {
      assert AllFields(s) + [] == AllFields(s);
    } else {
      ScanTailStep(s, args);
      ScanWord(Step(s, [SPACE]), args[0]);
      assert [] + Mended(args[0]) == Mended(args[0]);
      var s1 := Split(s.fields + [s.current], Mended(args[0]), true, false, None);
      ScanTail(s1, args[1..]);
      Assoc(AllFields(s), [Mended(args[0])], MendAll(args[1..]));
    }
  }

  const GIT_READ := Split([], GIT, true, false, None)

  lemma {:induction false} ScanGit()
    ensures Scan(START, Runes(GIT)) == GIT_READ
  {
    assert RETURN !in GIT && AllPlain(GIT);
    ScanBareWord(START, GIT);
    ThreeAsciiAreValid(GIT[0], GIT[1], GIT[2]);
    assert GIT == [GIT[0], GIT[1], GIT[2]];
    ValidIsKept(GIT);
    assert [] + GIT == GIT;
  }

  lemma {:induction false} ParseFormat(args: seq<Text>)
    ensures Parse(Format(args)) == Finish(Scan(GIT_READ, Runes(Tail(QuoteAll(args)))))
  {
    JoinIsTail(GIT, QuoteAll(args));
    RunesJoin(GIT, Tail(QuoteAll(args)));
    ScanConcat(START, Runes(GIT), Runes(Tail(QuoteAll(args))));
    ScanGit();
  }

  /** Splitting a printed git command gives back `git` and its arguments, broken bytes replaced. */
  lemma {:induction false} RoundTrip(args: seq<Text>)
    requires forall i :: 0 <= i < |args| ==> Survives(args[i])
    ensures Parse(Format(args)) == Ok([GIT] + MendAll(args))
  {
    ParseFormat(args);
    ScanTail(GIT_READ, args);
    assert AllFields(GIT_READ) == [GIT];
  }
}
