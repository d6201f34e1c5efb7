/**
 When a printed command is not split into its arguments again: an argument that is not valid UTF-8 comes back
 mended, and one with a bare carriage return comes back in pieces.
 */
module QuotingLosses {
  import opened Basics
  import opened Utf8
  import opened RuneText
  import opened Quoting

  lemma {:induction false} MendAllIff(args: seq<Text>)
    ensures MendAll(args) == args <==> forall i :: 0 <= i < |args| ==> ValidText(args[i])
  {
    if args != [] {
      MendedIff(args[0]);
      MendAllIff(args[1..]);
      assert args == [args[0]] + args[1..];
      assert forall i :: 0 < i < |args| ==> args[i] == args[1..][i - 1];
      if MendAll(args) == args {
        assert MendAll(args)[0] == args[0] && MendAll(args)[1..] == args[1..];
      }
      if forall i :: 0 <= i < |args| ==> ValidText(args[i]) {
        assert ValidText(args[0]);
        assert forall i :: 0 <= i < |args[1..]| ==> args[1..][i] == args[i + 1];
      }
    }
  }

  // ---------------------------------------------------------------- counting carriage returns

  ghost function Carriages(p: Text): nat {
    multiset(p)[RETURN]
  }

  ghost function CarriagesOf(fields: seq<Text>): nat {
    if fields == [] then 0 else CarriagesOf(fields[..|fields| - 1]) + Carriages(fields[|fields| - 1])
  }

  /** The carriage returns collected so far. */
  ghost function Collected(s: Split): nat {
    CarriagesOf(s.fields) + Carriages(s.current)
  }

  lemma {:induction false} CarriagesAppend(fields: seq<Text>, f: Text)
    ensures CarriagesOf(fields + [f]) == CarriagesOf(fields) + Carriages(f)
  {
    assert (fields + [f])[..|fields|] == fields;
  }

  lemma {:induction false} GrownCollects(s: Split, text: Text)
    ensures Collected(Grown(s, text)) == Collected(s) + Carriages(text)
  {
  }

  lemma {:induction false} EndedCollects(s: Split)
    ensures Collected(Ended(s)) <= Collected(s)
    ensures s.have || s.current == [] ==> Collected(Ended(s)) == Collected(s)
  {
    CarriagesAppend(s.fields, s.current);
  }

  lemma {:induction false} CarriagesInRune(p: Text)
    requires p != []
    ensures Carriages(FirstRune(p)) == Carriages(p[..RuneSize(p)]) == if p[0] == RETURN then 1 else 0
  {
    AsciiStandsAlone(p);
    if IsAscii(p[0]) {
      assert p[..1] == [p[0]];
    } else {
      assert RETURN !in FirstRune(p) && RETURN !in p[..RuneSize(p)];
    }
  }

  lemma {:induction false} CarriagesJoin(a: Text, b: Text)
    ensures Carriages(a + b) == Carriages(a) + Carriages(b)
  {
  }

  lemma {:induction false} CarriagesCut(p: Text, n: nat)
    requires n <= |p|
    ensures Carriages(p) == Carriages(p[..n]) + Carriages(p[n..])
  {
    assert p == p[..n] + p[n..];
  }

  /** Mending neither adds nor drops a carriage return. */
  lemma {:induction false} MendedCarriages(p: Text)
    ensures Carriages(Mended(p)) == Carriages(p)
    decreases |p|
  {
    if p != [] {
      var n := RuneSize(p);
      CarriagesInRune(p);
      MendedCarriages(p[n..]);
      MendedStep(p);
      CarriagesJoin(FirstRune(p), Mended(p[n..]));
      CarriagesCut(p, n);
    }
  }

  /** A bare word keeps no carriage return, in whichever fields it ends up. */
  lemma {:induction false} CollectBareWord(s: Split, p: Text)
    requires Plain(s) && AllPlain(p) && (s.have || s.current == [])
    ensures var e := Scan(s, Runes(p));
            Plain(e) && (e.have || e.current == []) && Collected(e) == Collected(s)
    decreases |p|
  {
    if p != [] {
      var s1 := Step(s, FirstRune(p));
      BareStep(s, p);
      ScanFirst(s, p);
      EndedCollects(s);
      GrownCollects(s, FirstRune(p));
      CarriagesInRune(p);
      AllPlainRest(p, RuneSize(p));
      CollectBareWord(s1, p[RuneSize(p)..]);
    }
  }

  ghost function Kept(arg: Text): nat {
    if NeedsQuotes(arg) then Carriages(arg) else 0
  }

  lemma {:induction false} CollectWord(s: Split, arg: Text)
    requires Plain(s) && (s.have || s.current == [])
    ensures var e := Scan(s, Runes(ShellQuote(arg)));
            Plain(e) && (e.have || e.current == []) && Collected(e) == Collected(s) + Kept(arg)
  {
    if NeedsQuotes(arg) {
      ScanQuotedWord(s, arg);
      MendedCarriages(arg);
      GrownCollects(s, Mended(arg));
    } else {
      CollectBareWord(s, arg);
    }
  }

  ghost function KeptAll(args: seq<Text>): nat {
    if args == [] then 0 else Kept(args[0]) + KeptAll(args[1..])
  }

  ghost function CarriagesIn(args: seq<Text>): nat {
    if args == [] then 0 else Carriages(args[0]) + CarriagesIn(args[1..])
  }

  lemma {:induction false} CollectTail(s: Split, args: seq<Text>)
    requires Plain(s) && (s.have || s.current == [])
    ensures var e := Scan(s, Runes(Tail(QuoteAll(args))));
            Plain(e) && (e.have || e.current == []) && Collected(e) == Collected(s) + KeptAll(args)
    decreases |args|
  {
    if args != [] {
      ScanTailStep(s, args);
      EndedCollects(s);
      var s1 := Step(s, [SPACE]);
      assert s1 == Ended(s);
      CollectWord(s1, args[0]);
      CollectTail(Scan(s1, Runes(ShellQuote(args[0]))), args[1..]);
    }
  }

  lemma {:induction false} KeptBound(args: seq<Text>)
    ensures KeptAll(args) <= CarriagesIn(args)
    ensures KeptAll(args) == CarriagesIn(args) ==> forall i :: 0 <= i < |args| ==> Survives(args[i])
  {
    if args != [] {
      KeptBound(args[1..]);
      assert RETURN in args[0] ==> RETURN in multiset(args[0]);
      assert forall i :: 0 < i < |args| ==> args[i] == args[1..][i - 1];
    }
  }

  lemma {:induction false} CarriagesFront(front: seq<Text>, args: seq<Text>)
    ensures CarriagesOf(front + args) == CarriagesOf(front) + CarriagesIn(args)
    decreases |args|
  {
    if args == [] {
      assert front + args == front;
    } else {
      assert front + args == (front + [args[0]]) + args[1..];
      CarriagesAppend(front, args[0]);
      CarriagesFront(front + [args[0]], args[1..]);
    }
  }

  /** However a printed command is split, the fields hold the carriage returns of the quoted arguments only. */
  lemma {:induction false} ParseCollects(args: seq<Text>)
    ensures Parse(Format(args)).Ok? && CarriagesOf(Parse(Format(args)).fields) == KeptAll(args)
  {
    ParseFormat(args);
    CollectTail(GIT_READ, args);
    var e := Scan(GIT_READ, Runes(Tail(QuoteAll(args))));
    CarriagesAppend(e.fields, e.current);
  }

  /** The round trip holds exactly when every argument is valid UTF-8 and every one with a carriage return also
      holds a byte that forces quotes. */
  lemma {:induction false} RoundTripIff(args: seq<Text>)
    ensures Parse(Format(args)) == Ok([GIT] + args)
            <==> forall i :: 0 <= i < |args| ==> ValidText(args[i]) && Survives(args[i])
  {
    ParseCollects(args);
    KeptBound(args);
    CarriagesAppend([], GIT);
    CarriagesFront([GIT], args);
    assert [] + [GIT] == [GIT];
    MendAllIff(args);
    if forall i :: 0 <= i < |args| ==> Survives(args[i]) {
      RoundTrip(args);
      assert ([GIT] + MendAll(args))[1..] == MendAll(args) && ([GIT] + args)[1..] == args;
    }
  }

  const SPLIT_ARG: Text := [0x61, RETURN, 0x62]
  const BROKEN_ARG: Text := [0xff]

  /** A bare carriage return is lost. */
  lemma {:induction false} CarriageReturnExample()
    ensures ValidText(SPLIT_ARG) && Parse(Format([SPLIT_ARG])) != Ok([GIT, SPLIT_ARG])
  {
    var arg := SPLIT_ARG;
    assert AllPlain(arg) && !Survives([arg][0]);
    RoundTripIff([arg]);
    assert [GIT] + [arg] == [GIT, arg];
    ThreeAsciiAreValid(0x61, RETURN, 0x62);
  }

  /** A byte that encodes nothing is replaced. */
  lemma {:induction false} BrokenByteExample()
    ensures Survives(BROKEN_ARG) && Parse(Format([BROKEN_ARG])) == Ok([GIT, REPLACEMENT])
  {
    var args: seq<Text> := [BROKEN_ARG];
    assert Survives(args[0]);
    RoundTrip(args);
    assert Runes(args[0]) == [REPLACEMENT] && Mended(args[0]) == REPLACEMENT;
    assert args[1..] == [];
    assert MendAll(args) == [REPLACEMENT];
    assert [GIT] + [REPLACEMENT] == [GIT, REPLACEMENT];
  }
}
