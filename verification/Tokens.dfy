/**
 Text as a sequence of tokens with widths. What follows from two facts alone, that every token takes at least
 one byte and that a token stays the same when the text behind it is cut off.
 */
module Tokens {
  import opened Basics

  datatype Token = Token(size: nat, width: nat)

  /** The first token of a text. */
  type Tokenizer = seq<byte> -> Token

  ghost predicate Advances(t: Tokenizer) {
    forall p :: p != [] ==> 1 <= t(p).size <= |p|
  }

  ghost predicate SurvivesCut(t: Tokenizer) {
    forall p, k :: p != [] && t(p).size <= k <= |p| ==> t(p[..k]) == t(p)
  }

  /** The tokens of a text stay the same when `s` follows it. */
  ghost predicate SurvivesAppend(t: Tokenizer, s: seq<byte>) {
    forall p :: p != [] ==> t(p + s) == t(p)
  }

  function WidthOf(t: Tokenizer, p: seq<byte>): nat
    requires Advances(t)
    decreases |p|
  {
    if p == [] then 0 else t(p).width + WidthOf(t, p[t(p).size..])
  }

  /** k lies between two tokens of the text. */
  ghost predicate Boundary(t: Tokenizer, p: seq<byte>, k: nat)
    requires Advances(t)
    decreases |p|
  {
    k == 0 || (p != [] && t(p).size <= k && Boundary(t, p[t(p).size..], k - t(p).size))
  }

  /** The longest run of leading tokens that is not wider than the limit. */
  ghost function Fitting(t: Tokenizer, p: seq<byte>, limit: nat): (k: nat)
    requires Advances(t)
    ensures k <= |p|
    decreases |p|
  {
    if p == [] || limit < t(p).width then 0 else t(p).size + Fitting(t, p[t(p).size..], limit - t(p).width)
  }

  /** Width is additive across a join that keeps the tokens. */
  lemma {:induction false} WidthOfJoin(t: Tokenizer, p: seq<byte>, s: seq<byte>)
    requires Advances(t) && SurvivesAppend(t, s)
    ensures WidthOf(t, p + s) == WidthOf(t, p) + WidthOf(t, s)
    decreases |p|
  {
    if p == [] {
      assert p + s == s;
    } else {
      var n := t(p).size;
      assert t(p + s) == t(p);
      assert (p + s)[n..] == p[n..] + s;
      WidthOfJoin(t, p[n..], s);
    }
  }

  lemma {:induction false} CutStep(t: Tokenizer, p: seq<byte>, k: nat)
    requires Advances(t) && SurvivesCut(t) && p != [] && t(p).size <= k <= |p|
    ensures WidthOf(t, p[..k]) == t(p).width + WidthOf(t, p[t(p).size..][..k - t(p).size])
  {
    assert t(p[..k]) == t(p);
    assert p[..k][t(p).size..] == p[t(p).size..][..k - t(p).size];
  }

  /** Width is additive across a cut between tokens. */
  lemma {:induction false} WidthOfCut(t: Tokenizer, p: seq<byte>, k: nat)
    requires Advances(t) && SurvivesCut(t) && Boundary(t, p, k)
    ensures k <= |p|
    ensures WidthOf(t, p) == WidthOf(t, p[..k]) + WidthOf(t, p[k..])
    decreases |p|
  {
    if k == 0 {
      assert p[..0] == [] && p[0..] == p;
    } else {
      var n := t(p).size;
      WidthOfCut(t, p[n..], k - n);
      CutStep(t, p, k);
      assert p[n..][k - n..] == p[k..];
    }
  }

  lemma {:induction false} FittingFits(t: Tokenizer, p: seq<byte>, limit: nat)
    requires Advances(t) && SurvivesCut(t)
    ensures Boundary(t, p, Fitting(t, p, limit))
    ensures WidthOf(t, p[..Fitting(t, p, limit)]) <= limit
    decreases |p|
  {
    if p == [] || limit < t(p).width {
      assert p[..0] == [];
    } else {
      FittingFits(t, p[t(p).size..], limit - t(p).width);
      CutStep(t, p, Fitting(t, p, limit));
    }
  }

  /** Nothing longer would fit. */
  lemma {:induction false} FittingIsLongest(t: Tokenizer, p: seq<byte>, limit: nat, k: nat)
    requires Advances(t) && SurvivesCut(t) && Boundary(t, p, k) && k <= |p| && WidthOf(t, p[..k]) <= limit
    ensures k <= Fitting(t, p, limit)
    decreases |p|
  {
    if k != 0 {
      CutStep(t, p, k);
      FittingIsLongest(t, p[t(p).size..], limit - t(p).width, k - t(p).size);
    }
  }
}
