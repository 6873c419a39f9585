/** Slash-aware model globs and their matcher (internal/modelmatch/modelmatch.go).
    A string is a sequence of Unicode scalar values, as the source's runes are. */
module Glob {

  /** An inclusive range of code points. */
  datatype Range = Range(lo: char, hi: char)

  datatype Token = Literal(rune: char) | Star | Question | Class(negated: bool, ranges: seq<Range>)

  predicate InRange(r: Range, c: int) { r.lo as int <= c <= r.hi as int }

  ghost predicate InRanges(ranges: seq<Range>, c: int) { exists i :: 0 <= i < |ranges| && InRange(ranges[i], c) }

  /** tokenMatches, declaratively: only a literal can be a slash. */
  ghost predicate Accepts(t: Token, c: char) {
    match t
    case Literal(rune) => c == rune
    case Question => c != '/'
    case Class(negated, ranges) => c != '/' && (negated <==> !InRanges(ranges, c as int))
    case Star => false
  }

  predicate NoSlash(s: string) { '/' !in s }

  ghost predicate Fits(t: Token, piece: string) {
    if t == Star then NoSlash(piece) else |piece| == 1 && Accepts(t, piece[0])
  }

  // ---- Declarative semantics: the value is made of one fitting piece per token ----

  ghost function Join(pieces: seq<string>): string {
    if pieces == [] then "" else Join(pieces[..|pieces| - 1]) + pieces[|pieces| - 1]
  }

  ghost predicate AllFit(tokens: seq<Token>, pieces: seq<string>) {
    |pieces| == |tokens| && forall j :: 0 <= j < |tokens| ==> Fits(tokens[j], pieces[j])
  }

  ghost predicate Matched(tokens: seq<Token>, value: string) {
    exists pieces :: AllFit(tokens, pieces) && Join(pieces) == value
  }

  lemma NothingMatchesEmpty(value: string)
    ensures Matched([], value) <==> value == ""
  {
    if value == "" { assert AllFit([], []) && Join([]) == value; }
  }

  /** The last token takes some suffix, and the rest matches what is before it. */
  lemma LastPiece(tokens: seq<Token>, t: Token, value: string)
    ensures Matched(tokens + [t], value)
            <==> exists k :: 0 <= k <= |value| && Matched(tokens, value[..k]) && Fits(t, value[k..])
  {
    var all := tokens + [t];
    if Matched(all, value) {
      var pieces :| AllFit(all, pieces) && Join(pieces) == value;
      var init := pieces[..|tokens|];
      var k := |Join(init)|;
      assert forall j :: 0 <= j < |tokens| ==> all[j] == tokens[j] && init[j] == pieces[j];
      assert AllFit(tokens, init) && value[..k] == Join(init) && value[k..] == pieces[|tokens|] && all[|tokens|] == t;
    }
    if k :| 0 <= k <= |value| && Matched(tokens, value[..k]) && Fits(t, value[k..]) {
      var init :| AllFit(tokens, init) && Join(init) == value[..k];
      var pieces := init + [value[k..]];
      assert pieces[..|tokens|] == init;
      assert AllFit(all, pieces) && Join(pieces) == value;
    }
  }

  // ---- One row of the table from the row before ----

  lemma StarStep(tokens: seq<Token>, value: string)
    ensures Matched(tokens + [Star], value)
            <==> Matched(tokens, value)
                 || (0 < |value| && value[|value| - 1] != '/' && Matched(tokens + [Star], value[..|value| - 1]))
  {
    var n := |value|;
    LastPiece(tokens, Star, value);
    if 0 < n { LastPiece(tokens, Star, value[..n - 1]); }
    if k :| 0 <= k <= n && Matched(tokens, value[..k]) && NoSlash(value[k..]) {
      if k == n {
        assert value[..k] == value;
      } else {
        assert value[..n - 1][..k] == value[..k] && NoSlash(value[..n - 1][k..])
               && value[n - 1] == value[k..][n - 1 - k];
      }
    }
    if Matched(tokens, value) { assert value[..n] == value && NoSlash(value[n..]) && Fits(Star, value[n..]); }
    if 0 < n && value[n - 1] != '/' && Matched(tokens + [Star], value[..n - 1]) {
      var k :| 0 <= k <= n - 1 && Matched(tokens, value[..n - 1][..k]) && Fits(Star, value[..n - 1][k..]);
      assert value[..n - 1][..k] == value[..k] && value[k..] == value[..n - 1][k..] + [value[n - 1]];
      assert Fits(Star, value[k..]);
    }
  }

  lemma RuneStep(tokens: seq<Token>, t: Token, value: string)
    requires t != Star
    ensures Matched(tokens + [t], value)
            <==> 0 < |value| && Matched(tokens, value[..|value| - 1]) && Accepts(t, value[|value| - 1])
  {
    var n := |value|;
    LastPiece(tokens, t, value);
    if 0 < n && Matched(tokens, value[..n - 1]) && Accepts(t, value[n - 1]) {
      assert value[n - 1..] == [value[n - 1]] && Fits(t, value[n - 1..]);
    }
  }

  // ---- The matcher ----

  /** tokenMatches. */
  method TokenMatches(t: Token, c: char) returns (matches: bool)
    ensures matches <==> Accepts(t, c)
  {
    match t
    case Literal(rune) => return rune == c;
    case Question => return c != '/';
    case Star => return false;
    case Class(negated, ranges) =>
      if c == '/' { return false; }
      var matched := false;
      for i := 0 to |ranges|
        invariant !matched && forall j :: 0 <= j < i ==> !InRange(ranges[j], c as int)
      {
        if ranges[i].lo <= c && c <= ranges[i].hi {
          matched := true;
          break;
        }
      }
      return if negated then !matched else matched;
  }

  /** The row of the table after the tokens of `before`. */
  ghost predicate Row(row: array<bool>, before: seq<Token>, value: string)
    reads row
  {
    row.Length == |value| + 1 && forall i :: 0 <= i <= |value| ==> (row[i] <==> Matched(before, value[..i]))
  }

  method FillRow(previous: array<bool>, before: seq<Token>, t: Token, value: string) returns (current: array<bool>)
    requires Row(previous, before, value)
    ensures fresh(current) && Row(current, before + [t], value)
  {
    current := new bool[|value| + 1];
    for i := 0 to |value| + 1
      invariant forall j :: 0 <= j < i ==> (current[j] <==> Matched(before + [t], value[..j]))
    {
      if 0 < i { assert value[..i][..i - 1] == value[..i - 1] && value[..i][i - 1] == value[i - 1]; }
      if t == Star {
        StarStep(before, value[..i]);
        current[i] := previous[i] || (0 < i && value[i - 1] != '/' && current[i - 1]);
      } else {
        RuneStep(before, t, value[..i]);
        current[i] := false;
        if 0 < i && previous[i - 1] {
          var accepted := TokenMatches(t, value[i - 1]);
          current[i] := accepted;
        }
      }
    }
  }

  /** The table filled row by row decides the declarative semantics. */
  method Matches(tokens: seq<Token>, value: string) returns (matches: bool)
    ensures matches <==> Matched(tokens, value)
  {
    var previous := new bool[|value| + 1](i => i == 0);
    forall i | 0 <= i <= |value|
      ensures previous[i] <==> Matched(tokens[..0], value[..i])
    {
      NothingMatchesEmpty(value[..i]);
    }
    for n := 0 to |tokens|
      invariant fresh(previous) && Row(previous, tokens[..n], value)
    {
      assert tokens[..n + 1] == tokens[..n] + [tokens[n]];
      previous := FillRow(previous, tokens[..n], tokens[n], value);
    }
    assert tokens[..|tokens|] == tokens && value[..|value|] == value;
    return previous[|value|];
  }

  // ---- Adjacent stars ----

  function Push(tokens: seq<Token>, t: Token): seq<Token> {
    if t == Star && tokens != [] && tokens[|tokens| - 1] == Star then tokens else tokens + [t]
  }

  /** What compilation keeps of a token list: one star for every run of stars. */
  function Collapse(tokens: seq<Token>): seq<Token> {
    if tokens == [] then [] else Push(Collapse(tokens[..|tokens| - 1]), tokens[|tokens| - 1])
  }

  lemma SecondStarAddsNothing(tokens: seq<Token>, value: string)
    requires tokens != [] && tokens[|tokens| - 1] == Star
    ensures Matched(tokens + [Star], value) <==> Matched(tokens, value)
  {
    var init := tokens[..|tokens| - 1];
    assert tokens == init + [Star];
    LastPiece(tokens, Star, value);
    LastPiece(init, Star, value);
    if k :| 0 <= k <= |value| && Matched(tokens, value[..k]) && Fits(Star, value[k..]) {
      LastPiece(init, Star, value[..k]);
      var l :| 0 <= l <= k && Matched(init, value[..k][..l]) && Fits(Star, value[..k][l..]);
      assert value[..k][..l] == value[..l] && value[l..] == value[..k][l..] + value[k..];
      assert Fits(Star, value[l..]);
    }
    if Matched(tokens, value) { assert value[..|value|] == value && Fits(Star, value[|value|..]); }
  }

  /** Collapsing adjacent stars keeps the set of matched values. */
  lemma {:induction false} CollapsePreservesMatches(tokens: seq<Token>, value: string)
    ensures Matched(Collapse(tokens), value) <==> Matched(tokens, value)
    decreases |tokens|
  {
    if tokens != [] {
      var init, t := tokens[..|tokens| - 1], tokens[|tokens| - 1];
      assert tokens == init + [t];
      var c := Collapse(init);
      LastPiece(init, t, value);
      LastPiece(c, t, value);
      forall k | 0 <= k <= |value| ensures Matched(c, value[..k]) <==> Matched(init, value[..k]) {
        CollapsePreservesMatches(init, value[..k]);
      }
      if Push(c, t) == c { SecondStarAddsNothing(c, value); }
    }
  }
}
