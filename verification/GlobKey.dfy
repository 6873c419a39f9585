/** Canonical keys of compiled patterns (internal/modelmatch/modelmatch.go): two keys are equal
    exactly when the token lists agree, taking each class as its negation and its code points. */
module GlobKey {
  import opened Glob
  import Sorting

  // ---- Sorted, merged ranges ----

  predicate Proper(ranges: seq<Range>) { forall i :: 0 <= i < |ranges| ==> ranges[i].lo <= ranges[i].hi }

  /** In order, with at least one code point missing between any two. */
  predicate Canonical(ranges: seq<Range>) {
    Proper(ranges) && forall i, j :: 0 <= i < j < |ranges| ==> ranges[i].hi as int + 1 < ranges[j].lo as int
  }

  ghost predicate SameSet(a: seq<Range>, b: seq<Range>) { forall c: int :: InRanges(a, c) <==> InRanges(b, c) }

  lemma FirstIn(a: seq<Range>, c: int)
    requires a != []
    ensures InRanges(a, c) <==> InRange(a[0], c) || InRanges(a[1..], c)
  {
    if InRanges(a, c) {
      var i :| 0 <= i < |a| && InRange(a[i], c);
      if 0 < i { assert InRange(a[1..][i - 1], c); }
    }
    if InRanges(a[1..], c) {
      var i :| 0 <= i < |a[1..]| && InRange(a[1..][i], c);
      assert InRange(a[i + 1], c);
    }
  }

  lemma HeadLow(a: seq<Range>, b: seq<Range>)
    requires Canonical(a) && Canonical(b) && SameSet(a, b) && a != [] && b != []
    ensures b[0].lo <= a[0].lo
  {
    assert InRange(a[0], a[0].lo as int) && InRanges(a, a[0].lo as int);
    var i :| 0 <= i < |b| && InRange(b[i], a[0].lo as int);
  }

  lemma HeadHigh(a: seq<Range>, b: seq<Range>)
    requires Canonical(a) && Canonical(b) && SameSet(a, b) && a != [] && b != [] && a[0].lo == b[0].lo
    ensures b[0].hi <= a[0].hi
  {
    var c := a[0].hi as int + 1;
    assert !InRanges(a, c) && !InRanges(b, c);
    assert !InRange(b[0], c);
  }

  lemma HeadCovered(a: seq<Range>)
    requires Proper(a)
    ensures a != [] ==> InRanges(a, a[0].lo as int)
  {
    assert a != [] ==> InRange(a[0], a[0].lo as int);
  }

  /** Sorted merged ranges are determined by the code points they cover. */
  lemma {:induction false} CanonicalIsUnique(a: seq<Range>, b: seq<Range>)
    requires Canonical(a) && Canonical(b) && SameSet(a, b)
    ensures a == b
    decreases |a|
  {
    HeadCovered(a);
    HeadCovered(b);
    if a != [] {
      HeadLow(a, b);
      HeadLow(b, a);
      HeadHigh(a, b);
      HeadHigh(b, a);
      forall c: int ensures InRanges(a[1..], c) <==> InRanges(b[1..], c) {
        FirstIn(a, c);
        FirstIn(b, c);
        assert InRanges(a[1..], c) ==> !InRange(a[0], c);
        assert InRanges(b[1..], c) ==> !InRange(b[0], c);
      }
      CanonicalIsUnique(a[1..], b[1..]);
    }
  }

  predicate Before(r: Range, s: Range) { r.lo < s.lo || (r.lo == s.lo && r.hi < s.hi) }

  lemma SameRanges(a: seq<Range>, b: seq<Range>)
    requires multiset(a) == multiset(b)
    ensures SameSet(a, b) && (Proper(b) ==> Proper(a))
  {
    Sorting.SameMembers(a, b);
    assert forall i :: 0 <= i < |a| ==> a[i] in b;
    assert forall i :: 0 <= i < |b| ==> b[i] in a;
  }

  lemma LastIn(a: seq<Range>, r: Range, c: int)
    ensures InRanges(a + [r], c) <==> InRanges(a, c) || InRange(r, c)
  {
    if InRanges(a, c) {
      var i :| 0 <= i < |a| && InRange(a[i], c);
      assert InRange((a + [r])[i], c);
    }
    assert (a + [r])[|a|] == r;
  }

  lemma Grow(init: seq<Range>, last: Range, r: Range, grown: Range, c: int)
    requires last.lo <= r.lo <= r.hi && last.lo <= last.hi && r.lo as int <= last.hi as int + 1
    requires grown == Range(last.lo, if last.hi < r.hi then r.hi else last.hi)
    ensures InRanges(init + [grown], c) <==> InRanges(init + [last], c) || InRange(r, c)
  {
    LastIn(init, last, c);
    LastIn(init, grown, c);
  }

  /** The in-place merge: sorted ranges that touch or overlap become one. */
  method Merge(ranges: seq<Range>) returns (merged: seq<Range>)
    requires Sorting.Sorted(ranges, Before) && Proper(ranges)
    ensures Canonical(merged) && SameSet(merged, ranges)
  {
    merged := [];
    for n := 0 to |ranges|
      invariant Canonical(merged) && SameSet(merged, ranges[..n])
      invariant merged != [] ==> 0 < n && merged[|merged| - 1].lo <= ranges[n - 1].lo
    {
      assert 0 < n ==> !Before(ranges[n], ranges[n - 1]);
      assert ranges[..n + 1] == ranges[..n] + [ranges[n]];
      forall c: int ensures InRanges(ranges[..n + 1], c) <==> InRanges(merged, c) || InRange(ranges[n], c) {
        LastIn(ranges[..n], ranges[n], c);
      }
      if merged != [] && ranges[n].lo as int <= merged[|merged| - 1].hi as int + 1 {
        var last := merged[|merged| - 1];
        var init := merged[..|merged| - 1];
        assert merged == init + [last];
        var grown := Range(last.lo, if last.hi < ranges[n].hi then ranges[n].hi else last.hi);
        forall c: int ensures InRanges(init + [grown], c) <==> InRanges(merged, c) || InRange(ranges[n], c) {
          Grow(init, last, ranges[n], grown, c);
        }
        merged := init + [grown];
      } else {
        forall c: int ensures InRanges(merged + [ranges[n]], c) <==> InRanges(merged, c) || InRange(ranges[n], c) {
          LastIn(merged, ranges[n], c);
        }
        merged := merged + [ranges[n]];
      }
    }
    assert ranges[..|ranges|] == ranges;
  }

  // ---- Keys ----

  /** The tokens mean the same: classes with the same negation and the same code points. */
  ghost predicate AgreeToken(t: Token, u: Token) {
    if t.Class? && u.Class? then t.negated == u.negated && SameSet(t.ranges, u.ranges) else t == u
  }

  ghost predicate Agree(ts: seq<Token>, us: seq<Token>) {
    |ts| == |us| && forall i :: 0 <= i < |ts| ==> AgreeToken(ts[i], us[i])
  }

  predicate Normal(ts: seq<Token>) { forall i :: 0 <= i < |ts| ==> ts[i].Class? ==> Canonical(ts[i].ranges) }

  function EncodeRanges(ranges: seq<Range>): string {
    if ranges == [] then "" else [ranges[0].lo, '-', ranges[0].hi, ','] + EncodeRanges(ranges[1..])
  }

  function EncodeToken(t: Token): string {
    match t
    case Literal(rune) => "l:" + [rune]
    case Star => "s;"
    case Question => "q;"
    case Class(negated, ranges) => (if negated then "c:!" else "c:=") + (EncodeRanges(ranges) + ";")
  }

  function Encode(ts: seq<Token>): string {
    if ts == [] then "" else EncodeToken(ts[0]) + Encode(ts[1..])
  }

  /** The key of a token list encodes the same tokens with their classes sorted and merged. */
  ghost predicate IsKey(ts: seq<Token>, key: string) {
    exists normal :: Agree(ts, normal) && Normal(normal) && key == Encode(normal)
  }

  predicate Boundary(rest: string) { rest == "" || rest[0] in "lsqc" }

  lemma KeysAreBoundaries(ts: seq<Token>)
    ensures Boundary(Encode(ts))
  {
  }

  lemma CancelPrefix(p: string, q: string, x: string, y: string)
    requires |p| == |q| && p + x == q + y
    ensures p == q && x == y
  {
    assert p == (p + x)[..|p|] && q == (q + y)[..|q|];
    assert x == (p + x)[|p|..] && y == (q + y)[|q|..];
  }

  function Group(r: Range): string { [r.lo, '-', r.hi, ','] }

  /** A class body with what follows, one range at a time. */
  function Body(ranges: seq<Range>, rest: string): string {
    if ranges == [] then ";" + rest else Group(ranges[0]) + Body(ranges[1..], rest)
  }

  lemma {:induction false} BodyIs(ranges: seq<Range>, rest: string)
    ensures (EncodeRanges(ranges) + ";") + rest == Body(ranges, rest)
    decreases |ranges|
  {
    if ranges != [] {
      BodyIs(ranges[1..], rest);
      assert (EncodeRanges(ranges) + ";") + rest == Group(ranges[0]) + ((EncodeRanges(ranges[1..]) + ";") + rest);
    }
  }

  /** The end of a class can be told from a range that starts with a semicolon: a token never starts with a dash. */
  lemma BodyEnds(ranges: seq<Range>, rest: string)
    requires Boundary(rest)
    ensures ranges == [] <==> |Body(ranges, rest)| < 2 || Body(ranges, rest)[1] != '-'
  {
  }

  lemma {:induction false} RangesDecode(a: seq<Range>, b: seq<Range>, x: string, y: string)
    requires Boundary(x) && Boundary(y) && Body(a, x) == Body(b, y)
    ensures a == b && x == y
    decreases |a|
  {
    BodyEnds(a, x);
    BodyEnds(b, y);
    if a == [] {
      CancelPrefix(";", ";", x, y);
    } else {
      CancelPrefix(Group(a[0]), Group(b[0]), Body(a[1..], x), Body(b[1..], y));
      assert a[0].lo == Group(a[0])[0] && a[0].hi == Group(a[0])[2] && b[0].lo == Group(b[0])[0]
             && b[0].hi == Group(b[0])[2];
      RangesDecode(a[1..], b[1..], x, y);
    }
  }

  lemma ClassIs(negated: bool, ranges: seq<Range>, rest: string)
    ensures EncodeToken(Class(negated, ranges)) + rest == (if negated then "c:!" else "c:=") + Body(ranges, rest)
  {
    BodyIs(ranges, rest);
    var head, body := if negated then "c:!" else "c:=", EncodeRanges(ranges) + ";";
    assert (head + body) + rest == head + (body + rest);
  }

  lemma ClassDecode(negated: bool, a: seq<Range>, other: bool, b: seq<Range>, x: string, y: string)
    requires Boundary(x) && Boundary(y) && EncodeToken(Class(negated, a)) + x == EncodeToken(Class(other, b)) + y
    ensures negated == other && a == b && x == y
  {
    ClassIs(negated, a, x);
    ClassIs(other, b, y);
    CancelPrefix(if negated then "c:!" else "c:=", if other then "c:!" else "c:=", Body(a, x), Body(b, y));
    assert "c:!"[2] != "c:="[2];
    RangesDecode(a, b, x, y);
  }

  function Tag(t: Token): char {
    match t case Literal(_) => 'l' case Star => 's' case Question => 'q' case Class(_, _) => 'c'
  }

  lemma TagFirst(t: Token, x: string)
    ensures (EncodeToken(t) + x)[0] == Tag(t)
  {
  }

  lemma TokenDecode(t: Token, u: Token, x: string, y: string)
    requires Boundary(x) && Boundary(y) && EncodeToken(t) + x == EncodeToken(u) + y
    ensures t == u && x == y
  {
    var s := EncodeToken(t) + x;
    TagFirst(t, x);
    TagFirst(u, y);
    if t.Class? {
      ClassDecode(t.negated, t.ranges, u.negated, u.ranges, x, y);
    } else if t.Literal? {
      assert s[2] == t.rune && s[3..] == x;
      assert s[2] == u.rune && s[3..] == y;
    } else {
      assert s[2..] == x;
      assert s[2..] == y;
    }
  }

  /** Keys decode uniquely, although the runes in them are not escaped. */
  lemma {:induction false} EncodeIsInjective(ts: seq<Token>, us: seq<Token>)
    requires Encode(ts) == Encode(us)
    ensures ts == us
    decreases |ts|
  {
    if ts != [] && us != [] {
      KeysAreBoundaries(ts[1..]);
      KeysAreBoundaries(us[1..]);
      TokenDecode(ts[0], us[0], Encode(ts[1..]), Encode(us[1..]));
      EncodeIsInjective(ts[1..], us[1..]);
    }
  }

  lemma NormalAgree(ts: seq<Token>, us: seq<Token>)
    requires Normal(ts) && Normal(us) && Agree(ts, us)
    ensures ts == us
  {
    forall i | 0 <= i < |ts| ensures ts[i] == us[i] {
      assert AgreeToken(ts[i], us[i]);
      if ts[i].Class? && us[i].Class? { CanonicalIsUnique(ts[i].ranges, us[i].ranges); }
    }
  }

  lemma AgreeThrough(ts: seq<Token>, us: seq<Token>, vs: seq<Token>)
    requires Agree(ts, us) && Agree(vs, us)
    ensures Agree(ts, vs)
  {
    forall i | 0 <= i < |ts|
      ensures AgreeToken(ts[i], vs[i])
    {
      assert AgreeToken(ts[i], us[i]) && AgreeToken(vs[i], us[i]);
    }
  }

  lemma AgreeTurned(ts: seq<Token>, us: seq<Token>)
    requires Agree(ts, us)
    ensures Agree(us, ts)
  {
    forall i | 0 <= i < |ts| ensures AgreeToken(us[i], ts[i]) { assert AgreeToken(ts[i], us[i]); }
  }

  /** Sound and complete: equal keys exactly when the token lists agree. */
  lemma KeysSoundAndComplete(ts: seq<Token>, key: string, us: seq<Token>, other: string)
    requires IsKey(ts, key) && IsKey(us, other)
    ensures key == other <==> Agree(ts, us)
  {
    var n :| Agree(ts, n) && Normal(n) && key == Encode(n);
    var m :| Agree(us, m) && Normal(m) && other == Encode(m);
    if key == other {
      EncodeIsInjective(n, m);
      AgreeThrough(ts, n, us);
    }
    if Agree(ts, us) {
      AgreeTurned(ts, n);
      AgreeTurned(us, m);
      AgreeTurned(ts, us);
      AgreeThrough(us, ts, n);
      AgreeTurned(us, n);
      AgreeTurned(us, m);
      AgreeThrough(n, us, m);
      NormalAgree(n, m);
    }
  }

  /** Hence equal keys select the same models. */
  lemma EqualKeysMatchAlike(ts: seq<Token>, us: seq<Token>, key: string, value: string)
    requires IsKey(ts, key) && IsKey(us, key)
    ensures Matched(ts, value) <==> Matched(us, value)
  {
    KeysSoundAndComplete(ts, key, us, key);
    AgreeTurned(ts, us);
    if Matched(ts, value) { AgreeingMatch(ts, us, value); }
    if Matched(us, value) { AgreeingMatch(us, ts, value); }
  }

  lemma AgreeingMatch(ts: seq<Token>, us: seq<Token>, value: string)
    requires Agree(ts, us) && Matched(ts, value)
    ensures Matched(us, value)
  {
    var pieces :| AllFit(ts, pieces) && Join(pieces) == value;
    forall i | 0 <= i < |us|
      ensures Fits(us[i], pieces[i])
    {
      assert AgreeToken(ts[i], us[i]) && Fits(ts[i], pieces[i]);
    }
    assert AllFit(us, pieces);
  }

  predicate ProperTokens(ts: seq<Token>) { forall i :: 0 <= i < |ts| ==> ts[i].Class? ==> Proper(ts[i].ranges) }

  method NormalClass(ranges: seq<Range>) returns (merged: seq<Range>)
    requires Proper(ranges)
    ensures Canonical(merged) && SameSet(ranges, merged)
  {
    var sorted := Sorting.Sort(ranges, Before);
    SameRanges(sorted, ranges);
    merged := Merge(sorted);
  }

  lemma {:induction false} EncodeAppend(ts: seq<Token>, t: Token)
    ensures Encode(ts + [t]) == Encode(ts) + EncodeToken(t)
    decreases |ts|
  {
    if ts == [] {
      assert ts + [t] == [t] && [t][1..] == [];
    } else {
      assert (ts + [t])[1..] == ts[1..] + [t];
      EncodeAppend(ts[1..], t);
    }
  }

  lemma {:induction false} EncodeRangesAppend(ranges: seq<Range>, r: Range)
    ensures EncodeRanges(ranges + [r]) == EncodeRanges(ranges) + [r.lo, '-', r.hi, ',']
    decreases |ranges|
  {
    if ranges == [] {
      assert ranges + [r] == [r] && [r][1..] == [];
    } else {
      assert (ranges + [r])[1..] == ranges[1..] + [r];
      EncodeRangesAppend(ranges[1..], r);
    }
  }

  method WriteClass(negated: bool, merged: seq<Range>) returns (text: string)
    ensures text == EncodeToken(Class(negated, merged))
  {
    text := "";
    for i := 0 to |merged|
      invariant text == EncodeRanges(merged[..i])
    {
      assert merged[..i + 1] == merged[..i] + [merged[i]];
      EncodeRangesAppend(merged[..i], merged[i]);
      text := text + [merged[i].lo, '-', merged[i].hi, ','];
    }
    assert merged[..|merged|] == merged;
    text := (if negated then "c:!" else "c:=") + (text + ";");
  }

  method WriteToken(t: Token) returns (text: string, ghost normal: Token)
    requires t.Class? ==> Proper(t.ranges)
    ensures AgreeToken(t, normal) && (normal.Class? ==> Canonical(normal.ranges)) && text == EncodeToken(normal)
  {
    normal := t;
    match t
    case Literal(rune) => text := "l:" + [rune];
    case Star => text := "s;";
    case Question => text := "q;";
    case Class(negated, ranges) =>
      var merged := NormalClass(ranges);
      text := WriteClass(negated, merged);
      normal := Class(negated, merged);
  }

  lemma NormalAppend(ts: seq<Token>, normal: seq<Token>, t: Token, n: Token)
    requires Agree(ts, normal) && Normal(normal) && AgreeToken(t, n) && (n.Class? ==> Canonical(n.ranges))
    ensures Agree(ts + [t], normal + [n]) && Normal(normal + [n])
  {
  }

  /** canonicalKey. */
  method CanonicalKey(tokens: seq<Token>) returns (key: string)
    requires ProperTokens(tokens)
    ensures IsKey(tokens, key)
  {
    key := "";
    ghost var normal: seq<Token> := [];
    for i := 0 to |tokens|
      invariant Agree(tokens[..i], normal) && Normal(normal) && key == Encode(normal)
    {
      var text;
      ghost var t;
      text, t := WriteToken(tokens[i]);
      assert tokens[..i + 1] == tokens[..i] + [tokens[i]];
      NormalAppend(tokens[..i], normal, tokens[i], t);
      EncodeAppend(normal, t);
      normal := normal + [t];
      key := key + text;
    }
    assert tokens[..|tokens|] == tokens;
  }
}
