/** Compiling model selectors (internal/modelmatch/modelmatch.go). */
module GlobCompile {
  import opened Wrappers
  import opened Glob
  import opened GlobKey

  // ---- The grammar ----

  /** One code point of a class, at `i`, and the index after it. */
  function ClassRune(runes: string, i: nat): (r: Option<(char, nat)>)
    requires i < |runes|
    ensures r.Some? ==> i < r.value.1 <= |runes|
  {
    if runes[i] == '\\' then if i + 1 < |runes| then Some((runes[i + 1], i + 2)) else None
    else if runes[i] == '[' then None
    else Some((runes[i], i + 1))
  }

  /** A code point or a range, and the index after it. A dash must be followed by a high end that is not below. */
  function ClassItem(runes: string, i: nat): (r: Option<(Range, nat)>)
    requires i < |runes|
    ensures r.Some? ==> i < r.value.1 <= |runes| && r.value.0.lo <= r.value.0.hi
  {
    var lo := ClassRune(runes, i);
    if lo.None? then None
    else if lo.value.1 < |runes| && runes[lo.value.1] == '-' then
      if lo.value.1 + 1 >= |runes| || runes[lo.value.1 + 1] == ']' then None
      else
        var hi := ClassRune(runes, lo.value.1 + 1);
        if hi.None? || hi.value.0 < lo.value.0 then None else Some((Range(lo.value.0, hi.value.0), hi.value.1))
    else Some((Range(lo.value.0, lo.value.0), lo.value.1))
  }

  /** The items up to the closing bracket, and its index. */
  function ClassItems(runes: string, i: nat): (r: Option<(seq<Range>, nat)>)
    requires i <= |runes|
    ensures r.Some? ==> i <= r.value.1 < |runes| && Proper(r.value.0)
    decreases |runes| - i
  {
    if i == |runes| then None
    else if runes[i] == ']' then Some(([], i))
    else
      var item := ClassItem(runes, i);
      if item.None? then None
      else
        var rest := ClassItems(runes, item.value.1);
        if rest.None? then None else Some(([item.value.0] + rest.value.0, rest.value.1))
  }

  /** The class that opens at `start`, and the index of its closing bracket. */
  function ClassAt(runes: string, start: nat): (r: Option<(Token, nat)>)
    requires start < |runes|
    ensures r.Some? ==> start < r.value.1 < |runes| && r.value.0.Class? && Proper(r.value.0.ranges)
  {
    var negated := start + 1 < |runes| && runes[start + 1] in "!^";
    var i := if negated then start + 2 else start + 1;
    if i >= |runes| || runes[i] == ']' then None
    else
      var items := ClassItems(runes, i);
      if items.None? then None else Some((Class(negated, items.value.0), items.value.1))
  }

  function Prepend(front: seq<Token>, rest: Option<seq<Token>>): Option<seq<Token>> {
    if rest.None? then None else Some(front + rest.value)
  }

  /** The token at `i`, and the index after it. */
  function TokenAt(runes: string, i: nat): (r: Option<(Token, nat)>)
    requires i < |runes|
    ensures r.Some? ==> i < r.value.1 <= |runes| && (r.value.0.Class? ==> Proper(r.value.0.ranges))
  {
    match runes[i]
    case '\\' => if i + 1 < |runes| then Some((Literal(runes[i + 1]), i + 2)) else None
    case '*' => Some((Star, i + 1))
    case '?' => Some((Question, i + 1))
    case '[' =>
      var parsed := ClassAt(runes, i);
      if parsed.None? then None else Some((parsed.value.0, parsed.value.1 + 1))
    case c => Some((Literal(c), i + 1))
  }

  /** The tokens from `i` on, with every star. */
  function Scan(runes: string, i: nat): (r: Option<seq<Token>>)
    requires i <= |runes|
    ensures r.Some? ==> ProperTokens(r.value)
    decreases |runes| - i
  {
    if i == |runes| then Some([])
    else
      var t := TokenAt(runes, i);
      if t.None? then None else Prepend([t.value.0], Scan(runes, t.value.1))
  }

  /** The tokens of a selector: scanned, with runs of stars collapsed. */
  function Compiled(source: string): Option<seq<Token>> {
    if source == "" || Scan(source, 0).None? then None else Some(Collapse(Scan(source, 0).value))
  }

  predicate AllLiteral(tokens: seq<Token>) { forall i :: 0 <= i < |tokens| ==> tokens[i].Literal? }

  function Spelled(value: string): seq<Token> { seq(|value|, i requires 0 <= i < |value| => Literal(value[i])) }

  // ---- Compilation ----

  datatype Pattern = Pattern(source: string, tokens: seq<Token>, key: string, exact: bool)

  ghost predicate ValidPattern(p: Pattern) { IsKey(p.tokens, p.key) && p.exact == AllLiteral(p.tokens) }

  function PrependItems(front: seq<Range>, rest: Option<(seq<Range>, nat)>): Option<(seq<Range>, nat)> {
    if rest.None? then None else Some((front + rest.value.0, rest.value.1))
  }

  lemma PrependItemsStep(front: seq<Range>, r: Range, rest: Option<(seq<Range>, nat)>)
    ensures PrependItems(front, PrependItems([r], rest)) == PrependItems(front + [r], rest)
    ensures PrependItems([], rest) == rest
  {
    if rest.Some? {
      assert front + ([r] + rest.value.0) == (front + [r]) + rest.value.0 && [] + rest.value.0 == rest.value.0;
    }
  }

  method ParseItems(runes: string, first: nat) returns (items: Option<(seq<Range>, nat)>)
    requires first <= |runes|
    ensures items == ClassItems(runes, first)
  {
    var ranges: seq<Range> := [];
    var index := first;
    PrependItemsStep([], Range(' ', ' '), ClassItems(runes, first));
    while index < |runes| && runes[index] != ']'
      invariant first <= index <= |runes| && ClassItems(runes, first) == PrependItems(ranges, ClassItems(runes, index))
      decreases |runes| - index
    {
      var item := ClassItem(runes, index);
      if item.None? { return None; }
      PrependItemsStep(ranges, item.value.0, ClassItems(runes, item.value.1));
      ranges, index := ranges + [item.value.0], item.value.1;
    }
    if index >= |runes| { return None; }
    assert ranges + [] == ranges;
    return Some((ranges, index));
  }

  method ParseClass(runes: string, start: nat) returns (parsed: Option<(Token, nat)>)
    requires start < |runes|
    ensures parsed == ClassAt(runes, start)
  {
    var index, negated := start + 1, false;
    if index < |runes| && (runes[index] == '!' || runes[index] == '^') { negated, index := true, index + 1; }
    if index >= |runes| || runes[index] == ']' { return None; }
    var items := ParseItems(runes, index);
    return if items.None? then None else Some((Class(negated, items.value.0), items.value.1));
  }

  lemma PushCollapses(raw: seq<Token>, t: Token)
    ensures Push(Collapse(raw), t) == Collapse(raw + [t])
  {
    assert (raw + [t])[..|raw|] == raw;
  }

  method ReadToken(source: string, index: nat) returns (r: Option<(Token, nat)>)
    requires index < |source|
    ensures r == TokenAt(source, index)
  {
    match source[index]
    case '\\' =>
      if index + 1 >= |source| { return None; }
      return Some((Literal(source[index + 1]), index + 2));
    case '*' => return Some((Star, index + 1));
    case '?' => return Some((Question, index + 1));
    case '[' =>
      var parsed := ParseClass(source, index);
      if parsed.None? { return None; }
      return Some((parsed.value.0, parsed.value.1 + 1));
    case c => return Some((Literal(c), index + 1));
  }

  method ScanAll(source: string) returns (tokens: Option<seq<Token>>)
    ensures tokens == if Scan(source, 0).None? then None else Some(Collapse(Scan(source, 0).value))
  {
    var result: seq<Token> := [];
    ghost var raw: seq<Token> := [];
    var index := 0;
    assert Scan(source, 0).Some? ==> [] + Scan(source, 0).value == Scan(source, 0).value;
    while index < |source|
      invariant index <= |source| && result == Collapse(raw) && Scan(source, 0) == Prepend(raw, Scan(source, index))
    {
      var t := ReadToken(source, index);
      if t.None? { return None; }
      PrependStep(raw, t.value.0, Scan(source, t.value.1));
      PushCollapses(raw, t.value.0);
      result, raw, index := Push(result, t.value.0), raw + [t.value.0], t.value.1;
    }
    assert raw + [] == raw;
    return Some(result);
  }

  lemma PrependStep(raw: seq<Token>, t: Token, rest: Option<seq<Token>>)
    ensures Prepend(raw, Prepend([t], rest)) == Prepend(raw + [t], rest)
  {
    if rest.Some? { assert raw + ([t] + rest.value) == (raw + [t]) + rest.value; }
  }

  lemma {:induction false} CollapseKeeps(tokens: seq<Token>)
    ensures ProperTokens(tokens) ==> ProperTokens(Collapse(tokens))
    ensures AllLiteral(tokens) ==> Collapse(tokens) == tokens
    decreases |tokens|
  {
    if tokens != [] {
      var init := tokens[..|tokens| - 1];
      CollapseKeeps(init);
      assert tokens == init + [tokens[|tokens| - 1]];
    }
  }

  method IsExact(tokens: seq<Token>) returns (exact: bool)
    ensures exact == AllLiteral(tokens)
  {
    for i := 0 to |tokens|
      invariant forall j :: 0 <= j < i ==> tokens[j].Literal?
    {
      if !tokens[i].Literal? { return false; }
    }
    return true;
  }

  method Compile(source: string) returns (p: Option<Pattern>)
    ensures p.None? <==> Compiled(source).None?
    ensures p.Some? ==> ValidPattern(p.value) && p.value.source == source && Compiled(source) == Some(p.value.tokens)
  {
    if source == "" { return None; }
    var tokens := ScanAll(source);
    if tokens.None? { return None; }
    CollapseKeeps(Scan(source, 0).value);
    var exact := IsExact(tokens.value);
    var key := CanonicalKey(tokens.value);
    return Some(Pattern(source, tokens.value, key, exact));
  }

  /** A compiled selector matches what its scanned tokens match, every star counted. */
  lemma CompileKeepsMeaning(source: string, value: string)
    requires Compiled(source).Some?
    ensures Matched(Compiled(source).value, value) <==> Matched(Scan(source, 0).value, value)
  {
    CollapsePreservesMatches(Scan(source, 0).value, value);
  }

  // ---- Exact selectors ----

  function ExactValue(tokens: seq<Token>): string
    requires AllLiteral(tokens)
  {
    seq(|tokens|, i requires 0 <= i < |tokens| => tokens[i].rune)
  }

  /** An exact selector matches its value and nothing else. */
  lemma {:induction false} ExactMatchesOnly(tokens: seq<Token>, value: string)
    requires AllLiteral(tokens)
    ensures Matched(tokens, value) <==> value == ExactValue(tokens)
    decreases |tokens|
  {
    if tokens == [] {
      NothingMatchesEmpty(value);
    } else {
      var n := |tokens| - 1;
      var init, t := tokens[..n], tokens[n];
      assert tokens == init + [t];
      RuneStep(init, t, value);
      if value != "" { ExactMatchesOnly(init, value[..|value| - 1]); }
      assert ExactValue(tokens) == ExactValue(init) + [t.rune];
      if value != "" { assert value == value[..|value| - 1] + [value[|value| - 1]]; }
    }
  }

  /** Writes a value with a backslash before the chosen runes. */
  function Escape(value: string, quoted: set<char>): string {
    if value == "" then ""
    else (if value[0] in quoted then ['\\', value[0]] else [value[0]]) + Escape(value[1..], quoted)
  }

  lemma {:induction false} ScanEscaped(before: string, value: string, quoted: set<char>)
    requires {'\\', '*', '?', '['} <= quoted
    ensures Scan(before + Escape(value, quoted), |before|) == Some(Spelled(value))
    decreases |value|
  {
    var runes := before + Escape(value, quoted);
    if value == "" {
      assert Spelled(value) == [];
    } else {
      var c := value[0];
      var one := if c in quoted then ['\\', c] else [c];
      assert runes == (before + one) + Escape(value[1..], quoted);
      ScanEscaped(before + one, value[1..], quoted);
      assert runes[|before|] == one[0] && (c in quoted ==> runes[|before| + 1] == c);
      assert TokenAt(runes, |before|) == Some((Literal(c), |before + one|));
      assert [Literal(c)] + Spelled(value[1..]) == Spelled(value);
    }
  }

  lemma SpelledMatchesOnly(value: string, other: string)
    ensures Matched(Spelled(value), other) <==> other == value
  {
    ExactMatchesOnly(Spelled(value), other);
    assert ExactValue(Spelled(value)) == value;
  }

  /** Quoting: with at least the metacharacters escaped, any non-empty value compiles to the selector
      that matches this value and no other. */
  lemma EscapeRoundTrips(value: string, quoted: set<char>, other: string)
    requires value != "" && {'\\', '*', '?', '['} <= quoted
    ensures Compiled(Escape(value, quoted)) == Some(Spelled(value))
    ensures Matched(Spelled(value), other) <==> other == value
  {
    var source := Escape(value, quoted);
    assert Scan(source, 0) == Some(Spelled(value)) by {
      ScanEscaped(value[..0], value, quoted);
      assert value[..0] + source == source;
    }
    CollapseKeeps(Spelled(value));
    SpelledMatchesOnly(value, other);
  }
}
