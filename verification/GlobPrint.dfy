/** Writing selectors: every list of tokens has a source that compiles to it (internal/modelmatch/modelmatch.go). */
module GlobPrint {
  import opened Wrappers
  import opened Glob
  import opened GlobKey
  import opened GlobCompile

  /** A rune that starts or ends nothing in a class. */
  predicate Plain(c: char) { c != '[' && c != ']' && c != '-' && c != '!' && c != '^' }

  /** How a source is written: which runes are quoted, how a class is negated, and whether a range of one rune
      is written as that rune. */
  datatype Style = Style(quoted: set<char>, mark: char, short: bool)

  /** At least what has a meaning is quoted. */
  predicate ValidStyle(s: Style) {
    && '\\' in s.quoted && '*' in s.quoted && '?' in s.quoted && '[' in s.quoted && ']' in s.quoted
    && '-' in s.quoted && '!' in s.quoted && '^' in s.quoted && (s.mark == '!' || s.mark == '^')
  }

  function Quote(c: char, s: Style): string { if c in s.quoted then ['\\', c] else [c] }

  function PrintRange(r: Range, s: Style): string {
    if s.short && r.lo == r.hi then Quote(r.lo, s) else Quote(r.lo, s) + "-" + Quote(r.hi, s)
  }

  function PrintRanges(ranges: seq<Range>, s: Style): string {
    if ranges == [] then "" else PrintRange(ranges[0], s) + PrintRanges(ranges[1..], s)
  }

  function PrintToken(t: Token, s: Style): string {
    match t
    case Literal(c) => Quote(c, s)
    case Star => "*"
    case Question => "?"
    case Class(negated, ranges) => "[" + (if negated then [s.mark] else "") + PrintRanges(ranges, s) + "]"
  }

  function Print(ts: seq<Token>, s: Style): string {
    if ts == [] then "" else PrintToken(ts[0], s) + Print(ts[1..], s)
  }

  /** A class has ranges, and none is empty. */
  predicate Writable(t: Token) { t.Class? ==> t.ranges != [] && Proper(t.ranges) }

  predicate AllWritable(ts: seq<Token>) { forall i :: 0 <= i < |ts| ==> Writable(ts[i]) }

  // ---- Reading what was written ----

  predicate At(runes: string, i: nat, text: string) {
    i + |text| <= |runes| && forall k :: 0 <= k < |text| ==> runes[i + k] == text[k]
  }

  lemma Split(runes: string, i: nat, a: string, b: string)
    requires At(runes, i, a + b)
    ensures At(runes, i, a) && At(runes, i + |a|, b)
  {
    forall k | 0 <= k < |a| ensures runes[i + k] == a[k] { assert (a + b)[k] == a[k]; }
    forall k | 0 <= k < |b| ensures runes[i + |a| + k] == b[k] { assert (a + b)[|a| + k] == b[k]; }
  }

  lemma RuneAt(runes: string, i: nat, c: char, s: Style)
    requires ValidStyle(s) && At(runes, i, Quote(c, s))
    ensures i < |runes| && Plain(runes[i]) && ClassRune(runes, i) == Some((c, i + |Quote(c, s)|))
  {
    assert runes[i] == Quote(c, s)[0];
    if c in s.quoted { assert runes[i + 1] == Quote(c, s)[1]; }
  }

  lemma RangeAt(runes: string, i: nat, r: Range, s: Style)
    requires ValidStyle(s) && r.lo <= r.hi && At(runes, i, PrintRange(r, s))
    requires i + |PrintRange(r, s)| < |runes| && runes[i + |PrintRange(r, s)|] != '-'
    ensures Plain(runes[i]) && ClassItem(runes, i) == Some((r, i + |PrintRange(r, s)|))
  {
    if s.short && r.lo == r.hi {
      RuneAt(runes, i, r.lo, s);
    } else {
      var lo, hi := Quote(r.lo, s), Quote(r.hi, s);
      Split(runes, i, lo + "-", hi);
      Split(runes, i, lo, "-");
      RuneAt(runes, i, r.lo, s);
      RuneAt(runes, i + |lo| + 1, r.hi, s);
      assert runes[i + |lo|] == "-"[0];
    }
  }

  lemma ItemsStep(runes: string, i: nat, r: Range, next: nat, rest: seq<Range>, end: nat)
    requires i < |runes| && runes[i] != ']' && ClassItem(runes, i) == Some((r, next))
    requires next <= |runes| && ClassItems(runes, next) == Some((rest, end))
    ensures ClassItems(runes, i) == Some(([r] + rest, end))
  {
  }

  lemma {:induction false} RangesAt(runes: string, i: nat, ranges: seq<Range>, end: nat, s: Style)
    requires ValidStyle(s) && Proper(ranges) && At(runes, i, PrintRanges(ranges, s))
    requires end == i + |PrintRanges(ranges, s)| < |runes| && runes[end] == ']'
    ensures ranges != [] ==> Plain(runes[i])
    ensures ClassItems(runes, i) == Some((ranges, end))
    decreases |ranges|
  {
    if ranges != [] { MoreRangesAt(runes, i, ranges, end, s); }
  }

  lemma {:induction false} MoreRangesAt(runes: string, i: nat, ranges: seq<Range>, end: nat, s: Style)
    requires ranges != [] && ValidStyle(s) && Proper(ranges) && At(runes, i, PrintRanges(ranges, s))
    requires end == i + |PrintRanges(ranges, s)| < |runes| && runes[end] == ']'
    ensures Plain(runes[i]) && ClassItems(runes, i) == Some((ranges, end))
    decreases |ranges|, 0
  {
    var next := i + |PrintRange(ranges[0], s)|;
    Split(runes, i, PrintRange(ranges[0], s), PrintRanges(ranges[1..], s));
    RangesAt(runes, next, ranges[1..], end, s);
    assert runes[next] != '-' by { if ranges[1..] == [] { assert next == end; } }
    RangeAt(runes, i, ranges[0], s);
    ItemsStep(runes, i, ranges[0], next, ranges[1..], end);
    assert [ranges[0]] + ranges[1..] == ranges;
  }

  lemma ClassParts(runes: string, i: nat, mark: string, body: string)
    requires At(runes, i, "[" + mark + body + "]")
    ensures At(runes, i + 1, mark) && At(runes, i + 1 + |mark|, body)
    ensures var end := i + 1 + |mark| + |body|; end < |runes| && runes[i] == '[' && runes[end] == ']'
  {
    Split(runes, i, "[" + mark + body, "]");
    Split(runes, i, "[" + mark, body);
    Split(runes, i, "[", mark);
    var end := i + 1 + |mark| + |body|;
    assert runes[i] == "["[0] && runes[end] == "]"[0];
  }

  lemma ClassStep(runes: string, i: nat, negated: bool, ranges: seq<Range>, end: nat)
    requires i < |runes| && (negated ==> i + 1 < |runes| && (runes[i + 1] == '!' || runes[i + 1] == '^'))
    requires var first := if negated then i + 2 else i + 1;
             first < |runes| && Plain(runes[first]) && ClassItems(runes, first) == Some((ranges, end))
    ensures ClassAt(runes, i) == Some((Class(negated, ranges), end))
  {
  }

  lemma ClassIsAt(runes: string, i: nat, t: Token, s: Style)
    requires ValidStyle(s) && t.Class? && Writable(t) && At(runes, i, PrintToken(t, s))
    ensures i < |runes| && runes[i] == '[' && ClassAt(runes, i) == Some((t, i + |PrintToken(t, s)| - 1))
  {
    var mark, body := if t.negated then [s.mark] else "", PrintRanges(t.ranges, s);
    ClassParts(runes, i, mark, body);
    assert t.negated ==> runes[i + 1] == mark[0];
    var first, end := i + 1 + |mark|, i + 1 + |mark| + |body|;
    BodyAt(runes, i, first, end, t, s);
  }

  lemma BodyAt(runes: string, i: nat, first: nat, end: nat, t: Token, s: Style)
    requires ValidStyle(s) && t.Class? && Writable(t) && first == (if t.negated then i + 2 else i + 1) < |runes|
    requires t.negated ==> runes[i + 1] == s.mark
    requires At(runes, first, PrintRanges(t.ranges, s))
    requires end == first + |PrintRanges(t.ranges, s)| < |runes| && runes[end] == ']'
    ensures ClassAt(runes, i) == Some((t, end))
  {
    RangesAt(runes, first, t.ranges, end, s);
    ClassStep(runes, i, t.negated, t.ranges, end);
  }

  lemma TokenIsAt(runes: string, i: nat, t: Token, s: Style)
    requires ValidStyle(s) && Writable(t) && At(runes, i, PrintToken(t, s))
    ensures i < |runes| && TokenAt(runes, i) == Some((t, i + |PrintToken(t, s)|))
  {
    assert runes[i] == PrintToken(t, s)[0];
    if t.Class? { ClassIsAt(runes, i, t, s); }
    if t.Literal? && t.rune in s.quoted { assert runes[i + 1] == PrintToken(t, s)[1]; }
  }

  lemma ScanStep(runes: string, i: nat, t: Token, next: nat, rest: seq<Token>)
    requires i < |runes| && TokenAt(runes, i) == Some((t, next)) && next <= |runes| && Scan(runes, next) == Some(rest)
    ensures Scan(runes, i) == Some([t] + rest)
  {
  }

  lemma {:induction false} TokensAreAt(runes: string, i: nat, ts: seq<Token>, s: Style)
    requires ValidStyle(s) && AllWritable(ts) && At(runes, i, Print(ts, s)) && i + |Print(ts, s)| == |runes|
    ensures Scan(runes, i) == Some(ts)
    decreases |ts|
  {
    if ts != [] { MoreTokensAt(runes, i, ts, s); }
  }

  lemma {:induction false} MoreTokensAt(runes: string, i: nat, ts: seq<Token>, s: Style)
    requires ts != [] && ValidStyle(s) && AllWritable(ts)
    requires At(runes, i, Print(ts, s)) && i + |Print(ts, s)| == |runes|
    ensures Scan(runes, i) == Some(ts)
    decreases |ts|, 0
  {
    var next := i + |PrintToken(ts[0], s)|;
    Split(runes, i, PrintToken(ts[0], s), Print(ts[1..], s));
    TokenIsAt(runes, i, ts[0], s);
    TokensAreAt(runes, next, ts[1..], s);
    ScanStep(runes, i, ts[0], next, ts[1..]);
    assert [ts[0]] + ts[1..] == ts;
  }

  /** Every list of tokens whose classes are not empty can be written, in every style, and the source compiles
      to these tokens with runs of stars collapsed: it matches exactly what they match. */
  lemma PrintRoundTrips(ts: seq<Token>, s: Style, value: string)
    requires ts != [] && ValidStyle(s) && AllWritable(ts)
    ensures Scan(Print(ts, s), 0) == Some(ts) && Compiled(Print(ts, s)) == Some(Collapse(ts))
    ensures Matched(Compiled(Print(ts, s)).value, value) <==> Matched(ts, value)
  {
    var source := Print(ts, s);
    TokensAreAt(source, 0, ts, s);
    Split(source, 0, PrintToken(ts[0], s), Print(ts[1..], s));
    TokenIsAt(source, 0, ts[0], s);
    CompileKeepsMeaning(Print(ts, s), value);
  }

  /** And only such lists: what compiles could have been written this way. */
  lemma {:induction false} ScannedIsWritable(runes: string, i: nat)
    requires i <= |runes| && Scan(runes, i).Some?
    ensures AllWritable(Scan(runes, i).value)
    decreases |runes| - i
  {
    if i < |runes| {
      var t := TokenAt(runes, i).value;
      ScannedIsWritable(runes, t.1);
    }
  }
}
