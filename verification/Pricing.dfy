/** Price rules: validation against duplicates and the indexed lookup (internal/accounting/pricing.go). */
module Pricing {
  import opened Wrappers
  import opened Glob
  import opened GlobKey
  import opened GlobCompile

  datatype Rule = Rule(pattern: Pattern, inputRate: int, outputRate: int)

  ghost predicate Selects(r: Rule, model: string) { Matched(r.pattern.tokens, model) }

  /** No two exact selectors and no two glob selectors of a table have the same key. */
  predicate NoDuplicates(rules: seq<Rule>) {
    forall i, j :: 0 <= i < j < |rules| && rules[i].pattern.exact == rules[j].pattern.exact ==>
                     rules[i].pattern.key != rules[j].pattern.key
  }

  ghost predicate AllCompiled(rules: seq<Rule>) { forall i :: 0 <= i < |rules| ==> ValidPattern(rules[i].pattern) }

  predicate ValidRule(r: Rule) { r.pattern.source != "" && 0 <= r.inputRate && 0 <= r.outputRate }

  predicate ValidTable(rules: seq<Rule>) {
    NoDuplicates(rules) && forall i :: 0 <= i < |rules| ==> ValidRule(rules[i])
  }

  method Validate(rules: seq<Rule>) returns (ok: bool)
    ensures ok <==> ValidTable(rules)
  {
    var seenExact, seenGlob: set<string> := {}, {};
    for i := 0 to |rules|
      invariant ValidTable(rules[..i])
      invariant forall k ::
                  k in seenExact <==> exists j :: 0 <= j < i && rules[j].pattern.exact && rules[j].pattern.key == k
      invariant forall k ::
                  k in seenGlob <==> exists j :: 0 <= j < i && !rules[j].pattern.exact && rules[j].pattern.key == k
    {
      if !ValidRule(rules[i]) { return false; }
      var key := rules[i].pattern.key;
      if rules[i].pattern.exact {
        if key in seenExact { return false; }
        seenExact := seenExact + {key};
      } else {
        if key in seenGlob { return false; }
        seenGlob := seenGlob + {key};
      }
    }
    assert rules[..|rules|] == rules;
    return true;
  }

  /** Different keys mean different selectors: no two rules of a table agree on their tokens. */
  lemma RulesDiffer(rules: seq<Rule>, i: nat, j: nat)
    requires AllCompiled(rules) && NoDuplicates(rules) && i < j < |rules|
    ensures !Agree(rules[i].pattern.tokens, rules[j].pattern.tokens)
  {
    var p, q := rules[i].pattern, rules[j].pattern;
    assert ValidPattern(p) && ValidPattern(q);
    KeysSoundAndComplete(p.tokens, p.key, q.tokens, q.key);
    if p.exact != q.exact {
      assert !Agree(p.tokens, q.tokens) by { SameKind(p.tokens, q.tokens); }
    }
  }

  lemma SameKind(ts: seq<Token>, us: seq<Token>)
    ensures Agree(ts, us) ==> AllLiteral(ts) == AllLiteral(us)
  {
    if Agree(ts, us) {
      assert forall i :: 0 <= i < |ts| ==> AgreeToken(ts[i], us[i]);
    }
  }

  /** The rule the specification picks: the exact rule that matches, otherwise the first glob that does. */
  ghost predicate Picked(rules: seq<Rule>, model: string, i: nat) {
    && i < |rules| && Selects(rules[i], model)
    && (!rules[i].pattern.exact ==>
          && (forall j :: 0 <= j < |rules| && rules[j].pattern.exact ==> !Selects(rules[j], model))
          && (forall j :: 0 <= j < i ==> !Selects(rules[j], model)))
  }

  lemma SpelledOut(tokens: seq<Token>)
    requires AllLiteral(tokens)
    ensures tokens == Spelled(ExactValue(tokens))
  {
  }

  lemma ExactRulesDiffer(rules: seq<Rule>, i: nat, j: nat)
    requires AllCompiled(rules) && NoDuplicates(rules) && i < j < |rules| && rules[i].pattern.exact
             && rules[j].pattern.exact
    ensures AllLiteral(rules[i].pattern.tokens) && AllLiteral(rules[j].pattern.tokens)
    ensures ExactValue(rules[i].pattern.tokens) != ExactValue(rules[j].pattern.tokens)
  {
    assert ValidPattern(rules[i].pattern) && ValidPattern(rules[j].pattern);
    RulesDiffer(rules, i, j);
    SpelledOut(rules[i].pattern.tokens);
    SpelledOut(rules[j].pattern.tokens);
  }

  /** The specification picks at most one rule of a validated table. */
  lemma PickedIsUnique(rules: seq<Rule>, model: string, i: nat, j: nat)
    requires AllCompiled(rules) && NoDuplicates(rules) && Picked(rules, model, i) && Picked(rules, model, j)
    ensures i == j
  {
    assert ValidPattern(rules[i].pattern) && ValidPattern(rules[j].pattern);
    if rules[i].pattern.exact && rules[j].pattern.exact {
      ExactMatchesOnly(rules[i].pattern.tokens, model);
      ExactMatchesOnly(rules[j].pattern.tokens, model);
      if i < j { ExactRulesDiffer(rules, i, j); }
      if j < i { ExactRulesDiffer(rules, j, i); }
    }
  }

  function Value(r: Rule): string { if AllLiteral(r.pattern.tokens) then ExactValue(r.pattern.tokens) else "" }

  /** The exact rules among the first `n` are exactly the indexed ones. */
  ghost predicate Indexed(rules: seq<Rule>, n: nat, exact: map<string, Rule>) {
    && n <= |rules|
    && (forall j :: 0 <= j < n && rules[j].pattern.exact ==>
        Value(rules[j]) in exact && exact[Value(rules[j])] == rules[j])
    && (forall v :: v in exact ==> exact[v] in rules[..n] && exact[v].pattern.exact && Value(exact[v]) == v)
  }

  function Globs(rules: seq<Rule>): seq<Rule> {
    if rules == [] then []
    else Globs(rules[..|rules| - 1]) + if rules[|rules| - 1].pattern.exact then [] else [rules[|rules| - 1]]
  }

  lemma {:induction false} GlobsAre(rules: seq<Rule>, r: Rule)
    ensures r in Globs(rules) <==> r in rules && !r.pattern.exact
    decreases |rules|
  {
    if rules != [] {
      GlobsAre(rules[..|rules| - 1], r);
      assert rules == rules[..|rules| - 1] + [rules[|rules| - 1]];
    }
  }

  /** The globs keep the declaration order. */
  lemma {:induction false} GlobsInOrder(rules: seq<Rule>, g: nat) returns (i: nat)
    requires g < |Globs(rules)|
    ensures i < |rules| && rules[i] == Globs(rules)[g] && !rules[i].pattern.exact
    ensures Globs(rules[..i]) == Globs(rules)[..g]
    decreases |rules|
  {
    var n := |rules| - 1;
    var init := rules[..n];
    if g < |Globs(init)| {
      i := GlobsInOrder(init, g);
      assert rules[..i] == init[..i];
    } else {
      i := n;
    }
  }

  datatype PricingResolver = PricingResolver(exact: map<string, Rule>, globs: seq<Rule>)

  ghost predicate Resolves(resolver: PricingResolver, rules: seq<Rule>) {
    Indexed(rules, |rules|, resolver.exact) && resolver.globs == Globs(rules)
  }

  lemma IndexStep(rules: seq<Rule>, n: nat, exact: map<string, Rule>)
    requires AllCompiled(rules) && NoDuplicates(rules) && n < |rules| && Indexed(rules, n, exact)
    ensures Indexed(rules, n + 1, if rules[n].pattern.exact then exact[Value(rules[n]) := rules[n]] else exact)
  {
    assert rules[..n + 1] == rules[..n] + [rules[n]];
    var indexed := if rules[n].pattern.exact then exact[Value(rules[n]) := rules[n]] else exact;
    forall j | 0 <= j < n + 1 && rules[j].pattern.exact
      ensures Value(rules[j]) in indexed && indexed[Value(rules[j])] == rules[j]
    {
      if j < n && rules[n].pattern.exact { ExactRulesDiffer(rules, j, n); }
    }
    forall v | v in indexed
      ensures indexed[v] in rules[..n + 1] && indexed[v].pattern.exact && Value(indexed[v]) == v
    {}
  }

  /** ExactValue, written rune by rune. */
  method WriteExact(tokens: seq<Token>) returns (value: string)
    requires AllLiteral(tokens)
    ensures value == ExactValue(tokens)
  {
    value := "";
    for i := 0 to |tokens|
      invariant value == ExactValue(tokens[..i])
    {
      value := value + [tokens[i].rune];
    }
    assert tokens[..|tokens|] == tokens;
  }

  method NewPricingResolver(rules: seq<Rule>) returns (resolver: PricingResolver)
    requires AllCompiled(rules) && NoDuplicates(rules)
    ensures Resolves(resolver, rules)
  {
    var exact: map<string, Rule> := map[];
    var globs: seq<Rule> := [];
    for n := 0 to |rules|
      invariant Indexed(rules, n, exact) && globs == Globs(rules[..n])
    {
      assert rules[..n + 1][..n] == rules[..n] && ValidPattern(rules[n].pattern);
      IndexStep(rules, n, exact);
      if rules[n].pattern.exact {
        var value := WriteExact(rules[n].pattern.tokens);
        exact := exact[value := rules[n]];
      } else {
        globs := globs + [rules[n]];
      }
    }
    assert rules[..|rules|] == rules;
    resolver := PricingResolver(exact, globs);
  }

  lemma ExactFound(rules: seq<Rule>, resolver: PricingResolver, model: string)
    requires AllCompiled(rules) && Resolves(resolver, rules)
    ensures model in resolver.exact ==> exists i: nat :: Picked(rules, model, i) && rules[i] == resolver.exact[model]
    ensures model !in resolver.exact ==>
              forall j :: 0 <= j < |rules| && rules[j].pattern.exact ==> !Selects(rules[j], model)
  {
    forall j | 0 <= j < |rules| && rules[j].pattern.exact
      ensures Selects(rules[j], model) <==> model == Value(rules[j])
    {
      assert ValidPattern(rules[j].pattern);
      ExactMatchesOnly(rules[j].pattern.tokens, model);
    }
    if model in resolver.exact {
      var i :| 0 <= i < |rules| && rules[..|rules|][i] == resolver.exact[model];
      assert Picked(rules, model, i);
    }
  }

  lemma GlobFound(rules: seq<Rule>, resolver: PricingResolver, model: string, g: nat)
    requires Resolves(resolver, rules) && g < |resolver.globs| && Selects(resolver.globs[g], model)
    requires forall j :: 0 <= j < |rules| && rules[j].pattern.exact ==> !Selects(rules[j], model)
    requires forall h :: 0 <= h < g ==> !Selects(resolver.globs[h], model)
    ensures exists i: nat :: Picked(rules, model, i) && rules[i] == resolver.globs[g]
  {
    assert rules[..|rules|] == rules;
    var i := GlobsInOrder(rules, g);
    forall j | 0 <= j < i ensures !Selects(rules[j], model) {
      GlobsAre(rules[..i], rules[j]);
      assert rules[j] in rules[..i];
    }
    assert Picked(rules, model, i);
  }

  /** The indexed lookup finds the rule the specification picks; an empty model has no price. */
  method Resolve(resolver: PricingResolver, model: string, ghost rules: seq<Rule>) returns (r: Option<Rule>)
    requires AllCompiled(rules) && Resolves(resolver, rules)
    ensures r.Some? ==> model != "" && exists i: nat :: Picked(rules, model, i) && rules[i] == r.value
    ensures r.None? ==> model == "" || forall i :: 0 <= i < |rules| ==> !Selects(rules[i], model)
  {
    if model == "" { return None; }
    ExactFound(rules, resolver, model);
    if model in resolver.exact { return Some(resolver.exact[model]); }
    for g := 0 to |resolver.globs|
      invariant forall h :: 0 <= h < g ==> !Selects(resolver.globs[h], model)
    {
      var matches := Matches(resolver.globs[g].pattern.tokens, model);
      if matches {
        GlobFound(rules, resolver, model, g);
        return Some(resolver.globs[g]);
      }
    }
    assert rules[..|rules|] == rules;
    forall i | 0 <= i < |rules| ensures !Selects(rules[i], model) { GlobsAre(rules, rules[i]); }
    return None;
  }
}
