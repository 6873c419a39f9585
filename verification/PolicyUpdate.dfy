/** Replacing a key's policy (internal/httpserver/admin.go): the durable row, the budget policy and
    the token windows change together, with the durable write nested inside both replacements. */
module PolicyUpdate {
  import opened Wrappers
  import opened WindowClock
  import opened Windows
  import Money
  import Calendar
  import opened BudgetBook
  import BudgetLimiter
  import TokenBook
  import TokenLimiter

  datatype EffectivePolicy = EffectivePolicy(windows: seq<Window>, budget: Policy)

  datatype KeyRecord = KeyRecord(enabled: bool, policyJson: string)

  datatype UpdateError = NotFound | InvalidRequest | Conflict | CreationFailed

  /** How the one-statement durable update ends; on anything but `Written` no row changed. */
  datatype Write = Written | RowMissing | WriteFailed

  /** Whether the parts outside this model succeed: listing the rows, preparing the snapshot, writing. */
  datatype World = World(listed: bool, prepared: bool, write: Write)

  predicate Blank(id: KeyId) { forall c :: c in id ==> c in {' ', '\t', '\n', '\r', '\U{0B}', '\U{0C}'} }

  /** The buckets whose window is not over are untouched. */
  ghost predicate SameBuckets(t: TokenBook.Tokens, t': TokenBook.Tokens) {
    forall b :: !TokenBook.Expired(b, t'.lastNow) ==> TokenBook.At(t'.buckets, b) == TokenBook.At(t.buckets, b)
  }

  lemma TwoLooks(t: TokenBook.Tokens, first: Time, second: Time)
    ensures var t' := TokenBook.Tick(TokenBook.Tick(t, first), second);
            t' == TokenBook.Tick(t, if first < second then second else first) && SameBuckets(t, t')
  {
  }

  /** The checks made before the snapshot is prepared: dropped windows carry nothing, and the
      budget's published policy is the durable one. */
  ghost predicate Allowed(tokens: Option<TokenBook.Tokens>, budgets: Option<Ledger>, id: KeyId,
                          before: EffectivePolicy, after: EffectivePolicy, checked: Time)
  {
    && (tokens.Some? ==>
          TokenBook.Droppable(TokenBook.Tick(tokens.value, checked).buckets, id, SetOf(before.windows),
                              SetOf(after.windows)))
    && (budgets.Some? && id in budgets.value.policies ==> SamePolicy(budgets.value.policies[id], before.budget))
  }

  predicate Replaced(budgets: Option<Ledger>, before: EffectivePolicy, after: EffectivePolicy, write: Write) {
    write == Written && (budgets.Some? ==> ValidPolicy(before.budget) && ValidPolicy(after.budget))
  }

  lemma DroppableLater(t: TokenBook.Tokens, reading: Time, id: KeyId, before: set<Window>, after: set<Window>)
    requires TokenBook.Droppable(t.buckets, id, before, after)
    ensures TokenBook.Droppable(TokenBook.Tick(t, reading).buckets, id, before, after)
  {
  }

  /** Every book keeps its counters and the generation its reservations know it by. */
  ghost predicate SameBooks(l: Ledger, l': Ledger) {
    l'.books.Keys == l.books.Keys && l'.sequence == l.sequence
    && forall k :: k in l.books ==>
         l'.books[k].accounts == l.books[k].accounts && l'.books[k].generation == l.books[k].generation
  }

  lemma PublishKeepsBooks(l: Ledger, key: KeyId, p: Policy)
    ensures SameBooks(l, l) && SameBooks(l, Publish(l, key, p))
  {
  }

  class AdminKeyService {
    var durable: map<KeyId, KeyRecord>
    var snapshot: map<KeyId, KeyRecord>
    const tokens: TokenLimiter.TokenLimiter?
    const budgets: BudgetLimiter.BudgetLimiter?

    constructor (durable: map<KeyId, KeyRecord>, tokens: TokenLimiter.TokenLimiter?,
                 budgets: BudgetLimiter.BudgetLimiter?)
      ensures this.durable == durable && snapshot == durable && this.tokens == tokens && this.budgets == budgets
    {
      this.durable, snapshot, this.tokens, this.budgets := durable, durable, tokens, budgets;
    }

    ghost predicate Valid()
      reads budgets
    {
      budgets != null ==> budgets.Valid()
    }

    ghost function Tokens(): Option<TokenBook.Tokens>
      reads tokens
    {
      if tokens == null then None else Some(tokens.State())
    }

    ghost function Budgets(): Option<Ledger>
      reads budgets
    {
      if budgets == null then None else Some(budgets.ledger)
    }

    /** Token replacement around budget replacement around the durable commit. Nothing can fail once
        the row is written, and admission is held out until both limiters have published. */
    method ReplaceAll(id: KeyId, before: EffectivePolicy, after: EffectivePolicy, record: KeyRecord, write: Write,
                      reading: Time)
      returns (replaced: bool)
      requires Valid()
      modifies this`durable, tokens, budgets
      ensures Valid()
      ensures replaced <==>
                && write == Written
                && (tokens != null ==> TokenBook.Droppable(TokenBook.Tick(old(tokens.State()), reading).buckets, id,
                                                           SetOf(before.windows), SetOf(after.windows)))
                && (budgets != null ==> Replaceable(old(budgets.ledger), id, before.budget, after.budget))
      ensures durable == if replaced then old(durable)[id := record] else old(durable)
      ensures budgets != null ==>
                && SameBooks(old(budgets.ledger), budgets.ledger)
                && budgets.ledger == if replaced then Publish(old(budgets.ledger), id, after.budget)
                   else old(budgets.ledger)
      ensures tokens != null ==>
                tokens.State() == TokenBook.Replace(old(tokens.State()), id, SetOf(before.windows),
                                                    SetOf(after.windows),
                                                    if replaced then TokenBook.Succeeds else TokenBook.Fails, reading)
    {
      if budgets != null { PublishKeepsBooks(budgets.ledger, id, after.budget); }
      if tokens != null {
        tokens.Look(reading);
        var allowed := TokenLimiter.AllowsReplacement(tokens.buckets, id, before.windows, after.windows);
        if !allowed { return false; }
      }
      replaced := write == Written;
      if budgets != null {
        var error := budgets.ReplacePolicy(id, before.budget, after.budget, replaced);
        replaced := error == None;
      }
      if replaced {
        durable := durable[id := record];
        if tokens != null { tokens.RegisterPolicy(id, after.windows); }
      }
    }

    method UpdatePolicy(parse: string -> Option<EffectivePolicy>, id: KeyId, enabled: bool, json: string, world: World,
                        checked: Time, reading: Time)
      returns (error: Option<UpdateError>, idle: bool)
      requires Valid()
      modifies this, tokens, budgets
      ensures Valid()
      ensures tokens != null ==> SameBuckets(old(tokens.State()), tokens.State())
      ensures error == None <==>
                && !Blank(id) && world.listed && world.prepared && parse(json).Some? && id in old(durable)
                && parse(old(durable)[id].policyJson).Some?
                && var before, after := parse(old(durable)[id].policyJson).value, parse(json).value;
                   && Allowed(old(Tokens()), old(Budgets()), id, before, after, checked)
                   && (old(durable)[id] == KeyRecord(enabled, json)
                       || Replaced(old(Budgets()), before, after, world.write))
      ensures Blank(id) ==> error == Some(NotFound)
      ensures !Blank(id) && parse(json).None? ==> error == Some(InvalidRequest)
      ensures !Blank(id) && parse(json).Some? && world.listed ==>
                if id !in old(durable) then error == Some(NotFound)
                else if parse(old(durable)[id].policyJson).None? then error == Some(InvalidRequest)
                else error == Some(Conflict) <==> !Allowed(old(Tokens()), old(Budgets()), id,
                                                           parse(old(durable)[id].policyJson).value,
                                                           parse(json).value, checked)
      // Refused: the durable rows, both published policies and the snapshot are as before.
      ensures error != None ==>
                && durable == old(durable) && snapshot == old(snapshot)
                && (budgets != null ==> budgets.ledger == old(budgets.ledger))
                && (tokens != null ==> tokens.policyWindows == old(tokens.policyWindows))
      // Done: all of them are the new ones, and the counters are the old ones.
      ensures error == None ==>
                && id in old(durable) && durable == old(durable)[id := KeyRecord(enabled, json)] && snapshot == durable
                && idle == (old(durable)[id] == KeyRecord(enabled, json)) && parse(json).Some?
      ensures error == None && !idle ==>
                && (budgets != null ==> SameBooks(old(budgets.ledger), budgets.ledger))
                && (budgets != null ==> budgets.ledger == Publish(old(budgets.ledger), id, parse(json).value.budget))
                && (tokens != null ==>
                      tokens.policyWindows == old(tokens.policyWindows)[id := SetOf(parse(json).value.windows)])
      ensures error == None && idle ==>
                && (budgets != null ==> budgets.ledger == old(budgets.ledger))
                && (tokens != null ==> tokens.policyWindows == old(tokens.policyWindows))
    {
      idle := false;
      if Blank(id) { return Some(NotFound), false; }
      if parse(json).None? { return Some(InvalidRequest), false; }
      if !world.listed { return Some(CreationFailed), false; }
      if id !in durable { return Some(NotFound), false; }
      if parse(durable[id].policyJson).None? { return Some(InvalidRequest), false; }
      var before, after := parse(durable[id].policyJson).value, parse(json).value;
      ghost var start := if tokens == null then TokenBook.Tokens(map[], map[], 0) else tokens.State();
      TwoLooks(start, checked, reading);
      TwoLooks(start, checked, checked);
      if tokens != null {
        tokens.Look(checked);
        var allowed := TokenLimiter.AllowsReplacement(tokens.buckets, id, before.windows, after.windows);
        if !allowed { return Some(Conflict), false; }
        DroppableLater(tokens.State(), reading, id, SetOf(before.windows), SetOf(after.windows));
      }
      if budgets != null && id in budgets.policies && !SamePolicy(budgets.policies[id], before.budget) {
        return Some(Conflict), false;
      }
      var record := KeyRecord(enabled, json);
      idle := durable[id] == record;
      if !world.prepared { return Some(CreationFailed), idle; }
      var prepared := durable[id := record];
      if idle {
        snapshot := prepared;
        return None, true;
      }
      var replaced := ReplaceAll(id, before, after, record, world.write, reading);
      if !replaced { return Some(if world.write == RowMissing then NotFound else CreationFailed), false; }
      snapshot := prepared;
      error := None;
    }
  }

  /** Two valid policies are the same exactly when they are equal. */
  lemma SamePolicyMeansEqual(p: Policy, q: Policy)
    requires ValidPolicy(p) && ValidPolicy(q)
    ensures SamePolicy(p, q) <==> p == q
  {
  }

  /** A key that was never registered keeps the limits its record enforces: an admission that drops or
      changes one of them, and only such an admission, is refused as invalid. */
  lemma EnforcedLimitsStay(l: Ledger, key: KeyId, p: Policy, candidate: Money.Money, at: Calendar.Instant)
    requires key != "" && candidate.Known? && ValidPolicy(p) && key !in l.policies && key in l.books
             && ValidBook(l.books[key])
    ensures var limits := l.books[key].limits;
            BudgetBook.Reserve(l, key, p, candidate, at).1 == Refused(InvalidAdmission)
            <==> || (limits.limited && p.total != limits.total) || (limits.dayLimited && p.day != limits.day)
                 || (limits.monthLimited && p.month != limits.month)
  {
    BudgetLimiter.ReserveByParts(l, key, p, candidate, at);
  }
}
