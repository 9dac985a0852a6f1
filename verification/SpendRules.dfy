/** What the wallet policy demands of a write, rule by rule in exact micros, and which broken rule is reported. */
module SpendRules {
  import opened Basics
  import opened Calendar
  import opened Usdc
  import opened Spend

  datatype Rule =
    | LedgerReadable | PolicyActive | MethodNotBlocked | MethodListed | ContractListed | AmountsReadable
    | WithinPerTx | WithinDaily | WithinMonthly | WithinJobBudget | ThresholdReadable | BelowThreshold
    | X402Allowed | GatewayAllowed | X402FromEoa

  /** The order in which they are checked: before the sums, the lists, the limits, the switches. */
  const SWITCHES: seq<Rule> := [ThresholdReadable, BelowThreshold, X402Allowed, GatewayAllowed, X402FromEoa]
  const LIMITS: seq<Rule> := [WithinPerTx, WithinDaily, WithinMonthly, WithinJobBudget]
  const LISTS: seq<Rule> := [PolicyActive, MethodNotBlocked, MethodListed, ContractListed, AmountsReadable]
  const ORDER: seq<Rule> := [LedgerReadable] + (LISTS + (LIMITS + SWITCHES))

  function ErrorOf(rule: Rule): PolicyError {
    match rule
    case LedgerReadable => BadAmount
    case PolicyActive => PolicyDisabled
    case MethodNotBlocked => MethodBlocked
    case MethodListed => MethodNotAllowed
    case ContractListed => ContractNotAllowed
    case AmountsReadable => BadAmount
    case WithinPerTx => PerTxLimit
    case WithinDaily => DailyLimit
    case WithinMonthly => MonthlyLimit
    case WithinJobBudget => JobBudgetLimit
    case ThresholdReadable => BadAmount
    case BelowThreshold => ManualApproval
    case X402Allowed => X402Disabled
    case GatewayAllowed => GatewayDisabled
    case X402FromEoa => X402RequiresEoa
  }

  /** A text that usdcToMicros takes: empty, or an amount of at most six fraction digits once trimmed. */
  predicate Readable(text: string) {
    text == "" || IsAmount(Trim(text))
  }

  /** Its exact value in micros. */
  ghost function Exactly(text: string): nat {
    if IsAmount(Trim(text)) then Micros(Trim(text)) else 0
  }

  /** The entry is a reservation or a confirmed write of the wallet, on the day or in the month of `at`. */
  predicate Concerns(e: Entry, wallet: string, daily: bool, at: Date) {
    && Lower(e.wallet) == Lower(wallet)
    && e.state in {EntryReserved, EntryConfirmed}
    && e.on.year == at.year && e.on.month == at.month && (daily ==> e.on.day == at.day)
  }

  /** The amounts of the entries that concern the wallet then. */
  ghost function SumOf(entries: seq<Entry>, wallet: string, daily: bool, at: Date): nat {
    if entries == [] then 0
    else
      (if Concerns(entries[0], wallet, daily, at) then Exactly(entries[0].amount) else 0)
      + SumOf(entries[1..], wallet, daily, at)
  }

  predicate Prefixed(text: string, prefix: string) {
    |text| >= |prefix| && text[..|prefix|] == prefix
  }

  ghost predicate Kept(rule: Rule, p: Policy, entries: seq<Entry>, wallet: string, s: Spending, clock: Readings) {
    match rule
    case LedgerReadable =>
      forall i | 0 <= i < |entries| ::
        Concerns(entries[i], wallet, true, clock.daily) || Concerns(entries[i], wallet, false, clock.monthly) ==>
          Readable(entries[i].amount)
    case PolicyActive => p.status == Active
    case MethodNotBlocked => s.method_ !in p.blockedMethods
    case MethodListed => p.allowedMethods == [] || s.method_ in p.allowedMethods
    case ContractListed => p.allowedContracts == [] || s.contract in p.allowedContracts
    case AmountsReadable =>
      forall text | text in {s.amount, p.perTx, p.daily, p.monthly, p.maxJobBudget} :: Readable(text)
    case WithinPerTx => Exactly(s.amount) <= Exactly(p.perTx)
    case WithinDaily => SumOf(entries, wallet, true, clock.daily) + Exactly(s.amount) <= Exactly(p.daily)
    case WithinMonthly => SumOf(entries, wallet, false, clock.monthly) + Exactly(s.amount) <= Exactly(p.monthly)
    case WithinJobBudget => s.action == "erc8183.setBudget" ==> Exactly(s.amount) <= Exactly(p.maxJobBudget)
    case ThresholdReadable => Readable(p.approvalAbove)
    case BelowThreshold => p.approvalAbove != "" ==> Exactly(s.amount) <= Exactly(p.approvalAbove)
    case X402Allowed => Prefixed(s.action, "x402.") ==> p.x402Enabled
    case GatewayAllowed => Prefixed(s.action, "gateway.") ==> p.gatewayEnabled
    case X402FromEoa => Prefixed(s.action, "x402.") ==> p.accountType == EOA
  }

  /** The error of the first rule of the list that is not kept. */
  function FirstError(kept: Rule -> bool, rules: seq<Rule>): Result<(), PolicyError> {
    if rules == [] then Ok(())
    else if !kept(rules[0]) then Err(ErrorOf(rules[0]))
    else FirstError(kept, rules[1..])
  }

  predicate BreaksAt(kept: Rule -> bool, rules: seq<Rule>, k: nat) {
    k < |rules| && !kept(rules[k]) && forall j | 0 <= j < k :: kept(rules[j])
  }

  lemma {:induction false} FirstErrorMeaning(kept: Rule -> bool, rules: seq<Rule>)
    ensures FirstError(kept, rules).Ok? <==> forall j | 0 <= j < |rules| :: kept(rules[j])
    ensures forall k | 0 <= k < |rules| && BreaksAt(kept, rules, k) :: FirstError(kept, rules) == Err(ErrorOf(rules[k]))
  {
    if rules != [] && kept(rules[0]) {
      FirstErrorMeaning(kept, rules[1..]);
      forall k | 0 <= k < |rules| && BreaksAt(kept, rules, k)
        ensures FirstError(kept, rules) == Err(ErrorOf(rules[k]))
      {
        assert BreaksAt(kept, rules[1..], k - 1);
      }
    }
  }

  /** One check in front of the others. */
  lemma CheckFirst(kept: Rule -> bool, rule: Rule, rest: seq<Rule>)
    ensures FirstError(kept, [rule] + rest) == if kept(rule) then FirstError(kept, rest) else Err(ErrorOf(rule))
  {
    assert ([rule] + rest)[1..] == rest;
  }

  lemma FirstOfFour(kept: Rule -> bool, a: Rule, b: Rule, c: Rule, d: Rule, rest: seq<Rule>)
    ensures FirstError(kept, [a, b, c, d] + rest)
         == if !kept(a) then Err(ErrorOf(a)) else if !kept(b) then Err(ErrorOf(b))
            else if !kept(c) then Err(ErrorOf(c)) else if !kept(d) then Err(ErrorOf(d)) else FirstError(kept, rest)
  {
    CheckFirst(kept, d, rest);
    CheckFirst(kept, c, [d] + rest);
    CheckFirst(kept, b, [c] + ([d] + rest));
    CheckFirst(kept, a, [b] + ([c] + ([d] + rest)));
    assert [a, b, c, d] + rest == [a] + ([b] + ([c] + ([d] + rest)));
  }

  lemma FirstOfFive(kept: Rule -> bool, a: Rule, b: Rule, c: Rule, d: Rule, e: Rule, rest: seq<Rule>)
    ensures FirstError(kept, [a, b, c, d, e] + rest)
         == if !kept(a) then Err(ErrorOf(a)) else if !kept(b) then Err(ErrorOf(b))
            else if !kept(c) then Err(ErrorOf(c)) else if !kept(d) then Err(ErrorOf(d))
            else if !kept(e) then Err(ErrorOf(e)) else FirstError(kept, rest)
  {
    FirstOfFour(kept, b, c, d, e, rest);
    CheckFirst(kept, a, [b, c, d, e] + rest);
    assert [a, b, c, d, e] + rest == [a] + ([b, c, d, e] + rest);
  }

  lemma EveryRuleIsChecked(rule: Rule)
    ensures rule in ORDER
  {
    assert rule == LedgerReadable || rule in LISTS || rule in LIMITS || rule in SWITCHES by {
      RulesOfLists(rule);
    }
  }

  lemma RulesOfLists(rule: Rule)
    ensures rule == LedgerReadable || rule in LISTS || rule in LIMITS || rule in SWITCHES
  {
    assert LISTS[0] == PolicyActive && LISTS[1] == MethodNotBlocked && LISTS[2] == MethodListed;
    assert LISTS[3] == ContractListed && LISTS[4] == AmountsReadable;
    assert LIMITS[0] == WithinPerTx && LIMITS[1] == WithinDaily && LIMITS[2] == WithinMonthly;
    assert LIMITS[3] == WithinJobBudget;
    assert SWITCHES[0] == ThresholdReadable && SWITCHES[1] == BelowThreshold && SWITCHES[2] == X402Allowed;
    assert SWITCHES[3] == GatewayAllowed && SWITCHES[4] == X402FromEoa;
  }

  ghost function Keeping(p: Policy, entries: seq<Entry>, wallet: string, s: Spending, clock: Readings): Rule -> bool {
    rule => Kept(rule, p, entries, wallet, s, clock)
  }

  // ----- reading amounts and sums -----

  lemma ReadsExactly(text: string)
    ensures UsdcToMicros(text).Ok? <==> Readable(text)
    ensures AmountIn(UsdcToMicros(text)) == Exactly(text)
  {
    PolicyAccepts(text);
    EmptyIsNoAmount();
    if IsAmount(Trim(text)) {
      TrimmedReads(text);
    }
  }

  lemma EmptyIsNoAmount()
    ensures !IsAmount(Trim(""))
  {
  }

  lemma TrimmedReads(text: string)
    requires IsAmount(Trim(text))
    ensures UsdcToMicros(text) == Ok(Micros(Trim(text)))
  {
    var raw := Trim(text);
    EmptyIsNoAmount();
    TrimAmount(raw);
    ParsersAgree(raw);
  }

  lemma {:induction false} SumOfLast(entries: seq<Entry>, e: Entry, wallet: string, daily: bool, at: Date)
    ensures SumOf(entries + [e], wallet, daily, at)
         == SumOf(entries, wallet, daily, at) + if Concerns(e, wallet, daily, at) then Exactly(e.amount) else 0
  {
    if entries == [] {
      assert [] + [e] == [e] && [e][1..] == [];
    } else {
      SumOfLast(entries[1..], e, wallet, daily, at);
      assert (entries + [e])[1..] == entries[1..] + [e];
    }
  }

  lemma CountsConcerns(e: Entry, wallet: string, w: Window, at: Date)
    ensures Counts(e, wallet, w, at) <==> Concerns(e, wallet, w == Daily, at)
  {
  }

  lemma {:induction false} TotalIsSum(entries: seq<Entry>, wallet: string, w: Window, at: Date)
    ensures Total(entries, wallet, w, at) == SumOf(entries, wallet, w == Daily, at)
  {
    if entries != [] {
      var init, last := entries[..|entries| - 1], entries[|entries| - 1];
      TotalIsSum(init, wallet, w, at);
      CountsConcerns(last, wallet, w, at);
      ReadsExactly(last.amount);
      SumOfLast(init, last, wallet, w == Daily, at);
      assert entries == init + [last];
    }
  }

  /** getSpent throws exactly when a counted amount is unreadable; otherwise its text is read as the exact sum. */
  lemma SpentIsSum(entries: seq<Entry>, wallet: string, w: Window, at: Date)
    ensures GetSpent(entries, wallet, w, at).Ok? <==>
              forall i | 0 <= i < |entries| :: Concerns(entries[i], wallet, w == Daily, at) ==> Readable(entries[i].amount)
    ensures GetSpent(entries, wallet, w, at).Ok? ==>
              UsdcToMicros(GetSpent(entries, wallet, w, at).value) == Ok(SumOf(entries, wallet, w == Daily, at))
  {
    forall i | 0 <= i < |entries|
      ensures Counts(entries[i], wallet, w, at) <==> Concerns(entries[i], wallet, w == Daily, at)
      ensures UsdcToMicros(entries[i].amount).Ok? <==> Readable(entries[i].amount)
    {
      CountsConcerns(entries[i], wallet, w, at);
      ReadsExactly(entries[i].amount);
    }
    TotalIsSum(entries, wallet, w, at);
    MicrosRoundTrip(Total(entries, wallet, w, at));
  }

  // ----- the check against the rules -----

  /** What the check is given for the sums, besides the texts. */
  ghost predicate Printed(text: string, sum: nat) {
    UsdcToMicros(text) == Ok(sum)
  }

  lemma AmountsAreExact(p: Policy, s: Spending, d: string, m: string, daily: nat, monthly: nat)
    requires Printed(d, daily) && Printed(m, monthly)
    ensures AmountsOf(p, s, d, m).Some? <==>
              Readable(s.amount) && Readable(p.perTx) && Readable(p.daily) && Readable(p.monthly) && Readable(p.maxJobBudget)
    ensures AmountsOf(p, s, d, m).Some? ==>
              AmountsOf(p, s, d, m).value == Amounts(Exactly(s.amount), Exactly(p.perTx), Exactly(p.daily),
                                                     Exactly(p.monthly), Exactly(p.maxJobBudget), daily, monthly)
  {
    ReadsExactly(s.amount);
    ReadsExactly(p.perTx);
    ReadsExactly(p.daily);
    ReadsExactly(p.monthly);
    ReadsExactly(p.maxJobBudget);
  }

  lemma PrefixedIsStart(text: string, prefix: string)
    ensures StartsWith(text, prefix) <==> Prefixed(text, prefix)
  {
  }

  /** The switches are checked in the order of the rules. */
  lemma SwitchesInOrder(p: Policy, s: Spending, amount: nat, kept: Rule -> bool)
    requires kept(ThresholdReadable) <==> (p.approvalAbove == "" || UsdcToMicros(p.approvalAbove).Ok?)
    requires p.approvalAbove != "" && UsdcToMicros(p.approvalAbove).Ok? ==>
               (kept(BelowThreshold) <==> amount <= UsdcToMicros(p.approvalAbove).value)
    requires p.approvalAbove == "" ==> kept(BelowThreshold)
    requires kept(X402Allowed) <==> (StartsWith(s.action, "x402.") ==> p.x402Enabled)
    requires kept(GatewayAllowed) <==> (StartsWith(s.action, "gateway.") ==> p.gatewayEnabled)
    requires kept(X402FromEoa) <==> (StartsWith(s.action, "x402.") ==> p.accountType == EOA)
    ensures CheckSwitches(p, s, amount) == FirstError(kept, SWITCHES)
  {
    FirstOfFive(kept, ThresholdReadable, BelowThreshold, X402Allowed, GatewayAllowed, X402FromEoa, []);
    assert SWITCHES + [] == SWITCHES;
  }

  /** The limits are checked in the order of the rules. */
  lemma LimitsInOrder(p: Policy, s: Spending, a: Amounts, kept: Rule -> bool)
    requires kept(WithinPerTx) <==> a.amount <= a.perTx
    requires kept(WithinDaily) <==> a.dailySpent + a.amount <= a.daily
    requires kept(WithinMonthly) <==> a.monthlySpent + a.amount <= a.monthly
    requires kept(WithinJobBudget) <==> (s.action == "erc8183.setBudget" ==> a.amount <= a.maxJobBudget)
    requires CheckSwitches(p, s, a.amount) == FirstError(kept, SWITCHES)
    ensures CheckAmounts(p, s, a) == FirstError(kept, LIMITS + SWITCHES)
  {
    FirstLimit(kept, CheckAmounts(p, s, a), CheckSwitches(p, s, a.amount));
  }

  lemma FirstLimit(kept: Rule -> bool, answer: Result<(), PolicyError>, rest: Result<(), PolicyError>)
    requires rest == FirstError(kept, SWITCHES)
    requires answer == if !kept(WithinPerTx) then Err(PerTxLimit) else if !kept(WithinDaily) then Err(DailyLimit)
                       else if !kept(WithinMonthly) then Err(MonthlyLimit)
                       else if !kept(WithinJobBudget) then Err(JobBudgetLimit) else rest
    ensures answer == FirstError(kept, LIMITS + SWITCHES)
  {
    FirstOfFour(kept, WithinPerTx, WithinDaily, WithinMonthly, WithinJobBudget, SWITCHES);
  }

  /** The checks before the limits, in the order of the rules. */
  lemma ChecksInOrder(p: Policy, s: Spending, d: string, m: string, kept: Rule -> bool)
    requires kept(PolicyActive) <==> p.status == Active
    requires kept(MethodNotBlocked) <==> s.method_ !in p.blockedMethods
    requires kept(MethodListed) <==> p.allowedMethods == [] || s.method_ in p.allowedMethods
    requires kept(ContractListed) <==> p.allowedContracts == [] || s.contract in p.allowedContracts
    requires kept(AmountsReadable) <==> AmountsOf(p, s, d, m).Some?
    requires AmountsOf(p, s, d, m).Some? ==>
               CheckAmounts(p, s, AmountsOf(p, s, d, m).value) == FirstError(kept, LIMITS + SWITCHES)
    ensures Check(p, s, d, m) == FirstError(kept, LISTS + (LIMITS + SWITCHES))
  {
    FirstOfFive(kept, PolicyActive, MethodNotBlocked, MethodListed, ContractListed, AmountsReadable, LIMITS + SWITCHES);
  }

  lemma KeptPerTx(p: Policy, entries: seq<Entry>, wallet: string, s: Spending, clock: Readings)
    ensures Keeping(p, entries, wallet, s, clock)(WithinPerTx) <==> Exactly(s.amount) <= Exactly(p.perTx)
  {
  }

  lemma KeptDaily(p: Policy, entries: seq<Entry>, wallet: string, s: Spending, clock: Readings)
    ensures Keeping(p, entries, wallet, s, clock)(WithinDaily) <==>
              SumOf(entries, wallet, true, clock.daily) + Exactly(s.amount) <= Exactly(p.daily)
  {
  }

  lemma KeptMonthly(p: Policy, entries: seq<Entry>, wallet: string, s: Spending, clock: Readings)
    ensures Keeping(p, entries, wallet, s, clock)(WithinMonthly) <==>
              SumOf(entries, wallet, false, clock.monthly) + Exactly(s.amount) <= Exactly(p.monthly)
  {
  }

  lemma KeptJobBudget(p: Policy, entries: seq<Entry>, wallet: string, s: Spending, clock: Readings)
    ensures Keeping(p, entries, wallet, s, clock)(WithinJobBudget) <==>
              (s.action == "erc8183.setBudget" ==> Exactly(s.amount) <= Exactly(p.maxJobBudget))
  {
  }

  lemma KeptThreshold(p: Policy, entries: seq<Entry>, wallet: string, s: Spending, clock: Readings)
    ensures var kept := Keeping(p, entries, wallet, s, clock);
            && (kept(ThresholdReadable) <==> Readable(p.approvalAbove))
            && (kept(BelowThreshold) <==> (p.approvalAbove != "" ==> Exactly(s.amount) <= Exactly(p.approvalAbove)))
  {
  }

  lemma KeptSwitches(p: Policy, entries: seq<Entry>, wallet: string, s: Spending, clock: Readings)
    ensures var kept := Keeping(p, entries, wallet, s, clock);
            && (kept(X402Allowed) <==> (StartsWith(s.action, "x402.") ==> p.x402Enabled))
            && (kept(GatewayAllowed) <==> (StartsWith(s.action, "gateway.") ==> p.gatewayEnabled))
            && (kept(X402FromEoa) <==> (StartsWith(s.action, "x402.") ==> p.accountType == EOA))
  {
    PrefixedIsStart(s.action, "x402.");
    PrefixedIsStart(s.action, "gateway.");
  }

  lemma KeptLists(p: Policy, entries: seq<Entry>, wallet: string, s: Spending, clock: Readings)
    ensures var kept := Keeping(p, entries, wallet, s, clock);
            && (kept(PolicyActive) <==> p.status == Active)
            && (kept(MethodNotBlocked) <==> s.method_ !in p.blockedMethods)
            && (kept(MethodListed) <==> p.allowedMethods == [] || s.method_ in p.allowedMethods)
            && (kept(ContractListed) <==> p.allowedContracts == [] || s.contract in p.allowedContracts)
  {
  }

  lemma KeptAmounts(p: Policy, entries: seq<Entry>, wallet: string, s: Spending, clock: Readings)
    ensures Keeping(p, entries, wallet, s, clock)(AmountsReadable) <==>
              Readable(s.amount) && Readable(p.perTx) && Readable(p.daily) && Readable(p.monthly) && Readable(p.maxJobBudget)
  {
    var texts := {s.amount, p.perTx, p.daily, p.monthly, p.maxJobBudget};
    assert s.amount in texts && p.perTx in texts && p.daily in texts && p.monthly in texts && p.maxJobBudget in texts;
  }

  lemma SwitchesOfRules(p: Policy, entries: seq<Entry>, wallet: string, s: Spending, clock: Readings)
    ensures CheckSwitches(p, s, Exactly(s.amount)) == FirstError(Keeping(p, entries, wallet, s, clock), SWITCHES)
  {
    KeptThreshold(p, entries, wallet, s, clock);
    KeptSwitches(p, entries, wallet, s, clock);
    ReadsExactly(p.approvalAbove);
    SwitchesInOrder(p, s, Exactly(s.amount), Keeping(p, entries, wallet, s, clock));
  }

  lemma LimitsOfRules(p: Policy, entries: seq<Entry>, wallet: string, s: Spending, clock: Readings, a: Amounts)
    requires a == Amounts(Exactly(s.amount), Exactly(p.perTx), Exactly(p.daily), Exactly(p.monthly), Exactly(p.maxJobBudget),
                          SumOf(entries, wallet, true, clock.daily), SumOf(entries, wallet, false, clock.monthly))
    ensures CheckAmounts(p, s, a) == FirstError(Keeping(p, entries, wallet, s, clock), LIMITS + SWITCHES)
  {
    KeptPerTx(p, entries, wallet, s, clock);
    KeptDaily(p, entries, wallet, s, clock);
    KeptMonthly(p, entries, wallet, s, clock);
    KeptJobBudget(p, entries, wallet, s, clock);
    SwitchesOfRules(p, entries, wallet, s, clock);
    LimitsInOrder(p, s, a, Keeping(p, entries, wallet, s, clock));
  }

  lemma CheckNamesFirst(p: Policy, entries: seq<Entry>, wallet: string, s: Spending, clock: Readings, d: string, m: string)
    requires Printed(d, SumOf(entries, wallet, true, clock.daily))
    requires Printed(m, SumOf(entries, wallet, false, clock.monthly))
    ensures Check(p, s, d, m) == FirstError(Keeping(p, entries, wallet, s, clock), LISTS + (LIMITS + SWITCHES))
  {
    var kept := Keeping(p, entries, wallet, s, clock);
    AmountsAreExact(p, s, d, m, SumOf(entries, wallet, true, clock.daily), SumOf(entries, wallet, false, clock.monthly));
    KeptLists(p, entries, wallet, s, clock);
    KeptAmounts(p, entries, wallet, s, clock);
    if AmountsOf(p, s, d, m).Some? {
      LimitsOfRules(p, entries, wallet, s, clock, AmountsOf(p, s, d, m).value);
    }
    ChecksInOrder(p, s, d, m, kept);
  }

  lemma KeptLedger(p: Policy, entries: seq<Entry>, wallet: string, s: Spending, clock: Readings)
    ensures Keeping(p, entries, wallet, s, clock)(LedgerReadable) <==>
              && (forall i | 0 <= i < |entries| :: Concerns(entries[i], wallet, true, clock.daily) ==> Readable(entries[i].amount))
              && forall i | 0 <= i < |entries| :: Concerns(entries[i], wallet, false, clock.monthly) ==> Readable(entries[i].amount)
  {
  }

  /** The guard answers with the error of the first rule, in their order, that the write breaks. */
  lemma GuardNamesFirst(p: Policy, entries: seq<Entry>, wallet: string, s: Spending, clock: Readings)
    ensures Guard(p, entries, wallet, s, clock) == FirstError(Keeping(p, entries, wallet, s, clock), ORDER)
  {
    var kept := Keeping(p, entries, wallet, s, clock);
    KeptLedger(p, entries, wallet, s, clock);
    SpentIsSum(entries, wallet, Daily, clock.daily);
    SpentIsSum(entries, wallet, Monthly, clock.monthly);
    CheckFirst(kept, LedgerReadable, LISTS + (LIMITS + SWITCHES));
    if kept(LedgerReadable) {
      CheckNamesFirst(p, entries, wallet, s, clock, GetSpent(entries, wallet, Daily, clock.daily).value,
                      GetSpent(entries, wallet, Monthly, clock.monthly).value);
    }
  }

  /** The guard accepts a write exactly when it keeps every rule. */
  lemma GuardAcceptsIff(p: Policy, entries: seq<Entry>, wallet: string, s: Spending, clock: Readings)
    ensures Guard(p, entries, wallet, s, clock).Ok? <==> forall rule :: Kept(rule, p, entries, wallet, s, clock)
  {
    var kept := Keeping(p, entries, wallet, s, clock);
    GuardNamesFirst(p, entries, wallet, s, clock);
    FirstErrorMeaning(kept, ORDER);
    if forall j | 0 <= j < |ORDER| :: kept(ORDER[j]) {
      forall rule
        ensures Kept(rule, p, entries, wallet, s, clock)
      {
        EveryRuleIsChecked(rule);
        assert kept(rule);
      }
    }
  }
}
