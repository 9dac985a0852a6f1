/** The wallet spend policy and the append-only spend ledger it is checked against. */
module Spend {
  import opened Basics
  import opened Calendar
  import opened Usdc
  import opened Journal

  // ----- policy -----

  datatype PolicyStatus = Active | Paused | Disabled
  datatype AccountType = EOA | SCA

  datatype Policy = Policy(
    status: PolicyStatus,
    accountType: AccountType,
    perTx: string,
    daily: string,
    monthly: string,
    maxJobBudget: string,
    approvalAbove: string,
    allowedContracts: seq<string>,
    allowedMethods: seq<string>,
    blockedMethods: seq<string>,
    x402Enabled: bool,
    gatewayEnabled: bool)

  datatype PolicyError =
    | PolicyDisabled | MethodBlocked | MethodNotAllowed | ContractNotAllowed | BadAmount
    | PerTxLimit | DailyLimit | MonthlyLimit | JobBudgetLimit | ManualApproval
    | X402Disabled | GatewayDisabled | X402RequiresEoa

  /** What a write declares to the policy. An absent amount is "" and reads as zero. */
  datatype Spending = Spending(action: string, contract: string, method_: string, amount: string)

  predicate StartsWith(s: string, prefix: string) {
    prefix <= s
  }

  function AmountIn(r: Result<nat, AmountError>): nat {
    if r.Ok? then r.value else 0
  }

  /** The seven amounts a check parses, in micros. */
  datatype Amounts = Amounts(
    amount: nat, perTx: nat, daily: nat, monthly: nat, maxJobBudget: nat, dailySpent: nat, monthlySpent: nat)

  function AmountsOf(p: Policy, s: Spending, dailySpent: string, monthlySpent: string): Option<Amounts> {
    if || UsdcToMicros(s.amount).Err? || UsdcToMicros(p.perTx).Err? || UsdcToMicros(p.daily).Err?
       || UsdcToMicros(p.monthly).Err? || UsdcToMicros(p.maxJobBudget).Err?
       || UsdcToMicros(dailySpent).Err? || UsdcToMicros(monthlySpent).Err? then None
    else Some(Amounts(
      UsdcToMicros(s.amount).value, UsdcToMicros(p.perTx).value, UsdcToMicros(p.daily).value,
      UsdcToMicros(p.monthly).value, UsdcToMicros(p.maxJobBudget).value,
      UsdcToMicros(dailySpent).value, UsdcToMicros(monthlySpent).value))
  }

  /** The limits, in the order of the code. */
  function CheckAmounts(p: Policy, s: Spending, a: Amounts): Result<(), PolicyError> {
    if a.amount > a.perTx then Err(PerTxLimit)
    else if a.dailySpent + a.amount > a.daily then Err(DailyLimit)
    else if a.monthlySpent + a.amount > a.monthly then Err(MonthlyLimit)
    else if s.action == "erc8183.setBudget" && a.amount > a.maxJobBudget then Err(JobBudgetLimit)
    else CheckSwitches(p, s, a.amount)
  }

  /** The approval threshold and the switches, in the order of the code. */
  function CheckSwitches(p: Policy, s: Spending, amount: nat): Result<(), PolicyError> {
    if p.approvalAbove != "" && UsdcToMicros(p.approvalAbove).Err? then Err(BadAmount)
    else if p.approvalAbove != "" && amount > UsdcToMicros(p.approvalAbove).value then Err(ManualApproval)
    else if StartsWith(s.action, "x402.") && !p.x402Enabled then Err(X402Disabled)
    else if StartsWith(s.action, "gateway.") && !p.gatewayEnabled then Err(GatewayDisabled)
    else if StartsWith(s.action, "x402.") && p.accountType != EOA then Err(X402RequiresEoa)
    else Ok(())
  }

  /** assertSpendPolicy: the first failing check, in the order of the code. */
  function Check(p: Policy, s: Spending, dailySpent: string, monthlySpent: string): Result<(), PolicyError> {
    if p.status != Active then Err(PolicyDisabled)
    else if s.method_ in p.blockedMethods then Err(MethodBlocked)
    else if p.allowedMethods != [] && s.method_ !in p.allowedMethods then Err(MethodNotAllowed)
    else if p.allowedContracts != [] && s.contract !in p.allowedContracts then Err(ContractNotAllowed)
    else
      match AmountsOf(p, s, dailySpent, monthlySpent)
      case None => Err(BadAmount)
      case Some(a) => CheckAmounts(p, s, a)
  }

  // ----- ledger -----

  datatype EntryState = EntryReserved | EntryConfirmed | EntryFailed | EntryCancelled

  datatype Entry = Entry(wallet: string, amount: string, state: EntryState, operationId: Id, key: string, on: Date)

  predicate Counts(e: Entry, wallet: string, w: Window, today: Date) {
    && Lower(e.wallet) == Lower(wallet)
    && (e.state == EntryReserved || e.state == EntryConfirmed)
    && InWindow(w, e.on, today)
  }

  /** The exact sum, in micros, of the entries that count. */
  function Total(entries: seq<Entry>, wallet: string, w: Window, today: Date): nat {
    if entries == [] then 0
    else
      var last := entries[|entries| - 1];
      Total(entries[..|entries| - 1], wallet, w, today)
      + if Counts(last, wallet, w, today) then AmountIn(UsdcToMicros(last.amount)) else 0
  }

  /** Every amount in the ledger parses, so getSpent does not throw. */
  ghost predicate WellFormed(entries: seq<Entry>) {
    forall i | 0 <= i < |entries| :: UsdcToMicros(entries[i].amount).Ok?
  }

  /** getSpent: throws when a counted amount is malformed, otherwise prints the exact sum. */
  function GetSpent(entries: seq<Entry>, wallet: string, w: Window, today: Date): Result<string, AmountError> {
    if exists i | 0 <= i < |entries| :: Counts(entries[i], wallet, w, today) && UsdcToMicros(entries[i].amount).Err?
    then Err(InvalidUsdcAmount)
    else Ok(MicrosToUsdc(Total(entries, wallet, w, today)))
  }

  /** The clock while a write passes the policy: at the daily sum, at the monthly sum, and at the reservation. */
  datatype Readings = Readings(daily: Date, monthly: Date, reserved: Date)

  /** The clock does not run backwards. */
  predicate Forward(r: Readings) {
    NotAfter(r.daily, r.monthly) && NotAfter(r.monthly, r.reserved)
  }

  /** The guard closure: read both windows, then check. A throw of getSpent is a refusal. */
  function Guard(p: Policy, entries: seq<Entry>, wallet: string, s: Spending, clock: Readings): Result<(), PolicyError> {
    match (GetSpent(entries, wallet, Daily, clock.daily), GetSpent(entries, wallet, Monthly, clock.monthly))
    case (Ok(d), Ok(m)) => Check(p, s, d, m)
    case _ => Err(BadAmount)
  }

  class SpendLedger {
    var entries: seq<Entry>

    constructor ()
      ensures entries == []
    {
      entries := [];
    }

    method Append(e: Entry)
      modifies this
      ensures entries == old(entries) + [e]
    {
      entries := entries + [e];
    }

    method Spent(wallet: string, w: Window, today: Date) returns (r: Result<string, AmountError>)
      ensures r == GetSpent(entries, wallet, w, today)
    {
      var total: nat := 0;
      for i := 0 to |entries|
        invariant total == Total(entries[..i], wallet, w, today)
        invariant forall k | 0 <= k < i ::
                    !(Counts(entries[k], wallet, w, today) && UsdcToMicros(entries[k].amount).Err?)
      {
        assert entries[..i + 1][..i] == entries[..i];
        if Counts(entries[i], wallet, w, today) {
          var amount := UsdcToMicros(entries[i].amount);
          if amount.Err? {
            return Err(InvalidUsdcAmount);
          }
          total := total + amount.value;
        }
      }
      assert entries[..|entries|] == entries;
      return Ok(MicrosToUsdc(total));
    }
  }

  // ----- the cap -----

  /** Both windows of every wallet and date stay within the policy. */
  ghost predicate Capped(p: Policy, entries: seq<Entry>) {
    && WellFormed(entries)
    && forall wallet, today: Date ::
         && Total(entries, wallet, Daily, today) <= AmountIn(UsdcToMicros(p.daily))
         && Total(entries, wallet, Monthly, today) <= AmountIn(UsdcToMicros(p.monthly))
  }

  lemma AmountsMeaning(p: Policy, s: Spending, dailySpent: string, monthlySpent: string)
    requires AmountsOf(p, s, dailySpent, monthlySpent).Some?
    ensures var a := AmountsOf(p, s, dailySpent, monthlySpent).value;
            && UsdcToMicros(s.amount) == Ok(a.amount) && UsdcToMicros(p.perTx) == Ok(a.perTx)
            && UsdcToMicros(p.daily) == Ok(a.daily) && UsdcToMicros(p.monthly) == Ok(a.monthly)
            && UsdcToMicros(dailySpent) == Ok(a.dailySpent) && UsdcToMicros(monthlySpent) == Ok(a.monthlySpent)
  {
  }

  lemma CheckedAmounts(p: Policy, s: Spending, dailySpent: string, monthlySpent: string)
    requires Check(p, s, dailySpent, monthlySpent).Ok?
    ensures AmountsOf(p, s, dailySpent, monthlySpent).Some?
    ensures var a := AmountsOf(p, s, dailySpent, monthlySpent).value;
            a.amount <= a.perTx && a.dailySpent + a.amount <= a.daily && a.monthlySpent + a.amount <= a.monthly
  {
  }

  /** What an accepted check says when the two sums it is given are printed micros. */
  lemma CheckMeaning(p: Policy, s: Spending, daily: nat, monthly: nat)
    requires Check(p, s, MicrosToUsdc(daily), MicrosToUsdc(monthly)).Ok?
    ensures UsdcToMicros(s.amount).Ok?
    ensures AmountIn(UsdcToMicros(s.amount)) <= AmountIn(UsdcToMicros(p.perTx))
    ensures daily + AmountIn(UsdcToMicros(s.amount)) <= AmountIn(UsdcToMicros(p.daily))
    ensures monthly + AmountIn(UsdcToMicros(s.amount)) <= AmountIn(UsdcToMicros(p.monthly))
  {
    CheckedAmounts(p, s, MicrosToUsdc(daily), MicrosToUsdc(monthly));
    AmountsMeaning(p, s, MicrosToUsdc(daily), MicrosToUsdc(monthly));
    MicrosRoundTrip(daily);
    MicrosRoundTrip(monthly);
  }

  /**
   What an accepted guard says in exact micros. The sums travel through the printer and the parser as strings,
   so this rests on their round trip.
   */
  lemma GuardMeaning(p: Policy, entries: seq<Entry>, wallet: string, s: Spending, clock: Readings)
    requires Guard(p, entries, wallet, s, clock).Ok?
    ensures UsdcToMicros(s.amount).Ok?
    ensures AmountIn(UsdcToMicros(s.amount)) <= AmountIn(UsdcToMicros(p.perTx))
    ensures Total(entries, wallet, Daily, clock.daily) + AmountIn(UsdcToMicros(s.amount)) <= AmountIn(UsdcToMicros(p.daily))
    ensures Total(entries, wallet, Monthly, clock.monthly) + AmountIn(UsdcToMicros(s.amount))
            <= AmountIn(UsdcToMicros(p.monthly))
  {
    CheckMeaning(p, s, Total(entries, wallet, Daily, clock.daily), Total(entries, wallet, Monthly, clock.monthly));
  }

  lemma {:induction false} TotalSameWindow(entries: seq<Entry>, wallet: string, wallet': string, w: Window,
                                           today: Date, today': Date)
    requires Lower(wallet) == Lower(wallet') && InWindow(w, today, today')
    ensures Total(entries, wallet, w, today) == Total(entries, wallet', w, today')
  {
    if entries != [] {
      TotalSameWindow(entries[..|entries| - 1], wallet, wallet', w, today, today');
    }
  }

  lemma {:induction false} TotalOfEmptyWindow(entries: seq<Entry>, wallet: string, w: Window, today: Date)
    requires forall i | 0 <= i < |entries| :: !InWindow(w, entries[i].on, today)
    ensures Total(entries, wallet, w, today) == 0
  {
    if entries != [] {
      TotalOfEmptyWindow(entries[..|entries| - 1], wallet, w, today);
    }
  }

  /** Nothing in the ledger is dated after the reading. */
  ghost predicate UpTo(entries: seq<Entry>, now: Date) {
    forall i | 0 <= i < |entries| :: NotAfter(entries[i].on, now)
  }

  /**
   One window after a reservation: the check saw the window the entry falls into, or the clock has entered that window
   since, and then the entry is alone in it.
   */
  lemma ReserveKeepsWindow(entries: seq<Entry>, e: Entry, w: Window, check: Date, limit: nat, wallet: string, today: Date)
    requires UpTo(entries, check) && NotAfter(check, e.on)
    requires Total(entries, e.wallet, w, check) + AmountIn(UsdcToMicros(e.amount)) <= limit
    requires Total(entries, wallet, w, today) <= limit
    ensures Total(entries + [e], wallet, w, today) <= limit
  {
    assert (entries + [e])[..|entries|] == entries;
    if Counts(e, wallet, w, today) {
      if InWindow(w, check, today) {
        TotalSameWindow(entries, e.wallet, wallet, w, check, today);
      } else {
        forall i | 0 <= i < |entries|
          ensures !InWindow(w, entries[i].on, today)
        {
          NewWindowIsEmpty(w, entries[i].on, check, e.on, today);
        }
        TotalOfEmptyWindow(entries, wallet, w, today);
      }
    }
  }

  /**
   Reserving an amount the guard has just accepted keeps every total, of every wallet and date, within its limit, though
   the clock may pass midnight between the checks and the reservation.
   */
  lemma ReserveKeepsCap(p: Policy, entries: seq<Entry>, s: Spending, e: Entry, clock: Readings)
    requires Capped(p, entries) && UpTo(entries, clock.daily) && Forward(clock)
    requires Guard(p, entries, e.wallet, s, clock).Ok? && e.amount == s.amount && e.on == clock.reserved
    ensures Capped(p, entries + [e])
  {
    GuardMeaning(p, entries, e.wallet, s, clock);
    NotAfterIsOrder(clock.daily, clock.monthly, clock.reserved);
    forall i | 0 <= i < |entries|
      ensures NotAfter(entries[i].on, clock.monthly)
    {
      NotAfterIsOrder(entries[i].on, clock.daily, clock.monthly);
    }
    forall wallet, today: Date
      ensures Total(entries + [e], wallet, Daily, today) <= AmountIn(UsdcToMicros(p.daily))
      ensures Total(entries + [e], wallet, Monthly, today) <= AmountIn(UsdcToMicros(p.monthly))
    {
      ReserveKeepsWindow(entries, e, Daily, clock.daily, AmountIn(UsdcToMicros(p.daily)), wallet, today);
      ReserveKeepsWindow(entries, e, Monthly, clock.monthly, AmountIn(UsdcToMicros(p.monthly)), wallet, today);
    }
  }
}
