/**
 The ERC-8004 registration service behind an approval: checks, at most one wallet transaction, then up to twelve
 attempts to sync the console. Everything outside the process answers through Surroundings.
 */
module Registration {
  import opened Basics
  import opened ApprovalManager
  import ApprovalRuns

  const MAX_SYNC_RETRIES: nat := 12

  datatype ConsoleUrl = NoUrl | BadUrl | GoodUrl

  datatype WalletAnswer = Registered(ok: bool, reason: Option<string>, txHash: Option<string>) | WalletThrew(message: string)

  /** One POST to the console: the status, the fields of the body that are read, or a failed request. */
  datatype SyncAnswer =
    | Answered(success: bool, tooEarly: bool, okField: bool, retryable: bool, visible: bool, code: Option<string>)
    | Unreachable(message: string)

  datatype Surroundings = Surroundings(
    console: ConsoleUrl, secret: bool, preflight: Option<string>, signer: Option<string>,
    wallet: WalletAnswer, sync: nat -> SyncAnswer, aborted: nat -> bool)

  datatype Params = Params(metadataURI: string, controller: string, skipOnChainTxHash: Option<string>)

  predicate Accepted(a: SyncAnswer) {
    a.Answered? && a.success && a.okField
  }

  predicate Unmined(a: SyncAnswer) {
    a.Answered? && !Accepted(a) && a.tooEarly && a.retryable
  }

  function Refusal(tx: Option<string>, visible: Option<bool>, code: string): Reply {
    Reply(false, tx, None, visible, false, Some(code), Some(code), None)
  }

  function Pending(tx: string): Reply {
    Reply(false, Some(tx), None, Some(false), true, Some("sync_pending_retryable"), Some("sync pending"), None)
  }

  /** The hash a call works with: the one it was given, else the one the wallet answers. */
  function KnownHash(p: Params, s: Surroundings): Option<string> {
    if Truthy(p.skipOnChainTxHash).Some? then p.skipOnChainTxHash
    else if s.wallet.Registered? && s.wallet.ok then Truthy(s.wallet.txHash)
    else None
  }

  /** What one answer of the console means when the loop ends with it. */
  function Ending(tx: string, a: SyncAnswer): Reply {
    if a.Unreachable? || Unmined(a) then Pending(tx)
    else if Accepted(a) then Reply(true, Some(tx), None, Some(a.visible), false, None, None, None)
    else Refusal(Some(tx), Some(a.visible), if Truthy(a.code).Some? then a.code.value else "failed_persistence")
  }

  /** The sync loop, for a transaction that is already known: it ends with the first answer that is not "too early". */
  method Sync(tx: string, s: Surroundings) returns (r: Reply, attempts: nat)
    ensures attempts <= MAX_SYNC_RETRIES
    ensures forall n | 1 <= n <= attempts :: !s.aborted(n)
    ensures forall n | 1 <= n < attempts :: Unmined(s.sync(n))
    ensures || (attempts < MAX_SYNC_RETRIES && s.aborted(attempts + 1) && r == Refusal(Some(tx), Some(false), "aborted"))
            || (attempts > 0 && r == Ending(tx, s.sync(attempts))
                && (Unmined(s.sync(attempts)) ==> attempts == MAX_SYNC_RETRIES))
  {
    attempts := 0;
    for attempt := 1 to MAX_SYNC_RETRIES + 1
      invariant attempts == attempt - 1
      invariant forall n | 1 <= n < attempt :: !s.aborted(n) && Unmined(s.sync(n))
    {
      if s.aborted(attempt) {
        return Refusal(Some(tx), Some(false), "aborted"), attempts;
      }
      attempts := attempt;
      var answer := s.sync(attempt);
      if answer.Unreachable? {
        return Pending(tx), attempts;
      }
      if answer.success && answer.okField {
        return Reply(true, Some(tx), None, Some(answer.visible), false, None, None, None), attempts;
      }
      if answer.tooEarly && answer.retryable {
        if attempt < MAX_SYNC_RETRIES {
          continue;
        }
        return Pending(tx), attempts;
      }
      var code := if Truthy(answer.code).Some? then answer.code.value else "failed_persistence";
      return Refusal(Some(tx), Some(answer.visible), code), attempts;
    }
    r := Pending(tx);
  }

  /** The outcome of a call that ends before the sync loop, if it does. */
  function Early(p: Params, s: Surroundings): Option<Result<Reply, string>> {
    if p.metadataURI == "" then Some(Err("metadataURI is required"))
    else if s.console == NoUrl then Some(Ok(Refusal(None, Some(false), "no_console_url")))
    else if s.console == BadUrl then Some(Ok(Refusal(None, Some(false), "invalid_console_url")))
    else if !s.secret then Some(Ok(Refusal(None, Some(false), "sync_secret_not_configured")))
    else if Truthy(p.skipOnChainTxHash).Some? then None
    else if s.preflight.Some? then Some(Ok(Refusal(None, Some(false), s.preflight.value)))
    else if Truthy(s.signer).None? || Lower(p.controller) != Lower(s.signer.value) then
      Some(Ok(Refusal(None, Some(false), "controller_signer_mismatch")))
    else if s.wallet.WalletThrew? then Some(Err(s.wallet.message))
    else if !s.wallet.ok then Some(Ok(Refusal(None, None, "onchain_failed")))
    else if Truthy(s.wallet.txHash).None? then Some(Ok(Refusal(None, None, "no_txhash")))
    else None
  }

  /**
   registerErc8004WithApproval. The wallet is asked at most once, and not at all when a hash is passed in; a hash that
   is known is never lost, whatever happens after; the reply is one the approval runs allow for.
   */
  method RegisterErc8004WithApproval(p: Params, s: Surroundings)
    returns (r: Result<Reply, string>, walletCalls: nat, syncCalls: nat)
    ensures walletCalls <= 1 && (Truthy(p.skipOnChainTxHash).Some? ==> walletCalls == 0)
    ensures Early(p, s).Some? ==> r == Early(p, s).value && syncCalls == 0
    ensures Early(p, s).None? ==>
              && KnownHash(p, s).Some? && r.Ok? && r.value.txHash == KnownHash(p, s) && syncCalls <= MAX_SYNC_RETRIES
              && (r.value.ok ==> syncCalls > 0 && Accepted(s.sync(syncCalls)))
              && (r.value.retryable ==>
                    syncCalls > 0 && (s.sync(syncCalls).Unreachable? || syncCalls == MAX_SYNC_RETRIES))
    ensures walletCalls == 1 && KnownHash(p, s).Some? ==> Early(p, s).None?
    ensures r.Ok? ==>
              ApprovalRuns.Answers(
                if Truthy(p.skipOnChainTxHash).Some? then Retry(p.skipOnChainTxHash.value) else First, r.value)
  {
    walletCalls, syncCalls := 0, 0;
    if p.metadataURI == "" {
      return Err("metadataURI is required"), walletCalls, syncCalls;
    }
    if s.console == NoUrl {
      return Ok(Refusal(None, Some(false), "no_console_url")), walletCalls, syncCalls;
    }
    if s.console == BadUrl {
      return Ok(Refusal(None, Some(false), "invalid_console_url")), walletCalls, syncCalls;
    }
    if !s.secret {
      return Ok(Refusal(None, Some(false), "sync_secret_not_configured")), walletCalls, syncCalls;
    }
    var tx: string;
    if Truthy(p.skipOnChainTxHash).Some? {
      tx := p.skipOnChainTxHash.value;
    } else {
      if s.preflight.Some? {
        return Ok(Refusal(None, Some(false), s.preflight.value)), walletCalls, syncCalls;
      }
      if Truthy(s.signer).None? || Lower(p.controller) != Lower(s.signer.value) {
        return Ok(Refusal(None, Some(false), "controller_signer_mismatch")), walletCalls, syncCalls;
      }
      walletCalls := 1;
      if s.wallet.WalletThrew? {
        return Err(s.wallet.message), walletCalls, syncCalls;
      }
      if !s.wallet.ok {
        return Ok(Refusal(None, None, "onchain_failed")), walletCalls, syncCalls;
      }
      if Truthy(s.wallet.txHash).None? {
        return Ok(Refusal(None, None, "no_txhash")), walletCalls, syncCalls;
      }
      tx := s.wallet.txHash.value;
    }
    var reply, attempts := Sync(tx, s);
    return Ok(reply), walletCalls, attempts;
  }

  // ----- what each ending means -----

  predicate Given(hash: Option<string>) {
    hash.Some? && hash.value != ""
  }

  /** The call may go to the wallet: a way to report exists, and no hash was passed in. */
  predicate Reportable(p: Params, s: Surroundings) {
    p.metadataURI != "" && s.console == GoodUrl && s.secret
  }

  predicate SignerControls(p: Params, s: Surroundings) {
    s.signer.Some? && s.signer.value != "" && Lower(p.controller) == Lower(s.signer.value)
  }

  /** Every early ending, in the order of the checks, and when there is none. */
  lemma EarlyMeaning(p: Params, s: Surroundings)
    ensures p.metadataURI == "" ==> Early(p, s) == Some(Err("metadataURI is required"))
    ensures p.metadataURI != "" && s.console == NoUrl ==> Early(p, s) == Some(Ok(Refusal(None, Some(false), "no_console_url")))
    ensures p.metadataURI != "" && s.console == BadUrl ==> Early(p, s) == Some(Ok(Refusal(None, Some(false), "invalid_console_url")))
    ensures p.metadataURI != "" && s.console == GoodUrl && !s.secret ==>
              Early(p, s) == Some(Ok(Refusal(None, Some(false), "sync_secret_not_configured")))
    ensures Reportable(p, s) && Given(p.skipOnChainTxHash) ==> Early(p, s) == None && KnownHash(p, s) == p.skipOnChainTxHash
    ensures Reportable(p, s) && !Given(p.skipOnChainTxHash) ==>
              && (s.preflight.Some? ==> Early(p, s) == Some(Ok(Refusal(None, Some(false), s.preflight.value))))
              && (s.preflight.None? && !SignerControls(p, s) ==>
                    Early(p, s) == Some(Ok(Refusal(None, Some(false), "controller_signer_mismatch"))))
              && (s.preflight.None? && SignerControls(p, s) ==> Early(p, s) == AfterWallet(s.wallet))
    ensures !Given(p.skipOnChainTxHash) && s.wallet.Registered? && s.wallet.ok && Given(s.wallet.txHash) ==>
              KnownHash(p, s) == s.wallet.txHash
    ensures !Given(p.skipOnChainTxHash) && !(s.wallet.Registered? && s.wallet.ok && Given(s.wallet.txHash)) ==>
              KnownHash(p, s) == None
  {
  }

  /** How the call ends on the wallet's answer; None when it has a transaction to report. */
  function AfterWallet(w: WalletAnswer): Option<Result<Reply, string>> {
    match w
    case WalletThrew(message) => Some(Err(message))
    case Registered(ok, _, txHash) =>
      if ok && Given(txHash) then None
      else Some(Ok(Refusal(None, None, if ok then "no_txhash" else "onchain_failed")))
  }

  /**
   The reply on the last answer of the console: success exactly when it accepted, pending when it could not be reached or
   has not seen the transaction, and a refusal with its code otherwise; the hash in all of them.
   */
  lemma EndingMeaning(tx: string, a: SyncAnswer)
    ensures Ending(tx, a).txHash == Some(tx) && !Ending(tx, a).operationId.Some?
    ensures Ending(tx, a).ok <==> a.Answered? && a.success && a.okField
    ensures Ending(tx, a).retryable <==>
              a.Unreachable? || (!(a.success && a.okField) && a.tooEarly && a.retryable)
    ensures Ending(tx, a).retryable ==>
              Ending(tx, a).code == Some("sync_pending_retryable") && Ending(tx, a).visible == Some(false)
    ensures !Ending(tx, a).retryable ==> Ending(tx, a).visible == Some(a.visible)
    ensures !Ending(tx, a).retryable && !Ending(tx, a).ok ==>
              Ending(tx, a).code == if Given(a.code) then a.code else Some("failed_persistence")
  {
  }
}
