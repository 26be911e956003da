/** The token hook of `src/hooks/useToken.ts`: `getBalance` (a retried read that never throws),
    `approve` (skipped when the allowance already suffices, otherwise a retried write) and
    `getAllowance` (a chain of guards that each fall back to `'0'`). */
module Token {
  import opened Js
  import opened Chain
  import opened Retry
  import opened Format

  /** Fallback error texts when an error carries no message. */
  const BalanceFailed: string := "获取余额失败"
  const ApproveFailed: string := "授权失败"

  /** The value both `getBalance` and `getAllowance` return when they cannot read. */
  const NoAmount: string := "0"

  /** One attempt of the `getBalance` loop: `balanceOf(address)`, answered by `balanceOf(k)`. */
  function BalanceOp(address: string, balanceOf: nat -> Reply<nat>): nat -> Attempt<nat> {
    (k: nat) => Attempt([BalanceOf(address)], balanceOf(k))
  }

  /** What a read returned, the steps it took and the error text it recorded (None: `null`). */
  datatype Reading = Reading(value: string, steps: seq<Step>, error: Option<string>)

  /** What `getBalance(address)` does for a non-empty address; `balanceOf(k)` is how the `k`-th
      `balanceOf` settles and `n` the numeric conversions of `formatTokenAmount`. */
  function BalanceSpec(hasContract: bool, address: string, balanceOf: nat -> Reply<nat>, n: Numerics): Reading {
    if !hasContract then Reading(NoAmount, [], Some(ContractMissing))
    else
      var run := Retried(BalanceOp(address, balanceOf));
      match run.result
      case Fail(e) => Reading(NoAmount, run.steps, Some(OrElse(e.message, BalanceFailed)))
      case Ok(v) => Reading(FormatTokenAmount(Text(DecimalString(v)), n), run.steps, None)
  }

  /** `getBalance` never throws: a failure returns `'0'` and records a non-empty error text. */
  lemma BalanceFallback(hasContract: bool, address: string, balanceOf: nat -> Reply<nat>, n: Numerics)
    ensures var r := BalanceSpec(hasContract, address, balanceOf, n);
      r.error.Some? ==> r.value == NoAmount && r.error.value != ""
  {
  }

  /** `getBalance` records no error exactly when a contract instance exists and one of the three
      reads succeeds. */
  lemma BalanceOkIff(hasContract: bool, address: string, balanceOf: nat -> Reply<nat>, n: Numerics)
    ensures BalanceSpec(hasContract, address, balanceOf, n).error.None? <==>
      hasContract && exists j :: 0 <= j < MaxAttempts && balanceOf(j).Ok?
  {
    if hasContract {
      var op := BalanceOp(address, balanceOf);
      RunOkIff(op, 0, MaxAttempts);
      assert forall j :: op(j).reply == balanceOf(j);
    }
  }

  /** A balance that was read is shown through `toFixed(5)` of its decimal text, with no wei
      conversion. */
  lemma BalanceShown(address: string, balanceOf: nat -> Reply<nat>, n: Numerics)
    requires BalanceSpec(true, address, balanceOf, n).error.None?
    ensures exists j :: && 0 <= j < MaxAttempts && balanceOf(j).Ok?
                        && BalanceSpec(true, address, balanceOf, n).value == n.toFixed5(DecimalString(balanceOf(j).value))
  {
    var op := BalanceOp(address, balanceOf);
    var run := Retried(op);
    RunShape(op, 0, MaxAttempts);
    var j := run.attempts - 1;
    assert op(j).reply == balanceOf(j);
    DecimalStringIsVerbatim(run.result.value, n);
  }

  /** `getBalance` calls `balanceOf` once per attempt and stops at the first read that succeeds. */
  lemma BalanceStopsAtFirstSuccess(address: string, balanceOf: nat -> Reply<nat>, n: Numerics, first: nat)
    requires first < MaxAttempts && balanceOf(first).Ok?
    requires forall j :: 0 <= j < first ==> balanceOf(j).Fail?
    ensures var r := BalanceSpec(true, address, balanceOf, n);
      && CountOf(r.steps, BalanceOf(address)) == first + 1
      && CountOf(r.steps, Delay) == first
      && r.value == n.toFixed5(DecimalString(balanceOf(first).value))
  {
    var op := BalanceOp(address, balanceOf);
    RunFirstOk(op, 0, MaxAttempts, first);
    BalanceReadsPerAttempt(address, balanceOf, n);
    RunDelays(op, 0, MaxAttempts);
    DecimalStringIsVerbatim(balanceOf(first).value, n);
  }

  /** Every attempt of `getBalance` calls `balanceOf` once. */
  lemma BalanceReadsPerAttempt(address: string, balanceOf: nat -> Reply<nat>, n: Numerics)
    ensures CountOf(BalanceSpec(true, address, balanceOf, n).steps, BalanceOf(address))
      == Retried(BalanceOp(address, balanceOf)).attempts
  {
    var op := BalanceOp(address, balanceOf);
    assert forall j :: op(j).steps == [BalanceOf(address)];
    RunCountEach(op, 0, MaxAttempts, BalanceOf(address));
  }

  /** `getBalance` calls `balanceOf` at most three times. */
  lemma BalanceReadsBounded(address: string, balanceOf: nat -> Reply<nat>, n: Numerics)
    ensures var r := BalanceSpec(true, address, balanceOf, n);
      1 <= CountOf(r.steps, BalanceOf(address)) <= MaxAttempts
  {
    BalanceReadsPerAttempt(address, balanceOf, n);
  }

  /** How the chain answers one token `approve`: the current allowance (the signer-address lookup
      is part of this read), `parseEther(amount)`, the reply to attempt `k` of
      `approve(spender, wei)`, and how `tx.wait()` settles. */
  datatype ApproveChain = ApproveChain(
    allowance: Reply<nat>,
    parseEther: string -> Reply<nat>,
    send: nat -> Reply<()>,
    confirm: Reply<()>)

  function ApproveOp(spender: string, wei: nat, send: nat -> Reply<()>): nat -> Attempt<()> {
    (k: nat) => Attempt([SendApprove(spender, wei)], send(k))
  }

  /** What `approve(spender, amount)` does once both arguments are non-empty. */
  function ApproveSpec(hasContract: bool, spender: string, amount: string, chain: ApproveChain): Outcome {
    if !hasContract then Outcome(false, [], Some(Thrown(ContractMissing)))
    else
      var read := [ReadAllowance(spender)];
      match (chain.allowance, chain.parseEther(amount))
      case (Fail(e), _) => Outcome(false, read, Some(e))
      case (_, Fail(e)) => Outcome(false, read, Some(e))
      case (Ok(current), Ok(wei)) =>
        if current >= wei then Outcome(true, read, None)
        else
          var o := SentThenConfirmed(Retried(ApproveOp(spender, wei, chain.send)), chain.confirm);
          Outcome(o.ok, read + o.steps, o.error)
  }

  /** An allowance that already covers `parseEther(amount)` makes `approve` succeed after the single
      read, without submitting an approval. */
  lemma ApproveShortcut(spender: string, amount: string, chain: ApproveChain)
    requires chain.allowance.Ok? && chain.parseEther(amount).Ok?
    requires chain.allowance.value >= chain.parseEther(amount).value
    ensures var o := ApproveSpec(true, spender, amount, chain);
      o.ok && o.steps == [ReadAllowance(spender)] && forall s :: s in o.steps ==> !IsWrite(s)
  {
  }

  /** Otherwise `approve` submits approvals for exactly `parseEther(amount)`, in at most three
      attempts, and succeeds exactly when one was accepted and then confirmed. */
  lemma ApproveRetried(spender: string, amount: string, chain: ApproveChain)
    requires chain.allowance.Ok? && chain.parseEther(amount).Ok?
    requires chain.allowance.value < chain.parseEther(amount).value
    ensures var o := ApproveSpec(true, spender, amount, chain);
      var wei := chain.parseEther(amount).value;
      && (forall s :: s in o.steps && s.SendApprove? ==> s == SendApprove(spender, wei))
      && 1 <= CountOf(o.steps, SendApprove(spender, wei)) <= MaxAttempts
      && (o.ok <==> (exists j :: 0 <= j < MaxAttempts && chain.send(j).Ok?) && chain.confirm.Ok?)
  {
    var wei := chain.parseEther(amount).value;
    ApproveOnlyRequested(spender, wei, chain.send, chain.confirm);
    ApproveCount(spender, wei, chain.send, chain.confirm);
    ApproveSentOkIff(spender, wei, chain.send, chain.confirm);
  }

  /** The retried part of `approve` submits no approval other than `approve(spender, wei)`. */
  lemma ApproveOnlyRequested(spender: string, wei: nat, send: nat -> Reply<()>, confirm: Reply<()>)
    ensures var s := [ReadAllowance(spender)] + SentThenConfirmed(Retried(ApproveOp(spender, wei, send)), confirm).steps;
      forall x :: x in s && x.SendApprove? ==> x == SendApprove(spender, wei)
  {
    var op := ApproveOp(spender, wei, send);
    forall x: Step | x.SendApprove? && x != SendApprove(spender, wei)
      ensures x !in Retried(op).steps
    {
      RunAvoids(op, 0, MaxAttempts, x);
    }
  }

  /** The retried part of `approve` submits one to three approvals. */
  lemma ApproveCount(spender: string, wei: nat, send: nat -> Reply<()>, confirm: Reply<()>)
    ensures var s := [ReadAllowance(spender)] + SentThenConfirmed(Retried(ApproveOp(spender, wei, send)), confirm).steps;
      1 <= CountOf(s, SendApprove(spender, wei)) <= MaxAttempts
  {
    var op := ApproveOp(spender, wei, send);
    var x := SendApprove(spender, wei);
    assert forall j :: op(j).steps == [x];
    RunCountEach(op, 0, MaxAttempts, x);
    ConfirmedCount(Retried(op), confirm, x);
    CountOfConcat([ReadAllowance(spender)], SentThenConfirmed(Retried(op), confirm).steps, x);
  }

  /** The retried part of `approve` succeeds exactly when one approval was accepted and then
      confirmed. */
  lemma ApproveSentOkIff(spender: string, wei: nat, send: nat -> Reply<()>, confirm: Reply<()>)
    ensures SentThenConfirmed(Retried(ApproveOp(spender, wei, send)), confirm).ok <==>
      (exists j :: 0 <= j < MaxAttempts && send(j).Ok?) && confirm.Ok?
  {
    var op := ApproveOp(spender, wei, send);
    RunOkIff(op, 0, MaxAttempts);
    assert forall j :: op(j).reply == send(j);
  }

  /** `approve` succeeds only when the existing allowance suffices or a submitted approval was
      confirmed; a failure always carries an error. */
  lemma ApproveOkIff(hasContract: bool, spender: string, amount: string, chain: ApproveChain)
    ensures var o := ApproveSpec(hasContract, spender, amount, chain);
      && (o.ok <==> o.error.None?)
      && (o.ok <==>
            && hasContract && chain.allowance.Ok? && chain.parseEther(amount).Ok?
            && (|| chain.allowance.value >= chain.parseEther(amount).value
                || ((exists j :: 0 <= j < MaxAttempts && chain.send(j).Ok?) && chain.confirm.Ok?)))
  {
    if hasContract && chain.allowance.Ok? && chain.parseEther(amount).Ok?
       && chain.allowance.value < chain.parseEther(amount).value {
      ApproveRetried(spender, amount, chain);
    }
  }

  /** The hook's own state: its `loading` flag and its last error. */
  class TokenState {
    var loading: bool
    var error: Option<string>

    constructor ()
      ensures !loading && error == None
    {
      loading := false;
      error := None;
    }

    /** `getBalance(address)`: the empty address returns `'0'` and touches nothing; otherwise
        the read runs as `BalanceSpec` says and `loading` ends false. */
    method GetBalance(hasContract: bool, address: string, balanceOf: nat -> Reply<nat>, n: Numerics)
      returns (balance: string, steps: seq<Step>)
      modifies this
      ensures address == "" ==> balance == NoAmount && steps == [] && unchanged(this)
      ensures address != "" ==>
        var r := BalanceSpec(hasContract, address, balanceOf, n);
        balance == r.value && steps == r.steps && error == r.error && !loading
    {
      if address == "" {
        return NoAmount, [];
      }
      loading := true;
      error := None;
      steps := [];
      if !hasContract {
        error := Some(ContractMissing);
        balance := NoAmount;
      } else {
        var result;
        steps, result := RetryLoop(BalanceOp(address, balanceOf));
        if result.Fail? {
          error := Some(OrElse(result.error.message, BalanceFailed));
          balance := NoAmount;
        } else {
          balance := FormatTokenAmount(Text(DecimalString(result.value)), n);
        }
      }
      loading := false;
    }

    /** `approve(spender, amount)`: an empty argument returns false and touches nothing;
        otherwise the approval runs as `ApproveSpec` says, a failure records its message, and
        `loading` ends false. */
    method Approve(hasContract: bool, spender: string, amount: string, chain: ApproveChain)
      returns (ok: bool, steps: seq<Step>)
      modifies this
      ensures spender == "" || amount == "" ==> !ok && steps == [] && unchanged(this)
      ensures spender != "" && amount != "" ==>
        var o := ApproveSpec(hasContract, spender, amount, chain);
        && ok == o.ok && steps == o.steps && !loading
        && error == (if o.error.Some? then Some(OrElse(o.error.value.message, ApproveFailed)) else None)
    {
      if spender == "" || amount == "" {
        return false, [];
      }
      loading := true;
      error := None;
      var failure: Option<Error> := None;
      steps := [];
      if !hasContract {
        failure := Some(Thrown(ContractMissing));
      } else {
        steps := [ReadAllowance(spender)];
        var current := chain.allowance;
        var wei := chain.parseEther(amount);
        if current.Fail? {
          failure := Some(current.error);
        } else if wei.Fail? {
          failure := Some(wei.error);
        } else if current.value < wei.value {
          var taken, sent := RetryLoop(ApproveOp(spender, wei.value, chain.send));
          steps := steps + taken;
          if sent.Fail? {
            failure := Some(sent.error);
          } else {
            steps := steps + [Wait];
            if chain.confirm.Fail? {
              failure := Some(chain.confirm.error);
            }
          }
        }
      }
      if failure.Some? {
        error := Some(OrElse(failure.value.message, ApproveFailed));
      }
      ok := failure.None?;
      loading := false;
    }
  }

  /** How the provider answers `getAllowance`: `getNetwork()`, `getCode(TOKEN_ADDRESS)` and
      `callStatic.allowance(owner, spender)`. */
  datatype AllowanceChain = AllowanceChain(
    network: Reply<()>,
    code: Reply<string>,
    allowance: Reply<nat>)

  /** `getAllowance(owner, spender)`: every failed guard and every failed call gives `'0'`;
      otherwise the allowance formatted by `formatEther`. */
  method GetAllowance(hasProvider: bool, owner: string, spender: string, tokenAddress: string,
                      chain: AllowanceChain, formatEther: nat -> string)
    returns (allowance: string, steps: seq<Step>)
    ensures !hasProvider || owner == "" || spender == "" ==> allowance == NoAmount && steps == []
    ensures tokenAddress == "" ==> allowance == NoAmount && steps == []
    ensures chain.network.Fail? ==> allowance == NoAmount
    ensures chain.code.Fail? || chain.code == Ok("0x") ==> allowance == NoAmount
    ensures chain.allowance.Fail? ==> allowance == NoAmount
    ensures
      && hasProvider && owner != "" && spender != "" && tokenAddress != ""
      && chain.network.Ok? && chain.code.Ok? && chain.code.value != "0x" && chain.allowance.Ok?
      ==> allowance == formatEther(chain.allowance.value)
          && steps == [GetNetwork, GetCode(tokenAddress), CallAllowance(owner, spender)]
    ensures steps <= [GetNetwork, GetCode(tokenAddress), CallAllowance(owner, spender)]
  {
    steps := [];
    if !hasProvider || owner == "" || spender == "" {
      return NoAmount, steps;
    }
    if tokenAddress == "" {
      return NoAmount, steps;
    }
    steps := steps + [GetNetwork];
    if chain.network.Fail? {
      return NoAmount, steps;
    }
    steps := steps + [GetCode(tokenAddress)];
    if chain.code.Fail? {
      return NoAmount, steps;
    }
    if chain.code.value == "0x" {
      return NoAmount, steps;
    }
    steps := steps + [CallAllowance(owner, spender)];
    if chain.allowance.Fail? {
      return NoAmount, steps;
    }
    allowance := formatEther(chain.allowance.value);
  }
}
