/** The staking hook of `src/hooks/useStaking.ts`: `withdraw` and `claimRewards` (retried chain
    writes), the `stake` stub, and the internal `approve`. The chain is an oracle: for each
    attempt number it says how the read or the send of that attempt settles. */
module Staking {
  import opened Js
  import opened Chain
  import opened Retry

  /** The message of the error an attempt throws when the position is not active. */
  const NotActiveMessage: string := "质押不处于活跃状态"

  /** The text in a contract revert that marks a position that is no longer active. */
  const RevertMarker: string := "Stake not active"
  /** Fallback notification text when a failed withdraw carries no message. */
  const WithdrawFailed: string := "赎回失败"

  /** How the chain answers one `withdraw`: for attempt `k`, the read of the position (its
      `active` flag; the signer-address lookup is part of this read) and the reply to
      `withdraw(index)`; then how `tx.wait()` settles. */
  datatype WithdrawChain = WithdrawChain(
    stakeInfo: nat -> Reply<bool>,
    send: nat -> Reply<()>,
    confirm: Reply<()>)

  /** One attempt of the withdraw loop: read the position, refuse to send unless it is active. */
  function WithdrawAttempt(chain: WithdrawChain, index: nat, k: nat): (a: Attempt<()>)
    ensures a.steps == [GetStakeInfo(index)] || a.steps == [GetStakeInfo(index), SendWithdraw(index)]
    ensures SendWithdraw(index) in a.steps <==> chain.stakeInfo(k) == Ok(true)
    ensures a.reply.Ok? ==> chain.stakeInfo(k) == Ok(true) && chain.send(k).Ok?
    ensures chain.stakeInfo(k) == Ok(false) ==> a.reply == Fail(Thrown(NotActiveMessage))
  {
    var read := chain.stakeInfo(k);
    if read.Fail? then Attempt([GetStakeInfo(index)], Fail(read.error))
    else if !read.value then Attempt([GetStakeInfo(index)], Fail(Thrown(NotActiveMessage)))
    else Attempt([GetStakeInfo(index), SendWithdraw(index)], chain.send(k))
  }

  function WithdrawOp(chain: WithdrawChain, index: nat): nat -> Attempt<()> {
    (k: nat) => WithdrawAttempt(chain, index, k)
  }

  /** What `withdraw(index)` does and how it ends. */
  function WithdrawSpec(hasContract: bool, chain: WithdrawChain, index: nat): Outcome {
    if !hasContract then Outcome(false, [], Some(Thrown(ContractMissing)))
    else SentThenConfirmed(Retried(WithdrawOp(chain, index)), chain.confirm)
  }

  /** The error notification `withdraw` shows: the fixed "already withdrawn or not active"
      text, or the error's own message. */
  datatype WithdrawNotice = AlreadyInactive | Message(text: string)

  const AlreadyInactiveText: string := "该质押已被赎回或不处于活跃状态"

  function NoticeFor(e: Error): (n: WithdrawNotice)
    ensures n == AlreadyInactive <==> Contains(e.message, RevertMarker)
  {
    if Contains(e.message, RevertMarker) then AlreadyInactive
    else Message(OrElse(e.message, WithdrawFailed))
  }

  /** `withdraw(stakeIndex)`: returns whether the withdrawal was sent and confirmed, the steps it
      took, and the error notification it showed. */
  method Withdraw(hasContract: bool, chain: WithdrawChain, index: nat)
    returns (ok: bool, steps: seq<Step>, notice: Option<WithdrawNotice>)
    ensures var o := WithdrawSpec(hasContract, chain, index);
      && ok == o.ok && steps == o.steps
      && notice == (if o.error.Some? then Some(NoticeFor(o.error.value)) else None)
    ensures ok <==> notice.None?
  {
    var failure: Option<Error> := None;
    steps := [];
    if !hasContract {
      failure := Some(Thrown(ContractMissing));
    } else {
      var sent;
      steps, sent := RetryLoop(WithdrawOp(chain, index));
      if sent.Fail? {
        failure := Some(sent.error);
      } else {
        steps := steps + [Wait];
        if chain.confirm.Fail? {
          failure := Some(chain.confirm.error);
        }
      }
    }
    ok := failure.None?;
    notice := if failure.Some? then Some(NoticeFor(failure.value)) else None;
  }

  /** Number of the `n` attempts from attempt `k` on that read the position as active. */
  function ActiveReads(chain: WithdrawChain, k: nat, n: nat): nat
    decreases n
  {
    if n == 0 then 0 else (if chain.stakeInfo(k) == Ok(true) then 1 else 0) + ActiveReads(chain, k + 1, n - 1)
  }

  lemma {:induction false} SendsPerAttempt(chain: WithdrawChain, index: nat, k: nat, n: nat)
    ensures AttemptsCount(WithdrawOp(chain, index), k, n, SendWithdraw(index)) == ActiveReads(chain, k, n)
    ensures AttemptsCount(WithdrawOp(chain, index), k, n, GetStakeInfo(index)) == n
    decreases n
  {
    if n > 0 {
      AttemptCounts(chain, index, k);
      SendsPerAttempt(chain, index, k + 1, n - 1);
    }
  }

  /** Each attempt reads the position once, and sends exactly when the read found it active. */
  lemma AttemptCounts(chain: WithdrawChain, index: nat, k: nat)
    ensures var steps := WithdrawOp(chain, index)(k).steps;
      && CountOf(steps, GetStakeInfo(index)) == 1
      && CountOf(steps, SendWithdraw(index)) == (if chain.stakeInfo(k) == Ok(true) then 1 else 0)
  {
    var one: seq<Step> := [GetStakeInfo(index)];
    var two: seq<Step> := [GetStakeInfo(index), SendWithdraw(index)];
    assert one[1..] == [] && two[1..][1..] == [];
    assert two[1..] == [SendWithdraw(index)];
    assert CountOf(one, SendWithdraw(index)) == 0 && CountOf(one, GetStakeInfo(index)) == 1;
    assert CountOf(two, SendWithdraw(index)) == 1 && CountOf(two, GetStakeInfo(index)) == 1;
  }

  /** `withdraw` reads the position at most three times, pauses between consecutive attempts,
      and sends one withdrawal per attempt whose read found the position active. */
  lemma WithdrawCounts(chain: WithdrawChain, index: nat)
    ensures var o := WithdrawSpec(true, chain, index);
      var readCount := CountOf(o.steps, GetStakeInfo(index));
      && 1 <= readCount <= MaxAttempts
      && CountOf(o.steps, Delay) == readCount - 1
      && CountOf(o.steps, SendWithdraw(index)) == ActiveReads(chain, 0, readCount)
  {
    WithdrawReadCount(chain, index);
    WithdrawDelayCount(chain, index);
    WithdrawSendCount(chain, index);
  }

  lemma WithdrawReadCount(chain: WithdrawChain, index: nat)
    ensures CountOf(WithdrawSpec(true, chain, index).steps, GetStakeInfo(index))
      == Retried(WithdrawOp(chain, index)).attempts
  {
    var op := WithdrawOp(chain, index);
    RunCount(op, 0, MaxAttempts, GetStakeInfo(index));
    SendsPerAttempt(chain, index, 0, Retried(op).attempts);
    ConfirmedCount(Retried(op), chain.confirm, GetStakeInfo(index));
  }

  lemma WithdrawDelayCount(chain: WithdrawChain, index: nat)
    ensures CountOf(WithdrawSpec(true, chain, index).steps, Delay)
      == Retried(WithdrawOp(chain, index)).attempts - 1
  {
    var op := WithdrawOp(chain, index);
    RunDelays(op, 0, MaxAttempts);
    ConfirmedCount(Retried(op), chain.confirm, Delay);
  }

  lemma WithdrawSendCount(chain: WithdrawChain, index: nat)
    ensures CountOf(WithdrawSpec(true, chain, index).steps, SendWithdraw(index))
      == ActiveReads(chain, 0, Retried(WithdrawOp(chain, index)).attempts)
  {
    var op := WithdrawOp(chain, index);
    RunCount(op, 0, MaxAttempts, SendWithdraw(index));
    SendsPerAttempt(chain, index, 0, Retried(op).attempts);
    ConfirmedCount(Retried(op), chain.confirm, SendWithdraw(index));
  }

  /** When no read of the position finds it active, no withdrawal is sent and `withdraw` fails. */
  lemma WithdrawInactiveSendsNothing(hasContract: bool, chain: WithdrawChain, index: nat)
    requires forall j :: 0 <= j < MaxAttempts ==> chain.stakeInfo(j) != Ok(true)
    ensures var o := WithdrawSpec(hasContract, chain, index);
      !o.ok && SendWithdraw(index) !in o.steps
  {
    if hasContract {
      var op := WithdrawOp(chain, index);
      var run := Retried(op);
      RunAvoids(op, 0, MaxAttempts, SendWithdraw(index));
      RunOkIff(op, 0, MaxAttempts);
    }
  }

  /** A position read as inactive on every attempt fails with the pre-check's own error. */
  lemma WithdrawInactiveError(chain: WithdrawChain, index: nat)
    requires forall j :: 0 <= j < MaxAttempts ==> chain.stakeInfo(j) == Ok(false)
    ensures WithdrawSpec(true, chain, index).error == Some(Thrown(NotActiveMessage))
  {
    var op := WithdrawOp(chain, index);
    assert forall j :: 0 <= j < MaxAttempts ==> op(j).reply == Fail(Thrown(NotActiveMessage));
    RunAllFail(op, 0, MaxAttempts, Thrown(NotActiveMessage));
  }

  /** The pre-check's message does not contain the revert marker, so it is shown as it is and
      the "already withdrawn" notification is not chosen for it. */
  lemma InactiveNotice()
    ensures NoticeFor(Thrown(NotActiveMessage)) == Message(NotActiveMessage)
  {
    NotContainsWithoutFirstChar(NotActiveMessage, RevertMarker);
  }

  /** `withdraw` succeeds exactly when a contract instance exists, some attempt read the
      position as active and sent the withdrawal, and the transaction was confirmed. */
  lemma WithdrawOkIff(hasContract: bool, chain: WithdrawChain, index: nat)
    ensures WithdrawSpec(hasContract, chain, index).ok <==>
      && hasContract
      && (exists j :: 0 <= j < MaxAttempts && chain.stakeInfo(j) == Ok(true) && chain.send(j).Ok?)
      && chain.confirm.Ok?
  {
    var op := WithdrawOp(chain, index);
    RunOkIff(op, 0, MaxAttempts);
    assert forall j :: op(j).reply.Ok? <==> chain.stakeInfo(j) == Ok(true) && chain.send(j).Ok?;
  }

  /** A successful `withdraw` ends by reading the position, sending the withdrawal and
      waiting for its confirmation. */
  lemma WithdrawOkEndsConfirmed(hasContract: bool, chain: WithdrawChain, index: nat)
    requires WithdrawSpec(hasContract, chain, index).ok
    ensures var s := WithdrawSpec(hasContract, chain, index).steps;
      |s| >= 3 && s[|s| - 3..] == [GetStakeInfo(index), SendWithdraw(index), Wait]
  {
    var op := WithdrawOp(chain, index);
    var last := [GetStakeInfo(index), SendWithdraw(index)];
    WithdrawAcceptedSteps(chain, index);
    RunOkEndsWith(op, 0, MaxAttempts, last);
    ConfirmedEndsWith(Retried(op), chain.confirm, last);
    assert last + [Wait] == [GetStakeInfo(index), SendWithdraw(index), Wait];
  }

  /** An attempt whose withdrawal was accepted read the position and sent it. */
  lemma WithdrawAcceptedSteps(chain: WithdrawChain, index: nat)
    ensures forall j :: WithdrawOp(chain, index)(j).reply.Ok? ==>
      WithdrawOp(chain, index)(j).steps == [GetStakeInfo(index), SendWithdraw(index)]
  {
  }

  /** How the chain answers one `claimRewards`: the reply to `claimRewards()` on attempt `k`,
      then how `tx.wait()` settles. */
  datatype ClaimChain = ClaimChain(send: nat -> Reply<()>, confirm: Reply<()>)

  function ClaimOp(chain: ClaimChain): nat -> Attempt<()> {
    (k: nat) => Attempt([SendClaimRewards], chain.send(k))
  }

  function ClaimSpec(hasContract: bool, chain: ClaimChain): Outcome {
    if !hasContract then Outcome(false, [], Some(Thrown(ContractMissing)))
    else SentThenConfirmed(Retried(ClaimOp(chain)), chain.confirm)
  }

  /** `claimRewards()`: returns whether a claim was sent and confirmed, and the steps taken. */
  method ClaimRewards(hasContract: bool, chain: ClaimChain) returns (ok: bool, steps: seq<Step>)
    ensures var o := ClaimSpec(hasContract, chain); ok == o.ok && steps == o.steps
  {
    var failure: Option<Error> := None;
    steps := [];
    if !hasContract {
      failure := Some(Thrown(ContractMissing));
    } else {
      var sent;
      steps, sent := RetryLoop(ClaimOp(chain));
      if sent.Fail? {
        failure := Some(sent.error);
      } else {
        steps := steps + [Wait];
        if chain.confirm.Fail? {
          failure := Some(chain.confirm.error);
        }
      }
    }
    ok := failure.None?;
  }

  /** Every attempt of `claimRewards` sends exactly one claim. */
  lemma ClaimsPerAttempt(chain: ClaimChain)
    ensures CountOf(ClaimSpec(true, chain).steps, SendClaimRewards) == Retried(ClaimOp(chain)).attempts
  {
    var op := ClaimOp(chain);
    assert forall j :: op(j).steps == [SendClaimRewards];
    RunCountEach(op, 0, MaxAttempts, SendClaimRewards);
    ConfirmedCount(Retried(op), chain.confirm, SendClaimRewards);
  }

  /** `claimRewards` stops at the first claim the chain accepts: when attempt `first` is the
      first accepted one, exactly `first + 1` claims were sent, and it succeeds exactly when that
      claim is confirmed. */
  lemma ClaimStopsAtFirstSuccess(chain: ClaimChain, first: nat)
    requires first < MaxAttempts && chain.send(first).Ok?
    requires forall j :: 0 <= j < first ==> chain.send(j).Fail?
    ensures var o := ClaimSpec(true, chain);
      && CountOf(o.steps, SendClaimRewards) == first + 1
      && (o.ok <==> chain.confirm.Ok?)
  {
    RunFirstOk(ClaimOp(chain), 0, MaxAttempts, first);
    ClaimsPerAttempt(chain);
  }

  /** `claimRewards` sends one to three claims. */
  lemma ClaimAtMostThree(chain: ClaimChain)
    ensures 1 <= CountOf(ClaimSpec(true, chain).steps, SendClaimRewards) <= MaxAttempts
  {
    ClaimsPerAttempt(chain);
  }

  /** `claimRewards` succeeds exactly when a contract instance exists, one of the three claims
      was accepted, and it was confirmed. */
  lemma ClaimOkIff(hasContract: bool, chain: ClaimChain)
    ensures ClaimSpec(hasContract, chain).ok <==>
      hasContract && (exists j :: 0 <= j < MaxAttempts && chain.send(j).Ok?) && chain.confirm.Ok?
  {
    if hasContract {
      var op := ClaimOp(chain);
      RunOkIff(op, 0, MaxAttempts);
      assert forall j :: op(j).reply == chain.send(j);
    }
  }

  /** A successful `claimRewards` ends with the accepted claim and its confirmation. */
  lemma ClaimOkEndsConfirmed(hasContract: bool, chain: ClaimChain)
    requires ClaimSpec(hasContract, chain).ok
    ensures var s := ClaimSpec(hasContract, chain).steps;
      |s| >= 2 && s[|s| - 2..] == [SendClaimRewards, Wait]
  {
    var op := ClaimOp(chain);
    assert forall j :: op(j).steps == [SendClaimRewards];
    RunOkEndsWith(op, 0, MaxAttempts, [SendClaimRewards]);
    ConfirmedEndsWith(Retried(op), chain.confirm, [SendClaimRewards]);
  }

  /** Without a contract instance none of the three operations touches the chain, and all fail. */
  lemma NoContractNoCalls(withdrawChain: WithdrawChain, index: nat, claimChain: ClaimChain,
                          amount: string, referrer: string)
    ensures var w := WithdrawSpec(false, withdrawChain, index);
      !w.ok && w.steps == [] && w.error == Some(Thrown(ContractMissing))
    ensures var c := ClaimSpec(false, claimChain); !c.ok && c.steps == []
    ensures var s := Stake(false, amount, referrer); !s.ok && s.steps == []
  {
  }

  /** The progress callbacks a caller may pass to `stake`. */
  datatype Callback = OnApproving | OnStaking

  datatype StakeResult = StakeResult(ok: bool, steps: seq<Step>, callbacks: seq<Callback>)

  /** `stake(amount, referrer, callbacks)`: a stub that only obtains the contract instance. */
  function Stake(hasContract: bool, amount: string, referrer: string): (r: StakeResult)
    ensures r.ok <==> hasContract
    ensures r.steps == [] && r.callbacks == []
  {
    StakeResult(hasContract, [], [])
  }

  const ConnectWalletFirst: string := "请先连接钱包"
  const UserCancelledApproval: string := "用户取消授权"
  const ApprovalFailed: string := "授权失败"

  /** The error text the internal `approve` records for a failure. */
  function ApproveErrorText(e: Error): (t: string)
    ensures IsUserRejection(e) ==> t == UserCancelledApproval
    ensures !IsUserRejection(e) && e.message != "" ==> t == e.message
    ensures !IsUserRejection(e) && e.message == "" ==> t == ApprovalFailed
  {
    if IsUserRejection(e) then UserCancelledApproval else OrElse(e.message, ApprovalFailed)
  }

  /** The hook's own state: its `loading` flag and its last error. */
  class StakingHook {
    var loading: bool
    var error: Option<string>

    constructor ()
      ensures !loading && error == None
    {
      loading := false;
      error := None;
    }

    /** The internal `approve(amount)`: approves the staking contract for `parseEther(amount)`
        on the token, without retries. */
    method Approve(hasSigner: bool, amount: string, parseEther: string -> Reply<nat>,
                   stakingAddress: string, send: Reply<()>, confirm: Reply<()>)
      returns (ok: bool, steps: seq<Step>)
      modifies this
      ensures !hasSigner ==> !ok && steps == [] && error == Some(ConnectWalletFirst) && loading == old(loading)
      ensures hasSigner ==> !loading
      ensures hasSigner ==> (ok <==> parseEther(amount).Ok? && send.Ok? && confirm.Ok?)
      ensures hasSigner && parseEther(amount).Fail? ==> steps == []
      ensures hasSigner && parseEther(amount).Ok? ==>
        steps == [SendApprove(stakingAddress, parseEther(amount).value)] + (if send.Ok? then [Wait] else [])
      ensures hasSigner && ok ==> error == None
      ensures hasSigner && !ok ==>
        var e := if parseEther(amount).Fail? then parseEther(amount).error
                 else if send.Fail? then send.error else confirm.error;
        error == Some(ApproveErrorText(e))
    {
      steps := [];
      if !hasSigner {
        error := Some(ConnectWalletFirst);
        return false, steps;
      }
      loading := true;
      error := None;
      var failure: Option<Error> := None;
      var wei := parseEther(amount);
      if wei.Fail? {
        failure := Some(wei.error);
      } else {
        steps := steps + [SendApprove(stakingAddress, wei.value)];
        if send.Fail? {
          failure := Some(send.error);
        } else {
          steps := steps + [Wait];
          if confirm.Fail? {
            failure := Some(confirm.error);
          }
        }
      }
      ok := failure.None?;
      if failure.Some? {
        error := Some(ApproveErrorText(failure.value));
      }
      loading := false;
    }
  }
}
