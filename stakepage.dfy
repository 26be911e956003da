/** The submit logic and busy flags of the stake page, `src/pages/Stake.tsx`: the initial
    referrer read from `?ref=`, the ordered guards of `handleStake` and its choice of referrer,
    the referrer-activity check, the three handlers and the rules that enable the buttons. */
module StakePage {
  import opened Js
  import opened Chain
  import opened Url

  /** The translated texts the page shows, by their key in the translation table. */
  datatype Key =
    | CheckInput | MinStakeError | InsufficientBalance | SelfReferralError | ReferrerRequired
    | StakeSuccess | UserCancelStake | StakeFailed
    | WithdrawSuccess | UserCancelWithdraw | WithdrawFailed
    | ClaimSuccess | UserCancelClaim | ClaimFailed

  /** `showNotification(kind, text)`: a translated text or the message of an error. */
  datatype Kind = Success | Failure
  datatype Text = Translated(key: Key) | Raw(message: string)
  datatype Notification = Notification(kind: Kind, text: Text)

  /** The text shown for an error a hook threw: the page's cancel text for code 4001, otherwise
      `error.message || fallback`. */
  function ErrorText(e: Error, cancel: Key, fallback: Key): (t: Text)
    ensures IsUserRejection(e) ==> t == Translated(cancel)
    ensures !IsUserRejection(e) && e.message != "" ==> t == Raw(e.message)
    ensures !IsUserRejection(e) && e.message == "" ==> t == Translated(fallback)
  {
    if IsUserRejection(e) then Translated(cancel)
    else if e.message != "" then Raw(e.message)
    else Translated(fallback)
  }

  /** The referrer pattern of the form's rules, `^0x[a-fA-F0-9]{40}$`. */
  predicate HexDigit(c: char) {
    '0' <= c <= '9' || 'a' <= c <= 'f' || 'A' <= c <= 'F'
  }

  predicate IsHexAddress(s: string) {
    |s| == 42 && s[0] == '0' && s[1] == 'x' && forall i :: 2 <= i < 42 ==> HexDigit(s[i])
  }

  /** The minimum stake (`Number(amount) < 100` is refused). */
  const MinStake: real := 100.0

  /** `ethers.constants.AddressZero`, which the contract returns for "no referrer". */
  const ZeroAddress: string := "0x0000000000000000000000000000000000000000"

  /** The initial value of the referrer field, from the `ref` query parameter (`ref`, as
      `URLSearchParams.get` returns it): that value when it is non-empty and
      `ethers.utils.isAddress` accepts it, otherwise the empty string. */
  function InitialReferrer(ref: Option<string>, isAddress: string -> bool): (r: string)
    ensures r != "" <==> ref.Some? && ref.value != "" && isAddress(ref.value)
    ensures r != "" ==> r == ref.value
  {
    match ref
    case Some(v) => if v != "" && isAddress(v) then v else ""
    case None => ""
  }

  /** `userInfo?.referrer && userInfo.referrer !== AddressZero`. */
  predicate HasBoundReferrer(bound: Option<string>) {
    bound.Some? && bound.value != "" && bound.value != ZeroAddress
  }

  /** `referrerAddress && referrerAddress.toLowerCase() === account?.toLowerCase()`. */
  predicate IsSelfReferral(referrer: string, account: Option<string>) {
    referrer != "" && account.Some? && Lower(referrer) == Lower(account.value)
  }

  /** What `handleStake` decides before it calls `stake`: the notice of the first guard that
      fails, or the referrer it passes on. */
  datatype Decision = Rejected(reason: Key) | Submit(referrer: string)

  /** The decision, from the result of `validateForm`, `Number(amount)`, `Number(balance)`, the
      typed referrer, the connected account and the referrer already bound on chain. */
  function StakeDecision(formValid: bool, amount: Num, balance: Num, referrer: string,
                         account: Option<string>, bound: Option<string>): (d: Decision)
    ensures d.Submit? <==>
      && formValid && !Less(amount, Real(MinStake)) && !Less(balance, amount)
      && !IsSelfReferral(referrer, account) && (HasBoundReferrer(bound) || referrer != "")
    ensures d.Submit? && HasBoundReferrer(bound) ==> d.referrer == bound.value
    ensures d.Submit? && !HasBoundReferrer(bound) ==> d.referrer == referrer
  {
    if !formValid then Rejected(CheckInput)
    else if Less(amount, Real(MinStake)) then Rejected(MinStakeError)
    else if Less(balance, amount) then Rejected(InsufficientBalance)
    else if IsSelfReferral(referrer, account) then Rejected(SelfReferralError)
    else if !HasBoundReferrer(bound) && referrer == "" then Rejected(ReferrerRequired)
    else Submit(if HasBoundReferrer(bound) then bound.value else referrer)
  }

  /** The guards of `handleStake` as a list in the order they are written, each with whether it
      fails and the notice it shows. */
  datatype Guard = Guard(fails: bool, reason: Key)

  function Guards(formValid: bool, amount: Num, balance: Num, referrer: string,
                  account: Option<string>, bound: Option<string>): seq<Guard> {
    [ Guard(!formValid, CheckInput),
      Guard(Less(amount, Real(MinStake)), MinStakeError),
      Guard(Less(balance, amount), InsufficientBalance),
      Guard(IsSelfReferral(referrer, account), SelfReferralError),
      Guard(!HasBoundReferrer(bound) && referrer == "", ReferrerRequired) ]
  }

  /** The notice of the first guard in `gs` that fails. */
  function FirstFailing(gs: seq<Guard>): (r: Option<Key>)
    ensures r.None? <==> forall i :: 0 <= i < |gs| ==> !gs[i].fails
    ensures r.Some? ==> exists i :: && 0 <= i < |gs| && gs[i].fails && gs[i].reason == r.value
                                    && forall j :: 0 <= j < i ==> !gs[j].fails
  {
    if gs == [] then None
    else if gs[0].fails then Some(gs[0].reason)
    else
      var r := FirstFailing(gs[1..]);
      assert forall i :: 1 <= i < |gs| ==> gs[i] == gs[1..][i - 1];
      r
  }

  /** `handleStake` stops at the first guard that fails, in the order of the list, and submits
      exactly when none fails. */
  lemma StakeDecisionFollowsGuards(formValid: bool, amount: Num, balance: Num, referrer: string,
                                   account: Option<string>, bound: Option<string>)
    ensures var d := StakeDecision(formValid, amount, balance, referrer, account, bound);
      var first := FirstFailing(Guards(formValid, amount, balance, referrer, account, bound));
      && (d.Submit? <==> first.None?)
      && (d.Rejected? ==> first == Some(d.reason))
  {
    var gs := Guards(formValid, amount, balance, referrer, account, bound);
    var g1 := gs[1..];
    var g2 := g1[1..];
    var g3 := g2[1..];
    var g4 := g3[1..];
    assert g4[1..] == [];
    assert FirstFailing(g4) == if gs[4].fails then Some(gs[4].reason) else None;
    assert FirstFailing(g3) == if gs[3].fails then Some(gs[3].reason) else FirstFailing(g4);
    assert FirstFailing(g2) == if gs[2].fails then Some(gs[2].reason) else FirstFailing(g3);
    assert FirstFailing(g1) == if gs[1].fails then Some(gs[1].reason) else FirstFailing(g2);
  }

  /** The referrer passed to `stake` is never empty: the bound referrer when there is one, even
      over a typed one, and the typed referrer otherwise. */
  lemma SubmittedReferrer(formValid: bool, amount: Num, balance: Num, referrer: string,
                          account: Option<string>, bound: Option<string>)
    requires StakeDecision(formValid, amount, balance, referrer, account, bound).Submit?
    ensures var r := StakeDecision(formValid, amount, balance, referrer, account, bound).referrer;
      && r != ""
      && (HasBoundReferrer(bound) ==> r == bound.value && r != ZeroAddress)
      && (!HasBoundReferrer(bound) ==> r == referrer && !IsSelfReferral(r, account))
  {
  }

  /** The self-referral guard runs whether or not a referrer is already bound, and ignores case:
      typing the account in lower case is refused. */
  lemma SelfReferralRefused(amount: Num, balance: Num, account: string, bound: Option<string>)
    requires account != ""
    requires !Less(amount, Real(MinStake)) && !Less(balance, amount)
    ensures StakeDecision(true, amount, balance, Lower(account), Some(account), bound) == Rejected(SelfReferralError)
  {
    LowerIdempotent(account);
  }

  lemma LowerIdempotent(s: string)
    ensures Lower(Lower(s)) == Lower(s)
  {
    assert forall i :: 0 <= i < |s| ==> LowerChar(LowerChar(s[i])) == LowerChar(s[i]);
  }

  /** `Number(amount)` is NaN for a non-numeric amount, and NaN compares false: such an amount
      passes both numeric guards, so only `validateForm` can stop it. */
  lemma NaNAmountPassesNumericGuards(balance: Num, referrer: string, account: Option<string>, bound: Option<string>)
    ensures var d := StakeDecision(true, NaN, balance, referrer, account, bound);
      d != Rejected(MinStakeError) && d != Rejected(InsufficientBalance)
  {
  }

  /** `stakes.some(stake => stake.active)` over the positions' `active` flags. */
  function SomeActive(active: seq<bool>): (r: bool)
    ensures r <==> exists i :: 0 <= i < |active| && active[i]
  {
    if active == [] then false
    else if active[0] then true
    else
      assert forall i :: 1 <= i < |active| ==> active[i] == active[1..][i - 1];
      SomeActive(active[1..])
  }

  /** The new `isReferrerActive` after `checkReferrerStatus(address)`: inactive for an empty or
      invalid address or a failed read; unchanged when no contract instance exists; otherwise
      whether one of the referrer's positions is active. */
  function ReferrerStatus(address: string, isAddress: string -> bool, hasContract: bool,
                          userInfo: Reply<()>, stakes: Reply<seq<bool>>, current: bool): (r: bool)
    ensures address == "" || !isAddress(address) ==> !r
    ensures address != "" && isAddress(address) && !hasContract ==> r == current
    ensures address != "" && isAddress(address) && hasContract ==>
      (r <==> userInfo.Ok? && stakes.Ok? && exists i :: 0 <= i < |stakes.value| && stakes.value[i])
  {
    if address == "" || !isAddress(address) then false
    else if !hasContract then current
    else if userInfo.Fail? || stakes.Fail? then false
    else SomeActive(stakes.value)
  }

  /** The reads `checkReferrerStatus(address)` makes: none for an empty or invalid address or
      without a contract instance; otherwise `getUserInfo`, and `getUserStakes` only once
      `getUserInfo` has succeeded. */
  function ReferrerReads(address: string, isAddress: string -> bool, hasContract: bool,
                         userInfo: Reply<()>): (s: seq<Step>)
    ensures s == [] <==> address == "" || !isAddress(address) || !hasContract
    ensures s != [] ==> s[0] == GetUserInfo(address)
    ensures GetUserStakes(address) in s <==>
      address != "" && isAddress(address) && hasContract && userInfo.Ok?
    ensures forall x :: x in s ==> x == GetUserInfo(address) || x == GetUserStakes(address)
  {
    if address == "" || !isAddress(address) || !hasContract then []
    else [GetUserInfo(address)] + (if userInfo.Ok? then [GetUserStakes(address)] else [])
  }

  /** The busy flags of the page. */
  datatype Busy = Busy(isStaking: bool, isApproving: bool, isWithdrawing: Option<nat>, isClaiming: bool)

  predicate Idle(b: Busy) {
    !b.isStaking && !b.isApproving && b.isWithdrawing.None? && !b.isClaiming
  }

  /** The enable rules of the inputs and buttons. */
  predicate InputDisabled(b: Busy) {
    b.isStaking || b.isWithdrawing.Some? || b.isClaiming
  }

  predicate StakeDisabled(b: Busy) {
    b.isWithdrawing.Some? || b.isClaiming
  }

  predicate ClaimDisabled(b: Busy) {
    b.isStaking || b.isWithdrawing.Some?
  }

  predicate WithdrawDisabled(b: Busy) {
    b.isStaking || b.isClaiming
  }

  /** The label of the stake button. */
  datatype StakeLabel = Approving | Staking | StakeIdle

  function StakeLabelOf(b: Busy): (l: StakeLabel)
    ensures l == Approving <==> b.isApproving
    ensures l == Staking <==> !b.isApproving && b.isStaking
  {
    if b.isApproving then Approving else if b.isStaking then Staking else StakeIdle
  }

  /** While one operation is in flight the buttons of the other two are disabled, and so are the
      form's inputs; the button of the running operation itself is not disabled by these rules.
      With nothing in flight every control is enabled. */
  lemma BusyGatesOthers(b: Busy)
    ensures b.isStaking ==> ClaimDisabled(b) && WithdrawDisabled(b) && InputDisabled(b)
    ensures b.isWithdrawing.Some? ==> StakeDisabled(b) && ClaimDisabled(b) && InputDisabled(b)
    ensures b.isClaiming ==> StakeDisabled(b) && WithdrawDisabled(b) && InputDisabled(b)
    ensures b == Busy(true, b.isApproving, None, false) ==> !StakeDisabled(b)
    ensures b == Busy(false, false, b.isWithdrawing, false) ==> !WithdrawDisabled(b)
    ensures b == Busy(false, false, None, true) ==> !ClaimDisabled(b)
    ensures Idle(b) ==>
      && !InputDisabled(b) && !StakeDisabled(b) && !ClaimDisabled(b) && !WithdrawDisabled(b)
      && StakeLabelOf(b) == StakeIdle
  {
  }

  /** How a call into a hook settled, as the page's `try` sees it. */
  datatype HookOutcome = Returned(success: bool) | Threw(error: Error)

  /** A call the page made to the hook's `stake(amount, referrer, ...)`. */
  datatype StakeCall = StakeCall(amount: string, referrer: string)

  /** The page's state: the form fields, the balance shown, the busy flags, the referrer's
      activity, and the notifications, stake calls and stake refreshes it has made. */
  class StakePage {
    var amount: string
    var referrerAddress: string
    var balance: string
    var isStaking: bool
    var isApproving: bool
    var isWithdrawing: Option<nat>
    var isClaiming: bool
    var isReferrerActive: bool
    var notifications: seq<Notification>
    var stakeCalls: seq<StakeCall>
    var refreshes: nat

    function Flags(): Busy
      reads this
    {
      Busy(isStaking, isApproving, isWithdrawing, isClaiming)
    }

    /** The page as first rendered for a URL whose query is `search`. */
    constructor (search: string, isAddress: string -> bool)
      ensures amount == "" && referrerAddress == InitialReferrer(GetParam(search, "ref"), isAddress) && balance == "0"
      ensures Idle(Flags()) && !isReferrerActive
      ensures notifications == [] && stakeCalls == [] && refreshes == 0
    {
      amount := "";
      referrerAddress := InitialReferrer(GetParam(search, "ref"), isAddress);
      balance := "0";
      isStaking := false;
      isApproving := false;
      isWithdrawing := None;
      isClaiming := false;
      isReferrerActive := false;
      notifications := [];
      stakeCalls := [];
      refreshes := 0;
    }

    /** The effect that runs when the referrer field changes: `checkReferrerStatus` for a
        non-empty field. */
    method CheckReferrerStatus(isAddress: string -> bool, hasContract: bool,
                               userInfo: Reply<()>, stakes: Reply<seq<bool>>)
      returns (steps: seq<Step>)
      modifies this
      ensures referrerAddress == old(referrerAddress) && Flags() == old(Flags())
      ensures amount == old(amount) && balance == old(balance)
      ensures notifications == old(notifications) && stakeCalls == old(stakeCalls) && refreshes == old(refreshes)
      ensures isReferrerActive == if referrerAddress == "" then old(isReferrerActive)
        else ReferrerStatus(referrerAddress, isAddress, hasContract, userInfo, stakes, old(isReferrerActive))
      ensures steps == if referrerAddress == "" then [] else ReferrerReads(referrerAddress, isAddress, hasContract, userInfo)
    {
      steps := [];
      if referrerAddress != "" {
        isReferrerActive := ReferrerStatus(referrerAddress, isAddress, hasContract, userInfo, stakes, isReferrerActive);
        steps := ReferrerReads(referrerAddress, isAddress, hasContract, userInfo);
      }
    }

    /** `handleStake`: a failed guard shows its notice and changes nothing else; otherwise the
        page calls `stake` with the chosen referrer, and on success clears the form and refreshes
        the stakes. `toNumber` is JavaScript's `Number(...)` on strings. */
    method HandleStake(formValid: bool, toNumber: string -> Num, account: Option<string>,
                       bound: Option<string>, outcome: HookOutcome)
      modifies this
      ensures balance == old(balance) && isReferrerActive == old(isReferrerActive)
      ensures isWithdrawing == old(isWithdrawing) && isClaiming == old(isClaiming)
      ensures var d := StakeDecision(formValid, toNumber(old(amount)), toNumber(old(balance)),
                                     old(referrerAddress), account, bound);
        match d
        case Rejected(reason) =>
          && notifications == old(notifications) + [Notification(Failure, Translated(reason))]
          && amount == old(amount) && referrerAddress == old(referrerAddress)
          && isStaking == old(isStaking) && isApproving == old(isApproving)
          && stakeCalls == old(stakeCalls) && refreshes == old(refreshes)
        case Submit(referrer) =>
          && stakeCalls == old(stakeCalls) + [StakeCall(old(amount), referrer)]
          && !isStaking && !isApproving
          && (outcome == Returned(true) ==>
                && amount == "" && referrerAddress == "" && refreshes == old(refreshes) + 1
                && notifications == old(notifications) + [Notification(Success, Translated(StakeSuccess))])
          && (outcome != Returned(true) ==>
                && amount == old(amount) && referrerAddress == old(referrerAddress) && refreshes == old(refreshes))
          && (outcome == Returned(false) ==> notifications == old(notifications))
          && (outcome.Threw? ==>
                notifications == old(notifications)
                  + [Notification(Failure, ErrorText(outcome.error, UserCancelStake, StakeFailed))])
    {
      var decision := StakeDecision(formValid, toNumber(amount), toNumber(balance), referrerAddress, account, bound);
      if decision.Rejected? {
        notifications := notifications + [Notification(Failure, Translated(decision.reason))];
        return;
      }
      SubmitStake(decision.referrer, outcome);
    }

    /** The part of `handleStake` after the guards: one `stake` call with `referrer`, the form
        cleared and the stakes refreshed on success, the outcome reported, both flags reset. */
    method SubmitStake(referrer: string, outcome: HookOutcome)
      modifies this
      ensures balance == old(balance) && isReferrerActive == old(isReferrerActive)
      ensures isWithdrawing == old(isWithdrawing) && isClaiming == old(isClaiming)
      ensures stakeCalls == old(stakeCalls) + [StakeCall(old(amount), referrer)]
      ensures !isStaking && !isApproving
      ensures outcome == Returned(true) ==>
        && amount == "" && referrerAddress == "" && refreshes == old(refreshes) + 1
        && notifications == old(notifications) + [Notification(Success, Translated(StakeSuccess))]
      ensures outcome != Returned(true) ==>
        && amount == old(amount) && referrerAddress == old(referrerAddress) && refreshes == old(refreshes)
      ensures outcome == Returned(false) ==> notifications == old(notifications)
      ensures outcome.Threw? ==>
        notifications == old(notifications) + [Notification(Failure, ErrorText(outcome.error, UserCancelStake, StakeFailed))]
    {
      isStaking := true;
      stakeCalls := stakeCalls + [StakeCall(amount, referrer)];
      match outcome {
        case Returned(success) =>
          if success {
            notifications := notifications + [Notification(Success, Translated(StakeSuccess))];
            amount := "";
            referrerAddress := "";
            refreshes := refreshes + 1;
          }
        case Threw(e) =>
          notifications := notifications + [Notification(Failure, ErrorText(e, UserCancelStake, StakeFailed))];
      }
      isStaking := false;
      isApproving := false;
    }

    /** `handleWithdraw(index)`: marks the position as being withdrawn, reports the outcome of
        the hook's `withdraw`, refreshes the stakes on success, and clears the mark. */
    method HandleWithdraw(index: nat, outcome: HookOutcome)
      modifies this
      ensures isWithdrawing == None
      ensures isStaking == old(isStaking) && isApproving == old(isApproving) && isClaiming == old(isClaiming)
      ensures amount == old(amount) && referrerAddress == old(referrerAddress) && balance == old(balance)
      ensures isReferrerActive == old(isReferrerActive) && stakeCalls == old(stakeCalls)
      ensures refreshes == old(refreshes) + (if outcome == Returned(true) then 1 else 0)
      ensures notifications == old(notifications) + match outcome
        case Returned(success) => if success then [Notification(Success, Translated(WithdrawSuccess))] else []
        case Threw(e) => [Notification(Failure, ErrorText(e, UserCancelWithdraw, WithdrawFailed))]
    {
      isWithdrawing := Some(index);
      match outcome {
        case Returned(success) =>
          if success {
            notifications := notifications + [Notification(Success, Translated(WithdrawSuccess))];
            refreshes := refreshes + 1;
          }
        case Threw(e) =>
          notifications := notifications + [Notification(Failure, ErrorText(e, UserCancelWithdraw, WithdrawFailed))];
      }
      isWithdrawing := None;
    }

    /** `handleClaimRewards`: the same shape as `handleWithdraw`, with the `isClaiming` flag. */
    method HandleClaimRewards(outcome: HookOutcome)
      modifies this
      ensures !isClaiming
      ensures isStaking == old(isStaking) && isApproving == old(isApproving) && isWithdrawing == old(isWithdrawing)
      ensures amount == old(amount) && referrerAddress == old(referrerAddress) && balance == old(balance)
      ensures isReferrerActive == old(isReferrerActive) && stakeCalls == old(stakeCalls)
      ensures refreshes == old(refreshes) + (if outcome == Returned(true) then 1 else 0)
      ensures notifications == old(notifications) + match outcome
        case Returned(success) => if success then [Notification(Success, Translated(ClaimSuccess))] else []
        case Threw(e) => [Notification(Failure, ErrorText(e, UserCancelClaim, ClaimFailed))]
    {
      isClaiming := true;
      match outcome {
        case Returned(success) =>
          if success {
            notifications := notifications + [Notification(Success, Translated(ClaimSuccess))];
            refreshes := refreshes + 1;
          }
        case Threw(e) =>
          notifications := notifications + [Notification(Failure, ErrorText(e, UserCancelClaim, ClaimFailed))];
      }
      isClaiming := false;
    }
  }
}
