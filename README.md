# Mutual bank staking front end: hooks, stake form and referral link

This project models the front-end logic of a staking dApp in Dafny:

- the staking hook (`withdraw`, `claimRewards`, the `stake` stub, the internal `approve`);
- the token hook (`getBalance`, `approve`, `getAllowance`);
- the stake page's submit guards, referrer choice, referrer-activity check, handlers and button rules;
- the referral page's link, address shortening and view selection;
- the two formatting helpers `formatAddress` and `formatTokenAmount`.

Every chain call is an oracle. A per-attempt function says how the `k`-th call of a retry loop settles (`nat -> Reply<T>`), and a single `Reply` says how `tx.wait()` settles. Each operation returns the list of externally visible `Step`s it took: contract reads, signed transactions, confirmations and one-second pauses.

The bounded retry loop shared by the hooks is written once:

- `Retry.RunFrom`/`Retried` is its pure specification.
- `Retry.RetryLoop` is the imperative loop, proved against that specification.
- The generic lemmas about the specification (`RunShape`, `RunOkIff`, `RunCount`, …) are reused for each operation.

Modules: `Js` (JavaScript strings, numbers and truthiness), `Chain` (errors, replies, steps), `Retry`, `Format`, `Url` (`location.search`, `URLSearchParams.get`), `Staking`, `Token`, `StakePage`, `ReferralPage`.

The code behaves as follows, and the model follows it:

- Every failed attempt is retried, including user rejections (code 4001) and the "not active" pre-check.
- There is no approve-then-stake flow: `stake` is a stub that only obtains the contract.
- The stub never calls `onApproving`/`onStaking`, so the page's `isApproving` is only ever reset.

The withdraw pre-check throws `质押不处于活跃状态`. That message does not contain `Stake not active`, so when the pre-check fails on all three attempts the page shows that message itself. It does not show the "already withdrawn" text (`Staking.WithdrawInactiveError` and `Staking.InactiveNotice`).

## Model

| member | source | states |
|---|---|---|
| Retry.RunFrom | src/hooks/useStaking.ts:100-123 | the retry loop makes between one and `retries` attempts |
| Retry.RetryLoop | src/hooks/useStaking.ts:100-123 | the `while (retries > 0)` loop takes exactly the steps of `Retried(op)` and ends with its reply: the first success, or the error of the third failure |
| Retry.RunShape | src/hooks/useStaking.ts:104-122 | the loop stops at the first successful attempt; every earlier attempt failed; a failing loop made all its attempts |
| Retry.RunOkIff | src/hooks/useStaking.ts:100-123 | the loop succeeds iff one of its attempts succeeds |
| Retry.RunEndsWith | src/hooks/useStaking.ts:100-123 | the loop's steps end with the steps of its last attempt |
| Retry.RunCount | src/hooks/useStaking.ts:100-123 | apart from pauses, the loop's steps are exactly those of the attempts it made |
| Retry.RunDelays | src/hooks/useStaking.ts:117-121 | one pause between each two consecutive attempts and none after the last |
| Retry.RunAvoids | src/hooks/useStaking.ts:100-123 | a step no attempt takes never occurs in the loop |
| Retry.RunOkEndsWith | src/hooks/useStaking.ts:113-115 | when every successful attempt takes the same steps, a successful loop ends with them |
| Retry.RunFirstOk | src/hooks/useStaking.ts:113-115 | when attempt `first` is the first to succeed, exactly `first + 1` attempts are made and the loop succeeds |
| Retry.RunCountEach | src/hooks/useStaking.ts:100-123 | a step every attempt takes once occurs once per attempt made |
| Retry.RunAllFail | src/hooks/useStaking.ts:104-122 | when every attempt fails with the same error, the loop ends with that error |
| Retry.SentThenConfirmed | src/hooks/useStaking.ts:125-133 | success iff the loop sent and `tx.wait()` resolved; a confirmation is awaited only after a send; failure iff an error is carried |
| Format.FormatAddress | src/utils/format.ts:3-6 | `''` stays `''`; otherwise first `min(6,n)` characters, `...`, and characters from `max(0,n-4)` on |
| Format.FormatAddressLong | src/utils/format.ts:5 | for ten characters or more: 13 characters keeping the first six and the last four |
| Format.FormatTokenAmount | src/utils/format.ts:8-29 | falsy input and a failed `formatEther` give `0.00000`; BigNumbers and `0x` strings go through `formatEther`; other strings and numbers are used verbatim |
| Format.DecimalString | src/hooks/useToken.ts:57 | a BigNumber's `toString()` is non-empty and all decimal digits |
| Format.DecimalStringIsVerbatim | src/hooks/useToken.ts:57 | the decimal text of a balance never starts with `0x`, so `formatTokenAmount` applies no wei conversion to it |
| Url.SearchOfQuery | src/pages/Stake.tsx:465 | `location.search` of `base?query` is `?query` when `base` has no `?` or `#` |
| Url.GetSingleParam | src/pages/Stake.tsx:466 | `URLSearchParams("?name=value").get(name)` is `value` when neither holds a separator |
| Staking.NoticeFor | src/hooks/useStaking.ts:134-142 | the "already withdrawn" notice is chosen iff the error message contains `Stake not active` |
| Staking.WithdrawAttempt | src/hooks/useStaking.ts:104-116 | an attempt reads the position and sends only when the read found it active; it succeeds only when the read was active and the send accepted; an inactive read fails with the pre-check's error |
| Staking.Withdraw | src/hooks/useStaking.ts:92-143 | result, steps and notice are those of `WithdrawSpec`; a notice is shown iff the withdraw failed |
| Staking.AttemptCounts | src/hooks/useStaking.ts:106-114 | each attempt reads the position once and sends iff the read found it active |
| Staking.WithdrawCounts | src/hooks/useStaking.ts:100-123 | 1 to 3 reads, one pause fewer than reads, one withdrawal per read that found the position active |
| Staking.WithdrawInactiveSendsNothing | src/hooks/useStaking.ts:106-116 | if no read finds the position active, no withdrawal is sent and the result is false |
| Staking.WithdrawInactiveError | src/hooks/useStaking.ts:110-112 | a position inactive on all attempts fails with the pre-check's own error |
| Staking.InactiveNotice | src/hooks/useStaking.ts:134-142 | the pre-check's message does not contain `Stake not active`, so it is shown as is rather than as the "already withdrawn" text |
| Staking.WithdrawOkIff | src/hooks/useStaking.ts:92-133 | success iff a contract exists, some attempt read the position active and its send succeeded, and `tx.wait()` resolved |
| Staking.WithdrawOkEndsConfirmed | src/hooks/useStaking.ts:113-131 | a successful withdraw ends with read, send and confirmation |
| Staking.ClaimRewards | src/hooks/useStaking.ts:145-178 | result and steps are those of `ClaimSpec` |
| Staking.ClaimStopsAtFirstSuccess | src/hooks/useStaking.ts:152-166 | exactly `first + 1` claims are sent when attempt `first` is the first accepted; then success iff confirmed |
| Staking.ClaimsPerAttempt | src/hooks/useStaking.ts:152-166 | one claim is sent per attempt made |
| Staking.ClaimAtMostThree | src/hooks/useStaking.ts:152-166 | one to three claims are sent |
| Staking.ClaimOkIff | src/hooks/useStaking.ts:145-178 | success iff a contract exists, some claim was accepted and it was confirmed |
| Staking.ClaimOkEndsConfirmed | src/hooks/useStaking.ts:152-172 | a successful claim ends with the accepted claim and its confirmation |
| Staking.NoContractNoCalls | src/hooks/useStaking.ts:92-97 | without a contract `withdraw`, `claimRewards` and `stake` fail with no chain step (also lines 80-83 and 147-150) |
| Staking.Stake | src/hooks/useStaking.ts:75-90 | true iff a contract instance exists; no step is taken and no callback is called |
| Staking.ApproveErrorText | src/hooks/useStaking.ts:63-69 | code 4001 gives the "user cancelled" text; otherwise the message, or `授权失败` when it is empty |
| Staking.StakingHook.Approve | src/hooks/useStaking.ts:41-73 | no signer: false, no step, the connect-wallet error; otherwise success iff parse, send and confirmation succeed, approval for exactly `parseEther(amount)`, `loading` false afterwards |
| Token.BalanceFallback | src/hooks/useToken.ts:58-62 | any failure returns `'0'` and records a non-empty error |
| Token.BalanceOkIff | src/hooks/useToken.ts:32-57 | no error is recorded iff a contract exists and one of three reads succeeded |
| Token.BalanceShown | src/hooks/useToken.ts:57 | a read balance is shown as `toFixed(5)` of its decimal text |
| Token.BalanceReadsPerAttempt | src/hooks/useToken.ts:39-51 | `balanceOf` is called once per attempt made |
| Token.BalanceStopsAtFirstSuccess | src/hooks/useToken.ts:39-51 | `balanceOf` is called once per attempt up to the first success, with a pause between attempts |
| Token.BalanceReadsBounded | src/hooks/useToken.ts:39-51 | `balanceOf` is called one to three times |
| Token.TokenState.GetBalance | src/hooks/useToken.ts:23-65 | `''` returns `'0'` and changes nothing; otherwise value, steps and error of `BalanceSpec`, `loading` false afterwards |
| Token.ApproveShortcut | src/hooks/useToken.ts:82-86 | an allowance of at least `parseEther(amount)` gives true after the single read, with no transaction |
| Token.ApproveOnlyRequested | src/hooks/useToken.ts:89-101 | the retried part submits no approval other than `approve(spender, wei)` |
| Token.ApproveCount | src/hooks/useToken.ts:89-101 | the retried part submits one to three approvals |
| Token.ApproveSentOkIff | src/hooks/useToken.ts:89-108 | the retried part succeeds iff one approval was accepted and then confirmed |
| Token.ApproveRetried | src/hooks/useToken.ts:88-108 | otherwise only approvals for exactly `parseEther(amount)`, 1 to 3 of them; success iff one was accepted and confirmed |
| Token.ApproveOkIff | src/hooks/useToken.ts:67-116 | success iff contract, allowance read and parse succeed and the allowance suffices or an approval is confirmed; failure iff an error |
| Token.TokenState.Approve | src/hooks/useToken.ts:67-116 | empty spender or amount: false and nothing changed; otherwise `ApproveSpec`, with the error's message or `授权失败` recorded, `loading` false afterwards |
| Token.GetAllowance | src/hooks/useToken.ts:118-177 | `'0'` for a missing provider, owner, spender or token address, a failed network, code or call, or code `0x`; otherwise `formatEther(allowance)`; steps a prefix of network, code, call |
| StakePage.ErrorText | src/pages/Stake.tsx:589-597 | code 4001 gives the cancel text; otherwise the message, or the fallback when it is empty |
| StakePage.InitialReferrer | src/pages/Stake.tsx:464-471 | the `ref` parameter when non-empty and accepted by `isAddress`, else `''` |
| StakePage.HasBoundReferrer | src/pages/Stake.tsx:561 | a referrer is bound when the on-chain one is present, non-empty and not the zero address; its use is stated by `StakePage.StakeDecision` and `StakePage.SubmittedReferrer` |
| StakePage.IsSelfReferral | src/pages/Stake.tsx:555 | a non-empty typed referrer equal to the account up to lower case; `StakePage.SelfReferralRefused` states its effect |
| StakePage.StakeDecision | src/pages/Stake.tsx:537-575 | submits iff the form is valid, neither numeric guard fires, it is no self-referral and a referrer is bound or typed; the bound referrer wins over the typed one |
| StakePage.FirstFailing | src/pages/Stake.tsx:537-567 | the first failing guard of a list: none iff all pass, otherwise one that fails with all before it passing |
| StakePage.StakeDecisionFollowsGuards | src/pages/Stake.tsx:537-567 | `handleStake` submits iff no guard fails, else shows the notice of the first failing guard in the written order |
| StakePage.SubmittedReferrer | src/pages/Stake.tsx:561-575 | the referrer passed to `stake` is non-empty: the bound one when it is non-zero, else the typed one |
| StakePage.SelfReferralRefused | src/pages/Stake.tsx:555-558 | the account typed in lower case is refused as a self-referral, whether or not a referrer is bound |
| StakePage.NaNAmountPassesNumericGuards | src/pages/Stake.tsx:545-553 | a NaN amount passes both numeric guards |
| StakePage.SomeActive | src/pages/Stake.tsx:521 | `some(active)` iff some position is active |
| StakePage.ReferrerStatus | src/pages/Stake.tsx:506-527 | inactive for empty or invalid addresses and failed reads; unchanged without a contract; else active iff some stake is active |
| StakePage.ReferrerReads | src/pages/Stake.tsx:507-520 | no read for an empty or invalid address or without a contract; otherwise `getUserInfo(address)`, then `getUserStakes(address)` only once it succeeded |
| StakePage.InputDisabled | src/pages/Stake.tsx:673-687 | the amount and referrer inputs are disabled while staking, withdrawing or claiming; `StakePage.BusyGatesOthers` states the gating |
| StakePage.StakeDisabled | src/pages/Stake.tsx:705 | the stake button is disabled while withdrawing or claiming; see `StakePage.BusyGatesOthers` |
| StakePage.ClaimDisabled | src/pages/Stake.tsx:723 | the claim button is disabled while staking or withdrawing; see `StakePage.BusyGatesOthers` |
| StakePage.WithdrawDisabled | src/pages/Stake.tsx:750 | each withdraw button is disabled while staking or claiming; see `StakePage.BusyGatesOthers` |
| StakePage.StakeLabelOf | src/pages/Stake.tsx:708 | `approving` iff approving, else `staking` iff staking |
| StakePage.BusyGatesOthers | src/pages/Stake.tsx:673-754 | each in-flight operation disables the other two buttons and the inputs but not its own; all enabled when idle |
| StakePage.StakePage.constructor | src/pages/Stake.tsx:463-479 | empty amount, referrer from the URL, balance `'0'`, no busy flag |
| StakePage.StakePage.CheckReferrerStatus | src/pages/Stake.tsx:506-532 | runs only for a non-empty referrer field, sets `isReferrerActive` to `ReferrerStatus` and makes the reads of `ReferrerReads` |
| StakePage.StakePage.HandleStake | src/pages/Stake.tsx:534-599 | a failed guard shows its notice and changes nothing else; otherwise one `stake` call with the chosen referrer, form cleared and stakes refreshed only on success, flags reset in every case |
| StakePage.StakePage.SubmitStake | src/pages/Stake.tsx:569-598 | one `stake` call with the chosen referrer; form cleared, success notice and stakes refreshed only on `true`; the error text on a throw; both flags reset |
| StakePage.StakePage.HandleWithdraw | src/pages/Stake.tsx:601-618 | success notice and refresh on success, error notice on a throw, `isWithdrawing` null afterwards |
| StakePage.StakePage.HandleClaimRewards | src/pages/Stake.tsx:620-637 | the same, with `isClaiming` false afterwards |
| ReferralPage.ReferralLink | src/pages/Referral.tsx:453 | the link is the origin, then `/stake?ref=`, then the account; `ReferralPage.ReferralRoundTrip` reads the account back from it |
| ReferralPage.ShortenAddress | src/pages/Referral.tsx:458-460 | first six characters, `...`, last four; `ReferralPage.ShortenMatchesFormat` and `ReferralPage.ShortenedAddressShape` state its result |
| ReferralPage.HandleCopyLink | src/pages/Referral.tsx:451-456 | nothing without an account; otherwise the referral link goes to the clipboard |
| ReferralPage.ShortenMatchesFormat | src/pages/Referral.tsx:458-460 | `shortenAddress` equals `formatAddress` on non-empty input and gives `...` on `''` |
| ReferralPage.ShortenedAddressShape | src/pages/Referral.tsx:458-460 | an address is shown as 13 characters keeping the first six and last four |
| ReferralPage.ViewOf | src/pages/Referral.tsx:466-478 | connect card, spinner, error, content, in that precedence; the content shows the copied link, `referrals.length`, and each address shortened |
| ReferralPage.ReferralRoundTrip | src/pages/Referral.tsx:453 | the stake page opened from the referral link of a valid address starts with that address as the referrer |

## Left out

- Chain and wallet I/O (contracts, `tx.wait`, `getCode`, `getNetwork`, the signer-address lookup) are oracle parameters. The signer lookup is folded into the read it feeds.
- `setTimeout` pauses are `Delay` steps; time is not modelled.
- `console` output and `window.location` are not modelled. The origin and the query string are parameters.
- ReferralPage.HandleCopyLink: the result is the text handed to `navigator.clipboard.writeText`. The promise of that write is not awaited in `src/pages/Referral.tsx:454`, and whether it settles is not modelled. The `copySuccess` notification at line 455, which is shown even if the write fails, is not recorded in `Copied`.
- `ethers.utils.isAddress`, `parseEther` and `formatEther`, and `Number(...)`/`toFixed(5)`, are parameters. Their rounding, `Infinity` and the ethers internals are not modelled.
- Floating point: JavaScript numbers are `NaN` or an exact real.
- Percent-decoding in `URLSearchParams` is not modelled.
- `validateForm` lives in `src/utils/validation`, which is not part of this model. Its result is a boolean parameter, and the `errors` map it fills is not kept.
- React scheduling is not modelled: re-renders, memoisation, async interleaving between handlers, and the intermediate states inside a handler. The page's `fetchReferrer`/`fetchBalance` effects are out too, and so is the duplicate `ref` effect at `src/pages/Stake.tsx:481-488`, which sets the same value as the initial state.
- The `!tx` and `!balance` checks after the retry loops cannot fire: the loop either breaks with a value or rethrows. They are not modelled as branches.
- Staking.StakingHook.Approve: `loading` false afterwards is stated only when a signer exists. The no-signer branch returns before the `try`, so `loading` keeps its earlier value there.
- An error without a `message` property is modelled as one with an empty message.
- Staking.Withdraw: an error without a `message` property is not distinguished from one with an empty message. In `src/hooks/useStaking.ts:136`, `error.message.includes(...)` throws a `TypeError` on such an error, so `withdraw` itself rejects and `handleWithdraw` (`src/pages/Stake.tsx:609-614`) shows that `TypeError`'s message. The model instead returns false and shows `赎回失败`. In the source the `|| '赎回失败'` fallback at line 139 is reached only for an empty message.
