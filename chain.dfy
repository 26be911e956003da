/** The narrow surface of the wallet provider and the contracts that the hooks use, as data:
    errors, replies of calls, and the externally visible steps an operation takes. */
module Chain {
  import opened Js

  /** An error raised by ethers or by the wallet: a code when there is one, and a message. */
  datatype Error = Error(code: Option<int>, message: string)

  /** The wallet's code for a request the user rejected. */
  const UserRejectedCode: int := 4001

  predicate IsUserRejection(e: Error) {
    e.code == Some(UserRejectedCode)
  }

  /** An error raised by the hooks themselves (`throw new Error(message)`), which has no code. */
  function Thrown(message: string): (e: Error)
    ensures !IsUserRejection(e) && e.message == message
  {
    Error(None, message)
  }

  /** The message the hooks throw when no contract instance could be obtained. */
  const ContractMissing: string := "获取合约实例失败"

  /** The settled value of an awaited call: resolved with a value, or rejected with an error. */
  datatype Reply<+T> = Ok(value: T) | Fail(error: Error)

  /** A step an operation takes that the outside world can observe: a contract read, a signed
      transaction, a wait for its confirmation, or a one-second pause between attempts. */
  datatype Step =
    | GetStakeInfo(index: nat)                    // staking.getUserStakeInfo(signer, index)
    | SendWithdraw(index: nat)                    // staking.withdraw(index)
    | SendClaimRewards                            // staking.claimRewards()
    | BalanceOf(owner: string)                    // token.balanceOf(owner)
    | ReadAllowance(spender: string)              // token.allowance(signer, spender)
    | SendApprove(spender: string, amount: nat)   // token.approve(spender, amount)
    | GetNetwork                                  // provider.getNetwork()
    | GetCode(address: string)                    // provider.getCode(address)
    | CallAllowance(owner: string, spender: string) // token.callStatic.allowance(owner, spender)
    | GetUserInfo(address: string)                // staking.getUserInfo(address)
    | GetUserStakes(address: string)              // staking.getUserStakes(address)
    | Wait                                        // tx.wait()
    | Delay                                       // setTimeout(resolve, 1000)

  /** True for the steps that put a signed transaction on the network. */
  predicate IsWrite(s: Step) {
    s.SendWithdraw? || s.SendClaimRewards? || s.SendApprove?
  }
}
