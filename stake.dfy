/** The Stake panel: the amount to stake is typed or set to the whole
    balance, the staking contract is approved once, and a confirmed stake
    moves the amount from the wallet balance to the staked balance. */
module Stake {
  import opened Common
  import opened Transactions

  /** The amount field: the number 0 it starts from and returns to, or the
      text typed or copied into it. */
  datatype StakeAmount = Untouched | Input(text: Amount)

  /** `!amountToStake`: the number 0 and the empty text are both falsy; any
      other text, "0" included, is truthy. */
  predicate IsEmpty(a: StakeAmount)
  {
    a.Untouched? || a.text.Blank?
  }

  /** What `parseEther(amountToStake.toString())` yields: the number 0 reads
      as 0 wei, and the empty text does not parse. */
  function Parse(a: StakeAmount): Option<int>
  {
    match a
    case Untouched => Some(0)
    case Input(Blank) => None
    case Input(Wei(w)) => Some(w)
  }

  /** The button the panel shows: the approval until the allowance exists,
      then the stake button. */
  datatype Button = ApproveButton(disabled: bool) | StakeButton(disabled: bool)

  /** A confirmed stake of `amount` moves it from the balance to the staked
      balance. */
  function Transfer(balance: int, staked: int, amount: int): (r: (int, int))
    ensures r.0 + r.1 == balance + staked
    ensures r.1 - staked == amount
  {
    (balance - amount, staked + amount)
  }

  class StakePanel {
    var balance: Amount
    var thalesStaked: Amount
    var amountToStake: StakeAmount
    var isAllowingStake: bool
    var isStaking: bool
    var hasStakeAllowance: bool
    var txError: bool

    /** The amount asked for is covered by the balance. */
    predicate AmountCovered()
      reads this
    {
      Value(AmountOf(amountToStake)) <= Value(balance)
    }

    constructor(balance: Amount, thalesStaked: Amount)
      ensures this.balance == balance && this.thalesStaked == thalesStaked
      ensures amountToStake == Untouched && !isAllowingStake && !isStaking && !hasStakeAllowance && !txError
    {
      this.balance := balance;
      this.thalesStaked := thalesStaked;
      amountToStake := Untouched;
      isAllowingStake := false;
      isStaking := false;
      hasStakeAllowance := false;
      txError := false;
    }

    /** The balance query's result is copied in. */
    method BalanceLoaded(newBalance: Amount)
      modifies this
      ensures balance == newBalance
      ensures thalesStaked == old(thalesStaked) && amountToStake == old(amountToStake)
      ensures isAllowingStake == old(isAllowingStake) && isStaking == old(isStaking)
      ensures hasStakeAllowance == old(hasStakeAllowance) && txError == old(txError)
    {
      balance := newBalance;
    }

    /** The input's `onChange`: a value is taken only when it does not exceed
        the balance. */
    method ChangeAmount(value: Amount)
      modifies this
      ensures amountToStake == if Value(value) <= Value(balance) then Input(value) else old(amountToStake)
      ensures old(AmountCovered()) ==> AmountCovered()
      ensures balance == old(balance) && thalesStaked == old(thalesStaked)
      ensures isAllowingStake == old(isAllowingStake) && isStaking == old(isStaking)
      ensures hasStakeAllowance == old(hasStakeAllowance) && txError == old(txError)
    {
      if Value(value) <= Value(balance) {
        amountToStake := Input(value);
      }
    }

    /** Max: the whole balance. */
    method Max()
      modifies this
      ensures amountToStake == Input(balance) && AmountCovered()
      ensures balance == old(balance) && thalesStaked == old(thalesStaked)
      ensures isAllowingStake == old(isAllowingStake) && isStaking == old(isStaking)
      ensures hasStakeAllowance == old(hasStakeAllowance) && txError == old(txError)
    {
      amountToStake := Input(balance);
    }

    /** The input and Max are disabled while a stake or an unstake is under
        way. */
    function InputDisabled(isUnstaking: bool): bool
      reads this
    {
      isStaking || isUnstaking
    }

    function Button(isUnstaking: bool): (b: Button)
      reads this
      ensures b.ApproveButton? <==> !hasStakeAllowance
      ensures b.ApproveButton? ==> (b.disabled <==> isAllowingStake)
      ensures b.StakeButton? ==> (b.disabled <==> IsEmpty(amountToStake) || InputDisabled(isUnstaking))
    {
      if !hasStakeAllowance then ApproveButton(isAllowingStake)
      else StakeButton(IsEmpty(amountToStake) || isStaking || isUnstaking)
    }

    /** The allowance read from the token contract: any non-zero allowance
        counts. */
    method AllowanceLoaded(allowance: int)
      modifies this
      ensures hasStakeAllowance == (allowance != 0)
      ensures balance == old(balance) && thalesStaked == old(thalesStaked) && amountToStake == old(amountToStake)
      ensures isAllowingStake == old(isAllowingStake) && isStaking == old(isStaking) && txError == old(txError)
    {
      hasStakeAllowance := allowance != 0;
    }

    /** An approval event from the wallet to the staking contract grants the
        allowance; any other approval event is ignored. */
    method ApprovalEvent(owner: string, spender: string, walletAddress: string, stakingAddress: string)
      modifies this
      ensures owner == walletAddress && spender == stakingAddress ==> hasStakeAllowance && !isAllowingStake
      ensures !(owner == walletAddress && spender == stakingAddress) ==>
        hasStakeAllowance == old(hasStakeAllowance) && isAllowingStake == old(isAllowingStake)
      ensures balance == old(balance) && thalesStaked == old(thalesStaked) && amountToStake == old(amountToStake)
      ensures isStaking == old(isStaking) && txError == old(txError)
    {
      if owner == walletAddress && spender == stakingAddress {
        hasStakeAllowance := true;
        isAllowingStake := false;
      }
    }

    /** `handleAllowance`: approving the staking contract. */
    method HandleAllowance(outcome: TxOutcome)
      modifies this
      ensures outcome == Confirmed ==> hasStakeAllowance && !isAllowingStake && txError == old(txError)
      ensures outcome == Unconfirmed ==> hasStakeAllowance == old(hasStakeAllowance) && isAllowingStake && txError == old(txError)
      ensures outcome == Failed ==> hasStakeAllowance == old(hasStakeAllowance) && !isAllowingStake && txError
      ensures balance == old(balance) && thalesStaked == old(thalesStaked) && amountToStake == old(amountToStake)
      ensures isStaking == old(isStaking)
    {
      isAllowingStake := true;
      match outcome {
        case Confirmed =>
          hasStakeAllowance := true;
          isAllowingStake := false;
        case Unconfirmed =>
        case Failed =>
          txError := true;
          isAllowingStake := false;
      }
    }

    /** `handleStakeThales`. The amount is parsed before the call and the
        balances after it; a text that does not parse throws, and the panel
        shows the error with the balances untouched. A confirmed stake moves
        the amount from the balance to the staked balance and clears the
        field; a receipt without a decodable event leaves the panel staking.
        Whatever happens, balance plus staked stays the same. */
    method HandleStake(outcome: TxOutcome)
      modifies this
      ensures var parsed := Parse(old(amountToStake));
        parsed.Some? && outcome == Confirmed && old(balance).Wei? && old(thalesStaked).Wei? ==>
          (balance.Wei? && thalesStaked.Wei? &&
           (balance.wei, thalesStaked.wei) == Transfer(old(balance).wei, old(thalesStaked).wei, parsed.value) &&
           amountToStake == Untouched && !isStaking && !txError)
      ensures Parse(old(amountToStake)).Some? && outcome == Unconfirmed ==>
        (isStaking && !txError && balance == old(balance) && thalesStaked == old(thalesStaked) &&
         amountToStake == old(amountToStake))
      ensures Parse(old(amountToStake)).None? || outcome == Failed ||
              (outcome == Confirmed && (old(balance).Blank? || old(thalesStaked).Blank?)) ==>
        (!isStaking && txError && balance == old(balance) && thalesStaked == old(thalesStaked) &&
         amountToStake == old(amountToStake))
      ensures Value(balance) + Value(thalesStaked) == old(Value(balance) + Value(thalesStaked))
      ensures isAllowingStake == old(isAllowingStake) && hasStakeAllowance == old(hasStakeAllowance)
    {
      txError := false;
      isStaking := true;
      var parsed := Parse(amountToStake);
      if parsed.None? || outcome == Failed {
        txError := true;
        isStaking := false;
      } else if outcome == Confirmed {
        if balance.Blank? || thalesStaked.Blank? {
          txError := true;
          isStaking := false;
        } else {
          var (newBalance, newStaked) := Transfer(balance.wei, thalesStaked.wei, parsed.value);
          balance := Wei(newBalance);
          amountToStake := Untouched;
          thalesStaked := Wei(newStaked);
          isStaking := false;
        }
      }
    }
  }

  /** The amount a field holds, as the text `+` reads. */
  function AmountOf(a: StakeAmount): Amount
  {
    if a.Untouched? then Wei(0) else a.text
  }

  /** While a stake is under way the panel offers nothing that starts
      another: the stake button, the input and Max are all disabled. */
  lemma NoSecondStake(p: StakePanel, isUnstaking: bool)
    requires p.isStaking && p.hasStakeAllowance
    ensures p.Button(isUnstaking).disabled && p.InputDisabled(isUnstaking)
  {
  }
}
