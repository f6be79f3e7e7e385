/** The Unstake panel: unstaking is started for the whole staked balance,
    and once the cooldown after that has passed the staked balance is
    withdrawn into the wallet balance. Times are in milliseconds. */
module Unstake {
  import opened Transactions

  /** The cooldown the panel waits for: one minute, though the comment above
      `addWeek` speaks of a week. */
  const Cooldown := 60 * 1000
  const Week := 7 * 24 * 60 * 60 * 1000

  /** `addWeek`: the end of the cooldown started at `time`. */
  function AddWeek(time: int): (end: int)
    ensures end > time
    ensures end - time < Week
  {
    time + Cooldown
  }

  /** The cooldown is a minute, a 10080th of the week it is named after. */
  lemma AddWeekIsAMinute(time: int)
    ensures AddWeek(time) - time == 60 * 1000 && Week == 10080 * (AddWeek(time) - time)
  {
  }

  /** `unstakingEnded`: unstaking was started and its cooldown is over. */
  function UnstakingEnded(isUnstakingInContract: bool, unstakeEndTime: int, now: int): (ended: bool)
    ensures ended ==> isUnstakingInContract
    ensures now <= unstakeEndTime ==> !ended
  {
    isUnstakingInContract && now > unstakeEndTime
  }

  /** The cooldown ends strictly after its end time: at that very moment it
      has not ended, and from the next millisecond on it has. */
  lemma EndedStrictlyAfter(unstakeEndTime: int, now: int)
    ensures !UnstakingEnded(true, unstakeEndTime, unstakeEndTime)
    ensures now > unstakeEndTime ==> UnstakingEnded(true, unstakeEndTime, now)
  {
  }

  /** The button the panel shows. */
  datatype SubmitButton = UnstakeButton(disabled: bool) | StartUnstakeButton(disabled: bool)

  /** The call whose gas the panel estimates. */
  datatype GasEstimate = NoEstimate | UnstakeCall | StartUnstakeCall(amount: int)

  class UnstakePanel {
    var isUnstakingInContract: bool
    var thalesStaked: Amount
    var thalesBalance: Amount
    var isUnstaking: bool
    var unstakeEndTime: int
    var txError: bool

    /** The panel opens with the cooldown's end a minute from now. */
    constructor(now: int, isUnstakingInContract: bool, thalesStaked: Amount, thalesBalance: Amount)
      ensures this.isUnstakingInContract == isUnstakingInContract
      ensures this.thalesStaked == thalesStaked && this.thalesBalance == thalesBalance
      ensures !isUnstaking && !txError && unstakeEndTime == AddWeek(now)
    {
      this.isUnstakingInContract := isUnstakingInContract;
      this.thalesStaked := thalesStaked;
      this.thalesBalance := thalesBalance;
      isUnstaking := false;
      unstakeEndTime := AddWeek(now);
      txError := false;
    }

    function Ended(now: int): bool
      reads this
    {
      UnstakingEnded(isUnstakingInContract, unstakeEndTime, now)
    }

    /** The staking query's result: whether unstaking was started, and when;
        the end time is moved only when it was. */
    method StakingLoaded(isUnstaking: bool, lastUnstakeTime: int)
      modifies this
      ensures isUnstakingInContract == isUnstaking
      ensures unstakeEndTime == if isUnstaking then AddWeek(lastUnstakeTime) else old(unstakeEndTime)
      ensures thalesStaked == old(thalesStaked) && thalesBalance == old(thalesBalance)
      ensures this.isUnstaking == old(this.isUnstaking) && txError == old(txError)
    {
      isUnstakingInContract := isUnstaking;
      if isUnstaking {
        unstakeEndTime := AddWeek(lastUnstakeTime);
      }
    }

    /** While unstaking is under way in the contract the panel offers the
        unstake, enabled once the cooldown is over; otherwise it offers to
        start unstaking, disabled while busy or with no staked text. */
    function Button(now: int): (b: SubmitButton)
      reads this
      ensures b.UnstakeButton? <==> isUnstakingInContract
      ensures b.UnstakeButton? ==> (!b.disabled <==> Ended(now) && !isUnstaking)
      ensures b.StartUnstakeButton? ==> (!b.disabled <==> !isUnstaking && thalesStaked.Wei?)
    {
      if isUnstakingInContract then UnstakeButton(!Ended(now) || isUnstaking)
      else StartUnstakeButton(isUnstaking || thalesStaked.Blank?)
    }

    /** The gas estimate runs when nothing is under way: for the withdrawal
        once the cooldown is over, otherwise for starting to unstake the whole
        staked balance; an empty staked text does not parse and gives no
        estimate. */
    function GasEstimateFor(now: int): (g: GasEstimate)
      reads this
      ensures isUnstaking ==> g == NoEstimate
      ensures !isUnstaking && Ended(now) ==> g == UnstakeCall
      ensures !isUnstaking && !Ended(now) && thalesStaked.Wei? ==> g == StartUnstakeCall(thalesStaked.wei)
      ensures !isUnstaking && !Ended(now) && thalesStaked.Blank? ==> g == NoEstimate
    {
      if isUnstaking then NoEstimate
      else if Ended(now) then UnstakeCall
      else if thalesStaked.Blank? then NoEstimate
      else StartUnstakeCall(thalesStaked.wei)
    }

    /** `handleStartUnstakingThales`: nothing happens without a gas price. A
        confirmed call marks unstaking as under way in the contract; a failure
        (an empty staked text included) shows the error. */
    method HandleStartUnstake(gasPriceKnown: bool, outcome: TxOutcome)
      modifies this
      ensures !gasPriceKnown ==>
        (isUnstaking == old(isUnstaking) && isUnstakingInContract == old(isUnstakingInContract) && txError == old(txError))
      ensures gasPriceKnown && thalesStaked.Wei? && outcome == Confirmed ==>
        (isUnstakingInContract && !isUnstaking && txError == old(txError))
      ensures gasPriceKnown && thalesStaked.Wei? && outcome == Unconfirmed ==>
        (isUnstaking && isUnstakingInContract == old(isUnstakingInContract) && txError == old(txError))
      ensures gasPriceKnown && (thalesStaked.Blank? || outcome == Failed) ==>
        (!isUnstaking && txError && isUnstakingInContract == old(isUnstakingInContract))
      ensures thalesStaked == old(thalesStaked) && thalesBalance == old(thalesBalance)
      ensures unstakeEndTime == old(unstakeEndTime)
    {
      if gasPriceKnown {
        isUnstaking := true;
        if thalesStaked.Blank? || outcome == Failed {
          txError := true;
          isUnstaking := false;
        } else if outcome == Confirmed {
          isUnstaking := false;
          isUnstakingInContract := true;
        }
      }
    }

    /** `handleUnstakeThales`: nothing happens without a gas price. A
        confirmed withdrawal adds the staked balance to the wallet balance,
        sets the staked balance to "0" and ends the unstaking; the two texts
        are parsed first, and one that does not parse shows the error. Either
        way the wallet's THALES, balance plus staked, stay the same. */
    method HandleUnstake(gasPriceKnown: bool, outcome: TxOutcome)
      modifies this
      ensures !gasPriceKnown ==>
        (isUnstaking == old(isUnstaking) && isUnstakingInContract == old(isUnstakingInContract) &&
         thalesStaked == old(thalesStaked) && thalesBalance == old(thalesBalance) && txError == old(txError))
      ensures gasPriceKnown && outcome == Confirmed && old(thalesBalance).Wei? && old(thalesStaked).Wei? ==>
        (thalesBalance == Wei(old(thalesBalance).wei + old(thalesStaked).wei) && thalesStaked == Wei(0) &&
         !isUnstakingInContract && !isUnstaking && txError == old(txError))
      ensures gasPriceKnown && outcome == Unconfirmed ==>
        (isUnstaking && isUnstakingInContract == old(isUnstakingInContract) &&
         thalesStaked == old(thalesStaked) && thalesBalance == old(thalesBalance) && txError == old(txError))
      ensures gasPriceKnown && (outcome == Failed || (outcome == Confirmed && (old(thalesBalance).Blank? || old(thalesStaked).Blank?))) ==>
        (!isUnstaking && txError && isUnstakingInContract == old(isUnstakingInContract) &&
         thalesStaked == old(thalesStaked) && thalesBalance == old(thalesBalance))
      ensures Value(thalesBalance) + Value(thalesStaked) == old(Value(thalesBalance) + Value(thalesStaked))
      ensures unstakeEndTime == old(unstakeEndTime)
    {
      if gasPriceKnown {
        isUnstaking := true;
        match outcome {
          case Failed =>
            txError := true;
            isUnstaking := false;
          case Unconfirmed =>
          case Confirmed =>
            if thalesBalance.Blank? || thalesStaked.Blank? {
              txError := true;
              isUnstaking := false;
            } else {
              var newThalesBalance := thalesBalance.wei + thalesStaked.wei;
              isUnstaking := false;
              isUnstakingInContract := false;
              thalesBalance := Wei(newThalesBalance);
              thalesStaked := Wei(0);
            }
        }
      }
    }
  }
}
