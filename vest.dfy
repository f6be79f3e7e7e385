/** The Vest panel: the claimable escrowed amount is read from the escrow
    contract and vested in one transaction. */
module Vest {
  import opened Transactions

  class VestPanel {
    var claimable: Amount
    var isClaiming: bool
    var txError: bool

    /** `claimable` starts as "0". */
    constructor()
      ensures claimable == Wei(0) && !isClaiming && !txError
    {
      claimable := Wei(0);
      isClaiming := false;
      txError := false;
    }

    /** The escrow query's result is copied in. */
    method EscrowLoaded(newClaimable: Amount)
      modifies this
      ensures claimable == newClaimable && isClaiming == old(isClaiming) && txError == old(txError)
    {
      claimable := newClaimable;
    }

    /** `!+claimable`: nothing to vest, the empty text included. */
    predicate NothingToVest()
      reads this
    {
      Value(claimable) == 0
    }

    function VestDisabled(): (disabled: bool)
      reads this
      ensures !disabled <==> !isClaiming && Value(claimable) != 0
    {
      isClaiming || NothingToVest()
    }

    /** The gas estimate runs only for a connected wallet, something to vest
        and a deployed escrow contract. */
    function GasEstimateRuns(isWalletConnected: bool, hasEscrowContract: bool): (runs: bool)
      reads this
      ensures runs ==> !NothingToVest()
      ensures runs <==> isWalletConnected && hasEscrowContract && Value(claimable) != 0
    {
      !(!isWalletConnected || NothingToVest() || !hasEscrowContract)
    }

    /** `handleVest`: the error is cleared and claiming starts. A confirmed
        vest leaves nothing to claim, so the button is disabled and no gas is
        estimated until the escrow query reports more; a failure (the empty
        text does not parse) shows the error and keeps the amount; a receipt
        without a hash leaves the panel claiming. */
    method HandleVest(outcome: TxOutcome)
      modifies this
      ensures old(claimable).Wei? && outcome == Confirmed ==>
        claimable == Wei(0) && NothingToVest() && !isClaiming && !txError
      ensures old(claimable).Wei? && outcome == Unconfirmed ==> claimable == old(claimable) && isClaiming && !txError
      ensures old(claimable).Blank? || outcome == Failed ==> claimable == old(claimable) && !isClaiming && txError
    {
      txError := false;
      isClaiming := true;
      if claimable.Blank? || outcome == Failed {
        txError := true;
        isClaiming := false;
      } else if outcome == Confirmed {
        claimable := Wei(0);
        isClaiming := false;
      }
    }
  }
}
