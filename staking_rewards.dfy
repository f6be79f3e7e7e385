/** The staking-rewards panel: the ongoing airdrop's reward is shown as
    balances and a pie, and can be claimed once; a claimed reward is added to
    the escrowed balance. */
module StakingRewards {
  import opened Common
  import opened Transactions

  /** The reward of the ongoing airdrop: its Merkle index and raw amount
      (wei), which the claim sends, and the balances it is shown as. */
  datatype Reward = Reward(index: int, rawBalance: int, stakingBalance: real, snxBalance: real,
                           balance: real, previousBalance: real)

  datatype Airdrop = Airdrop(reward: Option<Reward>, hasClaimRights: bool, claimed: bool, isClaimPaused: bool)

  /** `isClaimAvailable`: there is a reward, the wallet has the right to claim
      it, has not claimed it, and claiming is not paused. */
  predicate ClaimAvailable(airdrop: Option<Airdrop>)
  {
    airdrop.Some? && airdrop.value.reward.Some? && airdrop.value.hasClaimRights &&
    !airdrop.value.claimed && !airdrop.value.isClaimPaused
  }

  /** The amounts the panel shows: staking, SNX, total and previous period. */
  datatype Balances = Balances(staking: real, snx: real, total: real, previous: real)

  function ShownBalances(airdrop: Option<Airdrop>): (b: Balances)
    ensures !ClaimAvailable(airdrop) ==> b == Balances(0.0, 0.0, 0.0, 0.0)
    ensures ClaimAvailable(airdrop) ==>
      var r := airdrop.value.reward.value;
      b == Balances(r.stakingBalance, r.snxBalance, r.balance, r.previousBalance)
  {
    if ClaimAvailable(airdrop) then
      var r := airdrop.value.reward.value;
      Balances(r.stakingBalance, r.snxBalance, r.balance, r.previousBalance)
    else Balances(0.0, 0.0, 0.0, 0.0)
  }

  /** A slice of the pie; a slice without a colour is drawn with the THALES
      gradient. */
  datatype Slice = Slice(name: string, value: real, color: Option<string>)

  /** `pieData`: a single grey "No data" slice of 100 when nothing can be
      claimed, otherwise the THALES and SNX parts of the reward. */
  function PieData(airdrop: Option<Airdrop>): (pie: seq<Slice>)
    ensures !ClaimAvailable(airdrop) ==> pie == [Slice("No data", 100.0, Some("#748bc6"))]
    ensures ClaimAvailable(airdrop) ==>
      (|pie| == 2 && pie[0].value == ShownBalances(airdrop).staking && pie[1].value == ShownBalances(airdrop).snx)
  {
    if !ClaimAvailable(airdrop) then [Slice("No data", 100.0, Some("#748bc6"))]
    else
      var r := airdrop.value.reward.value;
      [Slice("Thales", r.stakingBalance, None), Slice("SNX", r.snxBalance, Some("#00D1FF"))]
  }

  /** The three messages under the button. */
  predicate PausedMessage(airdrop: Option<Airdrop>)
  {
    airdrop.Some? && airdrop.value.isClaimPaused
  }

  predicate NotEligibleMessage(airdrop: Option<Airdrop>)
  {
    airdrop.Some? && !airdrop.value.isClaimPaused && !airdrop.value.hasClaimRights
  }

  predicate ClaimedMessage(airdrop: Option<Airdrop>)
  {
    airdrop.Some? && airdrop.value.hasClaimRights && !airdrop.value.isClaimPaused && airdrop.value.claimed
  }

  /** At most one message is shown, and none while a claim is available. */
  lemma MessagesExclusive(airdrop: Option<Airdrop>)
    ensures !(PausedMessage(airdrop) && NotEligibleMessage(airdrop))
    ensures !(PausedMessage(airdrop) && ClaimedMessage(airdrop))
    ensures !(NotEligibleMessage(airdrop) && ClaimedMessage(airdrop))
    ensures ClaimAvailable(airdrop) ==>
      !PausedMessage(airdrop) && !NotEligibleMessage(airdrop) && !ClaimedMessage(airdrop)
  {
  }

  /** A claimed reward cannot be claimed again, and the panel then says it was
      claimed unless claiming is paused. */
  lemma ClaimedIsFinal(a: Airdrop)
    requires a.hasClaimRights
    ensures !ClaimAvailable(Some(a.(claimed := true)))
    ensures !a.isClaimPaused ==> ClaimedMessage(Some(a.(claimed := true)))
  {
  }

  /** `bigNumberFormatter`: wei as a number of tokens. */
  function Tokens(wei: int): (tokens: real)
    ensures tokens * 1000000000000000000.0 == wei as real
  {
    wei as real / 1000000000000000000.0
  }

  class StakingRewardsPanel {
    var ongoingAirdrop: Option<Airdrop>
    var escrowedBalance: real
    var isClaiming: bool
    var txError: bool

    constructor(escrowedBalance: real)
      ensures ongoingAirdrop == None && this.escrowedBalance == escrowedBalance && !isClaiming && !txError
    {
      ongoingAirdrop := None;
      this.escrowedBalance := escrowedBalance;
      isClaiming := false;
      txError := false;
    }

    /** The airdrop query's result is copied in. */
    method AirdropLoaded(airdrop: Airdrop)
      modifies this
      ensures ongoingAirdrop == Some(airdrop)
      ensures escrowedBalance == old(escrowedBalance) && isClaiming == old(isClaiming) && txError == old(txError)
    {
      ongoingAirdrop := Some(airdrop);
    }

    function ClaimDisabled(): (disabled: bool)
      reads this
      ensures !disabled <==> ClaimAvailable(ongoingAirdrop) && !isClaiming
    {
      !ClaimAvailable(ongoingAirdrop) || isClaiming
    }

    /** `handleClaimOngoingAirdrop`: it acts only when a claim is available and
        a gas price is known. A confirmed claim marks the airdrop claimed and
        adds the reward to the escrowed balance, after which nothing more can
        be claimed; a failure shows the error and changes neither. */
    method HandleClaim(gasPriceKnown: bool, outcome: TxOutcome)
      modifies this
      ensures !(ClaimAvailable(old(ongoingAirdrop)) && gasPriceKnown) ==>
        ongoingAirdrop == old(ongoingAirdrop) && escrowedBalance == old(escrowedBalance) &&
        isClaiming == old(isClaiming) && txError == old(txError)
      ensures ClaimAvailable(old(ongoingAirdrop)) && gasPriceKnown && outcome == Confirmed ==>
        ongoingAirdrop == Some(old(ongoingAirdrop).value.(claimed := true)) &&
        escrowedBalance == old(escrowedBalance) + Tokens(old(ongoingAirdrop).value.reward.value.rawBalance) &&
        !isClaiming && txError == old(txError) && !ClaimAvailable(ongoingAirdrop)
      ensures ClaimAvailable(old(ongoingAirdrop)) && gasPriceKnown && outcome == Unconfirmed ==>
        ongoingAirdrop == old(ongoingAirdrop) && escrowedBalance == old(escrowedBalance) &&
        isClaiming && txError == old(txError)
      ensures ClaimAvailable(old(ongoingAirdrop)) && gasPriceKnown && outcome == Failed ==>
        ongoingAirdrop == old(ongoingAirdrop) && escrowedBalance == old(escrowedBalance) &&
        !isClaiming && txError
    {
      if ClaimAvailable(ongoingAirdrop) && gasPriceKnown {
        isClaiming := true;
        match outcome {
          case Confirmed =>
            var airdrop := ongoingAirdrop.value;
            ongoingAirdrop := Some(airdrop.(claimed := true));
            escrowedBalance := escrowedBalance + Tokens(airdrop.reward.value.rawBalance);
            isClaiming := false;
          case Unconfirmed =>
          case Failed =>
            txError := true;
            isClaiming := false;
        }
      }
    }
  }
}
