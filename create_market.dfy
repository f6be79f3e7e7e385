/** The create-market form: the asset, strike price, bidding end, maturity
    and initial funding are entered, the funding is split between the long
    and the short side by a skew slider, the market manager is approved to
    spend sUSD once, and the market is then created with the packed
    arguments. Dates are milliseconds since the epoch. */
module CreateMarket {
  import opened Common
  import opened Transactions

  /** A number field that may be left empty. */
  datatype Entry = Empty | Number(value: real)

  /** The fees the manager reports, in tokens. */
  datatype MarketFees = MarketFees(creator: real, pool: real, refund: real, bidding: real)

  /** The arguments `createMarket` is called with: the asset's key, the
      strike in wei, the bidding end and maturity in seconds, and the long
      and short bids. */
  datatype CreateArgs = CreateArgs(oracleKey: string, price: int, times: (int, int), bids: (real, real))

  /** The argument list of `createMarket` and of its gas estimate: the
      packed arguments with the withdrawals toggle between the price and
      the times. */
  datatype CreateCall = CreateCall(oracleKey: string, price: int, withdrawalsEnabled: bool,
                                   times: (int, int), bids: (real, real))

  /** The button the form shows: the approval until the manager is
      approved, then the create button. */
  datatype SubmitButton = ApproveButton(waiting: bool) | CreateButton(disabled: bool, creating: bool)

  /** `Math.round(ms / 1000)`: half a second rounds up. */
  function RoundToSeconds(ms: int): (s: int)
    ensures s * 1000 - 500 <= ms < s * 1000 + 500
  {
    (ms + 500) / 1000
  }

  /** The fees as the manager reports them in wei; the bidding fee is the
      creator's and the pool's together. */
  function FeesOf(creatorFee: int, poolFee: int, refundFee: int): (f: MarketFees)
    ensures f.bidding == (creatorFee + poolFee) as real / 1000000000000000000.0
    ensures f.creator * 1000000000000000000.0 == creatorFee as real
    ensures f.pool * 1000000000000000000.0 == poolFee as real
  {
    var creator := creatorFee as real / 1000000000000000000.0;
    var pool := poolFee as real / 1000000000000000000.0;
    MarketFees(creator, pool, refundFee as real / 1000000000000000000.0, creator + pool)
  }

  /** The bids a skew gives: each side's percentage of the funding. */
  function Bids(funding: real, long: int, short: int): (bids: (real, real))
    ensures long + short == 100 ==> bids.0 + bids.1 == funding
    ensures 0 <= long <= 100 && short == 100 - long && funding >= 0.0 ==>
      0.0 <= bids.0 <= funding && 0.0 <= bids.1 <= funding
  {
    var l, r := long as real / 100.0, short as real / 100.0;
    ShareWithin(funding, l);
    ShareWithin(funding, r);
    (funding * l, funding * r)
  }

  lemma ShareWithin(funding: real, p: real)
    ensures funding >= 0.0 && 0.0 <= p <= 1.0 ==> 0.0 <= funding * p <= funding
  {
    if funding >= 0.0 && 0.0 <= p <= 1.0 {
      assert funding - funding * p == funding * (1.0 - p);
    }
  }

  class CreateMarketForm {
    var currencyKey: Option<string>
    var strikePrice: Amount
    var biddingEndDate: Option<int>
    var maturityDate: Option<int>
    var long: int
    var short: int
    var initialFundingAmount: Entry
    var isManagerApproved: bool
    var isManagerApprovalPending: bool
    var gasLimit: Option<int>
    var isCreatingMarket: bool
    var marketFees: Option<MarketFees>
    var withdrawalsEnabled: bool

    /** The skew is a split of 100 between the long and the short side. */
    predicate Valid()
      reads this
    {
      0 <= long <= 100 && long + short == 100
    }

    /** The form opens empty, at a 50/50 skew, with withdrawals enabled. */
    constructor()
      ensures Valid() && long == 50 && short == 50
      ensures currencyKey == None && strikePrice == Blank && biddingEndDate == None && maturityDate == None
      ensures initialFundingAmount == Empty && gasLimit == None && marketFees == None
      ensures !isManagerApproved && !isManagerApprovalPending && !isCreatingMarket && withdrawalsEnabled
    {
      currencyKey := None;
      strikePrice := Blank;
      biddingEndDate := None;
      maturityDate := None;
      long, short := 50, 50;
      initialFundingAmount := Empty;
      isManagerApproved := false;
      isManagerApprovalPending := false;
      gasLimit := None;
      isCreatingMarket := false;
      marketFees := None;
      withdrawalsEnabled := true;
    }

    /** `isButtonDisabled`: some field of the form is still empty. */
    function FormIncomplete(): (incomplete: bool)
      reads this
      ensures !incomplete <==>
        currencyKey.Some? && strikePrice.Wei? && biddingEndDate.Some? && maturityDate.Some? &&
        initialFundingAmount.Number?
    {
      currencyKey.None? || strikePrice.Blank? || biddingEndDate.None? || maturityDate.None? ||
      initialFundingAmount.Empty?
    }

    /** The slider sets the long side and the short side takes the rest. */
    method SetSkew(newLong: int)
      requires 0 <= newLong <= 100
      modifies this
      ensures Valid() && long == newLong && short == 100 - newLong
      ensures currencyKey == old(currencyKey) && strikePrice == old(strikePrice)
      ensures biddingEndDate == old(biddingEndDate) && maturityDate == old(maturityDate)
      ensures initialFundingAmount == old(initialFundingAmount) && gasLimit == old(gasLimit)
      ensures isManagerApproved == old(isManagerApproved) && isCreatingMarket == old(isCreatingMarket)
    {
      long := newLong;
      short := 100 - newLong;
    }

    /** The four field setters; each changes its own field only. */
    method SetCurrency(key: Option<string>)
      modifies this
      ensures currencyKey == key && strikePrice == old(strikePrice) && long == old(long) && short == old(short)
      ensures biddingEndDate == old(biddingEndDate) && maturityDate == old(maturityDate)
      ensures initialFundingAmount == old(initialFundingAmount) && withdrawalsEnabled == old(withdrawalsEnabled)
    {
      currencyKey := key;
    }

    method SetStrikePrice(price: Amount)
      modifies this
      ensures strikePrice == price && currencyKey == old(currencyKey) && long == old(long) && short == old(short)
      ensures biddingEndDate == old(biddingEndDate) && maturityDate == old(maturityDate)
      ensures initialFundingAmount == old(initialFundingAmount) && withdrawalsEnabled == old(withdrawalsEnabled)
    {
      strikePrice := price;
    }

    method SetDates(biddingEnd: Option<int>, maturity: Option<int>)
      modifies this
      ensures biddingEndDate == biddingEnd && maturityDate == maturity
      ensures currencyKey == old(currencyKey) && strikePrice == old(strikePrice) && long == old(long) && short == old(short)
      ensures initialFundingAmount == old(initialFundingAmount) && withdrawalsEnabled == old(withdrawalsEnabled)
    {
      biddingEndDate := biddingEnd;
      maturityDate := maturity;
    }

    method SetFunding(funding: Entry)
      modifies this
      ensures initialFundingAmount == funding
      ensures currencyKey == old(currencyKey) && strikePrice == old(strikePrice) && long == old(long) && short == old(short)
      ensures biddingEndDate == old(biddingEndDate) && maturityDate == old(maturityDate)
      ensures withdrawalsEnabled == old(withdrawalsEnabled)
    {
      initialFundingAmount := funding;
    }

    /** The On and Off toggles of the summary set whether bidders may
      withdraw; nothing else changes, and the gas estimate is not run
      again, since the toggle is not among the estimate's dependencies. */
    method SetWithdrawalsEnabled(enabled: bool)
      modifies this
      ensures withdrawalsEnabled == enabled
      ensures currencyKey == old(currencyKey) && strikePrice == old(strikePrice) && long == old(long) && short == old(short)
      ensures biddingEndDate == old(biddingEndDate) && maturityDate == old(maturityDate)
      ensures initialFundingAmount == old(initialFundingAmount) && gasLimit == old(gasLimit)
      ensures isManagerApproved == old(isManagerApproved) && isCreatingMarket == old(isCreatingMarket)
    {
      withdrawalsEnabled := enabled;
    }

    /** `formatCreateMarketArguments` on a complete form: the funding split
      by the skew into two bids that add up to it, and the two dates, in
      that order, to the nearest second. */
    function FormatArguments(): (args: CreateArgs)
      requires Valid() && !FormIncomplete()
      reads this
      ensures args.oracleKey == currencyKey.value && args.price == strikePrice.wei
      ensures args.bids.0 + args.bids.1 == initialFundingAmount.value
      ensures args.bids.0 == initialFundingAmount.value * long as real / 100.0
      ensures args.times.0 * 1000 - 500 <= biddingEndDate.value < args.times.0 * 1000 + 500
      ensures args.times.1 * 1000 - 500 <= maturityDate.value < args.times.1 * 1000 + 500
    {
      CreateArgs(currencyKey.value, strikePrice.wei,
                 (RoundToSeconds(biddingEndDate.value), RoundToSeconds(maturityDate.value)),
                 Bids(initialFundingAmount.value, long, short))
    }

    /** The call made with the packed arguments: the toggle as it stands
      goes in third place, everything else as `FormatArguments` packs it. */
    function CallArguments(): (call: CreateCall)
      requires Valid() && !FormIncomplete()
      reads this
      ensures call.withdrawalsEnabled == withdrawalsEnabled
      ensures CreateArgs(call.oracleKey, call.price, call.times, call.bids) == FormatArguments()
    {
      var args := FormatArguments();
      CreateCall(args.oracleKey, args.price, withdrawalsEnabled, args.times, args.bids)
    }

    /** The manager's allowance and fees have been read: any non-zero
      allowance approves it. */
    method AllowanceLoaded(allowance: int, creatorFee: int, poolFee: int, refundFee: int)
      modifies this
      ensures isManagerApproved == (allowance != 0)
      ensures marketFees == Some(FeesOf(creatorFee, poolFee, refundFee))
      ensures marketFees.value.bidding == marketFees.value.creator + marketFees.value.pool
      ensures isManagerApprovalPending == old(isManagerApprovalPending) && isCreatingMarket == old(isCreatingMarket)
      ensures long == old(long) && short == old(short)
    {
      isManagerApproved := allowance != 0;
      marketFees := Some(FeesOf(creatorFee, poolFee, refundFee));
    }

    /** An approval event from the wallet to the manager approves it; any
      other approval event is ignored. */
    method ApprovalEvent(owner: string, spender: string, walletAddress: string, managerAddress: string)
      modifies this
      ensures isManagerApproved == (old(isManagerApproved) || (owner == walletAddress && spender == managerAddress))
      ensures isManagerApprovalPending == old(isManagerApprovalPending) && isCreatingMarket == old(isCreatingMarket)
      ensures long == old(long) && short == old(short)
    {
      if owner == walletAddress && spender == managerAddress {
        isManagerApproved := true;
      }
    }

    /** The gas estimate runs only for a complete form, on the call the
      form would make; a failed estimate keeps the previous limit. */
    method GasEstimated(estimate: Option<int>) returns (estimated: Option<CreateCall>)
      requires Valid()
      modifies this
      ensures Valid() && (estimated.Some? <==> !old(FormIncomplete()))
      ensures estimated.Some? ==> !FormIncomplete() && estimated.value == CallArguments()
      ensures withdrawalsEnabled == old(withdrawalsEnabled)
      ensures !old(FormIncomplete()) && estimate.Some? ==> gasLimit == estimate
      ensures old(FormIncomplete()) || estimate.None? ==> gasLimit == old(gasLimit)
      ensures currencyKey == old(currencyKey) && strikePrice == old(strikePrice)
      ensures biddingEndDate == old(biddingEndDate) && maturityDate == old(maturityDate)
      ensures initialFundingAmount == old(initialFundingAmount) && long == old(long) && short == old(short)
      ensures isManagerApproved == old(isManagerApproved) && isCreatingMarket == old(isCreatingMarket)
    {
      estimated := None;
      if !FormIncomplete() {
        estimated := Some(CallArguments());
        if estimate.Some? {
          gasLimit := estimate;
        }
      }
    }

    /** The create button is offered once the manager is approved, and is
      enabled for a complete form with a non-zero gas limit; until then the
      approval button is shown. */
    function Button(): (b: SubmitButton)
      reads this
      ensures b.CreateButton? <==> isManagerApproved
      ensures b.CreateButton? ==>
        (!b.disabled <==> !FormIncomplete() && gasLimit.Some? && gasLimit.value != 0)
      ensures b.ApproveButton? ==> b.waiting == isManagerApprovalPending
    {
      if isManagerApproved then
        CreateButton(FormIncomplete() || gasLimit.None? || gasLimit.value == 0, isCreatingMarket)
      else ApproveButton(isManagerApprovalPending)
    }

    /** `handleApproveManager`: without a gas price nothing happens; a sent
      approval leaves the button waiting until the approval event arrives,
      and a failed one stops the wait. */
    method HandleApproveManager(gasPriceKnown: bool, succeeded: bool)
      modifies this
      ensures !gasPriceKnown ==> isManagerApprovalPending == old(isManagerApprovalPending)
      ensures gasPriceKnown ==> isManagerApprovalPending == succeeded
      ensures isManagerApproved == old(isManagerApproved) && isCreatingMarket == old(isCreatingMarket)
      ensures long == old(long) && short == old(short)
    {
      if gasPriceKnown {
        isManagerApprovalPending := true;
        if !succeeded {
          isManagerApprovalPending := false;
        }
      }
    }

    /** `handleMarketCreation`, reachable only from the enabled create
      button: with a gas price the packed arguments are sent, and the form
      is creating the market once the call went through. */
    method HandleMarketCreation(gasPriceKnown: bool, succeeded: bool) returns (sent: Option<CreateCall>)
      requires Valid() && !FormIncomplete()
      modifies this
      ensures !gasPriceKnown ==> sent == None && isCreatingMarket == old(isCreatingMarket)
      ensures gasPriceKnown ==> sent.Some? && isCreatingMarket == succeeded
      ensures sent.Some? ==> sent.value.bids.0 + sent.value.bids.1 == old(initialFundingAmount).value
      ensures sent.Some? ==> sent.value == old(CallArguments())
      ensures sent.Some? ==> sent.value.withdrawalsEnabled == old(withdrawalsEnabled)
      ensures Valid() && isManagerApproved == old(isManagerApproved) && gasLimit == old(gasLimit)
    {
      sent := None;
      if gasPriceKnown {
        sent := Some(CallArguments());
        isCreatingMarket := succeeded;
      }
    }

    /** While the market is being created, the manager's creation event for
      this wallet and asset opens the new market. */
    function MarketCreated(market: string, creator: string, oracleKey: string, walletAddress: string): (open: Option<string>)
      reads this
      ensures open.Some? <==>
        isCreatingMarket && creator == walletAddress && currencyKey.Some? && oracleKey == currencyKey.value
      ensures open.Some? ==> open.value == market
    {
      if isCreatingMarket && creator == walletAddress && currencyKey.Some? && oracleKey == currencyKey.value then
        Some(market)
      else None
    }
  }
}
