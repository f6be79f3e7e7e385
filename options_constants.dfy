/** The options constants: market phases and their numbers, the two option
    sides and their numbers, and the periods an order can be placed for. */
module OptionsConstants {
  import opened Common

  /** A market's phase. */
  datatype Phase = Trading | Maturity | Expiry

  /** `PHASE`: each phase's number. */
  function PhaseNumber(p: Phase): (n: nat)
    ensures n < 3
  {
    match p
    case Trading => 0
    case Maturity => 1
    case Expiry => 2
  }

  /** The phase's key, as the markets report it. */
  function PhaseName(p: Phase): string
  {
    match p
    case Trading => "trading"
    case Maturity => "maturity"
    case Expiry => "expiry"
  }

  /** `PHASES`: the phases in order. */
  const Phases: seq<Phase> := [Trading, Maturity, Expiry]

  /** `PHASES_CARDS`: the phases that get a card. */
  const PhasesCards: seq<Phase> := [Trading, Maturity]

  /** `PHASE[PHASES[i]] == i`, and every phase is listed once. */
  lemma PhasesAreNumbered()
    ensures |Phases| == 3
    ensures forall i :: 0 <= i < |Phases| ==> PhaseNumber(Phases[i]) == i
    ensures forall p: Phase :: Phases[PhaseNumber(p)] == p
  {
  }

  /** The phases with a card are the first ones of the list; the expired
      phase has none. */
  lemma CardsArePrefix()
    ensures PhasesCards == Phases[..|PhasesCards|]
    ensures Expiry !in PhasesCards
  {
  }

  /** The phase keys differ, so a key names one phase. */
  lemma PhaseNamesDistinct(p: Phase, q: Phase)
    ensures PhaseName(p) == PhaseName(q) <==> p == q
  {
  }

  /** A key of `SIDE`: a side's name or a side's number. */
  datatype SideKey = Name(name: string) | Index(index: int)

  /** `SIDE`: "long" and "short" to 0 and 1, and back; anything else is not
      a key. */
  function Side(key: SideKey): (value: Option<SideKey>)
    ensures value.Some? <==> key in {Name("long"), Name("short"), Index(0), Index(1)}
    ensures value.Some? ==> (key.Name? <==> value.value.Index?)
  {
    match key
    case Name(n) =>
      if n == "long" then Some(Index(0)) else if n == "short" then Some(Index(1)) else None
    case Index(i) =>
      if i == 0 then Some(Name("long")) else if i == 1 then Some(Name("short")) else None
  }

  /** `SIDE[SIDE[x]] == x` for every key. */
  lemma SideRoundTrip(key: SideKey)
    requires Side(key).Some?
    ensures Side(Side(key).value) == Some(key)
  {
  }

  /** The periods an order can be placed for. */
  datatype OrderPeriod = TenMinutes | OneHour | OneDay | OneWeek | TradingEnd | Custom

  /** `ORDER_PERIOD_IN_SECONDS`; the trading-end and custom periods have no
      fixed length. */
  function PeriodInSeconds(p: OrderPeriod): (seconds: nat)
    ensures seconds == 0 <==> p == TradingEnd || p == Custom
  {
    match p
    case TenMinutes => 600
    case OneHour => 3600
    case OneDay => 86400
    case OneWeek => 604800
    case TradingEnd => 0
    case Custom => 0
  }

  /** The fixed periods build on one another. */
  lemma PeriodsScale()
    ensures PeriodInSeconds(TenMinutes) == 10 * 60
    ensures PeriodInSeconds(OneHour) == 6 * PeriodInSeconds(TenMinutes)
    ensures PeriodInSeconds(OneDay) == 24 * PeriodInSeconds(OneHour)
    ensures PeriodInSeconds(OneWeek) == 7 * PeriodInSeconds(OneDay)
  {
  }

  /** The enumeration in declaration order. */
  const AllPeriods: seq<OrderPeriod> := [TenMinutes, OneHour, OneDay, OneWeek, TradingEnd, Custom]

  /** An item of the period picker: the period and its label key. */
  datatype OrderPeriodItem = OrderPeriodItem(value: OrderPeriod, i18nLabel: string)

  /** `ORDER_PERIOD_ITEMS_MAP`. */
  const OrderPeriodItems: seq<OrderPeriodItem> := [
    OrderPeriodItem(TenMinutes, "options.common.order-periods.10M"),
    OrderPeriodItem(OneHour, "options.common.order-periods.1H"),
    OrderPeriodItem(OneDay, "options.common.order-periods.1D"),
    OrderPeriodItem(OneWeek, "options.common.order-periods.1W"),
    OrderPeriodItem(TradingEnd, "options.common.order-periods.trading-end")
  ]

  /** The period has an item in the picker. */
  predicate Offered(p: OrderPeriod)
  {
    exists i :: 0 <= i < |OrderPeriodItems| && OrderPeriodItems[i].value == p
  }

  /** The picker offers every period but the custom one, in the
      enumeration's order, once each. */
  lemma PickerOffersAllButCustom()
    ensures |OrderPeriodItems| == |AllPeriods| - 1
    ensures forall i :: 0 <= i < |OrderPeriodItems| ==> OrderPeriodItems[i].value == AllPeriods[i]
    ensures forall p: OrderPeriod :: p != Custom <==> Offered(p)
  {
    forall p: OrderPeriod | p != Custom
      ensures Offered(p)
    {
      var i := match p
        case TenMinutes => 0 case OneHour => 1 case OneDay => 2 case OneWeek => 3 case _ => 4;
      assert OrderPeriodItems[i].value == p;
    }
  }
}
