/** State-update rules of the application: the generic field setter
    (handleStateChange), which recomputes the weighted stock allocation and
    keeps the tax-free invested capital within the combined portfolios, the
    event-list add/update/remove updaters, and the start/end-year ordering
    kept by the event sliders. Each returns a new state, as the source's
    `setState(prev => ...)` callbacks do. */
module AppState {
  import opened Numeric
  import opened Parameters
  import opened Allocation

  /** The numeric fields the UI sets through handleStateChange. */
  datatype AmountField =
    | InitialPortfolioSize | PensionPortfolioSize | AdditionalPensionAmount | InvestedCapital
    | AnnualSavings | Row1StockAllocation | Row2StockAllocation
    | StockReturnRate | BondReturnRate | ShieldingRate | KpiRate | AdvisoryFeeRate
    | ManualStockTaxRate | ManualBondTaxRate
    | DesiredAnnualConsumptionPayout | DesiredAnnualWealthTaxPayout
    | StockStdDev | BondStdDev

  /** One `handleStateChange(id, value)` call: the field id and its new value. */
  datatype Change =
    | SetAmount(field: AmountField, value: real)
    | SetInvestmentYears(years: nat)
    | SetPayoutYears(years: nat)
    | SetInvestorType(investorType: InvestorType)
    | SetTaxCalculationEnabled(enabled: bool)
    | SetDeferredInterestTax(deferred: bool)

  /** `{ ...prevState, [id]: value }`. */
  function Assign(s: Params, c: Change): Params
  {
    match c
    case SetInvestmentYears(n) => s.(investmentYears := n)
    case SetPayoutYears(n) => s.(payoutYears := n)
    case SetInvestorType(t) => s.(investorType := t)
    case SetTaxCalculationEnabled(b) => s.(taxCalculationEnabled := b)
    case SetDeferredInterestTax(b) => s.(deferredInterestTax := b)
    case SetAmount(f, v) =>
      match f
      case InitialPortfolioSize => s.(initialPortfolioSize := v)
      case PensionPortfolioSize => s.(pensionPortfolioSize := v)
      case AdditionalPensionAmount => s.(additionalPensionAmount := v)
      case InvestedCapital => s.(investedCapital := v)
      case AnnualSavings => s.(annualSavings := v)
      case Row1StockAllocation => s.(row1StockAllocation := v)
      case Row2StockAllocation => s.(row2StockAllocation := v)
      case StockReturnRate => s.(stockReturnRate := v)
      case BondReturnRate => s.(bondReturnRate := v)
      case ShieldingRate => s.(shieldingRate := v)
      case KpiRate => s.(kpiRate := v)
      case AdvisoryFeeRate => s.(advisoryFeeRate := v)
      case ManualStockTaxRate => s.(manualStockTaxRate := v)
      case ManualBondTaxRate => s.(manualBondTaxRate := v)
      case DesiredAnnualConsumptionPayout => s.(desiredAnnualConsumptionPayout := v)
      case DesiredAnnualWealthTaxPayout => s.(desiredAnnualWealthTaxPayout := v)
      case StockStdDev => s.(stockStdDev := v)
      case BondStdDev => s.(bondStdDev := v)
  }

  /** The changes after which the invested capital is clamped: a change of
      one of the three portfolio sizes or of the invested capital itself. */
  predicate ClampsInvestedCapital(c: Change)
  {
    c.SetAmount? &&
    c.field in {InitialPortfolioSize, PensionPortfolioSize, AdditionalPensionAmount, InvestedCapital}
  }

  /** handleStateChange: assigns the field, recomputes initialStockAllocation
      from the new portfolio sizes, and, after a change of a portfolio size or
      of the invested capital, lowers the invested capital to the combined
      portfolio size when it exceeds it. No other field changes. */
  function HandleStateChange(s: Params, c: Change): (r: Params)
    ensures r.initialStockAllocation == ComputeInitialStockPct(r) as real
    ensures ClampsInvestedCapital(c) ==>
              r.investedCapital == Min(Assign(s, c).investedCapital, r.SeedTotal())
    ensures !ClampsInvestedCapital(c) ==> r.investedCapital == s.investedCapital
    ensures r == Assign(s, c).(initialStockAllocation := r.initialStockAllocation,
                               investedCapital := r.investedCapital)
  {
    var newState := Assign(s, c);
    var withPct := newState.(initialStockAllocation := ComputeInitialStockPct(newState) as real);
    var combinedPortfolio := withPct.SeedTotal();
    StockPctDependsOnSizesAndAllocations(newState, withPct);
    StockPctDependsOnSizesAndAllocations(newState, withPct.(investedCapital := combinedPortfolio));
    if ClampsInvestedCapital(c) && withPct.investedCapital > combinedPortfolio then
      withPct.(investedCapital := combinedPortfolio)
    else
      withPct
  }

  /** Once the invested capital is within the combined portfolio size, every
      state change keeps it there. */
  lemma HandleStateChangeKeepsCapitalBound(s: Params, c: Change)
    requires s.investedCapital <= s.SeedTotal()
    ensures var r := HandleStateChange(s, c); r.investedCapital <= r.SeedTotal()
  {
    var r := HandleStateChange(s, c);
    if !ClampsInvestedCapital(c) {
      assert r.SeedTotal() == s.SeedTotal() by {
        assert c.SetAmount? ==> c.field !in {InitialPortfolioSize, PensionPortfolioSize, AdditionalPensionAmount};
      }
    }
  }

  // ---------------------------------------------------------------------
  // Event list

  /** One `handleUpdateEvent(id, key, value)` call: the key and its value. */
  datatype EventChange =
    | SetBelop(belop: real)
    | SetStartAar(startAar: int)
    | SetSluttAar(sluttAar: int)
    | SetAddToInvestedCapital(add: bool)
    | SetKind(kind: string)

  function ApplyEventChange(e: Event, k: EventChange): Event
  {
    match k
    case SetBelop(v) => e.(belop := v)
    case SetStartAar(v) => e.(startAar := v)
    case SetSluttAar(v) => e.(sluttAar := v)
    case SetAddToInvestedCapital(v) => e.(addToInvestedCapital := v)
    case SetKind(v) => e.(kind := v)
  }

  /** The event handleAddEvent appends: a zero withdrawal in START_YEAR whose
      inflows would count towards invested capital. Its id comes from the clock. */
  function NewEvent(id: string): Event
  {
    Event(id, "Uttak", 0.0, START_YEAR, START_YEAR, true)
  }

  /** handleAddEvent: appends a new event unless MAX_EVENTS are present. */
  function AddEvent(s: Params, id: string): (r: Params)
    ensures |s.events| >= MAX_EVENTS ==> r == s
    ensures |s.events| < MAX_EVENTS ==> r == s.(events := s.events + [NewEvent(id)])
    ensures |r.events| <= MAX_EVENTS || r == s
  {
    if |s.events| >= MAX_EVENTS then s
    else s.(events := s.events + [NewEvent(id)])
  }

  /** handleUpdateEvent: changes one key of every event with the given id,
      keeping the order, the count and every other event. */
  function UpdateEvent(s: Params, id: string, k: EventChange): (r: Params)
    ensures r == s.(events := r.events)
    ensures |r.events| == |s.events|
    ensures forall i :: 0 <= i < |s.events| ==>
              r.events[i] == (if s.events[i].id == id then ApplyEventChange(s.events[i], k) else s.events[i])
    ensures forall i :: 0 <= i < |s.events| ==> r.events[i].id == s.events[i].id
  {
    s.(events := seq(|s.events|, i requires 0 <= i < |s.events| =>
                       if s.events[i].id == id then ApplyEventChange(s.events[i], k) else s.events[i]))
  }

  /** `events.filter(e => e.id !== id)`. */
  function FilterOut(events: seq<Event>, id: string): (r: seq<Event>)
    ensures |r| <= |events|
    ensures forall e :: e in r ==> e in events && e.id != id
    ensures forall e :: e in events && e.id != id ==> e in r
    ensures forall e :: multiset(r)[e] == if e.id == id then 0 else multiset(events)[e]
  {
    if |events| == 0 then []
    else
      assert events == [events[0]] + events[1..];
      if events[0].id == id then FilterOut(events[1..], id)
      else [events[0]] + FilterOut(events[1..], id)
  }

  /** The filter keeps the order of the list: filtering a concatenation
      concatenates the filtered parts. */
  lemma {:induction false} FilterOutAppend(a: seq<Event>, b: seq<Event>, id: string)
    ensures FilterOut(a + b, id) == FilterOut(a, id) + FilterOut(b, id)
  {
    if |a| > 0 {
      var ab := a + b;
      assert ab[0] == a[0] && ab[1..] == a[1..] + b;
      FilterOutAppend(a[1..], b, id);
      if a[0].id == id {
        assert FilterOut(ab, id) == FilterOut(ab[1..], id);
        assert FilterOut(a, id) == FilterOut(a[1..], id);
      } else {
        assert FilterOut(ab, id) == [a[0]] + FilterOut(ab[1..], id);
        assert FilterOut(a, id) == [a[0]] + FilterOut(a[1..], id);
      }
    } else {
      assert a + b == b;
    }
  }

  /** handleRemoveEvent: drops every event with the given id and keeps the rest. */
  function RemoveEvent(s: Params, id: string): (r: Params)
    ensures r == s.(events := FilterOut(s.events, id))
    ensures r == s.(events := r.events)
    ensures |r.events| <= |s.events|
    ensures forall e :: e in r.events ==> e in s.events && e.id != id
    ensures forall e :: e in s.events && e.id != id ==> e in r.events
  {
    s.(events := FilterOut(s.events, id))
  }

  /** None of the three event updaters can take the list past MAX_EVENTS. */
  lemma EventUpdatersKeepCount(s: Params, id: string, other: string, k: EventChange)
    requires |s.events| <= MAX_EVENTS
    ensures |AddEvent(s, id).events| <= MAX_EVENTS
    ensures |UpdateEvent(s, other, k).events| <= MAX_EVENTS
    ensures |RemoveEvent(s, other).events| <= MAX_EVENTS
  {
  }

  // ---------------------------------------------------------------------
  // Start/end ordering of an event's years

  /** The event row's start slider: sets the start year and, when it passes
      the end year of the event as displayed, moves the end year along. The
      two updates run one after the other, as the two queued state updates do. */
  function HandleStartChange(s: Params, shown: Event, newStart: int): (r: Params)
    ensures r == s.(events := r.events)
    ensures |r.events| == |s.events|
    ensures forall i :: 0 <= i < |s.events| ==>
              r.events[i] == if s.events[i].id != shown.id then s.events[i]
                             else s.events[i].(startAar := newStart,
                                               sluttAar := if newStart > shown.sluttAar then newStart else s.events[i].sluttAar)
  {
    var s1 := UpdateEvent(s, shown.id, SetStartAar(newStart));
    if newStart > shown.sluttAar then UpdateEvent(s1, shown.id, SetSluttAar(newStart)) else s1
  }

  /** The event row's end slider: sets the end year and, when it falls before
      the start year of the event as displayed, moves the start year along. */
  function HandleEndChange(s: Params, shown: Event, newEnd: int): (r: Params)
    ensures r == s.(events := r.events)
    ensures |r.events| == |s.events|
    ensures forall i :: 0 <= i < |s.events| ==>
              r.events[i] == if s.events[i].id != shown.id then s.events[i]
                             else s.events[i].(startAar := if newEnd < shown.startAar then newEnd else s.events[i].startAar,
                                               sluttAar := newEnd)
  {
    var s1 := UpdateEvent(s, shown.id, SetSluttAar(newEnd));
    if newEnd < shown.startAar then UpdateEvent(s1, shown.id, SetStartAar(newEnd)) else s1
  }

  /** When the displayed event is the one in the state, moving its start year
      leaves the event with that start year and an end year no earlier;
      every other event is untouched. */
  lemma StartChangeKeepsOrder(s: Params, shown: Event, newStart: int)
    requires forall i :: 0 <= i < |s.events| && s.events[i].id == shown.id ==> s.events[i] == shown
    ensures var r := HandleStartChange(s, shown, newStart);
            |r.events| == |s.events| &&
            forall i :: 0 <= i < |s.events| ==>
              if s.events[i].id == shown.id then
                r.events[i] == shown.(startAar := newStart, sluttAar := MaxInt(shown.sluttAar, newStart)) &&
                r.events[i].startAar <= r.events[i].sluttAar
              else r.events[i] == s.events[i]
  {
  }

  /** Symmetrically for the end slider. */
  lemma EndChangeKeepsOrder(s: Params, shown: Event, newEnd: int)
    requires forall i :: 0 <= i < |s.events| && s.events[i].id == shown.id ==> s.events[i] == shown
    ensures var r := HandleEndChange(s, shown, newEnd);
            |r.events| == |s.events| &&
            forall i :: 0 <= i < |s.events| ==>
              if s.events[i].id == shown.id then
                r.events[i] == shown.(startAar := MinInt(shown.startAar, newEnd), sluttAar := newEnd) &&
                r.events[i].startAar <= r.events[i].sluttAar
              else r.events[i] == s.events[i]
  {
  }
}
