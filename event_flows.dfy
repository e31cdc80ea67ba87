/** The cash flows the events contribute to one calendar year, as the
    projection's three `state.events.forEach` loops collect them. */
module EventFlows {
  import opened Parameters

  /** An event is active in the years startAar..sluttAar, both included. */
  predicate ActiveIn(e: Event, year: int)
  {
    year >= e.startAar && year <= e.sluttAar
  }

  /** Sum of the active positive amounts (inflows). */
  function PositiveEventSum(events: seq<Event>, year: int): (r: real)
    ensures r >= 0.0
  {
    if |events| == 0 then 0.0
    else
      var e := events[|events| - 1];
      PositiveEventSum(events[..|events| - 1], year) + (if ActiveIn(e, year) && e.belop > 0.0 then e.belop else 0.0)
  }

  /** Sum of the active amounts that are not positive (withdrawals, as a
      negative number). */
  function NegativeEventSum(events: seq<Event>, year: int): (r: real)
    ensures r <= 0.0
  {
    if |events| == 0 then 0.0
    else
      var e := events[|events| - 1];
      NegativeEventSum(events[..|events| - 1], year) + (if ActiveIn(e, year) && !(e.belop > 0.0) then e.belop else 0.0)
  }

  /** Sum of all active amounts: the year's net event cash flow. */
  function NetEventSum(events: seq<Event>, year: int): real
  {
    if |events| == 0 then 0.0
    else
      var e := events[|events| - 1];
      NetEventSum(events[..|events| - 1], year) + (if ActiveIn(e, year) then e.belop else 0.0)
  }

  /** Sum of the active inflows flagged to raise the tax-free invested capital;
      never more than all active inflows. */
  function CapitalEventSum(events: seq<Event>, year: int): (r: real)
    ensures 0.0 <= r <= PositiveEventSum(events, year)
  {
    if |events| == 0 then 0.0
    else
      var e := events[|events| - 1];
      CapitalEventSum(events[..|events| - 1], year)
        + (if ActiveIn(e, year) && e.belop > 0.0 && e.addToInvestedCapital then e.belop else 0.0)
  }

  /** The net event flow splits into its inflows and its withdrawals. */
  lemma {:induction false} NetEventSplit(events: seq<Event>, year: int)
    ensures NetEventSum(events, year) == PositiveEventSum(events, year) + NegativeEventSum(events, year)
  {
    if |events| > 0 {
      NetEventSplit(events[..|events| - 1], year);
    }
  }

  /** The first forEach: net event amount, inflows and withdrawals. */
  method ScanEvents(events: seq<Event>, year: int) returns (totalPositive: real, eventWithdrawal: real, netEventAmount: real)
    ensures totalPositive == PositiveEventSum(events, year)
    ensures eventWithdrawal == NegativeEventSum(events, year)
    ensures netEventAmount == NetEventSum(events, year)
  {
    totalPositive, eventWithdrawal, netEventAmount := 0.0, 0.0, 0.0;
    for k := 0 to |events|
      invariant totalPositive == PositiveEventSum(events[..k], year)
      invariant eventWithdrawal == NegativeEventSum(events[..k], year)
      invariant netEventAmount == NetEventSum(events[..k], year)
    {
      var event := events[k];
      assert events[..k + 1][..k] == events[..k];
      if ActiveIn(event, year) {
        netEventAmount := netEventAmount + event.belop;
        if event.belop > 0.0 {
          totalPositive := totalPositive + event.belop;
        } else {
          eventWithdrawal := eventWithdrawal + event.belop;
        }
      }
    }
    assert events[..|events|] == events;
  }

  /** The second and third forEach: the active inflows, all of them or only
      those flagged to raise the invested capital. */
  method SumActiveInflows(events: seq<Event>, year: int, onlyCapitalFlagged: bool) returns (sum: real)
    ensures sum == if onlyCapitalFlagged then CapitalEventSum(events, year) else PositiveEventSum(events, year)
  {
    sum := 0.0;
    for k := 0 to |events|
      invariant sum == if onlyCapitalFlagged then CapitalEventSum(events[..k], year) else PositiveEventSum(events[..k], year)
    {
      var event := events[k];
      assert events[..k + 1][..k] == events[..k];
      if ActiveIn(event, year) && event.belop > 0.0 && (!onlyCapitalFlagged || event.addToInvestedCapital) {
        sum := sum + event.belop;
      }
    }
    assert events[..|events|] == events;
  }
}
