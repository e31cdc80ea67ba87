/** The application state that the projection engine reads: three portfolio
    seeds, allocation choices, cash flows, up to four one-off events, return
    and tax rates, and the goal-seek result fields. Percentages are whole
    numbers (37.84 means 37.84 %), as in the source. */
module Parameters {

  /** First calendar year of the projection. */
  const START_YEAR: int := 2026

  /** Largest number of events the state may hold. */
  const MAX_EVENTS: nat := 4

  /** 'Privat' (private person) or 'AS' (limited company). */
  datatype InvestorType = Privat | AS

  /** A one-off or recurring cash flow: a positive amount (`belop`) is an
      inflow, a negative one a withdrawal, active in the calendar years
      startAar..sluttAar inclusive. */
  datatype Event = Event(
    id: string,
    kind: string,
    belop: real,
    startAar: int,
    sluttAar: int,
    addToInvestedCapital: bool)

  datatype Params = Params(
    initialPortfolioSize: real,        // Portefølje I
    pensionPortfolioSize: real,        // Portefølje II
    additionalPensionAmount: real,     // Likviditetsfond (always 0 % stocks)
    investedCapital: real,             // tax-free contributed capital
    investmentYears: nat,
    payoutYears: nat,
    initialStockAllocation: real,      // size-weighted stock % of the three portfolios
    row1StockAllocation: real,         // stock % of Portefølje I
    row2StockAllocation: real,         // stock % of Portefølje II
    stockReturnRate: real,
    bondReturnRate: real,
    shieldingRate: real,
    annualSavings: real,
    events: seq<Event>,
    investorType: InvestorType,
    taxCalculationEnabled: bool,
    deferredInterestTax: bool,
    manualBondTaxRate: real,
    manualStockTaxRate: real,
    desiredAnnualConsumptionPayout: real,
    desiredAnnualWealthTaxPayout: real,
    goalSeekPayoutResult: real,
    goalSeekPortfolio1Result: real,
    kpiRate: real,
    advisoryFeeRate: real,
    stockStdDev: real,
    bondStdDev: real)
  {
    function TotalYears(): nat { investmentYears + payoutYears }

    /** The three seeds added together, the projection's opening value. */
    function SeedTotal(): real { initialPortfolioSize + pensionPortfolioSize + additionalPensionAmount }
  }

  /** One pair of annual returns, in percent, for stocks and for bonds. */
  datatype ReturnPair = ReturnPair(stock: real, bond: real)
}
