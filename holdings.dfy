/**
 * One holding record as the brokerage returns it, and the values the
 * analysis derives from it: current value, invested value, profit and loss
 * (pnl) and the guarded pnl percentage.
 */
module Holdings {
  import opened Wrappers

  /** A raw holding record. Every key may be missing from the record. */
  datatype Holding = Holding(
    tradingSymbol: Option<string>,
    sector: Option<string>,
    quantity: Option<real>,
    averagePrice: Option<real>,
    lastPrice: Option<real>)

  /** The entry recorded for a holding among the gainers or the losers. */
  datatype HoldingInfo = HoldingInfo(symbol: string, pnl: real, pnlPercentage: real, currentValue: real)

  /** The label used for a missing sector or symbol key. */
  const Unknown: string := "Unknown"

  // A missing numeric key reads as 0.
  function Quantity(h: Holding): real { h.quantity.GetOr(0.0) }
  function AveragePrice(h: Holding): real { h.averagePrice.GetOr(0.0) }
  function LastPrice(h: Holding): real { h.lastPrice.GetOr(0.0) }

  function CurrentValue(h: Holding): real { Quantity(h) * LastPrice(h) }
  function InvestedValue(h: Holding): real { Quantity(h) * AveragePrice(h) }
  function Pnl(h: Holding): real { CurrentValue(h) - InvestedValue(h) }

  /**
   * `part` as a percentage of `whole`, or 0 when `whole` is not positive
   * (the guard used both per holding and for the whole portfolio).
   */
  function GuardedPercentage(part: real, whole: real): real {
    if whole > 0.0 then part / whole * 100.0 else 0.0
  }

  /** The guarded percentage is `part` in hundredths of `whole`, and never a division by zero. */
  lemma GuardedPercentageMeaning(part: real, whole: real)
    ensures whole <= 0.0 ==> GuardedPercentage(part, whole) == 0.0
    ensures whole > 0.0 ==> GuardedPercentage(part, whole) * whole == part * 100.0
    ensures whole > 0.0 ==> (GuardedPercentage(part, whole) > 0.0 <==> part > 0.0)
    ensures whole > 0.0 ==> (GuardedPercentage(part, whole) == 0.0 <==> part == 0.0)
  {
  }

  function PnlPercentage(h: Holding): real { GuardedPercentage(Pnl(h), InvestedValue(h)) }

  /** The sector label: "Unknown" only when the key is absent; an empty label stays empty. */
  function SectorOf(h: Holding): string { h.sector.GetOr(Unknown) }

  function SymbolOf(h: Holding): string { h.tradingSymbol.GetOr(Unknown) }

  function Info(h: Holding): HoldingInfo {
    HoldingInfo(SymbolOf(h), Pnl(h), PnlPercentage(h), CurrentValue(h))
  }

  /** What the per-holding figures mean in terms of the record's prices. */
  lemma HoldingFigures(h: Holding)
    ensures Pnl(h) == Quantity(h) * (LastPrice(h) - AveragePrice(h))
    ensures Info(h).pnl == Pnl(h) && Info(h).currentValue == CurrentValue(h)
    ensures InvestedValue(h) <= 0.0 ==> Info(h).pnlPercentage == 0.0
    ensures InvestedValue(h) > 0.0 ==> Info(h).pnlPercentage * InvestedValue(h) == Pnl(h) * 100.0
  {
    GuardedPercentageMeaning(Pnl(h), InvestedValue(h));
  }

  /** A holding bought at price 0 has no invested value: its percentage is 0, not a division by zero. */
  lemma ZeroCostHolding(symbol: Option<string>, sector: Option<string>)
    ensures var h := Holding(symbol, sector, Some(10.0), Some(0.0), Some(5.0));
      InvestedValue(h) == 0.0 && Pnl(h) == 50.0 && PnlPercentage(h) == 0.0
  {
  }
}
