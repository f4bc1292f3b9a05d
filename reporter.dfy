/**
 * `PortfolioReporter.analyze_portfolio` of the stand-alone report script
 * (main.py), a line-for-line copy of `PortfolioService.analyze`: it returns
 * exactly what `Portfolio.Analyze` returns.
 */
module Reporter {
  import opened Wrappers
  import opened Holdings
  import Portfolio

  method AnalyzePortfolio(holdings: Option<seq<Holding>>) returns (result: Option<Portfolio.Analysis>)
    ensures result.None? <==> holdings.None? || holdings.value == []
    ensures result.Some? ==> holdings.Some? && Portfolio.Describes(result.value, holdings.value)
    ensures result.Some? ==> Portfolio.Consistent(result.value)
  {
    result := Portfolio.Analyze(holdings);
  }
}
