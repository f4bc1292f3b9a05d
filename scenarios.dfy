/** A worked example, checked against the contract of the analysis alone. */
module Scenarios {
  import opened Wrappers
  import opened Holdings
  import opened Portfolio

  /** 10 units bought at 100, now at 120: a gain of 200. */
  const HoldingA := Holding(Some("A"), Some("Tech"), Some(10.0), Some(100.0), Some(120.0))
  /** 5 units bought at 200, now at 150: a loss of 250. */
  const HoldingB := Holding(Some("B"), Some("Tech"), Some(5.0), Some(200.0), Some(150.0))

  lemma {:induction false} TwoHoldingsFigures()
    ensures TotalValue([HoldingA, HoldingB]) == 1950.0
    ensures TotalPnl([HoldingA, HoldingB]) == -50.0
    ensures TotalInvested([HoldingA, HoldingB]) == 2000.0
    ensures Sectors([HoldingA, HoldingB]) == map["Tech" := SectorAgg(1950.0, -50.0, 2)]
    ensures Gainers([HoldingA, HoldingB]) == [Info(HoldingA)]
    ensures Losers([HoldingA, HoldingB]) == [Info(HoldingB)]
  {
    var one, hs := [HoldingA], [HoldingA, HoldingB];
    assert hs[..|hs| - 1] == one && hs[|hs| - 1] == HoldingB;
    assert one[..|one| - 1] == [] && one[|one| - 1] == HoldingA;
    assert Pnl(HoldingA) == 200.0 && Pnl(HoldingB) == -250.0;
    assert TotalValue(one) == 1200.0;
    assert TotalPnl(one) == 200.0;
    assert TotalInvested(one) == 1000.0;
    assert Labels(one) == {"Tech"};
    assert Labels(hs) == {"Tech"};
    assert InSector(one, "Tech") == one;
    assert InSector(hs, "Tech") == hs;
    assert Gainers(one) == [Info(HoldingA)] && Losers(one) == [];
    assert Gainers(hs) == Gainers(one) + [];
    assert Losers(hs) == Losers(one) + [Info(HoldingB)];
  }

  /** What the description of an analysis of the two holdings pins down. */
  lemma {:induction false} TwoHoldingsAnalysis(a: Analysis)
    requires Describes(a, [HoldingA, HoldingB])
    ensures a.holdingsCount == 2
    ensures a.totalValue == 1950.0 && a.totalPnl == -50.0
    ensures a.sectors == map["Tech" := SectorAgg(1950.0, -50.0, 2)]
    ensures a.topGainers == [Info(HoldingA)] && a.topGainers[0].symbol == "A" && a.topGainers[0].pnl == 200.0
    ensures a.topLosers == [Info(HoldingB)] && a.topLosers[0].symbol == "B" && a.topLosers[0].pnl == -250.0
    ensures a.totalPnlPercentage == -2.5
  {
    TwoHoldingsFigures();
    var g, l := Info(HoldingA), Info(HoldingB);
    assert multiset(a.topGainers) == multiset{g} && multiset(a.topLosers) == multiset{l};
    assert |a.topGainers| == 1 && a.topGainers[0] in multiset(a.topGainers);
    assert |a.topLosers| == 1 && a.topLosers[0] in multiset(a.topLosers);
    assert a.topGainers == [g] && a.topLosers == [l];
  }

  /** Running the analysis on the two holdings. */
  method TwoHoldingsInOneSector() returns (a: Analysis)
    ensures a.totalValue == 1950.0 && a.totalPnl == -50.0
    ensures a.sectors == map["Tech" := SectorAgg(1950.0, -50.0, 2)]
    ensures a.topGainers == [Info(HoldingA)] && a.topLosers == [Info(HoldingB)]
    ensures a.totalPnlPercentage == -2.5
  {
    var result := Analyze(Some([HoldingA, HoldingB]));
    a := result.value;
    TwoHoldingsAnalysis(a);
  }
}
