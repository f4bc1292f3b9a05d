/**
 * The portfolio analysis of `PortfolioService.analyze`: one pass over the
 * holdings that accumulates the portfolio totals, a per-sector aggregate for
 * each sector label and the split into gainers (pnl > 0) and losers
 * (pnl <= 0), then a stable sort of both lists by pnl and a guarded
 * portfolio-level percentage.
 *
 * The first half states what the result should be, as functions of the
 * holdings; the second half is the loop (`Analyze`), proved to compute it.
 */
module Portfolio {
  import opened Wrappers
  import opened Holdings
  import opened StableSort

  /** The running aggregate of one sector. */
  datatype SectorAgg = SectorAgg(value: real, pnl: real, count: nat)

  /** The analysis returned for a non-empty list of holdings. */
  datatype Analysis = Analysis(
    totalValue: real,
    totalPnl: real,
    sectors: map<string, SectorAgg>,
    topGainers: seq<HoldingInfo>,
    topLosers: seq<HoldingInfo>,
    holdingsCount: nat,
    totalPnlPercentage: real)

  // ----- Portfolio totals -----

  function TotalValue(hs: seq<Holding>): real {
    if hs == [] then 0.0 else TotalValue(hs[..|hs| - 1]) + CurrentValue(hs[|hs| - 1])
  }

  function TotalPnl(hs: seq<Holding>): real {
    if hs == [] then 0.0 else TotalPnl(hs[..|hs| - 1]) + Pnl(hs[|hs| - 1])
  }

  function TotalInvested(hs: seq<Holding>): real {
    if hs == [] then 0.0 else TotalInvested(hs[..|hs| - 1]) + InvestedValue(hs[|hs| - 1])
  }

  /** Value less pnl is what was invested, the denominator of the portfolio percentage. */
  lemma {:induction false} InvestedIsValueLessPnl(hs: seq<Holding>)
    ensures TotalValue(hs) - TotalPnl(hs) == TotalInvested(hs)
  {
    if hs != [] {
      InvestedIsValueLessPnl(hs[..|hs| - 1]);
    }
  }

  // ----- Sectors -----

  /** The sector labels that occur among the holdings. */
  function Labels(hs: seq<Holding>): set<string> {
    if hs == [] then {} else Labels(hs[..|hs| - 1]) + {SectorOf(hs[|hs| - 1])}
  }

  /** A label is in `Labels(hs)` exactly when some holding carries it. */
  lemma {:induction false} LabelsOccur(hs: seq<Holding>)
    ensures forall s :: s in Labels(hs) <==> exists i :: 0 <= i < |hs| && SectorOf(hs[i]) == s
  {
    if hs != [] {
      var init := hs[..|hs| - 1];
      LabelsOccur(init);
      assert forall i :: 0 <= i < |init| ==> init[i] == hs[i];
    }
  }

  /** The holdings labelled `s`, in input order. */
  function InSector(hs: seq<Holding>, s: string): (r: seq<Holding>)
    ensures s !in Labels(hs) ==> r == []
  {
    if hs == [] then []
    else InSector(hs[..|hs| - 1], s) + (if SectorOf(hs[|hs| - 1]) == s then [hs[|hs| - 1]] else [])
  }

  function SectorAggOf(hs: seq<Holding>, s: string): SectorAgg {
    var group := InSector(hs, s);
    SectorAgg(TotalValue(group), TotalPnl(group), |group|)
  }

  /** Group-by: one aggregate for each label that occurs, over the holdings with that label. */
  function Sectors(hs: seq<Holding>): map<string, SectorAgg> {
    map s | s in Labels(hs) :: SectorAggOf(hs, s)
  }

  /**
   * The sector map holds one aggregate per label that occurs and no other;
   * each adds up exactly the holdings with that label. A holding without a
   * sector key is grouped under "Unknown"; any label it does carry, the
   * empty one included, is kept as it is.
   */
  lemma {:induction false} SectorsGroupBy(hs: seq<Holding>)
    ensures forall s :: s in Sectors(hs) <==> exists i :: 0 <= i < |hs| && SectorOf(hs[i]) == s
    ensures forall s :: s in Sectors(hs) ==>
      Sectors(hs)[s] == SectorAgg(TotalValue(InSector(hs, s)), TotalPnl(InSector(hs, s)), |InSector(hs, s)|)
    ensures forall s :: s in Sectors(hs) ==> Sectors(hs)[s].count >= 1
    ensures forall i :: 0 <= i < |hs| ==>
      if hs[i].sector.None? then Unknown in Sectors(hs) else hs[i].sector.value in Sectors(hs)
  {
    LabelsOccur(hs);
    forall s | s in Sectors(hs) ensures Sectors(hs)[s].count >= 1 {
      InSectorNonEmpty(hs, s);
    }
  }

  lemma {:induction false} InSectorNonEmpty(hs: seq<Holding>, s: string)
    requires s in Labels(hs)
    ensures |InSector(hs, s)| >= 1
  {
    var init := hs[..|hs| - 1];
    if SectorOf(hs[|hs| - 1]) != s {
      InSectorNonEmpty(init, s);
    }
  }

  /** The labels in the order they are first met: the key order of the source's dictionary. */
  function SectorOrder(hs: seq<Holding>): seq<string> {
    if hs == [] then []
    else
      var keys := SectorOrder(hs[..|hs| - 1]);
      if SectorOf(hs[|hs| - 1]) in keys then keys else keys + [SectorOf(hs[|hs| - 1])]
  }

  predicate Distinct(keys: seq<string>) {
    forall i, j :: 0 <= i < j < |keys| ==> keys[i] != keys[j]
  }

  /** `keys` lists every sector of `sectors` exactly once. */
  ghost predicate Enumerates(keys: seq<string>, sectors: map<string, SectorAgg>) {
    Distinct(keys) && forall k :: k in keys <==> k in sectors
  }

  /** What a sector aggregate adds up. */
  datatype Measure = Value | PnL | Count

  function Field(a: SectorAgg, m: Measure): real {
    match m
    case Value => a.value
    case PnL => a.pnl
    case Count => a.count as real
  }

  /** The portfolio-level figure matching a measure: total value, total pnl or number of holdings. */
  function Total(hs: seq<Holding>, m: Measure): real {
    match m
    case Value => TotalValue(hs)
    case PnL => TotalPnl(hs)
    case Count => |hs| as real
  }

  /** The sum of one field over the sectors named by `keys`. */
  function SumField(sectors: map<string, SectorAgg>, keys: seq<string>, m: Measure): real
    requires forall k :: k in keys ==> k in sectors
  {
    if keys == [] then 0.0
    else SumField(sectors, keys[..|keys| - 1], m) + Field(sectors[keys[|keys| - 1]], m)
  }

  // ----- Gainers and losers -----

  /** The entries of holdings with a positive pnl, in input order. */
  function Gainers(hs: seq<Holding>): (r: seq<HoldingInfo>)
    ensures forall k :: 0 <= k < |r| ==> r[k].pnl > 0.0
  {
    if hs == [] then []
    else Gainers(hs[..|hs| - 1]) + (if Pnl(hs[|hs| - 1]) > 0.0 then [Info(hs[|hs| - 1])] else [])
  }

  /** The entries of holdings with a pnl of zero or less, in input order. */
  function Losers(hs: seq<Holding>): (r: seq<HoldingInfo>)
    ensures forall k :: 0 <= k < |r| ==> r[k].pnl <= 0.0
  {
    if hs == [] then []
    else Losers(hs[..|hs| - 1]) + (if Pnl(hs[|hs| - 1]) > 0.0 then [] else [Info(hs[|hs| - 1])])
  }

  function Infos(hs: seq<Holding>): seq<HoldingInfo> {
    seq(|hs|, k requires 0 <= k < |hs| => Info(hs[k]))
  }

  /** The two lists split the holdings' entries: together they hold each entry exactly once. */
  lemma {:induction false} GainersLosersSplit(hs: seq<Holding>)
    ensures |Gainers(hs)| + |Losers(hs)| == |hs|
    ensures multiset(Gainers(hs)) + multiset(Losers(hs)) == multiset(Infos(hs))
  {
    if hs != [] {
      var init, h := hs[..|hs| - 1], hs[|hs| - 1];
      GainersLosersSplit(init);
      assert Infos(hs) == Infos(init) + [Info(h)];
    }
  }

  /** Each holding is listed among the gainers when its pnl is positive and among the losers otherwise. */
  lemma {:induction false} GainersLosersPartition(hs: seq<Holding>)
    ensures forall i :: 0 <= i < |hs| ==>
      if Pnl(hs[i]) > 0.0 then Info(hs[i]) in Gainers(hs) && Info(hs[i]) !in Losers(hs)
      else Info(hs[i]) in Losers(hs) && Info(hs[i]) !in Gainers(hs)
  {
    GainersLosersSplit(hs);
    forall i | 0 <= i < |hs|
      ensures if Pnl(hs[i]) > 0.0 then Info(hs[i]) in Gainers(hs) && Info(hs[i]) !in Losers(hs)
              else Info(hs[i]) in Losers(hs) && Info(hs[i]) !in Gainers(hs)
    {
      var x := Info(hs[i]);
      assert Infos(hs)[i] == x;
      assert x in multiset(Gainers(hs)) + multiset(Losers(hs));
    }
  }

  // ----- Sector aggregates add up to the portfolio totals -----

  /** The sum of a measure over the groups of holdings labelled by `keys`. */
  function GroupSum(hs: seq<Holding>, keys: seq<string>, m: Measure): real {
    if keys == [] then 0.0
    else GroupSum(hs, keys[..|keys| - 1], m) + Total(InSector(hs, keys[|keys| - 1]), m)
  }

  lemma {:induction false} TotalAppend(hs: seq<Holding>, h: Holding, m: Measure)
    ensures Total(hs + [h], m) == Total(hs, m) + Total([h], m)
  {
    assert (hs + [h])[..|hs|] == hs;
    assert [h][..0] == [];
    match m
    case Value => assert TotalValue([h]) == CurrentValue(h);
    case PnL => assert TotalPnl([h]) == Pnl(h);
    case Count =>
  }

  lemma {:induction false} GroupSumOfNothing(keys: seq<string>, m: Measure)
    ensures GroupSum([], keys, m) == 0.0
  {
    if keys != [] {
      GroupSumOfNothing(keys[..|keys| - 1], m);
    }
  }

  /** A holding whose label is not among `keys` leaves the group sum unchanged. */
  lemma {:induction false} GroupSumSkip(hs: seq<Holding>, h: Holding, keys: seq<string>, m: Measure)
    requires SectorOf(h) !in keys
    ensures GroupSum(hs + [h], keys, m) == GroupSum(hs, keys, m)
  {
    if keys != [] {
      var k := keys[|keys| - 1];
      GroupSumSkip(hs, h, keys[..|keys| - 1], m);
      assert (hs + [h])[..|hs|] == hs;
      assert InSector(hs + [h], k) == InSector(hs, k);
    }
  }

  /** A holding whose label occurs once in `keys` adds its own figure to the group sum. */
  lemma {:induction false} GroupSumAdd(hs: seq<Holding>, h: Holding, keys: seq<string>, m: Measure)
    requires Distinct(keys) && SectorOf(h) in keys
    ensures GroupSum(hs + [h], keys, m) == GroupSum(hs, keys, m) + Total([h], m)
  {
    var init, k := keys[..|keys| - 1], keys[|keys| - 1];
    assert (hs + [h])[..|hs|] == hs;
    if k == SectorOf(h) {
      assert SectorOf(h) !in init;
      GroupSumSkip(hs, h, init, m);
      assert InSector(hs + [h], k) == InSector(hs, k) + [h];
      TotalAppend(InSector(hs, k), h, m);
    } else {
      assert SectorOf(h) in init;
      GroupSumAdd(hs, h, init, m);
      assert InSector(hs + [h], k) == InSector(hs, k);
    }
  }

  /** When `keys` covers every label once, the group sums add up to the portfolio total. */
  lemma {:induction false} GroupSumTotal(hs: seq<Holding>, keys: seq<string>, m: Measure)
    requires Distinct(keys)
    requires forall i :: 0 <= i < |hs| ==> SectorOf(hs[i]) in keys
    ensures GroupSum(hs, keys, m) == Total(hs, m)
  {
    if hs == [] {
      GroupSumOfNothing(keys, m);
    } else {
      var init, h := hs[..|hs| - 1], hs[|hs| - 1];
      assert forall i :: 0 <= i < |init| ==> init[i] == hs[i];
      GroupSumTotal(init, keys, m);
      assert hs == init + [h];
      GroupSumAdd(init, h, keys, m);
      TotalAppend(init, h, m);
    }
  }

  lemma {:induction false} SumFieldIsGroupSum(hs: seq<Holding>, keys: seq<string>, m: Measure)
    requires forall k :: k in keys ==> k in Labels(hs)
    ensures SumField(Sectors(hs), keys, m) == GroupSum(hs, keys, m)
  {
    if keys != [] {
      SumFieldIsGroupSum(hs, keys[..|keys| - 1], m);
    }
  }

  /**
   * Adding up any one field over all sector aggregates, in any order, gives
   * the matching portfolio total: value, pnl, or the number of holdings.
   */
  lemma {:induction false} SectorTotals(hs: seq<Holding>, keys: seq<string>, m: Measure)
    requires Enumerates(keys, Sectors(hs))
    ensures SumField(Sectors(hs), keys, m) == Total(hs, m)
  {
    SumFieldIsGroupSum(hs, keys, m);
    LabelsOccur(hs);
    GroupSumTotal(hs, keys, m);
  }

  /** The first-encounter order lists each sector exactly once. */
  lemma {:induction false} SectorOrderEnumerates(hs: seq<Holding>)
    ensures Enumerates(SectorOrder(hs), Sectors(hs))
  {
    if hs != [] {
      var init := hs[..|hs| - 1];
      SectorOrderEnumerates(init);
      assert Labels(hs) == Labels(init) + {SectorOf(hs[|hs| - 1])};
    }
  }

  lemma {:induction false} InSectorStep(p: seq<Holding>, h: Holding, k: string)
    ensures InSector(p + [h], k) == InSector(p, k) + (if SectorOf(h) == k then [h] else [])
  {
    assert (p + [h])[..|p|] == p;
  }

  /** The aggregate of a label after one more holding: it grows by the holding's figures when the label is the holding's. */
  lemma {:induction false} SectorAggStep(p: seq<Holding>, h: Holding, k: string)
    ensures var before := SectorAggOf(p, k);
      SectorAggOf(p + [h], k) ==
        if SectorOf(h) == k then SectorAgg(before.value + CurrentValue(h), before.pnl + Pnl(h), before.count + 1)
        else before
  {
    InSectorStep(p, h, k);
    if SectorOf(h) == k {
      TotalAppend(InSector(p, k), h, Value);
      TotalAppend(InSector(p, k), h, PnL);
      assert TotalValue([h]) == CurrentValue(h);
      assert TotalPnl([h]) == Pnl(h);
    } else {
      assert InSector(p + [h], k) == InSector(p, k);
    }
  }

  /** One loop step on the sector map: the aggregate of the holding's label, created at zero when new, grows by the holding's figures. */
  function AddToSectors(sectors: map<string, SectorAgg>, h: Holding): map<string, SectorAgg> {
    var s := SectorOf(h);
    var before := if s in sectors then sectors[s] else SectorAgg(0.0, 0.0, 0);
    sectors[s := SectorAgg(before.value + CurrentValue(h), before.pnl + Pnl(h), before.count + 1)]
  }

  lemma {:induction false} SectorsStepKeys(p: seq<Holding>, h: Holding)
    ensures Sectors(p + [h]).Keys == AddToSectors(Sectors(p), h).Keys
  {
    assert (p + [h])[..|p|] == p;
    assert Labels(p + [h]) == Labels(p) + {SectorOf(h)};
  }

  lemma {:induction false} SectorsStepAt(p: seq<Holding>, h: Holding, k: string)
    requires k in Labels(p) || k == SectorOf(h)
    ensures k in Sectors(p + [h]) && k in AddToSectors(Sectors(p), h)
    ensures Sectors(p + [h])[k] == AddToSectors(Sectors(p), h)[k]
  {
    SectorsStepKeys(p, h);
    SectorAggStep(p, h, k);
  }

  /** Accumulating one holding at a time builds the group-by of the holdings. */
  lemma {:induction false} SectorsStep(p: seq<Holding>, h: Holding)
    ensures Sectors(p + [h]) == AddToSectors(Sectors(p), h)
  {
    var updated := AddToSectors(Sectors(p), h);
    SectorsStepKeys(p, h);
    forall k | k in updated ensures Sectors(p + [h])[k] == updated[k] {
      SectorsStepAt(p, h, k);
    }
  }

  /** How every accumulated figure changes when the prefix of the holdings grows by one. */
  lemma {:induction false} PrefixStep(hs: seq<Holding>, i: nat)
    requires i < |hs|
    ensures TotalValue(hs[..i + 1]) == TotalValue(hs[..i]) + CurrentValue(hs[i])
    ensures TotalPnl(hs[..i + 1]) == TotalPnl(hs[..i]) + Pnl(hs[i])
    ensures Sectors(hs[..i + 1]) == AddToSectors(Sectors(hs[..i]), hs[i])
    ensures Gainers(hs[..i + 1]) == Gainers(hs[..i]) + (if Pnl(hs[i]) > 0.0 then [Info(hs[i])] else [])
    ensures Losers(hs[..i + 1]) == Losers(hs[..i]) + (if Pnl(hs[i]) > 0.0 then [] else [Info(hs[i])])
  {
    assert hs[..i + 1][..i] == hs[..i];
    assert hs[..i + 1] == hs[..i] + [hs[i]];
    SectorsStep(hs[..i], hs[i]);
  }

  // ----- The analysis -----

  /** `a` is the analysis of the holdings `hs`. */
  ghost predicate Describes(a: Analysis, hs: seq<Holding>) {
    && a.holdingsCount == |hs|
    && a.totalValue == TotalValue(hs)
    && a.totalPnl == TotalPnl(hs)
    && a.sectors == Sectors(hs)
    && Sorted(a.topGainers, Descending)
    && multiset(a.topGainers) == multiset(Gainers(hs))
    && KeepsTies(Gainers(hs), a.topGainers)
    && Sorted(a.topLosers, Ascending)
    && multiset(a.topLosers) == multiset(Losers(hs))
    && KeepsTies(Losers(hs), a.topLosers)
    && a.totalPnlPercentage == GuardedPercentage(TotalPnl(hs), TotalInvested(hs))
  }

  /** The invariants every analysis result satisfies, stated on the result alone. */
  ghost predicate Consistent(a: Analysis) {
    && (forall keys :: Enumerates(keys, a.sectors) ==>
          && SumField(a.sectors, keys, Value) == a.totalValue
          && SumField(a.sectors, keys, PnL) == a.totalPnl
          && SumField(a.sectors, keys, Count) == a.holdingsCount as real)
    && |a.topGainers| + |a.topLosers| == a.holdingsCount
    && (forall i :: 0 <= i < |a.topGainers| ==> a.topGainers[i].pnl > 0.0)
    && (forall i :: 0 <= i < |a.topLosers| ==> a.topLosers[i].pnl <= 0.0)
    && (forall i, j :: 0 <= i < j < |a.topGainers| ==> a.topGainers[i].pnl >= a.topGainers[j].pnl)
    && (forall i, j :: 0 <= i < j < |a.topLosers| ==> a.topLosers[i].pnl <= a.topLosers[j].pnl)
    && a.totalPnlPercentage == GuardedPercentage(a.totalPnl, a.totalValue - a.totalPnl)
  }

  lemma {:induction false} DescribedSectorSums(a: Analysis, hs: seq<Holding>)
    requires Describes(a, hs)
    ensures forall keys :: Enumerates(keys, a.sectors) ==>
      && SumField(a.sectors, keys, Value) == a.totalValue
      && SumField(a.sectors, keys, PnL) == a.totalPnl
      && SumField(a.sectors, keys, Count) == a.holdingsCount as real
  {
    forall keys | Enumerates(keys, a.sectors)
      ensures SumField(a.sectors, keys, Value) == a.totalValue
      ensures SumField(a.sectors, keys, PnL) == a.totalPnl
      ensures SumField(a.sectors, keys, Count) == a.holdingsCount as real
    {
      SectorTotals(hs, keys, Value);
      SectorTotals(hs, keys, PnL);
      SectorTotals(hs, keys, Count);
    }
  }

  lemma {:induction false} DescribedSplit(a: Analysis, hs: seq<Holding>)
    requires Describes(a, hs)
    ensures |a.topGainers| + |a.topLosers| == a.holdingsCount
    ensures forall i :: 0 <= i < |a.topGainers| ==> a.topGainers[i].pnl > 0.0
    ensures forall i :: 0 <= i < |a.topLosers| ==> a.topLosers[i].pnl <= 0.0
  {
    GainersLosersSplit(hs);
    assert |a.topGainers| == |multiset(Gainers(hs))|;
    assert |a.topLosers| == |multiset(Losers(hs))|;
    forall i | 0 <= i < |a.topGainers| ensures a.topGainers[i].pnl > 0.0 {
      assert a.topGainers[i] in multiset(Gainers(hs));
    }
    forall i | 0 <= i < |a.topLosers| ensures a.topLosers[i].pnl <= 0.0 {
      assert a.topLosers[i] in multiset(Losers(hs));
    }
  }

  /** In the result, each holding's entry is among the top gainers or the top losers, never both, by the sign of its pnl. */
  lemma {:induction false} DescribedPartition(a: Analysis, hs: seq<Holding>)
    requires Describes(a, hs)
    ensures forall i :: 0 <= i < |hs| ==>
      if Pnl(hs[i]) > 0.0 then Info(hs[i]) in a.topGainers && Info(hs[i]) !in a.topLosers
      else Info(hs[i]) in a.topLosers && Info(hs[i]) !in a.topGainers
  {
    GainersLosersPartition(hs);
    forall x ensures x in a.topGainers <==> x in Gainers(hs) {
      assert x in a.topGainers <==> x in multiset(a.topGainers);
      assert x in Gainers(hs) <==> x in multiset(Gainers(hs));
    }
    forall x ensures x in a.topLosers <==> x in Losers(hs) {
      assert x in a.topLosers <==> x in multiset(a.topLosers);
      assert x in Losers(hs) <==> x in multiset(Losers(hs));
    }
  }

  /** The invariants of an analysis result follow from its description. */
  lemma {:induction false} DescribedIsConsistent(a: Analysis, hs: seq<Holding>)
    requires Describes(a, hs)
    ensures Consistent(a)
  {
    DescribedSectorSums(a, hs);
    DescribedSplit(a, hs);
    InvestedIsValueLessPnl(hs);
  }

  /** The analysis is a function of the holdings: analysing the same list twice gives the same result. */
  lemma {:induction false} DescribedIsUnique(a1: Analysis, a2: Analysis, hs: seq<Holding>)
    requires Describes(a1, hs) && Describes(a2, hs)
    ensures a1 == a2
  {
    StableSortIsUnique(Gainers(hs), a1.topGainers, Descending);
    StableSortIsUnique(Gainers(hs), a2.topGainers, Descending);
    StableSortIsUnique(Losers(hs), a1.topLosers, Ascending);
    StableSortIsUnique(Losers(hs), a2.topLosers, Ascending);
  }

  /**
   * The loop of `analyze`: one pass over the holdings that accumulates the
   * totals and the sector map and appends each holding's entry to the
   * gainers or the losers.
   */
  method Accumulate(hs: seq<Holding>)
    returns (totalValue: real, totalPnl: real, sectors: map<string, SectorAgg>,
             gainers: seq<HoldingInfo>, losers: seq<HoldingInfo>)
    ensures totalValue == TotalValue(hs) && totalPnl == TotalPnl(hs)
    ensures sectors == Sectors(hs)
    ensures gainers == Gainers(hs) && losers == Losers(hs)
  {
    totalValue, totalPnl := 0.0, 0.0;
    sectors := map[];
    gainers, losers := [], [];
    var i := 0;
    while i < |hs|
      invariant 0 <= i <= |hs|
      invariant totalValue == TotalValue(hs[..i])
      invariant totalPnl == TotalPnl(hs[..i])
      invariant sectors == Sectors(hs[..i])
      invariant gainers == Gainers(hs[..i])
      invariant losers == Losers(hs[..i])
    {
      var holding := hs[i];
      var currentValue := CurrentValue(holding);
      var investedValue := InvestedValue(holding);
      var pnl := currentValue - investedValue;
      var pnlPercentage := GuardedPercentage(pnl, investedValue);

      totalValue := totalValue + currentValue;
      totalPnl := totalPnl + pnl;

      var sector := holding.sector.GetOr(Unknown);
      ghost var sectorsBefore := sectors;
      if sector !in sectors {
        sectors := sectors[sector := SectorAgg(0.0, 0.0, 0)];
      }
      var agg := sectors[sector];
      sectors := sectors[sector := SectorAgg(agg.value + currentValue, agg.pnl + pnl, agg.count + 1)];
      assert agg == if sector in sectorsBefore then sectorsBefore[sector] else SectorAgg(0.0, 0.0, 0);
      assert sectors == AddToSectors(sectorsBefore, holding);

      var info := HoldingInfo(holding.tradingSymbol.GetOr(Unknown), pnl, pnlPercentage, currentValue);
      assert info == Info(holding);
      if pnl > 0.0 {
        gainers := gainers + [info];
      } else {
        losers := losers + [info];
      }

      PrefixStep(hs, i);
      i := i + 1;
    }
    assert hs[..i] == hs;
  }

  /**
   * `PortfolioService.analyze`: no result for a missing or empty list of
   * holdings, otherwise the analysis of the holdings.
   */
  method Analyze(holdings: Option<seq<Holding>>) returns (result: Option<Analysis>)
    ensures result.None? <==> holdings.None? || holdings.value == []
    ensures result.Some? ==> holdings.Some? && Describes(result.value, holdings.value)
    ensures result.Some? ==> Consistent(result.value)
  {
    if holdings.None? || |holdings.value| == 0 {
      return None;
    }
    var hs := holdings.value;
    var totalValue, totalPnl, sectors, gainers, losers := Accumulate(hs);

    gainers := SortByPnl(gainers, Descending);
    losers := SortByPnl(losers, Ascending);

    var totalInvested := totalValue - totalPnl;
    var totalPnlPercentage := if totalInvested > 0.0 then totalPnl / totalInvested * 100.0 else 0.0;
    InvestedIsValueLessPnl(hs);

    var a := Analysis(totalValue, totalPnl, sectors, gainers, losers, |hs|, totalPnlPercentage);
    DescribedIsConsistent(a, hs);
    return Some(a);
  }
}
