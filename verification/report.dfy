/** The statistics the dashboard shows: one row per process with its rate
    and its per-type breakdown, the totals, and the overall rate as text.
    Rates are hundredths of a percent (see module Rates). */
module Report {
  import opened Records
  import opened Seqs
  import opened Rates
  import opened Aggregation

  datatype TypeRow = TypeRow(kind: string, value: nat, rate: nat)

  datatype ProcRow = ProcRow(name: string, rate: nat, breakdownData: seq<TypeRow>)

  datatype Stats = Stats(procData: seq<ProcRow>, totalFaults: nat, totalInspected: nat, defectRate: string)

  function Names(rows: seq<ProcRow>): seq<string> {
    seq(|rows|, i requires 0 <= i < |rows| => rows[i].name)
  }

  function Kinds(rows: seq<TypeRow>): seq<string> {
    seq(|rows|, i requires 0 <= i < |rows| => rows[i].kind)
  }

  /** `breakdownData`: one row per listed type, with its faults and its rate
      over the process's inspected count. */
  function TypeRows(ps: ProcStats): (rows: seq<TypeRow>)
    ensures Kinds(rows) == ps.types
    ensures forall j :: 0 <= j < |rows| ==>
      rows[j].value == Get(ps.breakdown, rows[j].kind) && rows[j].rate == Rate(rows[j].value, ps.inspected)
  {
    seq(|ps.types|, j requires 0 <= j < |ps.types| =>
      var t := ps.types[j];
      TypeRow(t, Get(ps.breakdown, t), Rate(Get(ps.breakdown, t), ps.inspected)))
  }

  /** `procData`: one row per process in the order they were met. */
  function ProcRows(acc: Acc): (rows: seq<ProcRow>)
    ensures Names(rows) == acc.order
    ensures forall i :: 0 <= i < |rows| ==>
      var ps := Current(acc, rows[i].name);
      rows[i].rate == Rate(ps.faults, ps.inspected) && rows[i].breakdownData == TypeRows(ps)
  {
    seq(|acc.order|, i requires 0 <= i < |acc.order| =>
      var ps := Current(acc, acc.order[i]);
      ProcRow(acc.order[i], Rate(ps.faults, ps.inspected), TypeRows(ps)))
  }

  function Summarize(acc: Acc): Stats {
    Stats(ProcRows(acc), acc.totalFaults, acc.totalInspected, DefectRateText(acc.totalFaults, acc.totalInspected))
  }

  /** The dashboard's `stats` for the filtered records: one row per process
      met, in order of first appearance, and the totals with the overall
      rate printed with two decimals. `StatsRates` and `StatsBreakdowns`
      describe the rows. */
  function StatsOf(ds: seq<DefectRecord>): (s: Stats)
    ensures Names(s.procData) == FirstMet(ds)
    ensures NoDups(Names(s.procData))
    ensures forall p :: p in Names(s.procData) <==> p in ProcessesOf(ds)
    ensures s.totalFaults == AllFaults(ds) && s.totalInspected == AllInspected(ds)
    ensures s.defectRate == DefectRateText(AllFaults(ds), AllInspected(ds))
  {
    AggregateKeys(ds);
    AggregateOrder(ds);
    AggregateFaults(ds);
    AggregateInspected(ds);
    Summarize(Aggregate(ds))
  }

  /** Each process row's rate is its faults over its batch quantities,
      each batch counted once. */
  lemma StatsRates(ds: seq<DefectRecord>)
    ensures forall i :: 0 <= i < |StatsOf(ds).procData| ==>
      var p := StatsOf(ds).procData[i].name;
      StatsOf(ds).procData[i].rate == Rate(FaultsOf(ds, p), InspectedOf(ds, p))
  {
    var a := Aggregate(ds);
    AggregateKeys(ds);
    AggregateFaults(ds);
    AggregateInspected(ds);
    forall i | 0 <= i < |ProcRows(a)|
      ensures ProcRows(a)[i].rate == Rate(FaultsOf(ds, ProcRows(a)[i].name), InspectedOf(ds, ProcRows(a)[i].name))
    {
      assert Names(ProcRows(a))[i] == a.order[i];
    }
  }

  /** Each breakdown lists exactly the defect types met for its process,
      once each, with that type's faults and its rate over the process's
      inspected count. */
  lemma StatsBreakdowns(ds: seq<DefectRecord>, i: nat)
    requires i < |StatsOf(ds).procData|
    ensures var row := StatsOf(ds).procData[i];
      && NoDups(Kinds(row.breakdownData))
      && (forall t :: t in Kinds(row.breakdownData) <==> t in TypesOf(ds, row.name))
      && forall j :: 0 <= j < |row.breakdownData| ==>
           row.breakdownData[j].value == TypeFaultsOf(ds, row.name, row.breakdownData[j].kind)
           && row.breakdownData[j].rate == Rate(row.breakdownData[j].value, InspectedOf(ds, row.name))
  {
    var a := Aggregate(ds);
    var p := ProcRows(a)[i].name;
    AggregateKeys(ds);
    AggregateInspected(ds);
    AggregateBreakdown(ds);
    AggregateSums(ds);
    assert Names(ProcRows(a))[i] == a.order[i];
    var ps := a.procMap[p];
    assert BreakdownSums(ps);
    var rows := TypeRows(ps);
    forall j | 0 <= j < |rows|
      ensures rows[j].value == TypeFaultsOf(ds, p, rows[j].kind)
    {
      assert Kinds(rows)[j] == rows[j].kind;
    }
  }

  function ValueSum(rows: seq<TypeRow>): nat {
    if |rows| == 0 then 0 else ValueSum(rows[..|rows| - 1]) + rows[|rows| - 1].value
  }

  function FaultSum(rows: seq<ProcRow>, ds: seq<DefectRecord>): nat {
    if |rows| == 0 then 0 else FaultSum(rows[..|rows| - 1], ds) + FaultsOf(ds, rows[|rows| - 1].name)
  }

  lemma {:induction false} ValueSumIsSumOver(ps: ProcStats, n: nat)
    requires n <= |ps.types|
    ensures ValueSum(TypeRows(ps)[..n]) == SumOver(ps.types[..n], ps.breakdown, Id)
  {
    if n > 0 {
      ValueSumIsSumOver(ps, n - 1);
      assert TypeRows(ps)[..n][..n - 1] == TypeRows(ps)[..n - 1];
      assert ps.types[..n][..n - 1] == ps.types[..n - 1];
      assert Kinds(TypeRows(ps))[n - 1] == ps.types[n - 1];
    }
  }

  /** A process's breakdown values add up to its faults, so the chart's
      slices account for every counted fault. */
  lemma BreakdownAddsUpToFaults(ds: seq<DefectRecord>, i: nat)
    requires i < |StatsOf(ds).procData|
    ensures ValueSum(StatsOf(ds).procData[i].breakdownData) == FaultsOf(ds, StatsOf(ds).procData[i].name)
  {
    var a := Aggregate(ds);
    assert StatsOf(ds) == Summarize(a);
    var p := StatsOf(ds).procData[i].name;
    AggregateKeys(ds);
    AggregateFaults(ds);
    AggregateSums(ds);
    assert Names(ProcRows(a))[i] == a.order[i];
    var ps := a.procMap[p];
    assert BreakdownSums(ps);
    ValueSumIsSumOver(ps, |ps.types|);
    assert TypeRows(ps)[..|ps.types|] == TypeRows(ps);
    assert ps.types[..|ps.types|] == ps.types;
  }

  /** The per-process fault counts add up to the total. */
  lemma ProcessFaultsAddUpToTotal(ds: seq<DefectRecord>)
    ensures FaultSum(StatsOf(ds).procData, ds) == StatsOf(ds).totalFaults
  {
    RowFaultsAddUp(ds);
    assert StatsOf(ds) == Summarize(Aggregate(ds));
  }

  lemma RowFaultsAddUp(ds: seq<DefectRecord>)
    ensures FaultSum(ProcRows(Aggregate(ds)), ds) == Aggregate(ds).totalFaults
  {
    var a := Aggregate(ds);
    var rows := ProcRows(a);
    AggregateKeys(ds);
    AggregateFaults(ds);
    assert forall p :: p in a.order ==> p in a.procMap && a.procMap[p].faults == FaultsOf(ds, p);
    FaultSumIsSumOver(rows, a.order, a.procMap, ds, |a.order|);
    assert rows[..|a.order|] == rows;
    assert a.order[..|a.order|] == a.order;
    AggregateSums(ds);
    assert TotalsSum(a);
  }

  lemma {:induction false} FaultSumIsSumOver(rows: seq<ProcRow>, order: seq<string>, m: map<string, ProcStats>, ds: seq<DefectRecord>, n: nat)
    requires Names(rows) == order && n <= |rows|
    requires forall p :: p in order ==> p in m && m[p].faults == FaultsOf(ds, p)
    ensures FaultSum(rows[..n], ds) == SumOver(order[..n], m, FaultCount)
  {
    if n > 0 {
      FaultSumIsSumOver(rows, order, m, ds, n - 1);
      assert rows[..n][..n - 1] == rows[..n - 1];
      assert order[..n][..n - 1] == order[..n - 1];
      assert Names(rows)[n - 1] == order[n - 1];
    }
  }

  // ---------------------------------------------------------------------------
  // Worked figures
  // ---------------------------------------------------------------------------

  /** The statistics are the summary of the fold; the worked figures below
      go through the fold's final accumulator. */
  lemma StatsFromFold(ds: seq<DefectRecord>, a: Acc)
    requires Aggregate(ds) == a
    ensures StatsOf(ds) == Summarize(a)
  {
  }

  /** A payload of process "P" with every other header field blank. */
  function SampleEntry(batchId: string, defectType: string, quantity: nat, batchQty: nat): Entry {
    Entry(batchId, "", "", "P", "", "", "", "", "", "", "", "", defectType, quantity, batchQty, Missing, Missing)
  }

  function SampleLine(batchId: string, defectType: string, quantity: nat, batchQty: nat): DefectRecord {
    DefectRecord(batchId, SampleEntry(batchId, defectType, quantity, batchQty), Some(0), 0, "")
  }

  lemma OverwriteEmpty<K, V>(k: K, v: V)
    ensures map[][k := v] == map[k := v]
  {
  }

  lemma OverwriteSingleton<K, V>(k: K, v: V, w: V)
    ensures map[k := v][k := w] == map[k := w]
  {
  }

  /** Both worked figures fold two records; this unfolds the fold. */
  lemma AggregateTwo(l1: DefectRecord, l2: DefectRecord)
    ensures Aggregate([l1, l2]) == Step(Step(Start, l1.entry), l2.entry)
  {
    var ds := [l1, l2];
    assert ds[..1] == [l1];
    assert [l1][..0] == [];
    assert Run(Start, [l1]) == Step(Run(Start, []), l1.entry);
  }

  const Scratched1: ProcStats := ProcStats(3, 100, map["scratch" := 3], ["scratch"])
  const Scratched: ProcStats := ProcStats(5, 100, map["scratch" := 3, "dent" := 2], ["scratch", "dent"])

  lemma ScratchStep()
    ensures Step(Start, SampleEntry("b", "scratch", 3, 100)) == Acc(map["P" := Scratched1], ["P"], {("P", "b")}, 3, 100)
  {
    var e := SampleEntry("b", "scratch", 3, 100);
    assert BatchKey(e) == ("P", "b") && InspectedAdded(Start, e) == 100;
    assert !IsNoDefect(e) && FaultsAdded(e) == 3;
    assert Current(Start, "P") == FreshProc && OrderAfter(Start, "P") == ["P"];
    assert AddFault(FreshProc, "scratch", 3) == Scratched1.(inspected := 0);
    assert Tally(Current(Start, "P"), e, 100) == Scratched1;
    OverwriteEmpty("P", Scratched1);
    assert Start.seen + {("P", "b")} == {("P", "b")};
  }

  lemma DentStep()
    ensures Step(Acc(map["P" := Scratched1], ["P"], {("P", "b")}, 3, 100), SampleEntry("b", "dent", 2, 100))
         == Acc(map["P" := Scratched], ["P"], {("P", "b")}, 5, 100)
  {
    var a1 := Acc(map["P" := Scratched1], ["P"], {("P", "b")}, 3, 100);
    var e := SampleEntry("b", "dent", 2, 100);
    assert BatchKey(e) == ("P", "b") && InspectedAdded(a1, e) == 0;
    assert !IsNoDefect(e) && FaultsAdded(e) == 2;
    assert Current(a1, "P") == Scratched1 && OrderAfter(a1, "P") == ["P"];
    assert AddFault(Scratched1, "dent", 2) == Scratched;
    assert Tally(Scratched1, e, 0) == Scratched;
    OverwriteSingleton("P", Scratched1, Scratched);
    assert a1.seen + {("P", "b")} == a1.seen;
  }

  lemma FoldOneBatchTwoLines()
    ensures Aggregate([SampleLine("b", "scratch", 3, 100), SampleLine("b", "dent", 2, 100)]) ==
      Acc(map["P" := Scratched], ["P"], {("P", "b")}, 5, 100)
  {
    AggregateTwo(SampleLine("b", "scratch", 3, 100), SampleLine("b", "dent", 2, 100));
    ScratchStep();
    DentStep();
  }

  /** One batch of 100 with 3 scratches and 2 dents: 5 faults over 100
      inspected units, 5.00%, with 3.00% and 2.00% per type. */
  lemma OneBatchTwoLines()
    ensures var s := StatsOf([SampleLine("b", "scratch", 3, 100), SampleLine("b", "dent", 2, 100)]);
      && s.procData == [ProcRow("P", 500, [TypeRow("scratch", 3, 300), TypeRow("dent", 2, 200)])]
      && s.totalFaults == 5 && s.totalInspected == 100 && s.defectRate == "5.00"
  {
    FoldOneBatchTwoLines();
    StatsFromFold([SampleLine("b", "scratch", 3, 100), SampleLine("b", "dent", 2, 100)],
                  Acc(map["P" := Scratched], ["P"], {("P", "b")}, 5, 100));
    ScratchedRows();
    RateTexts();
  }

  lemma ScratchedRows()
    ensures ProcRows(Acc(map["P" := Scratched], ["P"], {("P", "b")}, 5, 100))
         == [ProcRow("P", 500, [TypeRow("scratch", 3, 300), TypeRow("dent", 2, 200)])]
  {
    var a := Acc(map["P" := Scratched], ["P"], {("P", "b")}, 5, 100);
    RateExamples();
    assert Current(a, "P") == Scratched;
    assert TypeRows(Scratched) == [TypeRow("scratch", 3, 300), TypeRow("dent", 2, 200)];
    assert ProcRows(a) == [ProcRow("P", 500, TypeRows(Scratched))];
  }

  const Clean: ProcStats := ProcStats(0, 50, map[], [])
  const Dented: ProcStats := ProcStats(4, 130, map["dent" := 4], ["dent"])

  lemma CleanStep()
    ensures Step(Start, SampleEntry("b1", NoDefect, 0, 50)) == Acc(map["P" := Clean], ["P"], {("P", "b1")}, 0, 50)
  {
    var e := SampleEntry("b1", NoDefect, 0, 50);
    assert BatchKey(e) == ("P", "b1") && InspectedAdded(Start, e) == 50;
    assert IsNoDefect(e) && FaultsAdded(e) == 0;
    assert Current(Start, "P") == FreshProc && OrderAfter(Start, "P") == ["P"];
    assert Tally(FreshProc, e, 50) == Clean;
    OverwriteEmpty("P", Clean);
    assert Start.seen + {("P", "b1")} == {("P", "b1")};
  }

  lemma SecondBatchStep()
    ensures Step(Acc(map["P" := Clean], ["P"], {("P", "b1")}, 0, 50), SampleEntry("b2", "dent", 4, 80))
         == Acc(map["P" := Dented], ["P"], {("P", "b1")} + {("P", "b2")}, 4, 130)
  {
    var a1 := Acc(map["P" := Clean], ["P"], {("P", "b1")}, 0, 50);
    var e := SampleEntry("b2", "dent", 4, 80);
    SecondBatchIsNew();
    DentTally();
    StepNewBatchOfKnownProcess(a1, e);
    OverwriteSingleton("P", Clean, Dented);
  }

  lemma SecondBatchIsNew()
    ensures SampleEntry("b2", "dent", 4, 80).process in map["P" := Clean]
    ensures BatchKey(SampleEntry("b2", "dent", 4, 80)) == ("P", "b2")
    ensures ("P", "b2") !in {("P", "b1")}
  {
    assert "b2"[1] != "b1"[1];
  }

  /** A step for a new batch of a process already met. */
  lemma StepNewBatchOfKnownProcess(acc: Acc, e: Entry)
    requires e.process in acc.procMap && BatchKey(e) !in acc.seen
    ensures Step(acc, e) == Acc(acc.procMap[e.process := Tally(acc.procMap[e.process], e, e.batchInspectionQty)],
                                acc.order, acc.seen + {BatchKey(e)},
                                acc.totalFaults + FaultsAdded(e), acc.totalInspected + e.batchInspectionQty)
  {
  }

  lemma DentTally()
    ensures !IsNoDefect(SampleEntry("b2", "dent", 4, 80))
    ensures Tally(Clean, SampleEntry("b2", "dent", 4, 80), 80) == Dented
  {
    var e := SampleEntry("b2", "dent", 4, 80);
    assert e.defectType[0] != NoDefect[0];
    assert Get(Clean.breakdown, "dent") == 0 && "dent" !in Clean.breakdown;
    assert AddFault(Clean, "dent", 4) == Dented.(inspected := 50);
  }

  lemma FoldCleanBatchThenDefects()
    ensures Aggregate([SampleLine("b1", NoDefect, 0, 50), SampleLine("b2", "dent", 4, 80)]) ==
      Acc(map["P" := Dented], ["P"], {("P", "b1")} + {("P", "b2")}, 4, 130)
  {
    AggregateTwo(SampleLine("b1", NoDefect, 0, 50), SampleLine("b2", "dent", 4, 80));
    CleanStep();
    SecondBatchStep();
  }

  /** A clean batch of 50 and a batch of 80 with 4 faults: 4 faults over 130
      inspected units, 3.08%, with the clean batch adding no breakdown row. */
  lemma CleanBatchCountsInspected()
    ensures var s := StatsOf([SampleLine("b1", NoDefect, 0, 50), SampleLine("b2", "dent", 4, 80)]);
      && s.procData == [ProcRow("P", 308, [TypeRow("dent", 4, 308)])]
      && s.totalFaults == 4 && s.totalInspected == 130 && s.defectRate == "3.08"
  {
    FoldCleanBatchThenDefects();
    StatsFromFold([SampleLine("b1", NoDefect, 0, 50), SampleLine("b2", "dent", 4, 80)],
                  Acc(map["P" := Dented], ["P"], {("P", "b1")} + {("P", "b2")}, 4, 130));
    DentedRows();
    RateTexts();
  }

  lemma RateTexts()
    ensures DefectRateText(5, 100) == "5.00" && DefectRateText(4, 130) == "3.08"
  {
    RateExamples();
    assert Fixed2(500) == "5.00";
    assert Fixed2(308) == "3.08";
  }

  lemma DentedRows()
    ensures ProcRows(Acc(map["P" := Dented], ["P"], {("P", "b1")} + {("P", "b2")}, 4, 130))
         == [ProcRow("P", 308, [TypeRow("dent", 4, 308)])]
  {
    var a := Acc(map["P" := Dented], ["P"], {("P", "b1")} + {("P", "b2")}, 4, 130);
    RateExamples();
    assert Current(a, "P") == Dented;
    assert TypeRows(Dented) == [TypeRow("dent", 4, 308)];
    assert ProcRows(a) == [ProcRow("P", 308, TypeRows(Dented))];
  }
}
