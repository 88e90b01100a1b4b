/** The dashboard's statistics fold. One pass over the filtered records
    builds, per process, the fault count, the inspected count and the faults
    per defect type, and a set of seen (process, batch) keys so that a
    batch's inspected quantity is added once however many defect lines it
    has. Processes and defect types are listed in the order they are first
    met, as object keys are. */
module Aggregation {
  import opened Records
  import opened Seqs

  datatype ProcStats = ProcStats(faults: nat, inspected: nat, breakdown: map<string, nat>, types: seq<string>)

  datatype Acc = Acc(
    procMap: map<string, ProcStats>,
    order: seq<string>,
    seen: set<(string, string)>,
    totalFaults: nat,
    totalInspected: nat)

  const FreshProc: ProcStats := ProcStats(0, 0, map[], [])
  const Start: Acc := Acc(map[], [], {}, 0, 0)

  /** Adds `q` faults of type `t` to one process. */
  function AddFault(ps: ProcStats, t: string, q: nat): ProcStats {
    ps.(faults := ps.faults + q,
        breakdown := ps.breakdown[t := Get(ps.breakdown, t) + q],
        types := if t in ps.breakdown then ps.types else ps.types + [t])
  }

  /** The stats of process `p` so far, fresh ones if it was not met. */
  function Current(acc: Acc, p: string): ProcStats {
    if p in acc.procMap then acc.procMap[p] else FreshProc
  }

  /** The process order after meeting `p`: appended the first time. */
  function OrderAfter(acc: Acc, p: string): seq<string> {
    if p in acc.procMap then acc.order else acc.order + [p]
  }

  /** The quantity a record adds to its process's faults: none for the
      no-defect marker. */
  function FaultsAdded(e: Entry): nat {
    if IsNoDefect(e) then 0 else e.quantity
  }

  /** The quantity a record adds to its process's inspected count: its
      batch quantity, the first time its (process, batch) key is seen. */
  function InspectedAdded(acc: Acc, e: Entry): nat {
    if BatchKey(e) in acc.seen then 0 else e.batchInspectionQty
  }

  /** One record's effect on its process's stats. */
  function Tally(ps: ProcStats, e: Entry, inspected: nat): ProcStats {
    var ps1 := if IsNoDefect(e) then ps else AddFault(ps, e.defectType, e.quantity);
    ps1.(inspected := ps1.inspected + inspected)
  }

  /** The body of the `forEach`. */
  function Step(acc: Acc, e: Entry): Acc {
    var di := InspectedAdded(acc, e);
    Acc(acc.procMap[e.process := Tally(Current(acc, e.process), e, di)],
        OrderAfter(acc, e.process),
        acc.seen + {BatchKey(e)},
        acc.totalFaults + FaultsAdded(e),
        acc.totalInspected + di)
  }

  /** Folds the records into `acc`, first record first. */
  function Run(acc: Acc, ds: seq<DefectRecord>): Acc
    decreases |ds|
  {
    if |ds| == 0 then acc else Step(Run(acc, ds[..|ds| - 1]), ds[|ds| - 1].entry)
  }

  function Aggregate(ds: seq<DefectRecord>): Acc {
    Run(Start, ds)
  }

  // ---------------------------------------------------------------------------
  // Reference definitions, record by record
  // ---------------------------------------------------------------------------

  function ProcessesOf(ds: seq<DefectRecord>): set<string> {
    if |ds| == 0 then {} else ProcessesOf(ds[..|ds| - 1]) + {ds[|ds| - 1].entry.process}
  }

  function BatchKeysOf(ds: seq<DefectRecord>): set<(string, string)> {
    if |ds| == 0 then {} else BatchKeysOf(ds[..|ds| - 1]) + {BatchKey(ds[|ds| - 1].entry)}
  }

  /** Faults a record contributes to process `p`. */
  function FaultShare(e: Entry, p: string): nat {
    if e.process == p && !IsNoDefect(e) then e.quantity else 0
  }

  /** The faults of process `p`: the quantities of its defect records. */
  function FaultsOf(ds: seq<DefectRecord>, p: string): nat {
    if |ds| == 0 then 0 else FaultsOf(ds[..|ds| - 1], p) + FaultShare(ds[|ds| - 1].entry, p)
  }

  /** The faults of type `t` in process `p`. */
  function TypeFaultsOf(ds: seq<DefectRecord>, p: string, t: string): nat {
    if |ds| == 0 then 0
    else TypeFaultsOf(ds[..|ds| - 1], p, t) + (if ds[|ds| - 1].entry.defectType == t then FaultShare(ds[|ds| - 1].entry, p) else 0)
  }

  /** The defect types recorded against process `p`, the no-defect marker
      excluded. */
  function TypesOf(ds: seq<DefectRecord>, p: string): set<string> {
    if |ds| == 0 then {}
    else
      var e := ds[|ds| - 1].entry;
      TypesOf(ds[..|ds| - 1], p) + (if e.process == p && !IsNoDefect(e) then {e.defectType} else {})
  }

  /** Whether the last record is the first of its (process, batch) pair. */
  predicate OpensBatch(ds: seq<DefectRecord>)
    requires |ds| > 0
  {
    BatchKey(ds[|ds| - 1].entry) !in BatchKeysOf(ds[..|ds| - 1])
  }

  /** The inspected count of process `p`: the batch quantity of the first
      record of each of its batches. */
  function InspectedOf(ds: seq<DefectRecord>, p: string): nat {
    if |ds| == 0 then 0
    else
      var e := ds[|ds| - 1].entry;
      InspectedOf(ds[..|ds| - 1], p) + (if e.process == p && OpensBatch(ds) then e.batchInspectionQty else 0)
  }

  function AllFaults(ds: seq<DefectRecord>): nat {
    if |ds| == 0 then 0
    else
      var e := ds[|ds| - 1].entry;
      AllFaults(ds[..|ds| - 1]) + (if IsNoDefect(e) then 0 else e.quantity)
  }

  function AllInspected(ds: seq<DefectRecord>): nat {
    if |ds| == 0 then 0
    else AllInspected(ds[..|ds| - 1]) + (if OpensBatch(ds) then ds[|ds| - 1].entry.batchInspectionQty else 0)
  }

  /** The processes in the order they are first met. */
  function FirstMet(ds: seq<DefectRecord>): seq<string> {
    if |ds| == 0 then []
    else
      var o := FirstMet(ds[..|ds| - 1]);
      var p := ds[|ds| - 1].entry.process;
      if p in o then o else o + [p]
  }

  // ---------------------------------------------------------------------------
  // The fold computes the reference values
  // ---------------------------------------------------------------------------

  /** Every process met has an entry, listed once in order of first
      appearance, and the seen set is exactly the batch keys met. */
  lemma {:induction false} AggregateKeys(ds: seq<DefectRecord>)
    ensures Aggregate(ds).procMap.Keys == ProcessesOf(ds)
    ensures Aggregate(ds).seen == BatchKeysOf(ds)
    ensures NoDups(Aggregate(ds).order)
    ensures forall p :: p in Aggregate(ds).order <==> p in Aggregate(ds).procMap
    ensures forall k :: k in BatchKeysOf(ds) ==> k.0 in ProcessesOf(ds)
  {
    if |ds| > 0 {
      var init := ds[..|ds| - 1];
      AggregateKeys(init);
      var a := Aggregate(init);
      var p := ds[|ds| - 1].entry.process;
      if p !in a.procMap {
        NoDupsAppend(a.order, p);
      }
    }
  }

  /** The processes are listed in the order they are first met. */
  lemma {:induction false} AggregateOrder(ds: seq<DefectRecord>)
    ensures Aggregate(ds).order == FirstMet(ds)
  {
    if |ds| > 0 {
      AggregateOrder(ds[..|ds| - 1]);
      AggregateKeys(ds[..|ds| - 1]);
    }
  }

  /** Per-process and total faults are the sums of the defect records'
      quantities; no-defect records add nothing. */
  lemma {:induction false} AggregateFaults(ds: seq<DefectRecord>)
    ensures forall p :: p in Aggregate(ds).procMap ==> Aggregate(ds).procMap[p].faults == FaultsOf(ds, p)
    ensures Aggregate(ds).totalFaults == AllFaults(ds)
  {
    if |ds| > 0 {
      var init := ds[..|ds| - 1];
      AggregateFaults(init);
      AggregateKeys(init);
      forall p | p !in Aggregate(init).procMap
        ensures FaultsOf(init, p) == 0
      {
        AbsentProcessHasNoFaults(init, p);
      }
    }
  }

  lemma {:induction false} AbsentProcessHasNoFaults(ds: seq<DefectRecord>, p: string)
    requires p !in ProcessesOf(ds)
    ensures FaultsOf(ds, p) == 0 && InspectedOf(ds, p) == 0 && TypesOf(ds, p) == {}
    ensures forall t :: TypeFaultsOf(ds, p, t) == 0
  {
    if |ds| > 0 {
      AbsentProcessHasNoFaults(ds[..|ds| - 1], p);
    }
  }

  /** Each process's breakdown has a key for exactly the defect types met
      for it, each holding the faults of that type. */
  lemma AggregateBreakdown(ds: seq<DefectRecord>)
    ensures forall p :: p in Aggregate(ds).procMap ==> Aggregate(ds).procMap[p].breakdown.Keys == TypesOf(ds, p)
    ensures forall p, t :: p in Aggregate(ds).procMap && t in Aggregate(ds).procMap[p].breakdown ==>
      Aggregate(ds).procMap[p].breakdown[t] == TypeFaultsOf(ds, p, t)
  {
    BreakdownKeys(ds);
    BreakdownCounts(ds);
  }

  lemma {:induction false} BreakdownKeys(ds: seq<DefectRecord>)
    ensures forall p :: p in Aggregate(ds).procMap ==> Aggregate(ds).procMap[p].breakdown.Keys == TypesOf(ds, p)
  {
    if |ds| > 0 {
      var init := ds[..|ds| - 1];
      BreakdownKeys(init);
      AggregateKeys(init);
      var a := Aggregate(init);
      forall p | p !in a.procMap
        ensures TypesOf(init, p) == {}
      {
        AbsentProcessHasNoFaults(init, p);
      }
    }
  }

  lemma {:induction false} BreakdownCounts(ds: seq<DefectRecord>)
    ensures forall p, t :: p in Aggregate(ds).procMap && t in Aggregate(ds).procMap[p].breakdown ==>
      Aggregate(ds).procMap[p].breakdown[t] == TypeFaultsOf(ds, p, t)
  {
    if |ds| > 0 {
      var init := ds[..|ds| - 1];
      BreakdownCounts(init);
      BreakdownKeys(init);
      AggregateKeys(init);
      var a := Aggregate(init);
      forall p, t | p !in a.procMap
        ensures TypeFaultsOf(init, p, t) == 0
      {
        AbsentProcessHasNoFaults(init, p);
      }
      forall p, t | p in a.procMap && t !in a.procMap[p].breakdown
        ensures TypeFaultsOf(init, p, t) == 0
      {
        UnlistedTypeHasNoFaults(init, p, t);
      }
    }
  }

  lemma {:induction false} UnlistedTypeHasNoFaults(ds: seq<DefectRecord>, p: string, t: string)
    requires t !in TypesOf(ds, p)
    ensures TypeFaultsOf(ds, p, t) == 0
  {
    if |ds| > 0 {
      UnlistedTypeHasNoFaults(ds[..|ds| - 1], p, t);
    }
  }

  /** Per-process and total inspected counts add each batch's quantity once,
      from the first record of the batch. */
  lemma {:induction false} AggregateInspected(ds: seq<DefectRecord>)
    ensures forall p :: p in Aggregate(ds).procMap ==> Aggregate(ds).procMap[p].inspected == InspectedOf(ds, p)
    ensures Aggregate(ds).totalInspected == AllInspected(ds)
  {
    if |ds| > 0 {
      var init := ds[..|ds| - 1];
      AggregateInspected(init);
      AggregateKeys(init);
      forall p | p !in Aggregate(init).procMap
        ensures InspectedOf(init, p) == 0
      {
        AbsentProcessHasNoFaults(init, p);
      }
    }
  }

  function FaultCount(ps: ProcStats): nat {
    ps.faults
  }

  function InspectedCount(ps: ProcStats): nat {
    ps.inspected
  }

  /** The order lists every process once. */
  ghost predicate OrderListsProcesses(acc: Acc) {
    NoDups(acc.order) && forall p :: p in acc.order <==> p in acc.procMap
  }

  /** A breakdown lists its types once and sums to the process's faults. */
  ghost predicate BreakdownSums(ps: ProcStats) {
    && NoDups(ps.types)
    && (forall t :: t in ps.types <==> t in ps.breakdown)
    && SumOver(ps.types, ps.breakdown, Id) == ps.faults
  }

  ghost predicate AllBreakdownsSum(acc: Acc) {
    forall p :: p in acc.procMap ==> BreakdownSums(acc.procMap[p])
  }

  /** The totals are the sums of the per-process counts over the order. */
  ghost predicate TotalsSum(acc: Acc) {
    && acc.totalFaults == SumOver(acc.order, acc.procMap, FaultCount)
    && acc.totalInspected == SumOver(acc.order, acc.procMap, InspectedCount)
  }

  /** Each breakdown lists its types once and sums to the process's
      faults, and the totals are the sums over the listed processes. */
  lemma {:induction false} AggregateSums(ds: seq<DefectRecord>)
    ensures OrderListsProcesses(Aggregate(ds))
    ensures AllBreakdownsSum(Aggregate(ds))
    ensures TotalsSum(Aggregate(ds))
  {
    if |ds| > 0 {
      var init := ds[..|ds| - 1];
      var e := ds[|ds| - 1].entry;
      AggregateSums(init);
      StepOrder(Aggregate(init), e);
      StepFaultTotal(Aggregate(init), e);
      StepInspectedTotal(Aggregate(init), e);
      StepBreakdowns(Aggregate(init), e);
    }
  }

  /** The order after a step: the process is appended when new. */
  lemma StepOrder(acc: Acc, e: Entry)
    requires OrderListsProcesses(acc)
    ensures OrderListsProcesses(Step(acc, e))
    ensures Step(acc, e).order == if e.process in acc.order then acc.order else acc.order + [e.process]
  {
    if e.process !in acc.procMap {
      NoDupsAppend(acc.order, e.process);
    }
  }

  /** What one record adds to its process's counts. */
  lemma TallyCounts(acc: Acc, e: Entry)
    ensures FaultCount(Tally(Current(acc, e.process), e, InspectedAdded(acc, e))) ==
      At(acc.procMap, e.process, FaultCount) + FaultsAdded(e)
    ensures InspectedCount(Tally(Current(acc, e.process), e, InspectedAdded(acc, e))) ==
      At(acc.procMap, e.process, InspectedCount) + InspectedAdded(acc, e)
  {
  }

  lemma StepFaultTotal(acc: Acc, e: Entry)
    requires OrderListsProcesses(acc)
    requires acc.totalFaults == SumOver(acc.order, acc.procMap, FaultCount)
    ensures Step(acc, e).totalFaults == SumOver(Step(acc, e).order, Step(acc, e).procMap, FaultCount)
  {
    var p := e.process;
    var ps := Tally(Current(acc, p), e, InspectedAdded(acc, e));
    StepOrder(acc, e);
    TallyCounts(acc, e);
    SumOverBumpOrAppend(acc.order, acc.procMap, p, ps, FaultCount, FaultsAdded(e));
  }

  lemma StepInspectedTotal(acc: Acc, e: Entry)
    requires OrderListsProcesses(acc)
    requires acc.totalInspected == SumOver(acc.order, acc.procMap, InspectedCount)
    ensures Step(acc, e).totalInspected == SumOver(Step(acc, e).order, Step(acc, e).procMap, InspectedCount)
  {
    var p := e.process;
    var ps := Tally(Current(acc, p), e, InspectedAdded(acc, e));
    StepOrder(acc, e);
    TallyCounts(acc, e);
    SumOverBumpOrAppend(acc.order, acc.procMap, p, ps, InspectedCount, InspectedAdded(acc, e));
  }

  /** Each breakdown still lists its keys once and sums to its faults. */
  lemma StepBreakdowns(acc: Acc, e: Entry)
    requires AllBreakdownsSum(acc)
    ensures AllBreakdownsSum(Step(acc, e))
  {
    var p := e.process;
    var ps0 := Current(acc, p);
    var di := InspectedAdded(acc, e);
    assert BreakdownSums(ps0) by {
      if p !in acc.procMap {
        assert ps0 == FreshProc;
      }
    }
    var ps1 := if IsNoDefect(e) then ps0 else AddFault(ps0, e.defectType, e.quantity);
    if !IsNoDefect(e) {
      BreakdownStep(ps0, e.defectType, e.quantity);
    }
    assert Tally(ps0, e, di) == ps1.(inspected := ps1.inspected + di);
    var m := Step(acc, e).procMap;
    assert m == acc.procMap[p := Tally(ps0, e, di)];
    forall q | q in m
      ensures BreakdownSums(m[q])
    {
      if q != p {
        assert m[q] == acc.procMap[q];
      }
    }
  }

  lemma BreakdownStep(ps: ProcStats, t: string, q: nat)
    requires BreakdownSums(ps)
    ensures BreakdownSums(AddFault(ps, t, q))
  {
    if t in ps.breakdown {
      BreakdownBumpKnown(ps, t, q);
    } else {
      BreakdownAddNew(ps, t, q);
    }
  }

  /** A type already listed keeps its place and its count grows. */
  lemma BreakdownBumpKnown(ps: ProcStats, t: string, q: nat)
    requires BreakdownSums(ps) && t in ps.breakdown
    ensures BreakdownSums(AddFault(ps, t, q))
  {
    var v: nat := ps.breakdown[t] + q;
    assert AddFault(ps, t, q) == ps.(faults := ps.faults + q, breakdown := ps.breakdown[t := v]);
    SumOverBump<string, nat>(ps.types, ps.breakdown, t, v, Id, q);
  }

  /** A new type is listed last with its count. */
  lemma BreakdownAddNew(ps: ProcStats, t: string, q: nat)
    requires BreakdownSums(ps) && t !in ps.breakdown
    ensures BreakdownSums(AddFault(ps, t, q))
  {
    var m := ps.breakdown[t := q];
    assert AddFault(ps, t, q) == ps.(faults := ps.faults + q, breakdown := m, types := ps.types + [t]);
    NoDupsAppend(ps.types, t);
    SumOverAppend<string, nat>(ps.types, m, t, Id);
    SumOverUnlisted<string, nat>(ps.types, ps.breakdown, t, q, Id);
  }

  // ---------------------------------------------------------------------------
  // Batches
  // ---------------------------------------------------------------------------

  /** `batch` is k >= 1 records of one (process, batch) pair carrying one
      inspected quantity. */
  predicate OneBatch(batch: seq<DefectRecord>, p: string, b: string, q: nat) {
    && |batch| > 0
    && forall i :: 0 <= i < |batch| ==>
         BatchKey(batch[i].entry) == (p, b) && batch[i].entry.batchInspectionQty == q
  }

  /** The faults the defect lines of `batch` carry. */
  function LineFaults(batch: seq<DefectRecord>): nat {
    if |batch| == 0 then 0
    else
      var e := batch[|batch| - 1].entry;
      LineFaults(batch[..|batch| - 1]) + (if IsNoDefect(e) then 0 else e.quantity)
  }

  /** Appending a new batch of k lines raises its process's inspected count
      and the total by its quantity once, not k times, leaves other processes
      alone, and adds its lines' faults. */
  lemma {:induction false} NewBatchCountedOnce(pre: seq<DefectRecord>, batch: seq<DefectRecord>, p: string, b: string, q: nat)
    requires OneBatch(batch, p, b, q)
    requires (p, b) !in BatchKeysOf(pre)
    ensures InspectedOf(pre + batch, p) == InspectedOf(pre, p) + q
    ensures forall p' :: p' != p ==> InspectedOf(pre + batch, p') == InspectedOf(pre, p')
    ensures AllInspected(pre + batch) == AllInspected(pre) + q
    ensures FaultsOf(pre + batch, p) == FaultsOf(pre, p) + LineFaults(batch)
    ensures AllFaults(pre + batch) == AllFaults(pre) + LineFaults(batch)
    ensures (p, b) in BatchKeysOf(pre + batch)
  {
    var n := |batch|;
    var init := batch[..n - 1];
    assert (pre + batch)[..|pre + batch| - 1] == pre + init;
    if n == 1 {
      assert pre + init == pre;
    } else {
      assert OneBatch(init, p, b, q);
      NewBatchCountedOnce(pre, init, p, b, q);
    }
  }

  lemma {:induction false} BatchKeysOfAppend(a: seq<DefectRecord>, b: seq<DefectRecord>)
    ensures BatchKeysOf(a + b) == BatchKeysOf(a) + BatchKeysOf(b)
    decreases |b|
  {
    if |b| == 0 {
      assert a + b == a;
    } else {
      assert (a + b)[..|a + b| - 1] == a + b[..|b| - 1];
      BatchKeysOfAppend(a, b[..|b| - 1]);
    }
  }

  lemma {:induction false} FaultsOfAppend(a: seq<DefectRecord>, b: seq<DefectRecord>, p: string)
    ensures FaultsOf(a + b, p) == FaultsOf(a, p) + FaultsOf(b, p)
    ensures AllFaults(a + b) == AllFaults(a) + AllFaults(b)
    decreases |b|
  {
    if |b| == 0 {
      assert a + b == a;
    } else {
      assert (a + b)[..|a + b| - 1] == a + b[..|b| - 1];
      FaultsOfAppend(a, b[..|b| - 1], p);
    }
  }

  lemma {:induction false} BatchKeysOfOneBatch(batch: seq<DefectRecord>, p: string, b: string, q: nat)
    requires OneBatch(batch, p, b, q)
    ensures BatchKeysOf(batch) == {(p, b)}
  {
    var n := |batch|;
    if n == 1 {
      assert batch[..0] == [];
    } else {
      assert OneBatch(batch[..n - 1], p, b, q);
      BatchKeysOfOneBatch(batch[..n - 1], p, b, q);
    }
  }

  /** A batch alone: its quantity once for its process, nothing elsewhere. */
  lemma OneBatchAlone(batch: seq<DefectRecord>, p: string, b: string, q: nat)
    requires OneBatch(batch, p, b, q)
    ensures InspectedOf(batch, p) == q && AllInspected(batch) == q
    ensures forall p' :: p' != p ==> InspectedOf(batch, p') == 0
    ensures FaultsOf(batch, p) == LineFaults(batch) && AllFaults(batch) == LineFaults(batch)
  {
    NewBatchCountedOnce([], batch, p, b, q);
    assert [] + batch == batch;
  }

  /** Inspected counts add up over a batch placed before records that do not
      share its key. */
  lemma {:induction false} InspectedOfFreshPrefix(batch: seq<DefectRecord>, rest: seq<DefectRecord>, p: string, b: string, q: nat)
    requires OneBatch(batch, p, b, q)
    requires (p, b) !in BatchKeysOf(rest)
    ensures forall p' :: InspectedOf(batch + rest, p') == InspectedOf(batch, p') + InspectedOf(rest, p')
    ensures AllInspected(batch + rest) == AllInspected(batch) + AllInspected(rest)
    decreases |rest|
  {
    if |rest| == 0 {
      assert batch + rest == batch;
    } else {
      var init := rest[..|rest| - 1];
      var x := rest[|rest| - 1].entry;
      assert (batch + rest)[..|batch + rest| - 1] == batch + init;
      assert (batch + rest)[|batch + rest| - 1].entry == x;
      InspectedOfFreshPrefix(batch, init, p, b, q);
      BatchKeysOfAppend(batch, init);
      BatchKeysOfOneBatch(batch, p, b, q);
      assert BatchKey(x) != (p, b);
      assert OpensBatch(batch + rest) == OpensBatch(rest);
    }
  }

  /** A new batch listed first, as the newest records are: its process's
      inspected count and the total grow by its quantity once, other
      processes are unchanged, and its lines' faults are added. */
  lemma NewBatchFirst(batch: seq<DefectRecord>, rest: seq<DefectRecord>, p: string, b: string, q: nat)
    requires OneBatch(batch, p, b, q)
    requires (p, b) !in BatchKeysOf(rest)
    ensures InspectedOf(batch + rest, p) == q + InspectedOf(rest, p)
    ensures forall p' :: p' != p ==> InspectedOf(batch + rest, p') == InspectedOf(rest, p')
    ensures AllInspected(batch + rest) == q + AllInspected(rest)
    ensures FaultsOf(batch + rest, p) == LineFaults(batch) + FaultsOf(rest, p)
    ensures AllFaults(batch + rest) == LineFaults(batch) + AllFaults(rest)
  {
    OneBatchAlone(batch, p, b, q);
    InspectedOfFreshPrefix(batch, rest, p, b, q);
    FaultsOfAppend(batch, rest, p);
  }

  /** The same in terms of the fold. */
  lemma NewBatchInAggregate(pre: seq<DefectRecord>, batch: seq<DefectRecord>, p: string, b: string, q: nat)
    requires OneBatch(batch, p, b, q)
    requires (p, b) !in BatchKeysOf(pre)
    ensures var before, after := Aggregate(pre), Aggregate(pre + batch);
      && p in after.procMap
      && after.procMap[p].inspected == (if p in before.procMap then before.procMap[p].inspected else 0) + q
      && after.procMap[p].faults == (if p in before.procMap then before.procMap[p].faults else 0) + LineFaults(batch)
      && after.totalInspected == before.totalInspected + q
      && after.totalFaults == before.totalFaults + LineFaults(batch)
  {
    NewBatchCountedOnce(pre, batch, p, b, q);
    AggregateKeys(pre);
    AggregateKeys(pre + batch);
    AggregateInspected(pre);
    AggregateInspected(pre + batch);
    AggregateFaults(pre);
    AggregateFaults(pre + batch);
    if p !in Aggregate(pre).procMap {
      AbsentProcessHasNoFaults(pre, p);
    }
  }

  /** Records with the same fields give the same statistics, whatever their
      identifiers, timestamps and owners. */
  lemma {:induction false} AggregateReadsOnlyEntries(ds: seq<DefectRecord>, ds': seq<DefectRecord>)
    requires |ds| == |ds'|
    requires forall i :: 0 <= i < |ds| ==> ds[i].entry == ds'[i].entry
    ensures Aggregate(ds) == Aggregate(ds')
  {
    if |ds| > 0 {
      AggregateReadsOnlyEntries(ds[..|ds| - 1], ds'[..|ds'| - 1]);
    }
  }

  // ---------------------------------------------------------------------------
  // The order of the records
  // ---------------------------------------------------------------------------

  /** Records of one batch carry one inspected quantity, as every
      submission writes them. */
  predicate QtyConsistent(ds: seq<DefectRecord>) {
    forall d1, d2 :: d1 in ds && d2 in ds && BatchKey(d1.entry) == BatchKey(d2.entry) ==>
      d1.entry.batchInspectionQty == d2.entry.batchInspectionQty
  }

  /** The reference values read only the payloads. */
  lemma ReferenceReadsOnlyEntries(ds: seq<DefectRecord>, ds': seq<DefectRecord>)
    requires |ds| == |ds'|
    requires forall i :: 0 <= i < |ds| ==> ds[i].entry == ds'[i].entry
    ensures ProcessesOf(ds) == ProcessesOf(ds') && BatchKeysOf(ds) == BatchKeysOf(ds')
    ensures AllFaults(ds) == AllFaults(ds') && AllInspected(ds) == AllInspected(ds')
    ensures forall p :: FaultsOf(ds, p) == FaultsOf(ds', p) && InspectedOf(ds, p) == InspectedOf(ds', p)
    ensures forall p :: TypesOf(ds, p) == TypesOf(ds', p)
    ensures forall p, t :: TypeFaultsOf(ds, p, t) == TypeFaultsOf(ds', p, t)
  {
    CountsReadOnlyEntries(ds, ds');
    TypesReadOnlyEntries(ds, ds');
  }

  lemma {:induction false} CountsReadOnlyEntries(ds: seq<DefectRecord>, ds': seq<DefectRecord>)
    requires |ds| == |ds'|
    requires forall i :: 0 <= i < |ds| ==> ds[i].entry == ds'[i].entry
    ensures ProcessesOf(ds) == ProcessesOf(ds') && BatchKeysOf(ds) == BatchKeysOf(ds')
    ensures AllFaults(ds) == AllFaults(ds') && AllInspected(ds) == AllInspected(ds')
    ensures forall p :: FaultsOf(ds, p) == FaultsOf(ds', p) && InspectedOf(ds, p) == InspectedOf(ds', p)
  {
    if |ds| > 0 {
      var n := |ds| - 1;
      assert ds[n].entry == ds'[n].entry;
      CountsReadOnlyEntries(ds[..n], ds'[..n]);
    }
  }

  lemma {:induction false} TypesReadOnlyEntries(ds: seq<DefectRecord>, ds': seq<DefectRecord>)
    requires |ds| == |ds'|
    requires forall i :: 0 <= i < |ds| ==> ds[i].entry == ds'[i].entry
    ensures forall p :: TypesOf(ds, p) == TypesOf(ds', p)
    ensures forall p, t :: TypeFaultsOf(ds, p, t) == TypeFaultsOf(ds', p, t)
  {
    if |ds| > 0 {
      var n := |ds| - 1;
      assert ds[n].entry == ds'[n].entry;
      TypesReadOnlyEntries(ds[..n], ds'[..n]);
    }
  }

  /** The order-free reference values of two blocks of records add up. */
  lemma {:induction false} ReferenceAppend(a: seq<DefectRecord>, b: seq<DefectRecord>)
    ensures ProcessesOf(a + b) == ProcessesOf(a) + ProcessesOf(b)
    ensures BatchKeysOf(a + b) == BatchKeysOf(a) + BatchKeysOf(b)
    ensures AllFaults(a + b) == AllFaults(a) + AllFaults(b)
    ensures forall p :: FaultsOf(a + b, p) == FaultsOf(a, p) + FaultsOf(b, p)
    ensures forall p :: TypesOf(a + b, p) == TypesOf(a, p) + TypesOf(b, p)
    ensures forall p, t :: TypeFaultsOf(a + b, p, t) == TypeFaultsOf(a, p, t) + TypeFaultsOf(b, p, t)
    decreases |b|
  {
    if |b| == 0 {
      assert a + b == a;
    } else {
      assert (a + b)[..|a + b| - 1] == a + b[..|b| - 1];
      assert (a + b)[|a + b| - 1] == b[|b| - 1];
      ReferenceAppend(a, b[..|b| - 1]);
    }
  }

  /** A record placed before others adds its batch quantity unless a later
      record already opens its batch; with one quantity per batch it does
      not matter which record of a batch comes first. */
  lemma {:induction false} InspectedOfLeading(x: DefectRecord, rs: seq<DefectRecord>)
    requires QtyConsistent([x] + rs)
    ensures forall p :: (InspectedOf([x] + rs, p) ==
      InspectedOf(rs, p) + (if x.entry.process == p && BatchKey(x.entry) !in BatchKeysOf(rs) then x.entry.batchInspectionQty else 0))
    ensures AllInspected([x] + rs) == AllInspected(rs) +
      (if BatchKey(x.entry) !in BatchKeysOf(rs) then x.entry.batchInspectionQty else 0)
    ensures BatchKeysOf([x] + rs) == BatchKeysOf(rs) + {BatchKey(x.entry)}
    decreases |rs|
  {
    var xs := [x] + rs;
    if |rs| == 0 {
      assert xs == [x];
      assert xs[..0] == [];
    } else {
      var init, y := rs[..|rs| - 1], rs[|rs| - 1];
      assert xs[..|xs| - 1] == [x] + init;
      assert xs[|xs| - 1] == y;
      assert forall d :: d in [x] + init ==> d in xs;
      InspectedOfLeading(x, init);
      assert xs[0] == x;
      assert x in xs && y in xs;
    }
  }

  /** Read back to front, records with one quantity per batch give every
      process the same faults, inspected count and breakdown, and the same
      totals. */
  lemma ReversedCounts(ds: seq<DefectRecord>)
    requires QtyConsistent(ds)
    ensures ProcessesOf(Reverse(ds)) == ProcessesOf(ds) && BatchKeysOf(Reverse(ds)) == BatchKeysOf(ds)
    ensures AllFaults(Reverse(ds)) == AllFaults(ds) && AllInspected(Reverse(ds)) == AllInspected(ds)
    ensures forall p :: FaultsOf(Reverse(ds), p) == FaultsOf(ds, p) && InspectedOf(Reverse(ds), p) == InspectedOf(ds, p)
    ensures forall p :: TypesOf(Reverse(ds), p) == TypesOf(ds, p)
    ensures forall p, t :: TypeFaultsOf(Reverse(ds), p, t) == TypeFaultsOf(ds, p, t)
  {
    ReversedKeys(ds);
    ReversedFaults(ds);
    ReversedTypes(ds);
    ReversedInspected(ds);
  }

  /** The step the reversal lemmas share: the reversed sequence is the last
      record followed by the reversed rest. */
  lemma ReverseSplit(ds: seq<DefectRecord>)
    requires |ds| > 0
    ensures ds == ds[..|ds| - 1] + [ds[|ds| - 1]]
    ensures Reverse(ds) == [ds[|ds| - 1]] + Reverse(ds[..|ds| - 1])
  {
    LastSplit(ds);
    var n := |ds| - 1;
    assert Reverse(ds) == [ds[n]] + Reverse(ds[..n]);
  }

  lemma {:induction false} ReversedKeys(ds: seq<DefectRecord>)
    ensures ProcessesOf(Reverse(ds)) == ProcessesOf(ds) && BatchKeysOf(Reverse(ds)) == BatchKeysOf(ds)
  {
    if |ds| > 0 {
      var init, x := ds[..|ds| - 1], ds[|ds| - 1];
      ReverseSplit(ds);
      ReversedKeys(init);
      ReferenceAppend([x], Reverse(init));
      ReferenceAppend(init, [x]);
    }
  }

  lemma {:induction false} ReversedFaults(ds: seq<DefectRecord>)
    ensures AllFaults(Reverse(ds)) == AllFaults(ds)
    ensures forall p :: FaultsOf(Reverse(ds), p) == FaultsOf(ds, p)
  {
    if |ds| > 0 {
      var init, x := ds[..|ds| - 1], ds[|ds| - 1];
      ReverseSplit(ds);
      ReversedFaults(init);
      ReferenceAppend([x], Reverse(init));
      ReferenceAppend(init, [x]);
    }
  }

  lemma {:induction false} ReversedTypes(ds: seq<DefectRecord>)
    ensures forall p :: TypesOf(Reverse(ds), p) == TypesOf(ds, p)
    ensures forall p, t :: TypeFaultsOf(Reverse(ds), p, t) == TypeFaultsOf(ds, p, t)
  {
    if |ds| > 0 {
      var init, x := ds[..|ds| - 1], ds[|ds| - 1];
      ReverseSplit(ds);
      ReversedTypes(init);
      ReferenceAppend([x], Reverse(init));
      ReferenceAppend(init, [x]);
    }
  }

  lemma {:induction false} ReversedInspected(ds: seq<DefectRecord>)
    requires QtyConsistent(ds)
    ensures AllInspected(Reverse(ds)) == AllInspected(ds)
    ensures forall p :: InspectedOf(Reverse(ds), p) == InspectedOf(ds, p)
  {
    if |ds| > 0 {
      var init, x := ds[..|ds| - 1], ds[|ds| - 1];
      ReverseSplit(ds);
      assert forall d :: d in init ==> d in ds;
      ReversedInspected(init);
      ReversedKeys(init);
      var r := Reverse(init);
      ReverseMembers(init);
      assert forall d :: d in [x] + r ==> d in ds;
      InspectedOfLeading(x, r);
    }
  }

  // ---------------------------------------------------------------------------
  // No-defect lines inside a batch
  // ---------------------------------------------------------------------------

  lemma {:induction false} RunAppend(acc: Acc, a: seq<DefectRecord>, b: seq<DefectRecord>)
    ensures Run(acc, a + b) == Run(Run(acc, a), b)
    decreases |b|
  {
    if |b| > 0 {
      var ab := a + b;
      assert ab[..|ab| - 1] == a + b[..|b| - 1];
      assert ab[|ab| - 1] == b[|b| - 1];
      RunAppend(acc, a, b[..|b| - 1]);
      assert Run(acc, ab) == Step(Run(acc, a + b[..|b| - 1]), b[|b| - 1].entry);
    } else {
      assert a + b == a;
    }
  }

  /** A no-defect record followed by a record of the same batch leaves the
      same state as that record alone. */
  lemma NoDefectAbsorbed(acc: Acc, s: Entry, e: Entry)
    requires IsNoDefect(s)
    requires BatchKey(s) == BatchKey(e) && s.batchInspectionQty == e.batchInspectionQty
    ensures Step(Step(acc, s), e) == Step(acc, e)
  {
    var p := e.process;
    if p in acc.procMap {
      assert Step(acc, s).order == acc.order;
    }
  }

  /** A no-defect line submitted together with defect lines of the same
      batch changes no statistic: the mixed list the add button can leave
      behind is counted as the defect lines alone. */
  lemma NoDefectLineHarmless(pre: seq<DefectRecord>, s: DefectRecord, rest: seq<DefectRecord>)
    requires IsNoDefect(s.entry) && |rest| > 0
    requires BatchKey(s.entry) == BatchKey(rest[0].entry)
    requires s.entry.batchInspectionQty == rest[0].entry.batchInspectionQty
    ensures Aggregate(pre + [s] + rest) == Aggregate(pre + rest)
  {
    var a0 := Aggregate(pre);
    var r0, tail := rest[0], rest[1..];
    assert pre + [s] + rest == pre + ([s] + rest);
    assert rest == [r0] + tail;
    RunAppend(Start, pre, [s] + rest);
    RunAppend(Start, pre, rest);
    RunLeading(a0, s, rest);
    RunLeading(Step(a0, s.entry), r0, tail);
    RunLeading(a0, r0, tail);
    NoDefectAbsorbed(a0, s.entry, r0.entry);
  }

  /** A no-defect record of a batch already counted, for a process already
      listed, leaves the state as it was. */
  lemma StepSeenNoDefect(acc: Acc, s: Entry)
    requires IsNoDefect(s) && BatchKey(s) in acc.seen && s.process in acc.procMap
    ensures Step(acc, s) == acc
  {
    assert Tally(acc.procMap[s.process], s, 0) == acc.procMap[s.process];
    assert acc.procMap[s.process := acc.procMap[s.process]] == acc.procMap;
    assert acc.seen + {BatchKey(s)} == acc.seen;
  }

  /** A no-defect record folded right after a record of its batch changes
      nothing, whatever their quantities. */
  lemma NoDefectAfterBatchRecord(acc: Acc, e: Entry, s: Entry)
    requires IsNoDefect(s) && BatchKey(s) == BatchKey(e)
    ensures Step(Step(acc, e), s) == Step(acc, e)
  {
    StepSeenNoDefect(Step(acc, e), s);
  }

  /** A no-defect record placed anywhere after a record of its batch
      changes no statistic. */
  lemma NoDefectAfterItsBatch(pre: seq<DefectRecord>, s: DefectRecord, rest: seq<DefectRecord>)
    requires IsNoDefect(s.entry) && BatchKey(s.entry) in BatchKeysOf(pre)
    ensures Aggregate(pre + [s] + rest) == Aggregate(pre + rest)
  {
    AggregateKeys(pre);
    assert pre + [s] + rest == pre + ([s] + rest);
    RunAppend(Start, pre, [s] + rest);
    RunAppend(Start, pre, rest);
    RunLeading(Aggregate(pre), s, rest);
    StepSeenNoDefect(Aggregate(pre), s.entry);
  }

  /** Folding a leading record is one step followed by the rest. */
  lemma RunLeading(acc: Acc, d: DefectRecord, rest: seq<DefectRecord>)
    ensures Run(acc, [d] + rest) == Run(Step(acc, d.entry), rest)
  {
    RunAppend(acc, [d], rest);
    assert [d][..0] == [];
  }
}
