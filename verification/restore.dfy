/** Restoring a backup: each backed-up record is written again with its
    identifier, timestamp and sort key dropped, a new server timestamp and
    the restoring user's id. The store's new identifiers, the server time and
    the sort key the snapshot derives from it arrive as a `Stamp` per item
    (see module Records). */
module Restore {
  import opened Records
  import opened Seqs
  import opened Aggregation
  import opened Report
  import opened Dashboard
  import opened ListView

  /** The record the snapshot delivers for one restored item: the payload
      kept, the identifier, timestamp, sort key and owner replaced. */
  function Reinserted(item: DefectRecord, s: Stamp, uid: string): DefectRecord {
    Store(item.entry, s, uid)
  }

  /** The records a restore adds, one per item in file order. */
  function Reinsert(items: seq<DefectRecord>, stamps: seq<Stamp>, uid: string): (r: seq<DefectRecord>)
    requires |stamps| == |items|
    ensures |r| == |items|
    ensures forall i :: 0 <= i < |r| ==>
      && r[i].entry == items[i].entry
      && r[i].id == stamps[i].id && r[i].timestamp == stamps[i].timestamp && r[i].sortDate == stamps[i].sortDate
      && r[i].userId == uid
  {
    seq(|items|, i requires 0 <= i < |items| => Reinserted(items[i], stamps[i], uid))
  }

  /** A restored backup yields the same statistics as the records it was
      taken from: the fold reads only the payload. */
  lemma RestoreKeepsStats(items: seq<DefectRecord>, stamps: seq<Stamp>, uid: string)
    requires |stamps| == |items|
    ensures StatsOf(Reinsert(items, stamps, uid)) == StatsOf(items)
  {
    AggregateReadsOnlyEntries(Reinsert(items, stamps, uid), items);
  }

  /** The restore writes the items one at a time, each with a later server
      timestamp than the one before, so the snapshot, newest first, lists
      them back to front. When each batch carries one inspected quantity,
      the restored records give every process the same faults, inspected
      count and per-type faults, and the dashboard the same totals and
      overall rate; only the order of the rows can change. */
  lemma RestoredSnapshotKeepsCounts(items: seq<DefectRecord>, stamps: seq<Stamp>, uid: string)
    requires |stamps| == |items|
    requires QtyConsistent(items)
    ensures var after := Reverse(Reinsert(items, stamps, uid));
      && ProcessesOf(after) == ProcessesOf(items)
      && (forall p :: FaultsOf(after, p) == FaultsOf(items, p) && InspectedOf(after, p) == InspectedOf(items, p))
      && (forall p :: TypesOf(after, p) == TypesOf(items, p))
      && (forall p, t :: TypeFaultsOf(after, p, t) == TypeFaultsOf(items, p, t))
      && StatsOf(after).totalFaults == StatsOf(items).totalFaults
      && StatsOf(after).totalInspected == StatsOf(items).totalInspected
      && StatsOf(after).defectRate == StatsOf(items).defectRate
  {
    var rs := Reinsert(items, stamps, uid);
    ReferenceReadsOnlyEntries(rs, items);
    ReinsertKeepsQuantities(items, stamps, uid);
    ReversedCounts(rs);
  }

  /** Restored batches carry one quantity when the backed-up ones did. */
  lemma ReinsertKeepsQuantities(items: seq<DefectRecord>, stamps: seq<Stamp>, uid: string)
    requires |stamps| == |items|
    requires QtyConsistent(items)
    ensures QtyConsistent(Reinsert(items, stamps, uid))
  {
    var rs := Reinsert(items, stamps, uid);
    forall d1, d2 | d1 in rs && d2 in rs && BatchKey(d1.entry) == BatchKey(d2.entry)
      ensures d1.entry.batchInspectionQty == d2.entry.batchInspectionQty
    {
      var i :| 0 <= i < |rs| && rs[i] == d1;
      var j :| 0 <= j < |rs| && rs[j] == d2;
      assert items[i] in items && items[j] in items;
    }
  }

  /** After the restore the dashboard lists the same processes, each with
      the rate it had. */
  lemma RestoredRowsKeepRates(items: seq<DefectRecord>, stamps: seq<Stamp>, uid: string)
    requires |stamps| == |items|
    requires QtyConsistent(items)
    ensures var a, b := StatsOf(Reverse(Reinsert(items, stamps, uid))).procData, StatsOf(items).procData;
      && (forall p :: p in Names(a) <==> p in Names(b))
      && forall i, j :: 0 <= i < |a| && 0 <= j < |b| && a[i].name == b[j].name ==> a[i].rate == b[j].rate
  {
    RestoredSnapshotKeepsCounts(items, stamps, uid);
    StatsRates(Reverse(Reinsert(items, stamps, uid)));
    StatsRates(items);
  }

  /** The list shows a restored record exactly when it showed the original. */
  lemma RestoreKeepsListRows(items: seq<DefectRecord>, stamps: seq<Stamp>, uid: string, f: ListFilters)
    requires |stamps| == |items|
    ensures forall i :: 0 <= i < |items| ==>
      (Shows(f, Reinsert(items, stamps, uid)[i]) <==> Shows(f, items[i]))
  {
  }

  /** On the dashboard a restored record is admitted exactly when the
      original was, as long as it is placed by its work start date or no
      time window is chosen. */
  lemma RestoreKeepsDatedRecords(item: DefectRecord, s: Stamp, uid: string, f: Filters, w: WindowStarts)
    requires f.period == AllTime || item.entry.workDateStart.On?
    ensures Admits(f, w, Reinserted(item, s, uid)) <==> Admits(f, w, item)
  {
  }

  /** A record without a start date is placed by its timestamp, which the
      restore renews: one created long ago, restored today, enters today's
      window. */
  lemma RestoreMovesUndatedRecord(item: DefectRecord, s: Stamp, uid: string, w: WindowStarts)
    requires !item.entry.workDateStart.On?
    requires item.timestamp.Some? && item.timestamp.value < w.today
    requires s.timestamp == Some(w.today)
    ensures !Admits(Filters(Today, All, All, All, All, All, All), w, item)
    ensures Admits(Filters(Today, All, All, All, All, All, All), w, Reinserted(item, s, uid))
  {
  }
}
