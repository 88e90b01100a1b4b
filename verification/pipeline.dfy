/** From the submit button to the dashboard: what one committed submission
    does to the statistics, and what the lost list-clearing in the add
    button does (and does not) change there. */
module Pipeline {
  import opened Text
  import opened Records
  import opened Seqs
  import opened Submission
  import opened Aggregation
  import opened Report

  /** The records the snapshot delivers for the create requests of one
      submission, each with the store's stamp and the submitting user. */
  function Submitted(requests: seq<Entry>, stamps: seq<Stamp>, uid: string): (r: seq<DefectRecord>)
    requires |stamps| == |requests|
    ensures |r| == |requests|
    ensures forall i :: 0 <= i < |r| ==>
      && r[i].entry == requests[i] && r[i].userId == uid
      && r[i].id == stamps[i].id && r[i].timestamp == stamps[i].timestamp
  {
    seq(|requests|, i requires 0 <= i < |requests| => Store(requests[i], stamps[i], uid))
  }

  /** The faults a defect list carries: its quantities, no-defect lines
      excluded. */
  function ListFaults(list: seq<Line>): nat {
    if |list| == 0 then 0
    else
      var l := list[|list| - 1];
      ListFaults(list[..|list| - 1]) + (if l.defectType == NoDefect then 0 else l.quantity)
  }

  lemma {:induction false} LineFaultsOfLines(rs: seq<DefectRecord>, list: seq<Line>)
    requires |rs| == |list|
    requires forall i :: 0 <= i < |rs| ==> LineOf(rs[i].entry) == list[i]
    ensures LineFaults(rs) == ListFaults(list)
  {
    if |rs| > 0 {
      LineFaultsOfLines(rs[..|rs| - 1], list[..|list| - 1]);
    }
  }

  /** A committed submission, listed before the older records as the newest
      are, adds one batch: the process's inspected count and the total grow
      by the form's inspected quantity once however many lines the list
      had, other processes keep theirs, and the faults grow by the list's
      defect quantities. The batch identifier is fresh, so no older record
      shares its key. */
  lemma SubmissionAddsOneBatch(f: Form, batchId: string, stamps: seq<Stamp>, uid: string, older: seq<DefectRecord>)
    requires FinalSubmit(f, batchId, true).Sent?
    requires |stamps| == |f.defectList|
    requires (f.process, batchId) !in BatchKeysOf(older)
    ensures var now := Submitted(FinalSubmit(f, batchId, true).requests, stamps, uid) + older;
      && InspectedOf(now, f.process) == f.inspectionQty.value + InspectedOf(older, f.process)
      && (forall p :: p != f.process ==> InspectedOf(now, p) == InspectedOf(older, p))
      && AllInspected(now) == f.inspectionQty.value + AllInspected(older)
      && FaultsOf(now, f.process) == ListFaults(f.defectList) + FaultsOf(older, f.process)
      && AllFaults(now) == ListFaults(f.defectList) + AllFaults(older)
  {
    SubmittedBatch(f, batchId, stamps, uid);
    var batch := Submitted(FinalSubmit(f, batchId, true).requests, stamps, uid);
    NewBatchFirst(batch, older, f.process, batchId, f.inspectionQty.value as nat);
  }

  /** The records of one submission form one batch whose defect lines carry
      the list's faults. */
  lemma SubmittedBatch(f: Form, batchId: string, stamps: seq<Stamp>, uid: string)
    requires FinalSubmit(f, batchId, true).Sent?
    requires |stamps| == |f.defectList|
    ensures var batch := Submitted(FinalSubmit(f, batchId, true).requests, stamps, uid);
      && OneBatch(batch, f.process, batchId, f.inspectionQty.value as nat)
      && LineFaults(batch) == ListFaults(f.defectList)
  {
    var requests := FinalSubmit(f, batchId, true).requests;
    SubmissionIsOneBatch(f, batchId, true);
    var batch := Submitted(requests, stamps, uid);
    assert OneBatch(batch, f.process, batchId, f.inspectionQty.value as nat);
    assert LinesOf(requests) == f.defectList;
    forall i | 0 <= i < |batch|
      ensures LineOf(batch[i].entry) == f.defectList[i]
    {
      assert LinesOf(requests)[i] == LineOf(requests[i]);
    }
    LineFaultsOfLines(batch, f.defectList);
  }

  /** A submission of only the no-defect line counts the batch as inspected
      and adds no fault. */
  lemma CleanSubmissionAddsNoFaults(f: Form, batchId: string, stamps: seq<Stamp>, uid: string, older: seq<DefectRecord>)
    requires MarkNoDefect(f).Updated?
    requires FinalSubmit(MarkNoDefect(f).form, batchId, true).Sent?
    requires |stamps| == 1
    requires (f.process, batchId) !in BatchKeysOf(older)
    ensures var now := Submitted(FinalSubmit(MarkNoDefect(f).form, batchId, true).requests, stamps, uid) + older;
      && AllInspected(now) == f.inspectionQty.value + AllInspected(older)
      && AllFaults(now) == AllFaults(older)
  {
    var g := MarkNoDefect(f).form;
    assert ListFaults(g.defectList) == 0 by {
      assert g.defectList[..0] == [];
    }
    SubmissionAddsOneBatch(g, batchId, stamps, uid, older);
  }

  // ---------------------------------------------------------------------------
  // The kept no-defect line
  // ---------------------------------------------------------------------------

  /** The create requests are the list's lines expanded with the header. */
  lemma RequestsExpandList(f: Form, batchId: string)
    requires FinalSubmit(f, batchId, true).Sent?
    ensures FinalSubmit(f, batchId, true).requests == Expand(f, batchId, f.inspectionQty.value as nat, f.defectList)
  {
  }

  /** The header fields do not depend on the list. */
  lemma ExpandIgnoresList(f: Form, list: seq<Line>, batchId: string, q: nat, lines: seq<Line>)
    ensures Expand(f.(defectList := list), batchId, q, lines) == Expand(f, batchId, q, lines)
  {
    assert forall l :: MakeEntry(f.(defectList := list), batchId, q, l) == MakeEntry(f, batchId, q, l);
  }

  lemma ExpandLeading(f: Form, batchId: string, q: nat, l: Line, rest: seq<Line>)
    ensures Expand(f, batchId, q, [l] + rest) == [MakeEntry(f, batchId, q, l)] + Expand(f, batchId, q, rest)
  {
  }

  /** The requests for a list with a leading line are that line's record
      followed by the requests for the rest. */
  lemma RequestsOfLeadingLine(f: Form, l: Line, rest: seq<Line>, batchId: string)
    requires FinalSubmit(f.(defectList := [l] + rest), batchId, true).Sent?
    requires |rest| > 0
    ensures FinalSubmit(f.(defectList := rest), batchId, true).Sent?
    ensures var q := f.inspectionQty.value as nat;
      && FinalSubmit(f.(defectList := [l] + rest), batchId, true).requests == [MakeEntry(f, batchId, q, l)] + Expand(f, batchId, q, rest)
      && FinalSubmit(f.(defectList := rest), batchId, true).requests == Expand(f, batchId, q, rest)
  {
    var q := f.inspectionQty.value as nat;
    var g1, g2 := f.(defectList := [l] + rest), f.(defectList := rest);
    RequestsExpandList(g1, batchId);
    RequestsExpandList(g2, batchId);
    ExpandIgnoresList(f, [l] + rest, batchId, q, [l] + rest);
    ExpandIgnoresList(f, rest, batchId, q, rest);
    ExpandLeading(f, batchId, q, l, rest);
  }

  /** Records with the given payloads, whatever their stamps, give the
      statistics of those payloads. */
  lemma SubmittedStatsReadPayloads(es: seq<Entry>, s1: seq<Stamp>, s2: seq<Stamp>, uid: string, older: seq<DefectRecord>)
    requires |s1| == |es| && |s2| == |es|
    ensures Aggregate(Submitted(es, s1, uid) + older) == Aggregate(Submitted(es, s2, uid) + older)
  {
    var a, b := Submitted(es, s1, uid) + older, Submitted(es, s2, uid) + older;
    forall i | 0 <= i < |a|
      ensures a[i].entry == b[i].entry
    {
    }
    AggregateReadsOnlyEntries(a, b);
  }

  /** A no-defect record written just before a record of the same batch
      changes no statistic. */
  lemma LeadingNoDefectRecordNotCounted(e0: Entry, es: seq<Entry>, s1: seq<Stamp>, s2: seq<Stamp>, uid: string, older: seq<DefectRecord>)
    requires |es| > 0 && IsNoDefect(e0)
    requires BatchKey(e0) == BatchKey(es[0]) && e0.batchInspectionQty == es[0].batchInspectionQty
    requires |s1| == |es| + 1 && |s2| == |es|
    ensures Aggregate(Submitted([e0] + es, s1, uid) + older) == Aggregate(Submitted(es, s2, uid) + older)
  {
    var r0 := Store(e0, s1[0], uid);
    var sub := Submitted(es, s1[1..], uid);
    var tail := sub + older;
    SubmittedLeading(e0, es, s1, uid);
    assert [r0] + sub + older == [] + [r0] + tail;
    assert sub[0].entry == es[0];
    assert tail[0] == sub[0];
    NoDefectLineHarmless([], r0, tail);
    assert [] + tail == tail;
    SubmittedStatsReadPayloads(es, s1[1..], s2, uid, older);
  }

  /** The records of one submission are written together, so the snapshot
      may list the no-defect record after the first real record rather
      than before it. It changes no statistic there either. */
  lemma TrailingNoDefectRecordNotCounted(e0: Entry, es: seq<Entry>, s1: seq<Stamp>, s2: seq<Stamp>, uid: string, older: seq<DefectRecord>)
    requires |es| > 0 && IsNoDefect(e0) && BatchKey(e0) == BatchKey(es[0])
    requires |s1| == |es| + 1 && |s2| == |es|
    ensures var rs := Submitted([e0] + es, s1, uid);
      Aggregate([rs[1], rs[0]] + rs[2..] + older) == Aggregate(Submitted(es, s2, uid) + older)
  {
    var rs := Submitted([e0] + es, s1, uid);
    var tail := rs[2..] + older;
    assert [rs[1]][..0] == [];
    assert BatchKeysOf([rs[1]]) == {BatchKey(rs[1].entry)};
    NoDefectAfterItsBatch([rs[1]], rs[0], tail);
    assert [rs[1], rs[0]] + rs[2..] + older == [rs[1]] + [rs[0]] + tail;
    var a, b := [rs[1]] + tail, Submitted(es, s2, uid) + older;
    forall i | 0 <= i < |a|
      ensures a[i].entry == b[i].entry
    {
      if i < |es| {
        assert a[i] == rs[i + 1];
      }
    }
    AggregateReadsOnlyEntries(a, b);
  }

  lemma SubmittedLeading(e0: Entry, es: seq<Entry>, s: seq<Stamp>, uid: string)
    requires |s| == |es| + 1
    ensures Submitted([e0] + es, s, uid) == [Store(e0, s[0], uid)] + Submitted(es, s[1..], uid)
  {
  }

  /** A list that starts with the no-defect line and goes on with real
      lines gives the same statistics as the real lines alone: the extra
      record repeats the batch's key and quantity and carries no fault. */
  lemma LeadingNoDefectLineNotCounted(f: Form, rest: seq<Line>, batchId: string,
                                      s1: seq<Stamp>, s2: seq<Stamp>, uid: string, older: seq<DefectRecord>)
    requires |rest| > 0
    requires FinalSubmit(f.(defectList := [Line(NoDefect, 0)] + rest), batchId, true).Sent?
    requires |s1| == |rest| + 1 && |s2| == |rest|
    ensures FinalSubmit(f.(defectList := rest), batchId, true).Sent?
    ensures StatsOf(Submitted(FinalSubmit(f.(defectList := [Line(NoDefect, 0)] + rest), batchId, true).requests, s1, uid) + older)
         == StatsOf(Submitted(FinalSubmit(f.(defectList := rest), batchId, true).requests, s2, uid) + older)
  {
    var q := f.inspectionQty.value as nat;
    RequestsOfLeadingLine(f, Line(NoDefect, 0), rest, batchId);
    var es := Expand(f, batchId, q, rest);
    var e0 := MakeEntry(f, batchId, q, Line(NoDefect, 0));
    assert es[0] == MakeEntry(f, batchId, q, rest[0]);
    LeadingNoDefectRecordNotCounted(e0, es, s1, s2, uid, older);
  }

  /** The same, when the snapshot lists the first real line's record before
      the no-defect record. */
  lemma TrailingNoDefectLineNotCounted(f: Form, rest: seq<Line>, batchId: string,
                                       s1: seq<Stamp>, s2: seq<Stamp>, uid: string, older: seq<DefectRecord>)
    requires |rest| > 0
    requires FinalSubmit(f.(defectList := [Line(NoDefect, 0)] + rest), batchId, true).Sent?
    requires |s1| == |rest| + 1 && |s2| == |rest|
    ensures FinalSubmit(f.(defectList := rest), batchId, true).Sent?
    ensures var rs := Submitted(FinalSubmit(f.(defectList := [Line(NoDefect, 0)] + rest), batchId, true).requests, s1, uid);
      && |rs| == |rest| + 1
      && StatsOf([rs[1], rs[0]] + rs[2..] + older)
         == StatsOf(Submitted(FinalSubmit(f.(defectList := rest), batchId, true).requests, s2, uid) + older)
  {
    var q := f.inspectionQty.value as nat;
    RequestsOfLeadingLine(f, Line(NoDefect, 0), rest, batchId);
    var es := Expand(f, batchId, q, rest);
    var e0 := MakeEntry(f, batchId, q, Line(NoDefect, 0));
    assert es[0] == MakeEntry(f, batchId, q, rest[0]);
    TrailingNoDefectRecordNotCounted(e0, es, s1, s2, uid, older);
  }

  /** Adding a defect after pressing "no defect" leaves both lines in the
      list; once submitted, the statistics are those of the defect line
      alone, as the intended add would give. The mixed list is visible in
      the record list, not on the dashboard. */
  lemma KeptNoDefectLineLeavesStatsAlone(f: Form, batchId: string, s1: seq<Stamp>, s2: seq<Stamp>, uid: string, older: seq<DefectRecord>)
    requires f.defectList == [Line(NoDefect, 0)]
    requires ChosenType(f) != ""
    requires !AllSpace(f.operator) && PositiveQty(f.inspectionQty)
    requires |s1| == 2 && |s2| == 1
    ensures FinalSubmit(AddToList(f), batchId, true).Sent?
    ensures FinalSubmit(AddToListExclusive(f), batchId, true).Sent?
    ensures StatsOf(Submitted(FinalSubmit(AddToList(f), batchId, true).requests, s1, uid) + older)
         == StatsOf(Submitted(FinalSubmit(AddToListExclusive(f), batchId, true).requests, s2, uid) + older)
    ensures var rs := Submitted(FinalSubmit(AddToList(f), batchId, true).requests, s1, uid);
      && |rs| == 2
      && StatsOf([rs[1], rs[0]] + older)
         == StatsOf(Submitted(FinalSubmit(AddToListExclusive(f), batchId, true).requests, s2, uid) + older)
  {
    KeptLineLeading(f, batchId, s1, s2, uid, older);
    KeptLineTrailing(f, batchId, s1, s2, uid, older);
  }

  lemma KeptLineLeading(f: Form, batchId: string, s1: seq<Stamp>, s2: seq<Stamp>, uid: string, older: seq<DefectRecord>)
    requires f.defectList == [Line(NoDefect, 0)]
    requires ChosenType(f) != ""
    requires !AllSpace(f.operator) && PositiveQty(f.inspectionQty)
    requires |s1| == 2 && |s2| == 1
    ensures FinalSubmit(AddToList(f), batchId, true).Sent?
    ensures FinalSubmit(AddToListExclusive(f), batchId, true).Sent?
    ensures StatsOf(Submitted(FinalSubmit(AddToList(f), batchId, true).requests, s1, uid) + older)
         == StatsOf(Submitted(FinalSubmit(AddToListExclusive(f), batchId, true).requests, s2, uid) + older)
  {
    var base, line := MixedListSplit(f);
    LeadingNoDefectLineNotCounted(base, [line], batchId, s1, s2, uid, older);
  }

  lemma KeptLineTrailing(f: Form, batchId: string, s1: seq<Stamp>, s2: seq<Stamp>, uid: string, older: seq<DefectRecord>)
    requires f.defectList == [Line(NoDefect, 0)]
    requires ChosenType(f) != ""
    requires !AllSpace(f.operator) && PositiveQty(f.inspectionQty)
    requires |s1| == 2 && |s2| == 1
    ensures FinalSubmit(AddToList(f), batchId, true).Sent?
    ensures var rs := Submitted(FinalSubmit(AddToList(f), batchId, true).requests, s1, uid);
      && |rs| == 2
      && StatsOf([rs[1], rs[0]] + older)
         == StatsOf(Submitted(FinalSubmit(AddToListExclusive(f), batchId, true).requests, s2, uid) + older)
  {
    var base, line := MixedListSplit(f);
    TrailingPair(base, line, batchId, s1, s2, uid, older);
  }

  /** The two-line case of `TrailingNoDefectLineNotCounted`. */
  lemma TrailingPair(base: Form, line: Line, batchId: string, s1: seq<Stamp>, s2: seq<Stamp>, uid: string, older: seq<DefectRecord>)
    requires FinalSubmit(base.(defectList := [Line(NoDefect, 0)] + [line]), batchId, true).Sent?
    requires |s1| == 2 && |s2| == 1
    ensures var rs := Submitted(FinalSubmit(base.(defectList := [Line(NoDefect, 0)] + [line]), batchId, true).requests, s1, uid);
      && |rs| == 2
      && StatsOf([rs[1], rs[0]] + older)
         == StatsOf(Submitted(FinalSubmit(base.(defectList := [line]), batchId, true).requests, s2, uid) + older)
  {
    TrailingNoDefectLineNotCounted(base, [line], batchId, s1, s2, uid, older);
    var rs := Submitted(FinalSubmit(base.(defectList := [Line(NoDefect, 0)] + [line]), batchId, true).requests, s1, uid);
    assert rs[2..] == [];
    assert [rs[1], rs[0]] + rs[2..] + older == [rs[1], rs[0]] + older;
  }

  /** The mixed list and the intended one share every field but the list. */
  lemma MixedListSplit(f: Form) returns (base: Form, line: Line)
    requires f.defectList == [Line(NoDefect, 0)]
    requires ChosenType(f) != ""
    ensures AddToList(f) == base.(defectList := [Line(NoDefect, 0)] + [line])
    ensures AddToListExclusive(f) == base.(defectList := [line])
  {
    line := Line(ChosenType(f), LineQty(f.currentQty));
    base := AddToList(f).(defectList := f.defectList);
    assert WithoutNoDefect(f.defectList) == [];
  }
}
