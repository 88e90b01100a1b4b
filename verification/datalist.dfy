/** The record list's own filter: an optional "hide no-defect rows" switch
    and an optional work-date range. Dates compare as the strings the store
    holds, so a blank start date sorts before every date while a record
    without the field compares false both ways. */
module ListView {
  import opened Records
  import opened Seqs

  /** The list's controls; `None` is an empty date input. */
  datatype ListFilters = ListFilters(hideNormal: bool, startDate: Option<int>, endDate: Option<int>)

  /** `d.workDateStart < startDate`: a blank start is before any date, a
      missing one is not comparable. */
  predicate StartsBefore(d: DateField, start: int) {
    match d
    case Missing => false
    case Blank => true
    case On(day) => day < start
  }

  /** `d.workDateEnd > endDate`: neither a blank nor a missing end is after
      a date. */
  predicate EndsAfter(d: DateField, end: int) {
    d.On? && d.day > end
  }

  predicate Shows(f: ListFilters, d: DefectRecord) {
    && !(f.hideNormal && IsNoDefect(d.entry))
    && !(f.startDate.Some? && StartsBefore(d.entry.workDateStart, f.startDate.value))
    && !(f.endDate.Some? && EndsAfter(d.entry.workDateEnd, f.endDate.value))
  }

  /** `displayedData`: the rows the list shows, in snapshot order. */
  function DisplayedData(data: seq<DefectRecord>, f: ListFilters): (r: seq<DefectRecord>)
    ensures IsSubsequence(r, data)
    ensures forall d :: d in r <==> d in data && Shows(f, d)
    ensures f.hideNormal ==> forall i :: 0 <= i < |r| ==> !IsNoDefect(r[i].entry)
    ensures f.startDate.Some? ==> forall i :: 0 <= i < |r| ==>
      r[i].entry.workDateStart.Missing? || (r[i].entry.workDateStart.On? && r[i].entry.workDateStart.day >= f.startDate.value)
    ensures f.endDate.Some? ==> forall i :: 0 <= i < |r| ==>
      !r[i].entry.workDateEnd.On? || r[i].entry.workDateEnd.day <= f.endDate.value
  {
    FilterIsSubsequence(data, d => Shows(f, d));
    Filter(data, d => Shows(f, d))
  }

  /** With every control cleared the list shows every record. */
  lemma ClearedFiltersShowAll(data: seq<DefectRecord>)
    ensures DisplayedData(data, ListFilters(false, None, None)) == data
  {
    FilterKeepsAll(data, d => Shows(ListFilters(false, None, None), d));
  }

  /** Hiding no-defect rows removes exactly the no-defect rows and keeps the
      rest in order. */
  lemma HideNormalRemovesOnlyNoDefect(data: seq<DefectRecord>)
    ensures DisplayedData(data, ListFilters(true, None, None)) == Filter(data, (d: DefectRecord) => !IsNoDefect(d.entry))
  {
    FilterAgrees(data, d => Shows(ListFilters(true, None, None), d), (d: DefectRecord) => !IsNoDefect(d.entry));
  }

  /** Records stored before the date fields existed stay visible under any
      date range, while a blanked start date hides a record as soon as a
      start bound is set. */
  lemma MissingDatesAlwaysShown(f: ListFilters, d: DefectRecord)
    requires d.entry.workDateStart.Missing? && d.entry.workDateEnd.Missing?
    ensures Shows(f, d) <==> !(f.hideNormal && IsNoDefect(d.entry))
  {
  }

  lemma BlankStartHiddenByStartBound(f: ListFilters, d: DefectRecord)
    requires d.entry.workDateStart.Blank? && f.startDate.Some?
    ensures !Shows(f, d)
  {
  }

  /** Tightening either bound never shows more rows. */
  lemma {:induction false} TighterRangeShowsFewer(data: seq<DefectRecord>, f: ListFilters, g: ListFilters)
    requires f.hideNormal ==> g.hideNormal
    requires f.startDate.Some? ==> g.startDate.Some? && g.startDate.value >= f.startDate.value
    requires f.endDate.Some? ==> g.endDate.Some? && g.endDate.value <= f.endDate.value
    ensures IsSubsequence(DisplayedData(data, g), DisplayedData(data, f))
    ensures |DisplayedData(data, g)| <= |DisplayedData(data, f)|
  {
    assert forall d :: Shows(g, d) ==> Shows(f, d);
    FilterNarrowing(data, d => Shows(f, d), d => Shows(g, d));
  }
}
