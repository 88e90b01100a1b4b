/** The dashboard's record filter: a chain of equality constraints, each
    switched off by the value "all", followed by a time-window test. The
    window starts are computed from the clock outside the model and passed
    in as day numbers. */
module Dashboard {
  import opened Config
  import opened Records
  import opened Seqs

  /** The value of a constraint that admits everything. */
  const All: string := "all"

  datatype Period = Today | Week | Month | Quarter | Year | AllTime

  /** The first admitted day of each window: the start of today, seven days
      back, the first of the month, the first of the quarter, January 1. */
  datatype WindowStarts = WindowStarts(today: int, weekAgo: int, monthStart: int, quarterStart: int, yearStart: int)

  /** The dashboard's selections. */
  datatype Filters = Filters(
    period: Period,
    group: string,
    model: string,
    process: string,
    range: string,
    version: string,
    tempEquip: string)

  /** The group a record is judged by: the stored one, or the one derived
      from its model when it was stored without one. */
  function EffectiveGroup(e: Entry): (g: string)
    ensures e.group != "" ==> g == e.group
    ensures e.group == "" ==> (g == Igs <==> e.model == "UPT900")
    ensures e.group == "" ==> g == DeriveGroup(e.model)
  {
    if e.group != "" then e.group else LegacyGroup(e.model)
  }

  /** The day a record is placed at: its work start date, or its creation
      day when the start date is missing or blank. */
  function TargetDay(d: DefectRecord): Option<int> {
    if d.entry.workDateStart.On? then Some(d.entry.workDateStart.day) else d.timestamp
  }

  function WindowStart(period: Period, w: WindowStarts): int
    requires period != AllTime
  {
    match period
    case Today => w.today
    case Week => w.weekAgo
    case Month => w.monthStart
    case Quarter => w.quarterStart
    case Year => w.yearStart
  }

  /** The time-window test; a record with no date compares as an invalid
      date, which no window admits. */
  predicate InWindow(d: DefectRecord, period: Period, w: WindowStarts) {
    period == AllTime || (TargetDay(d).Some? && TargetDay(d).value >= WindowStart(period, w))
  }

  /** One equality constraint: off when "all", else the record's value must
      be the selected one. */
  predicate Allows(selected: string, value: string) {
    selected == All || value == selected
  }

  /** The predicate `filteredData` applies to each record. */
  predicate Admits(f: Filters, w: WindowStarts, d: DefectRecord) {
    var e := d.entry;
    && Allows(f.group, EffectiveGroup(e))
    && Allows(f.model, e.model)
    && Allows(f.process, e.process)
    && Allows(f.range, e.range)
    && Allows(f.version, e.version)
    && Allows(f.tempEquip, e.tempEquip)
    && InWindow(d, f.period, w)
  }

  /** `filteredData`: the admitted records, in snapshot order. */
  function FilteredData(data: seq<DefectRecord>, f: Filters, w: WindowStarts): (r: seq<DefectRecord>)
    ensures IsSubsequence(r, data)
    ensures forall d :: d in r <==> d in data && Admits(f, w, d)
    ensures forall d :: d in r ==>
      && (f.group == All || EffectiveGroup(d.entry) == f.group)
      && (f.model == All || d.entry.model == f.model)
      && (f.process == All || d.entry.process == f.process)
      && (f.range == All || d.entry.range == f.range)
      && (f.version == All || d.entry.version == f.version)
      && (f.tempEquip == All || d.entry.tempEquip == f.tempEquip)
      && (f.period != AllTime ==> TargetDay(d).Some? && TargetDay(d).value >= WindowStart(f.period, w))
  {
    FilterIsSubsequence(data, d => Admits(f, w, d));
    Filter(data, d => Admits(f, w, d))
  }

  /** With every constraint off the filter keeps everything. */
  lemma NoFiltersKeepEverything(data: seq<DefectRecord>, w: WindowStarts)
    ensures FilteredData(data, Filters(AllTime, All, All, All, All, All, All), w) == data
  {
    var f := Filters(AllTime, All, All, All, All, All, All);
    FilterKeepsAll(data, d => Admits(f, w, d));
  }

  // ---------------------------------------------------------------------------
  // Narrowing one constraint
  // ---------------------------------------------------------------------------

  datatype Field = GroupField | ModelField | ProcessField | RangeField | VersionField | TempEquipField

  function Selected(f: Filters, c: Field): string {
    match c
    case GroupField => f.group
    case ModelField => f.model
    case ProcessField => f.process
    case RangeField => f.range
    case VersionField => f.version
    case TempEquipField => f.tempEquip
  }

  function Select(f: Filters, c: Field, v: string): (g: Filters)
    ensures Selected(g, c) == v
    ensures forall c' :: c' != c ==> Selected(g, c') == Selected(f, c')
    ensures g.period == f.period
  {
    match c
    case GroupField => f.(group := v)
    case ModelField => f.(model := v)
    case ProcessField => f.(process := v)
    case RangeField => f.(range := v)
    case VersionField => f.(version := v)
    case TempEquipField => f.(tempEquip := v)
  }

  function FieldValue(e: Entry, c: Field): string {
    match c
    case GroupField => EffectiveGroup(e)
    case ModelField => e.model
    case ProcessField => e.process
    case RangeField => e.range
    case VersionField => e.version
    case TempEquipField => e.tempEquip
  }

  /** For one record: with constraint `c` off, setting it to `v` admits
      exactly the admitted records whose field `c` is `v` (or `v` is "all"). */
  lemma SelectAdmits(f: Filters, w: WindowStarts, c: Field, v: string, d: DefectRecord)
    requires Selected(f, c) == All
    ensures Admits(Select(f, c, v), w, d) == (Admits(f, w, d) && Allows(v, FieldValue(d.entry, c)))
  {
  }

  /** Setting one constraint that was "all" to a value keeps exactly the
      records of the wider result whose field has that value, so the result
      never grows. */
  lemma {:induction false} NarrowingNeverEnlarges(data: seq<DefectRecord>, f: Filters, w: WindowStarts, c: Field, v: string)
    requires Selected(f, c) == All
    ensures IsSubsequence(FilteredData(data, Select(f, c, v), w), FilteredData(data, f, w))
    ensures |FilteredData(data, Select(f, c, v), w)| <= |FilteredData(data, f, w)|
    ensures FilteredData(data, Select(f, c, v), w) ==
            Filter(FilteredData(data, f, w), (d: DefectRecord) => Allows(v, FieldValue(d.entry, c)))
  {
    var g := Select(f, c, v);
    var wide := d => Admits(f, w, d);
    var narrow := d => Admits(g, w, d);
    var extra := (d: DefectRecord) => Allows(v, FieldValue(d.entry, c));
    var both := (d: DefectRecord) => wide(d) && extra(d);
    forall d
      ensures narrow(d) == both(d)
    {
      SelectAdmits(f, w, c, v, d);
    }
    FilterNarrowing(data, wide, narrow);
    FilterAgrees(data, narrow, both);
    FilterAgrees(Filter(data, wide), narrow, extra);
  }

  /** Choosing a time window instead of "all" never enlarges the result. */
  lemma PeriodNarrowingNeverEnlarges(data: seq<DefectRecord>, f: Filters, w: WindowStarts, p: Period)
    requires f.period == AllTime
    ensures IsSubsequence(FilteredData(data, f.(period := p), w), FilteredData(data, f, w))
    ensures |FilteredData(data, f.(period := p), w)| <= |FilteredData(data, f, w)|
  {
    var g := f.(period := p);
    assert forall d :: Admits(g, w, d) ==> Admits(f, w, d);
    FilterNarrowing(data, d => Admits(f, w, d), d => Admits(g, w, d));
  }

  /** A record stored without a group is kept by a group constraint exactly
      when its model derives that group, so older records are not dropped
      for lacking the field. */
  lemma LegacyRecordJudgedByModel(f: Filters, w: WindowStarts, d: DefectRecord)
    requires d.entry.group == "" && f.group != All
    ensures Admits(f, w, d) <==> DeriveGroup(d.entry.model) == f.group && Admits(f.(group := All), w, d)
  {
    DerivationsAgree(d.entry.model);
  }

  /** A record whose start date is present is placed by that date, whatever
      its creation day: a record created today but worked yesterday is not
      in today's window. */
  lemma StartDateDecidesWindow(f: Filters, w: WindowStarts, d: DefectRecord)
    requires d.entry.workDateStart.On? && f.period == Today
    requires d.entry.workDateStart.day < w.today
    ensures !Admits(f, w, d)
  {
  }
}
