/** The input form's data logic: choosing a model, the "no defect" button,
    adding a defect line, and the final submission that turns one form into
    one record per defect line. Each handler is a function from the form
    state to the next form state (or to the records it asks the store to
    create); React's state updates within one handler are applied with
    last-write-wins semantics. */
module Submission {
  import opened Text
  import opened Config
  import opened Records
  import opened Seqs

  /** One entry of the pending defect list. */
  datatype Line = Line(defectType: string, quantity: nat)

  /** The form's state. `inspectionQty` is `None` when the field does not
      parse as an integer; `currentQty` is `None` when the line-quantity
      field is blank. */
  datatype Form = Form(
    model: string,
    modelGroup: string,
    process: string,
    range: string,
    connectionType: string,
    sensorThickness: string,
    version: string,
    tempEquip: string,
    agingEquip: string,
    remark: string,
    operator: string,
    inspectionQty: Option<int>,
    defectList: seq<Line>,
    currentQty: Option<nat>,
    selectedDefectType: Option<string>,
    customDefectType: string,
    workDateStart: DateField,
    workDateEnd: DateField)

  predicate PositiveQty(q: Option<int>) {
    q.Some? && q.value > 0
  }

  // ---------------------------------------------------------------------------
  // Model selection
  // ---------------------------------------------------------------------------

  /** The form remembers the group its model derives. */
  predicate GroupConsistent(f: Form) {
    f.modelGroup == DeriveGroup(f.model)
  }

  /** The effect that runs whenever the model changes: derive the group, take
      the first process and option of that group as defaults, and empty the
      defect list. */
  function ApplyModel(f: Form): (g: Form)
    ensures GroupConsistent(g)
    ensures g.process in ConfigFor(g.modelGroup).processes
    ensures g.range in ConfigFor(g.modelGroup).options.ranges
    ensures g.defectList == []
    ensures var cfg := ConfigFor(g.modelGroup);
      && |cfg.processes| > 0 && g.process == cfg.processes[0]
      && |cfg.options.ranges| > 0 && g.range == cfg.options.ranges[0]
      && |cfg.options.connectionTypes| > 0 && g.connectionType == cfg.options.connectionTypes[0]
      && |cfg.options.sensorThicknesses| > 0 && g.sensorThickness == cfg.options.sensorThicknesses[0]
      && g.version == First(cfg.options.versions)
      && g.tempEquip == First(cfg.options.tempEquipments)
      && g.agingEquip == First(cfg.options.agingEquipments)
    ensures g.model == f.model && g.operator == f.operator && g.inspectionQty == f.inspectionQty
    ensures g.(modelGroup := f.modelGroup, process := f.process, range := f.range,
               connectionType := f.connectionType, sensorThickness := f.sensorThickness,
               version := f.version, tempEquip := f.tempEquip, agingEquip := f.agingEquip,
               defectList := f.defectList) == f
  {
    var group := DeriveGroup(f.model);
    var cfg := ConfigFor(group);
    f.(modelGroup := group,
       process := First(cfg.processes),
       range := First(cfg.options.ranges),
       connectionType := First(cfg.options.connectionTypes),
       sensorThickness := First(cfg.options.sensorThicknesses),
       version := First(cfg.options.versions),
       tempEquip := First(cfg.options.tempEquipments),
       agingEquip := First(cfg.options.agingEquipments),
       defectList := [])
  }

  /** Picking a model: the effect only runs when the value changes. */
  function SelectModel(f: Form, m: string): (g: Form)
    ensures g.model == m
    ensures GroupConsistent(f) ==> GroupConsistent(g)
    ensures m != f.model ==> g.defectList == []
    ensures m == f.model ==> g == f
    ensures m != f.model ==>
      && g.modelGroup == DeriveGroup(m)
      && g.process == First(ConfigFor(g.modelGroup).processes)
      && g.range == First(ConfigFor(g.modelGroup).options.ranges)
      && g.connectionType == First(ConfigFor(g.modelGroup).options.connectionTypes)
      && g.sensorThickness == First(ConfigFor(g.modelGroup).options.sensorThicknesses)
      && g.version == First(ConfigFor(g.modelGroup).options.versions)
      && g.tempEquip == First(ConfigFor(g.modelGroup).options.tempEquipments)
      && g.agingEquip == First(ConfigFor(g.modelGroup).options.agingEquipments)
    ensures m != f.model ==>
      g.(model := f.model, modelGroup := f.modelGroup, process := f.process, range := f.range,
         connectionType := f.connectionType, sensorThickness := f.sensorThickness, version := f.version,
         tempEquip := f.tempEquip, agingEquip := f.agingEquip, defectList := f.defectList) == f
  {
    if m == f.model then f else ApplyModel(f.(model := m))
  }

  /** The state the form starts in on `today`, after the mount effect. */
  function InitialForm(today: int): (f: Form)
    ensures GroupConsistent(f) && f.model == "PT850" && f.modelGroup == PtUpt
    ensures f.defectList == [] && !PositiveQty(f.inspectionQty)
  {
    ApplyModel(Form("PT850", PtUpt, "", "", "", "", "1.5Ver", "", "", "", "",
                    Some(0), [], Some(1), None, "", On(today), On(today)))
  }

  // ---------------------------------------------------------------------------
  // The defect list
  // ---------------------------------------------------------------------------

  /** The result of a handler that may refuse with an alert. */
  datatype Outcome = Refused | Updated(form: Form)

  /** The "no defect" button: refused unless the inspected quantity is a
      positive integer; otherwise the list becomes the single sentinel line. */
  function MarkNoDefect(f: Form): (r: Outcome)
    ensures r.Refused? <==> !PositiveQty(f.inspectionQty)
    ensures r.Updated? ==> r.form.defectList == [Line(NoDefect, 0)]
    ensures r.Updated? ==> r.form.(defectList := f.defectList) == f
  {
    if !PositiveQty(f.inspectionQty) then Refused else Updated(f.(defectList := [Line(NoDefect, 0)]))
  }

  /** The defect type the add button uses: the selected button's type, or
      else the custom text trimmed. Empty exactly when nothing usable was
      chosen. */
  function ChosenType(f: Form): (t: string)
    ensures t == "" <==> (f.selectedDefectType.None? || f.selectedDefectType.value == "") && AllSpace(f.customDefectType)
    ensures t != "" && f.selectedDefectType.None? ==> exists i :: OccursAt(f.customDefectType, t, i)
    ensures f.selectedDefectType.Some? && f.selectedDefectType.value != "" ==> t == f.selectedDefectType.value
    ensures f.selectedDefectType.None? || f.selectedDefectType.value == "" ==>
      exists i, j :: TrimmedAt(f.customDefectType, t, i, j) && (t == [] || (!IsSpace(t[0]) && !IsSpace(t[|t| - 1])))
  {
    match f.selectedDefectType
    case Some(sel) => if sel != "" then sel else Trim(f.customDefectType)
    case None => Trim(f.customDefectType)
  }

  /** The line quantity: a blank field counts as 1. */
  function LineQty(q: Option<nat>): nat {
    match q
    case Some(n) => n
    case None => 1
  }

  /** The add button as it behaves. Clearing the list and appending to it
      are two updates computed from the same list read when the handler
      started; the second wins, so the clearing is lost and a no-defect line
      already in the list stays. */
  function AddToList(f: Form): (g: Form)
    ensures ChosenType(f) == "" ==> g == f
    ensures ChosenType(f) != "" ==> g.defectList == f.defectList + [Line(ChosenType(f), LineQty(f.currentQty))]
    ensures ChosenType(f) != "" ==> g.selectedDefectType.None? && g.customDefectType == "" && g.currentQty == Some(1)
    ensures ChosenType(f) != "" ==>
      g.(defectList := f.defectList, selectedDefectType := f.selectedDefectType,
         customDefectType := f.customDefectType, currentQty := f.currentQty) == f
  {
    var t := ChosenType(f);
    if t == "" then f
    else
      // The clearing update is queued first and replaced by this one.
      f.(defectList := f.defectList + [Line(t, LineQty(f.currentQty))],
         selectedDefectType := None, customDefectType := "", currentQty := Some(1))
  }

  predicate HasNoDefectLine(list: seq<Line>) {
    exists i :: 0 <= i < |list| && list[i].defectType == NoDefect
  }

  predicate HasDefectLine(list: seq<Line>) {
    exists i :: 0 <= i < |list| && list[i].defectType != NoDefect
  }

  /** The state the add and no-defect buttons are meant to keep: either the
      single no-defect line or only real defect lines. */
  predicate ExclusiveList(list: seq<Line>) {
    list == [Line(NoDefect, 0)] || !HasNoDefectLine(list)
  }

  /** Adding a line after "no defect" leaves both kinds in the list. */
  lemma AddToListKeepsNoDefectLine(f: Form)
    requires f.defectList == [Line(NoDefect, 0)]
    requires f.selectedDefectType == Some("칩긁힘")
    ensures AddToList(f).defectList == [Line(NoDefect, 0), Line("칩긁힘", LineQty(f.currentQty))]
    ensures HasNoDefectLine(AddToList(f).defectList) && HasDefectLine(AddToList(f).defectList)
    ensures !ExclusiveList(AddToList(f).defectList)
  {
    var g := AddToList(f);
    assert g.defectList[0].defectType == NoDefect;
    assert g.defectList[1].defectType != NoDefect;
  }

  /** Every line but the no-defect ones, in order. */
  function WithoutNoDefect(list: seq<Line>): (r: seq<Line>)
    ensures !HasNoDefectLine(r)
    ensures forall l :: l in r <==> l in list && l.defectType != NoDefect
    ensures IsSubsequence(r, list)
    ensures |r| + |Filter(list, (l: Line) => l.defectType == NoDefect)| == |list|
  {
    FilterIsSubsequence(list, (l: Line) => l.defectType != NoDefect);
    FilterSplits(list, (l: Line) => l.defectType != NoDefect, (l: Line) => l.defectType == NoDefect);
    Filter(list, (l: Line) => l.defectType != NoDefect)
  }

  /** The add button as intended: a no-defect line is dropped before the new
      line goes in. */
  function AddToListExclusive(f: Form): (g: Form)
    ensures ChosenType(f) == "" ==> g == f
    ensures ChosenType(f) != "" ==> g.defectList == WithoutNoDefect(f.defectList) + [Line(ChosenType(f), LineQty(f.currentQty))]
    ensures ChosenType(f) != "" ==> g.selectedDefectType.None? && g.customDefectType == "" && g.currentQty == Some(1)
    ensures ChosenType(f) != "" ==>
      g.(defectList := f.defectList, selectedDefectType := f.selectedDefectType,
         customDefectType := f.customDefectType, currentQty := f.currentQty) == f
  {
    var t := ChosenType(f);
    if t == "" then f
    else
      var base := WithoutNoDefect(f.defectList);
      f.(defectList := base + [Line(t, LineQty(f.currentQty))],
         selectedDefectType := None, customDefectType := "", currentQty := Some(1))
  }

  /** The intended add keeps the list exclusive, unless the operator typed
      the no-defect text itself as the custom defect type. */
  lemma AddToListExclusiveKeepsExclusive(f: Form)
    requires ExclusiveList(f.defectList)
    requires ChosenType(f) != NoDefect
    ensures ExclusiveList(AddToListExclusive(f).defectList)
  {
    var g := AddToListExclusive(f);
    if ChosenType(f) != "" {
      var base := WithoutNoDefect(f.defectList);
      assert g.defectList == base + [Line(ChosenType(f), LineQty(f.currentQty))];
    }
  }

  lemma MarkNoDefectIsExclusive(f: Form)
    requires MarkNoDefect(f).Updated?
    ensures ExclusiveList(MarkNoDefect(f).form.defectList)
  {
  }

  // ---------------------------------------------------------------------------
  // Final submission
  // ---------------------------------------------------------------------------

  /** The defect type and quantity a record carries. */
  function LineOf(e: Entry): Line {
    Line(e.defectType, e.quantity)
  }

  function LinesOf(es: seq<Entry>): (ls: seq<Line>)
    ensures |ls| == |es|
    ensures forall i :: 0 <= i < |es| ==> ls[i] == LineOf(es[i])
  {
    seq(|es|, i requires 0 <= i < |es| => LineOf(es[i]))
  }

  /** A record with its line's fields blanked: what all lines of one batch
      have in common. */
  function HeaderOf(e: Entry): Entry {
    e.(defectType := "", quantity := 0)
  }

  /** The record one defect line becomes. */
  function MakeEntry(f: Form, batchId: string, qty: nat, line: Line): Entry {
    Entry(batchId, f.modelGroup, f.model, f.process, f.range, f.connectionType, f.sensorThickness,
          Kept(f.process, Version, f.version),
          Kept(f.process, TempEquip, f.tempEquip),
          Kept(f.process, AgingEquip, f.agingEquip),
          f.operator, f.remark, line.defectType, line.quantity, qty,
          f.workDateStart, f.workDateEnd)
  }

  /** One record per line, in list order, all built from the same header. */
  function Expand(f: Form, batchId: string, qty: nat, lines: seq<Line>): (es: seq<Entry>)
    ensures LinesOf(es) == lines
    ensures forall i, j :: 0 <= i < |es| && 0 <= j < |es| ==> HeaderOf(es[i]) == HeaderOf(es[j])
    ensures forall i :: 0 <= i < |es| ==> es[i].batchId == batchId && es[i].batchInspectionQty == qty
  {
    seq(|lines|, i requires 0 <= i < |lines| => MakeEntry(f, batchId, qty, lines[i]))
  }

  /** A record built from form `f`: the batch identity and quantity, the
      form's header fields, and each optional field written exactly when the
      process name carries its marker. */
  predicate CarriesHeader(e: Entry, f: Form, batchId: string, qty: int) {
    && e.batchId == batchId && e.batchInspectionQty == qty
    && e.model == f.model && e.group == f.modelGroup && e.process == f.process
    && e.range == f.range && e.connectionType == f.connectionType && e.sensorThickness == f.sensorThickness
    && e.operator == f.operator && e.remark == f.remark
    && e.workDateStart == f.workDateStart && e.workDateEnd == f.workDateEnd
    && (e.version != "" ==> Contains(f.process, WireBonding))
    && (e.tempEquip != "" ==> Contains(f.process, TempCompensation))
    && (e.agingEquip != "" ==> Contains(f.process, Aging))
    && (Contains(f.process, WireBonding) ==> e.version == f.version)
    && (Contains(f.process, TempCompensation) ==> e.tempEquip == f.tempEquip)
    && (Contains(f.process, Aging) ==> e.agingEquip == f.agingEquip)
  }

  lemma ExpandCarriesHeader(f: Form, batchId: string, qty: nat, lines: seq<Line>)
    ensures forall i :: 0 <= i < |lines| ==> CarriesHeader(Expand(f, batchId, qty, lines)[i], f, batchId, qty)
  {
    var es := Expand(f, batchId, qty, lines);
    forall i | 0 <= i < |lines|
      ensures CarriesHeader(es[i], f, batchId, qty)
    {
      assert es[i] == MakeEntry(f, batchId, qty, lines[i]);
      var v := Kept(f.process, Version, f.version);
      var t := Kept(f.process, TempEquip, f.tempEquip);
      var a := Kept(f.process, AgingEquip, f.agingEquip);
    }
  }

  /** The outcome of the submit button. `Invalid` is the alert with nothing
      sent. `Sent` lists the create requests, whether they all succeeded,
      and the form afterwards. */
  datatype SubmitOutcome = Invalid | Sent(requests: seq<Entry>, committed: bool, next: Form)

  /** The submit button. `batchId` is the fresh identifier the browser
      generates for this call; `writesOk` is whether every create request
      resolved. */
  function FinalSubmit(f: Form, batchId: string, writesOk: bool): (r: SubmitOutcome)
    ensures r.Invalid? <==> AllSpace(f.operator) || |f.defectList| == 0 || !PositiveQty(f.inspectionQty)
    ensures r.Sent? ==> LinesOf(r.requests) == f.defectList && r.committed == writesOk
    ensures r.Sent? ==> forall i :: 0 <= i < |r.requests| ==> CarriesHeader(r.requests[i], f, batchId, f.inspectionQty.value)
    ensures r.Sent? && writesOk ==> r.next == f.(defectList := [], inspectionQty := Some(0), remark := "", operator := "")
    ensures r.Sent? && !writesOk ==> r.next == f
  {
    if Trim(f.operator) == "" || |f.defectList| == 0 || !PositiveQty(f.inspectionQty) then Invalid
    else
      var qty := f.inspectionQty.value as nat;
      var requests := Expand(f, batchId, qty, f.defectList);
      ExpandCarriesHeader(f, batchId, qty, f.defectList);
      var next := if writesOk then f.(defectList := [], inspectionQty := Some(0), remark := "", operator := "") else f;
      Sent(requests, writesOk, next)
  }

  /** All records of one submission share the batch key and the inspected
      quantity, and a form whose group matches its model stores that group. */
  lemma SubmissionIsOneBatch(f: Form, batchId: string, writesOk: bool)
    requires FinalSubmit(f, batchId, writesOk).Sent?
    ensures var rs := FinalSubmit(f, batchId, writesOk).requests;
      && |rs| > 0
      && (forall i :: 0 <= i < |rs| ==> BatchKey(rs[i]) == (f.process, batchId))
      && (forall i :: 0 <= i < |rs| ==> rs[i].batchInspectionQty > 0)
      && (GroupConsistent(f) ==> forall i :: 0 <= i < |rs| ==> rs[i].group == DeriveGroup(rs[i].model))
  {
  }
}
