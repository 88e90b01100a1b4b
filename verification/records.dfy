/** The defect-entry record: what one submission line writes to the store and
    what the store hands back, plus the two derivations every component
    shares (the process-family rule for the optional fields and the batch
    dedup key). */
module Records {
  import opened Text
  import opened Config

  datatype Option<T> = None | Some(value: T)

  /** The defect type meaning "the batch passed with no defects". */
  const NoDefect: string := "불량없음"

  /** A calendar date field. `Missing` is a record without the key (an older
      record), `Blank` the empty string the date input gives when cleared,
      and `On(day)` an ISO date as a day number; ISO `YYYY-MM-DD` strings
      order exactly as their day numbers do. */
  datatype DateField = Missing | Blank | On(day: int)

  /** The payload one defect line becomes: the form's header fields, the line
      itself, and the batch's shared identity and inspected quantity. A
      `group` of "" stands for a record stored without one. */
  datatype Entry = Entry(
    batchId: string,
    group: string,
    model: string,
    process: string,
    range: string,
    connectionType: string,
    sensorThickness: string,
    version: string,
    tempEquip: string,
    agingEquip: string,
    operator: string,
    remark: string,
    defectType: string,
    quantity: nat,
    batchInspectionQty: nat,
    workDateStart: DateField,
    workDateEnd: DateField)

  /** A record as the live snapshot delivers it: the store's identifier, the
      payload, the server creation day (absent while it is pending), the
      sort key derived from it, and the submitting session. */
  datatype DefectRecord = DefectRecord(
    id: string,
    entry: Entry,
    timestamp: Option<int>,
    sortDate: int,
    userId: string)

  predicate IsNoDefect(e: Entry) {
    e.defectType == NoDefect
  }

  /** What the store and the snapshot attach to a written payload: the new
      identifier, the server creation day (absent while pending) and the
      sort key derived from it. */
  datatype Stamp = Stamp(id: string, timestamp: Option<int>, sortDate: int)

  /** The record the snapshot delivers for a payload written by user `uid`. */
  function Store(e: Entry, s: Stamp, uid: string): (r: DefectRecord)
    ensures r.entry == e && r.userId == uid
    ensures r.id == s.id && r.timestamp == s.timestamp && r.sortDate == s.sortDate
  {
    DefectRecord(s.id, e, s.timestamp, s.sortDate, uid)
  }

  // ---------------------------------------------------------------------------
  // Process-family rule for the optional fields
  // ---------------------------------------------------------------------------

  datatype OptionalField = Version | TempEquip | AgingEquip

  const WireBonding: string := "와이어본딩"
  const TempCompensation: string := "온도보상"
  const Aging: string := "에이징"

  /** The rule table: which name marker makes each optional field apply. */
  function Marker(f: OptionalField): string {
    match f
    case Version => WireBonding
    case TempEquip => TempCompensation
    case AgingEquip => Aging
  }

  /** The rule the stored record follows: the field is kept exactly when the
      process name contains the field's marker. */
  predicate Stores(process: string, f: OptionalField) {
    Contains(process, Marker(f))
  }

  /** The value written for an optional field: the form's value when the
      rule keeps it, the empty string otherwise. */
  function Kept(process: string, f: OptionalField, value: string): (r: string)
    ensures r != "" ==> Stores(process, f)
    ensures Stores(process, f) ==> r == value
  {
    if Stores(process, f) then value else ""
  }

  /** The rule the input form follows when it decides to show a field: the
      version and temperature-equipment pickers also appear for any process
      containing "5." or "7.", and the aging picker only for PT/UPT. */
  predicate ShownOnForm(group: string, process: string, f: OptionalField) {
    var opts := ConfigFor(group).options;
    match f
    case Version => (Contains(process, WireBonding) || Contains(process, "5.")) && |opts.versions| > 0
    case TempEquip => (Contains(process, TempCompensation) || Contains(process, "7.")) && |opts.tempEquipments| > 0
    case AgingEquip => group == PtUpt && Contains(process, Aging)
  }

  /** Outside IGS aging, every field the record keeps was offered on the form. */
  lemma StoredFieldsAreShown(group: string, process: string, f: OptionalField)
    requires Stores(process, f)
    requires f == AgingEquip ==> group == PtUpt
    ensures ShownOnForm(group, process, f)
  {
  }

  /** The two rules disagree in both directions. PT/UPT "5.1차 헬륨" shows
      the version picker but the record drops the choice; IGS
      "13.에이징검사" never shows the aging picker yet the record keeps the
      form's default aging equipment. */
  lemma FormAndRecordRulesDisagree()
    ensures ShownOnForm(PtUpt, "5.1차 헬륨", Version) && !Stores("5.1차 헬륨", Version)
    ensures Stores("13.에이징검사", AgingEquip) && !ShownOnForm(Igs, "13.에이징검사", AgingEquip)
  {
    var p := "5.1차 헬륨";
    assert p[..2] == "5.";
    assert p[..5][0] == '5' && p[1..][..5][0] == '.' && p[1..][1..][..5][0] == '1';
    assert |p[1..][1..][1..]| < |WireBonding|;
    var q := "13.에이징검사";
    assert OccursAt(q, Aging, 3);
    ContainsSlice(q, 3, Aging);
  }

  // ---------------------------------------------------------------------------
  // Batch dedup key
  // ---------------------------------------------------------------------------

  /** Records of one submission for one process share this key; the
      aggregation counts a batch's inspected quantity once per key. */
  function BatchKey(e: Entry): (string, string) {
    (e.process, e.batchId)
  }

  /** The key the dashboard builds, `${process}_${batchId}`. */
  function KeyString(process: string, batchId: string): string {
    process + "_" + batchId
  }

  /** When batch identifiers have no underscore (true of generated UUIDs),
      the joined string identifies the pair, so keying on the pair is the
      same dedup. */
  lemma KeyStringInjective(p1: string, b1: string, p2: string, b2: string)
    requires '_' !in b1 && '_' !in b2
    ensures KeyString(p1, b1) == KeyString(p2, b2) <==> p1 == p2 && b1 == b2
  {
    var s1, s2 := KeyString(p1, b1), KeyString(p2, b2);
    if s1 == s2 {
      SeparatorIsLastUnderscore(p1, b1);
      SeparatorIsLastUnderscore(p2, b2);
      assert |p1| == |p2|;
      assert p1 == s1[..|p1|] == s2[..|p2|] == p2;
      assert b1 == s1[|p1| + 1..] == s2[|p2| + 1..] == b2;
    }
  }

  /** The separator is the last underscore of the joined key. */
  lemma SeparatorIsLastUnderscore(p: string, b: string)
    requires '_' !in b
    ensures KeyString(p, b)[|p|] == '_'
    ensures forall k :: |p| < k < |KeyString(p, b)| ==> KeyString(p, b)[k] != '_'
  {
    var s := KeyString(p, b);
    forall k | |p| < k < |s| ensures s[k] != '_' {
      assert s[k] == b[k - |p| - 1];
    }
  }

  /** With an underscore in a batch identifier two different batches can
      share one joined key. */
  lemma KeyStringCollides()
    ensures KeyString("a", "b_c") == KeyString("a_b", "c")
  {
  }
}
