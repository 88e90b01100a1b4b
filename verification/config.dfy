/** The closed vocabulary the input form offers, per model group, and the
    model-to-group derivation. Only the parts the core reads are kept: the
    model lists, the process lists and the option lists whose first entries
    become the form's defaults. */
module Config {

  const PtUpt: string := "PT/UPT"
  const Igs: string := "IGS"

  datatype Options = Options(
    sensorThicknesses: seq<string>,
    connectionTypes: seq<string>,
    ranges: seq<string>,
    versions: seq<string>,
    tempEquipments: seq<string>,
    agingEquipments: seq<string>)

  datatype GroupConfig = GroupConfig(models: seq<string>, processes: seq<string>, options: Options)

  const PtUptConfig: GroupConfig := GroupConfig(
    ["PT850", "PT851", "PT852", "PT853", "PT863", "UPT852", "UPT853", "UPT860", "UPT861", "UPT862", "UPT863", "UPT313"],
    ["1.코팅외관", "2.센서링 용접", "3.와이어본딩", "4.VCR 용접", "5.1차 헬륨", "6.레이저 용접", "7.절연(초기전류값)검사",
     "8.온도보상", "9.조정", "10.PLC 검사", "11.2차 헬륨", "12.에이징검사", "13.외관검사", "14.최종검사"],
    Options(
      ["0.25T", "0.3T", "0.45T", "0.55T", "0.65T", "0.75T", "0.9T"],
      ["Straight female", "Straight male", "Flow through female", "Flow through male", "Other"],
      ["-15~30psi", "-15~60psi", "-15~100psi", "-15~160psi", "-15~200psi", "-15~250psi", "-15~300psi", "-15~350psi",
       "-15~500psi", "-15~1000psi", "-15~2000psi", "-15~3000psi", "-0.1~0.5MPa", "-0.1~1MPa", "0~0.5MPa", "0~1MPa", "-0.1~1.6MPa"],
      ["1.5Ver", "2.0Ver"],
      ["UPT#1", "UPT#2", "UPT#3", "UPT#4", "PT#1", "PT#2"],
      ["NT-189", "NT-190", "NT-192", "NT-193", "WISE-1216"]))

  const IgsConfig: GroupConfig := GroupConfig(
    ["UPT900"],
    ["1.코팅외관", "2.블록 및 센서링 용접", "3.1차 헬륨", "4.2차 헬륨", "5.와이어본딩", "6.조립 및 절연검사", "7.온도보상",
     "8.조정", "9.자체 성능검사", "10.전원 on/off 검사", "11.자체 외관검사", "12.스위치 검사", "13.에이징검사",
     "14.QC 성능검사", "15.QC 외관검사"],
    Options(
      ["0.2T"],
      ["C-Seal", "W-Seal", "Other"],
      ["0~0.5MPa", "-0.1~0.5MPa"],
      ["1.5Ver", "2.0Ver"],
      ["IGS#1", "IGS#2"],
      ["에이징#1"]))

  /** The group's entry in the configuration table; only the two group names
      are ever used as keys. */
  function ConfigFor(group: string): GroupConfig {
    if group == Igs then IgsConfig else PtUptConfig
  }

  /** The form's derivation: a model belongs to IGS when the IGS model list
      has it, and to PT/UPT otherwise. */
  function DeriveGroup(model: string): (g: string)
    ensures g == Igs || g == PtUpt
    ensures g == Igs <==> model in IgsConfig.models
  {
    if model in IgsConfig.models then Igs else PtUpt
  }

  /** The dashboard's derivation for records stored without a group: it
      spells the IGS model list out instead of reading the configuration. */
  function LegacyGroup(model: string): (g: string)
    ensures g == Igs || g == PtUpt
    ensures g == Igs <==> model == "UPT900"
  {
    if model in ["UPT900"] then Igs else PtUpt
  }

  /** The two derivations agree on every model, so a record's group does not
      depend on whether it was stored or recomputed. */
  lemma DerivationsAgree(model: string)
    ensures DeriveGroup(model) == LegacyGroup(model)
  {
  }

  /** Every configured model derives the group it is listed under. */
  lemma ConfiguredModelsDeriveTheirGroup(model: string)
    ensures model in IgsConfig.models ==> DeriveGroup(model) == Igs
    ensures model in PtUptConfig.models ==> DeriveGroup(model) == PtUpt
  {
  }

  /** `list?.[0] || ''`: the first entry of an option list, or the empty
      string for an empty one. */
  function First(xs: seq<string>): string {
    if |xs| == 0 then "" else xs[0]
  }
}
