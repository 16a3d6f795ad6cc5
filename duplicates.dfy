/** The path constants that src/parser_main.py and src/parser_lab.py spell
    out again for themselves. Every function of those two files, and of
    src/parser_fucn.py, has the same body as its counterpart in
    src/parsers/, src/utils/helpers.py and src/utils/table_utils.py, so the
    members of those modules model both copies; what the copies could still
    get wrong is a path, and the paths agree. */
module Duplicates {
  import opened Navigator
  import BaseParser
  import PatientParser
  import HospParser
  import WardParser
  import FinalParser
  import LabParser

  /** `SUB_PATH` of src/parser_main.py. */
  const MainSubPath: seq<Segment> := [Key("component"), Key("structuredBody"), Key("component"), Key("section")]

  /** The short paths src/parser_main.py appends to its `SUB_PATH`, in the
      order of the file: `get_gosp_info`'s three, `get_diagnosis`,
      `get_amnez_d`, `get_condition`, `get_ward_table`, `get_amnez_life`,
      `get_ward_list`, `get_final_table1`, `get_final_table2`. */
  const MainShortPaths: seq<seq<Segment>> := [
    [Key("text")],
    [Key("entry"), Idx(2), Key("observation"), Key("value")],
    [Key("entry"), Idx(3), Key("observation"), Key("value")],
    [Key("component"), Idx(1), Key("section"), Key("component"), Key("section"), Key("text")],
    [Key("component"), Idx(0), Key("section"), Key("text")],
    [Key("component"), Idx(1), Key("section"), Key("text"), Key("content")],
    [Key("component"), Idx(3), Key("section"), Key("text")],
    [Key("component"), Idx(2), Key("section"), Key("text")],
    [Key("component"), Idx(3), Key("section"), Key("component")],
    [Key("component"), Idx(4), Key("section"), Key("text")],
    [Key("component"), Idx(4), Key("section"), Key("component"), Key("section"), Key("text")]
  ]

  /** The same getters' short paths as the package modules define them. */
  const PackageShortPaths: seq<seq<Segment>> := [
    HospParser.TextPath, HospParser.TypePath, HospParser.WayPath, HospParser.DiagnosisPath,
    PatientParser.AnamnesisPath, PatientParser.ConditionPath, WardParser.WardTablePath,
    PatientParser.LifeAnamnesisPath, WardParser.WardListPath, FinalParser.Table1Path,
    FinalParser.Table2Path
  ]

  /** The short paths of `get_sex`/`get_age` (taken from the root) and of
      the ward walker, in src/parser_main.py. */
  const MainRootPaths: seq<seq<Segment>> := [
    [Key("recordTarget"), Key("patientRole"), Key("patient"), Key("administrativeGenderCode")],
    [Key("recordTarget"), Key("patientRole"), Key("patient"), Key("birthTime")],
    [Key("component"), Key("section"), Key("component")]
  ]

  /** `get_table_1`'s path in src/parser_lab.py. */
  const LabCopyPath: seq<Segment> := [Key("component"), Key("structuredBody"), Key("component"), Idx(2), Key("section"), Key("text")]

  /** Each copy resolves the same section as the package getter: the same
      `SUB_PATH`, the same short paths, and the same lab path, so
      `SUB_PATH + short_path` in src/parser_main.py is `get_full_path`. */
  lemma CopiesAgree()
    ensures MainSubPath == BaseParser.SubPath
    ensures forall p :: MainSubPath + p == BaseParser.FullPath(p)
    ensures |MainShortPaths| == |PackageShortPaths|
    ensures forall i :: 0 <= i < |MainShortPaths| ==> MainShortPaths[i] == PackageShortPaths[i]
    ensures MainRootPaths == [PatientParser.SexPath, PatientParser.AgePath, WardParser.ResearchPath]
    ensures LabCopyPath == LabParser.LabPath
  {
  }
}
