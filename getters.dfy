/** `get_gosp_info` and `get_diagnosis` of src/parsers/hosp_parser.py
    (repeated in src/parser_main.py). */
module HospParser {
  import opened Results
  import opened PyJson
  import opened Navigator
  import opened BaseParser
  import opened Tables
  import TableFacts

  const TextPath: seq<Segment> := [Key("text")]
  const TypePath: seq<Segment> := [Key("entry"), Idx(2), Key("observation"), Key("value")]
  const WayPath: seq<Segment> := [Key("entry"), Idx(3), Key("observation"), Key("value")]
  const DiagnosisPath: seq<Segment> := [Key("component"), Idx(1), Key("section"), Key("component"), Key("section"), Key("text")]

  /** The tuple `(table, type_gosp, way_gosp)`. */
  datatype GospInfo = GospInfo(table: Extracted<Table>, typeGosp: Json, wayGosp: Json)

  /** `get_gosp_info(data, type)`: the section text (parsed by `parse_table`
      when `type == 'table'`), then the `displayName` of the third and of the
      fourth entry's observation value; the first exception wins. */
  function GetGospInfo(data: Json, kind: string): (r: Result<GospInfo>)
    ensures r.Ok? ==> IsFieldRead(Locate(data, TypePath), "displayName", Ok(r.value.typeGosp))
    ensures r.Ok? ==> IsFieldRead(Locate(data, WayPath), "displayName", Ok(r.value.wayGosp))
    ensures kind == "table" && ParseTableSpec(Py(Locate(data, TextPath)), DefaultPrefix).Err? ==>
              r == Err(ParseTableSpec(Py(Locate(data, TextPath)), DefaultPrefix).error)
    ensures r.Ok? <==>
              (kind != "table" || ParseTableSpec(Py(Locate(data, TextPath)), DefaultPrefix).Ok?) &&
              HasField(Locate(data, TypePath), "displayName") && HasField(Locate(data, WayPath), "displayName")
    ensures (kind != "table" || ParseTableSpec(Py(Locate(data, TextPath)), DefaultPrefix).Ok?) &&
            !HasField(Locate(data, TypePath), "displayName") ==>
              r.Err? && IsFieldRead(Locate(data, TypePath), "displayName", Err(r.error))
    ensures (kind != "table" || ParseTableSpec(Py(Locate(data, TextPath)), DefaultPrefix).Ok?) &&
            HasField(Locate(data, TypePath), "displayName") && !HasField(Locate(data, WayPath), "displayName") ==>
              r.Err? && IsFieldRead(Locate(data, WayPath), "displayName", Err(r.error))
    ensures r.Ok? ==>
              r.value.table == if kind == "table" then Parsed(ParseTableSpec(Py(Locate(data, TextPath)), DefaultPrefix).value)
                               else Raw(Py(Locate(data, TextPath)))
  {
    var section := Py(Locate(data, TextPath));
    var table :- Select(kind, section, ParseTableSpec(section, DefaultPrefix));
    var typeGosp :- SectionField(data, TypePath, "displayName");
    var wayGosp :- SectionField(data, WayPath, "displayName");
    Ok(GospInfo(table, typeGosp, wayGosp))
  }

  /** A document without a structured body section raises TypeError in
      either mode: `parse_table(None)` in table mode, `None['displayName']`
      otherwise. */
  lemma GospWithoutBody(data: Json, kind: string)
    requires Resolve(data, SubPath, [], DefaultPrefix) == None
    ensures GetGospInfo(data, kind) == Err(TypeError)
  {
    LocateInSection(data, TextPath);
    TableFacts.TablesOfNone(DefaultPrefix);
  }

  /** The two modes read the same entries, and table mode is raw mode with
      the raw section parsed: whenever table mode succeeds, raw mode does
      too, with the same hospitalization type and route. */
  lemma GospModes(data: Json, kind: string)
    requires kind != "table"
    requires GetGospInfo(data, "table").Ok?
    ensures GetGospInfo(data, kind).Ok?
    ensures var raw := GetGospInfo(data, kind).value;
            var parsed := GetGospInfo(data, "table").value;
            raw.table.Raw? && parsed.table == Parsed(ParseTableSpec(raw.table.section, DefaultPrefix).value) &&
            raw.typeGosp == parsed.typeGosp && raw.wayGosp == parsed.wayGosp
  {
  }

  /** `get_diagnosis(data, type)`. */
  function GetDiagnosis(data: Json, kind: string): (r: Result<Extracted<Table>>)
    ensures kind != "table" ==> r == Ok(Raw(Py(Locate(data, DiagnosisPath))))
    ensures kind == "table" && ParseTableSpec(Py(Locate(data, DiagnosisPath)), DefaultPrefix).Ok? ==>
              r == Ok(Parsed(ParseTableSpec(Py(Locate(data, DiagnosisPath)), DefaultPrefix).value))
    ensures kind == "table" && ParseTableSpec(Py(Locate(data, DiagnosisPath)), DefaultPrefix).Err? ==>
              r == Err(ParseTableSpec(Py(Locate(data, DiagnosisPath)), DefaultPrefix).error)
  {
    var section := Py(Locate(data, DiagnosisPath));
    Select(kind, section, ParseTableSpec(section, DefaultPrefix))
  }

  /** Table mode fails exactly when `parse_table` fails on the section raw
      mode returns, and without a structured body it raises TypeError. */
  lemma DiagnosisModes(data: Json)
    ensures GetDiagnosis(data, "table").Err? <==> ParseTableSpec(GetDiagnosis(data, "raw").value.section, DefaultPrefix).Err?
    ensures Resolve(data, SubPath, [], DefaultPrefix) == None ==> GetDiagnosis(data, "table") == Err(TypeError)
  {
    LocateInSection(data, DiagnosisPath);
    TableFacts.TablesOfNone(DefaultPrefix);
  }
}

/** `get_final_table1` and `get_final_table2` of src/parsers/final_parser.py
    (repeated in src/parser_main.py): two tables of the fifth body component. */
module FinalParser {
  import opened Results
  import opened PyJson
  import opened Navigator
  import opened BaseParser
  import opened Tables
  import TableFacts

  const FinalSection: seq<Segment> := [Key("component"), Idx(4), Key("section")]
  const Table1Path: seq<Segment> := [Key("component"), Idx(4), Key("section"), Key("text")]
  const Table2Path: seq<Segment> := [Key("component"), Idx(4), Key("section"), Key("component"), Key("section"), Key("text")]

  /** `get_final_table1(data, type)`. */
  function GetFinalTable1(data: Json, kind: string): (r: Result<Extracted<Table>>)
    ensures kind != "table" ==> r == Ok(Raw(Py(Locate(data, Table1Path))))
    ensures kind == "table" && ParseTable2Spec(Py(Locate(data, Table1Path)), DefaultPrefix).Ok? ==>
              r == Ok(Parsed(ParseTable2Spec(Py(Locate(data, Table1Path)), DefaultPrefix).value))
    ensures kind == "table" && ParseTable2Spec(Py(Locate(data, Table1Path)), DefaultPrefix).Err? ==>
              r == Err(ParseTable2Spec(Py(Locate(data, Table1Path)), DefaultPrefix).error)
  {
    var section := Py(Locate(data, Table1Path));
    Select(kind, section, ParseTable2Spec(section, DefaultPrefix))
  }

  /** `get_final_table2(data, type)`. */
  function GetFinalTable2(data: Json, kind: string): (r: Result<Extracted<Table>>)
    ensures kind != "table" ==> r == Ok(Raw(Py(Locate(data, Table2Path))))
    ensures kind == "table" && ParseTable2Spec(Py(Locate(data, Table2Path)), DefaultPrefix).Ok? ==>
              r == Ok(Parsed(ParseTable2Spec(Py(Locate(data, Table2Path)), DefaultPrefix).value))
    ensures kind == "table" && ParseTable2Spec(Py(Locate(data, Table2Path)), DefaultPrefix).Err? ==>
              r == Err(ParseTable2Spec(Py(Locate(data, Table2Path)), DefaultPrefix).error)
  {
    var section := Py(Locate(data, Table2Path));
    Select(kind, section, ParseTable2Spec(section, DefaultPrefix))
  }

  /** Both tables live in the fifth body component: the first is its own
      text, the second the text of its nested section. Without that
      component neither exists, and table mode raises TypeError. */
  lemma FinalTablesShareSection(data: Json)
    ensures Locate(data, Table1Path) ==
            match Locate(data, FinalSection) case None => None case Some(s) => Resolve(s, [Key("text")], [], DefaultPrefix)
    ensures Locate(data, Table2Path) ==
            match Locate(data, FinalSection)
            case None => None
            case Some(s) => Resolve(s, [Key("component"), Key("section"), Key("text")], [], DefaultPrefix)
    ensures Locate(data, FinalSection) == None ==>
              GetFinalTable1(data, "table") == Err(TypeError) && GetFinalTable2(data, "table") == Err(TypeError)
  {
    assert FullPath(Table1Path) == FullPath(FinalSection) + [Key("text")];
    ResolveConcat(data, FullPath(FinalSection), [Key("text")], DefaultPrefix);
    assert FullPath(Table2Path) == FullPath(FinalSection) + [Key("component"), Key("section"), Key("text")];
    ResolveConcat(data, FullPath(FinalSection), [Key("component"), Key("section"), Key("text")], DefaultPrefix);
    TableFacts.TablesOfNone(DefaultPrefix);
  }
}

/** `get_table_1` of src/parsers/lab_parser.py (repeated in
    src/parser_lab.py): the laboratory table, read with the key-cleaning
    strategy from a path that does NOT go through `SUB_PATH`. */
module LabParser {
  import opened Results
  import opened PyJson
  import opened Navigator
  import opened BaseParser
  import opened Tables
  import TableFacts

  /** The body's component list, then its third element's text. */
  const BodyComponents: seq<Segment> := [Key("component"), Key("structuredBody"), Key("component")]
  const LabPath: seq<Segment> := [Key("component"), Key("structuredBody"), Key("component"), Idx(2), Key("section"), Key("text")]

  /** `get_table_1(data)`. */
  function GetTable1(data: Json): (r: Result<Table>)
    ensures Resolve(data, LabPath, [], DefaultPrefix) == None ==> r == Err(TypeError)
    ensures Resolve(data, LabPath, [], DefaultPrefix).Some? ==> r == ConvertTableSpec(Resolve(data, LabPath, [], DefaultPrefix).value)
  {
    TableFacts.TablesOfNone(DefaultPrefix);
    ConvertTableSpec(Py(Resolve(data, LabPath, [], DefaultPrefix)))
  }

  /** The laboratory document and the others have different shapes: the lab
      path indexes the body's `component` as a list, `SUB_PATH` keys it as a
      dict, and no document resolves both. */
  lemma LabAndSectionExclusive(data: Json)
    ensures !(Resolve(data, LabPath, [], DefaultPrefix).Some? && Resolve(data, SubPath, [], DefaultPrefix).Some?)
  {
    var rest := [Idx(2), Key("section"), Key("text")];
    assert LabPath == BodyComponents + rest;
    assert SubPath == BodyComponents + [Key("section")];
    ResolveConcat(data, BodyComponents, rest, DefaultPrefix);
    ResolveConcat(data, BodyComponents, [Key("section")], DefaultPrefix);
    match Resolve(data, BodyComponents, [], DefaultPrefix)
    case None =>
    case Some(x) =>
      if x.Arr? {
        KeyOnListFails(x.items, "section", [], [], DefaultPrefix);
        assert [Key("section")] + [] == [Key("section")];
      } else {
        IndexThenKeyFails(x, 2, "section", [Key("text")], DefaultPrefix);
        assert [Idx(2), Key("section")] + [Key("text")] == rest;
      }
  }
}
