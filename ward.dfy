/** The department getters of src/parsers/ward_parser.py (repeated in
    src/parser_main.py) and `compute_full_wards`, which walks every
    department and every examination in it. */
module WardParser {
  import opened Results
  import opened Dict
  import opened PyJson
  import opened Navigator
  import opened BaseParser
  import opened Tables
  import TableFacts

  const WardTablePath: seq<Segment> := [Key("component"), Idx(3), Key("section"), Key("text")]
  const WardListPath: seq<Segment> := [Key("component"), Idx(3), Key("section"), Key("component")]
  const ResearchPath: seq<Segment> := [Key("component"), Key("section"), Key("component")]

  /** `get_ward_table(data, type)`: the fourth body component's table. */
  function GetWardTable(data: Json, kind: string): (r: Result<Extracted<Table>>)
    ensures kind != "table" ==> r == Ok(Raw(Py(Locate(data, WardTablePath))))
    ensures kind == "table" && Resolve(data, SubPath, [], DefaultPrefix) == None ==> r == Err(TypeError)
    ensures kind == "table" && ParseTableSpec(Py(Locate(data, WardTablePath)), DefaultPrefix).Ok? ==>
              r == Ok(Parsed(ParseTableSpec(Py(Locate(data, WardTablePath)), DefaultPrefix).value))
    ensures kind == "table" && ParseTableSpec(Py(Locate(data, WardTablePath)), DefaultPrefix).Err? ==>
              r == Err(ParseTableSpec(Py(Locate(data, WardTablePath)), DefaultPrefix).error)
  {
    LocateInSection(data, WardTablePath);
    TableFacts.TablesOfNone(DefaultPrefix);
    var section := Py(Locate(data, WardTablePath));
    Select(kind, section, ParseTableSpec(section, DefaultPrefix))
  }

  /** `get_ward_list(data)`: the fourth body component's `component`, or None. */
  function GetWardList(data: Json): (r: Json)
    ensures r == Py(Locate(data, WardListPath))
    ensures r == match Resolve(data, SubPath, [], DefaultPrefix)
                 case None => Null
                 case Some(section) => Py(Resolve(section, WardListPath, [], DefaultPrefix))
  {
    LocateInSection(data, WardListPath);
    Py(Locate(data, WardListPath))
  }

  /** `get_ward_name(wards, i)`: the title text of department `i`. */
  function GetWardName(wards: Json, i: int): (r: Result<Json>)
    ensures IsFieldRead(Resolve(wards, [Idx(i), Key("section"), Key("title")], [], DefaultPrefix), "text", r)
  {
    Field(Resolve(wards, [Idx(i), Key("section"), Key("title")], [], DefaultPrefix), "text")
  }

  /** `get_research_list(wards, i)`: when department `i`'s section is a
      dict with a `component`, what lies at `component/section/component`
      under it (None when that path fails); None when it has no
      `component`; AttributeError from `.keys()` when the section is not a
      dict (None included). */
  function GetResearchList(wards: Json, i: int): (r: Result<Json>)
    ensures var found := Resolve(wards, [Idx(i), Key("section")], [], DefaultPrefix);
            r.Err? <==> !(found.Some? && found.value.Obj?)
    ensures r.Err? ==> r.error == AttributeError
    ensures r.Ok? && r.value != Null ==>
              var found := Resolve(wards, [Idx(i), Key("section")], [], DefaultPrefix).value;
              HasKey(found.fields, DefaultPrefix + "component") && Resolve(found, ResearchPath, [], DefaultPrefix) == Some(r.value)
    ensures var found := Resolve(wards, [Idx(i), Key("section")], [], DefaultPrefix);
            found.Some? && found.value.Obj? && HasKey(found.value.fields, DefaultPrefix + "component") ==>
              r == Ok(Py(Resolve(found.value, ResearchPath, [], DefaultPrefix)))
    ensures var found := Resolve(wards, [Idx(i), Key("section")], [], DefaultPrefix);
            found.Some? && found.value.Obj? && !HasKey(found.value.fields, DefaultPrefix + "component") ==>
              r == Ok(Null)
  {
    match Resolve(wards, [Idx(i), Key("section")], [], DefaultPrefix)
    case None => Err(AttributeError)
    case Some(section) =>
      if !section.Obj? then Err(AttributeError)
      else if HasKey(section.fields, DefaultPrefix + "component") then Ok(Py(Resolve(section, ResearchPath, [], DefaultPrefix)))
      else Ok(Null)
  }

  /** The path both examination getters take: indexed by `j` when the
      examinations are a list, straight into `section` otherwise (a single
      examination the converter did not wrap in a list). */
  function ExamPath(exams: Json, j: int, leaf: string): (r: seq<Segment>)
    ensures exams.Arr? ==> r == [Idx(j), Key("section"), Key(leaf)]
    ensures !exams.Arr? ==> r == [Key("section"), Key(leaf)]
  {
    if exams.Arr? then [Idx(j), Key("section"), Key(leaf)] else [Key("section"), Key(leaf)]
  }

  /** `get_research_name(exams, j)`. */
  function GetResearchName(exams: Json, j: int): (r: Result<Json>)
    ensures IsFieldRead(Resolve(exams, ExamPath(exams, j, "title"), [], DefaultPrefix), "text", r)
  {
    Field(Resolve(exams, ExamPath(exams, j, "title"), [], DefaultPrefix), "text")
  }

  /** `get_research_table(exams, j, typed)`: the raw section text unless
      `typed == 'table'`, then `parse_table_wtheader` of it. */
  function GetResearchTable(exams: Json, j: int, typed: string): (r: Result<Extracted<Table>>)
    ensures typed != "table" ==> r == Ok(Raw(Py(Resolve(exams, ExamPath(exams, j, "text"), [], DefaultPrefix))))
    ensures typed == "table" ==>
              r.Ok? == ParseTableWtheaderSpec(Py(Resolve(exams, ExamPath(exams, j, "text"), [], DefaultPrefix)), DefaultPrefix).Ok?
    ensures typed == "table" && ParseTableWtheaderSpec(Py(Resolve(exams, ExamPath(exams, j, "text"), [], DefaultPrefix)), DefaultPrefix).Ok? ==>
              r == Ok(Parsed(ParseTableWtheaderSpec(Py(Resolve(exams, ExamPath(exams, j, "text"), [], DefaultPrefix)), DefaultPrefix).value))
    ensures typed == "table" && ParseTableWtheaderSpec(Py(Resolve(exams, ExamPath(exams, j, "text"), [], DefaultPrefix)), DefaultPrefix).Err? ==>
              r == Err(ParseTableWtheaderSpec(Py(Resolve(exams, ExamPath(exams, j, "text"), [], DefaultPrefix)), DefaultPrefix).error)
  {
    var section := Py(Resolve(exams, ExamPath(exams, j, "text"), [], DefaultPrefix));
    Select(typed, section, ParseTableWtheaderSpec(section, DefaultPrefix))
  }

  // compute_full_wards

  /** A department's examinations: their names mapped to their raw sections. */
  type Research = seq<Entry<Json, Json>>

  /** Departments' names mapped to their examinations. */
  type Wards = seq<Entry<Json, Research>>

  /** One pass of the inner loop: the name, the raw table (`'r'` mode), and
      the assignment, which needs a hashable name. */
  function ExamEntry(exams: Json, j: nat): Result<Entry<Json, Json>>
  {
    var name :- GetResearchName(exams, j);
    var table := GetResearchTable(exams, j, "r").value;
    if IsHashable(name) then Ok(Entry(name, table.section)) else Err(TypeError)
  }

  /** The inner loop, guarded by `if res_list`. */
  function ResearchSpec(exams: Json): Result<Research>
  {
    if !Truthy(exams) then Ok([])
    else
      var n :- Len(exams);
      var es :- MapAll(ExamEntry, exams, Range(n));
      Ok(Collapse(es))
  }

  /** One pass of the outer loop. */
  function WardEntry(wards: Json, i: nat): Result<Entry<Json, Research>>
  {
    var name :- GetWardName(wards, i);
    var exams :- GetResearchList(wards, i);
    var research :- ResearchSpec(exams);
    if IsHashable(name) then Ok(Entry(name, research)) else Err(TypeError)
  }

  /** The departments' entries, in order. */
  function WardEntries(wards: Json): Result<seq<Entry<Json, Research>>>
  {
    var n :- Len(wards);
    MapAll(WardEntry, wards, Range(n))
  }

  /** `compute_full_wards(data)`. */
  function FullWardsSpec(data: Json): Result<Wards>
  {
    var es :- WardEntries(GetWardList(data));
    Ok(Collapse(es))
  }

  /** One pass of the inner loop: the examination's name and raw table,
      and the key the assignment needs. */
  method ResearchPass(exams: Json, j: nat) returns (r: Result<Entry<Json, Json>>)
    ensures r == ExamEntry(exams, j)
    ensures r.Ok? ==> GetResearchName(exams, j) == Ok(r.value.key) &&
                      r.value.val == Py(Resolve(exams, ExamPath(exams, j, "text"), [], DefaultPrefix))
    ensures GetResearchName(exams, j).Err? ==> r == Err(GetResearchName(exams, j).error)
    ensures GetResearchName(exams, j).Ok? && !IsHashable(GetResearchName(exams, j).value) ==> r == Err(TypeError)
  {
    var resName :- GetResearchName(exams, j);
    var resTable := GetResearchTable(exams, j, "r");
    if !IsHashable(resName) {
      return Err(TypeError);
    }
    return Ok(Entry(resName, resTable.value.section));
  }

  /** The inner loop of `compute_full_wards`, filling `research_result`. */
  method ComputeResearch(exams: Json) returns (r: Result<Research>)
    ensures r == ResearchSpec(exams)
  {
    var researchResult: Research := [];
    if !Truthy(exams) {
      return Ok(researchResult);
    }
    var n :- Len(exams);
    var js := Range(n);
    ghost var seen: seq<Entry<Json, Json>> := [];
    assert js[0..] == js;
    PrependNil(MapAll(ExamEntry, exams, js));
    for j := 0 to n
      invariant MapAll(ExamEntry, exams, js) == Prepend(seen, MapAll(ExamEntry, exams, js[j..]))
      invariant researchResult == Collapse(seen)
    {
      MapAllStep(ExamEntry, exams, js, j);
      var entry :- ResearchPass(exams, j);
      PrependPrepend(seen, entry, MapAll(ExamEntry, exams, js[j + 1..]));
      CollapseSnoc(seen, entry);
      researchResult := Put(researchResult, entry.key, entry.val);
      seen := seen + [entry];
    }
    MapAllDone(ExamEntry, exams, js, seen);
    return Ok(researchResult);
  }

  /** `compute_full_wards(data)`, filling `ward_result`. */
  method ComputeFullWards(data: Json) returns (r: Result<Wards>)
    ensures r == FullWardsSpec(data)
  {
    var wardResult: Wards := [];
    var wardList := GetWardList(data);
    var n :- Len(wardList);
    var idx := Range(n);
    ghost var seen: seq<Entry<Json, Research>> := [];
    assert idx[0..] == idx;
    PrependNil(MapAll(WardEntry, wardList, idx));
    for i := 0 to n
      invariant MapAll(WardEntry, wardList, idx) == Prepend(seen, MapAll(WardEntry, wardList, idx[i..]))
      invariant wardResult == Collapse(seen)
    {
      MapAllStep(WardEntry, wardList, idx, i);
      var wardName :- GetWardName(wardList, i);
      var resList :- GetResearchList(wardList, i);
      var researchResult :- ComputeResearch(resList);
      if !IsHashable(wardName) {
        return Err(TypeError);
      }
      PrependPrepend(seen, Entry(wardName, researchResult), MapAll(WardEntry, wardList, idx[i + 1..]));
      CollapseSnoc(seen, Entry(wardName, researchResult));
      wardResult := Put(wardResult, wardName, researchResult);
      seen := seen + [Entry(wardName, researchResult)];
    }
    MapAllDone(WardEntry, wardList, idx, seen);
    return Ok(wardResult);
  }

  // What compute_full_wards returns

  /** Without the department list (or without the structured body) the walk
      raises TypeError at `len(None)`. */
  lemma WardsWithoutList(data: Json)
    requires GetWardList(data) == Null
    ensures FullWardsSpec(data) == Err(TypeError)
  {
  }

  /** A department list that is not a list (the converter leaves a single
      department as a dict) raises TypeError unless it is empty: `len` counts
      the dict's keys or the string's characters, and department 0's title
      cannot be found. */
  lemma {:induction false} NonListWards(wards: Json)
    requires !wards.Arr?
    ensures WardEntries(wards) == if (wards.Obj? || wards.Str?) && !Truthy(wards) then Ok([]) else Err(TypeError)
  {
    match Len(wards)
    case Err(_) =>
    case Ok(n) =>
      if n > 0 {
        var idx := Range(n);
        IndexThenKeyFails(wards, 0, "section", [Key("title")], DefaultPrefix);
        assert [Idx(0), Key("section")] + [Key("title")] == [Idx(0), Key("section"), Key("title")];
        assert WardEntry(wards, idx[0]) == Err(TypeError);
      } else {
        assert Range(n) == [];
      }
  }

  /** The entries the walk assigns are the departments' entries, in order:
      entry `i` is department `i`'s name and examinations. */
  lemma WardEntryAt(wards: Json, i: nat)
    requires WardEntries(wards).Ok? && i < |WardEntries(wards).value|
    ensures Len(wards).Ok? && |WardEntries(wards).value| == Len(wards).value
    ensures WardEntry(wards, i) == Ok(WardEntries(wards).value[i])
  {
    var n := Len(wards).value;
    MapAllSpec(WardEntry, wards, Range(n));
  }

  /** A department name maps to the examinations of the LAST department
      carrying that name: departments with the same title overwrite one
      another, and every name appears. */
  lemma LastWardWins(data: Json, i: nat)
    requires WardEntries(GetWardList(data)).Ok?
    requires var es := WardEntries(GetWardList(data)).value;
             i < |es| && forall j :: i < j < |es| ==> es[j].key != es[i].key
    ensures var es := WardEntries(GetWardList(data)).value;
            FullWardsSpec(data).Ok? && Get(FullWardsSpec(data).value, es[i].key) == Some(es[i].val) &&
            WardEntry(GetWardList(data), i) == Ok(es[i])
  {
    var es := WardEntries(GetWardList(data)).value;
    LastWithAt(es, es[i].key, i);
    WardEntryAt(GetWardList(data), i);
  }

  /** The examination getters ignore `j` when the examinations are not a
      list, so every pass of the inner loop assigns the same entry. */
  lemma ExamEntryOfNonList(exams: Json, j: nat)
    requires !exams.Arr?
    ensures ExamEntry(exams, j) == ExamEntry(exams, 0)
  {
  }

  /** A single examination the converter left as a dict yields ONE child,
      however many keys the dict has: its title mapped to its raw text. */
  lemma {:induction false} SingleExamDict(fs: seq<Entry<string, Json>>)
    requires fs != []
    ensures ResearchSpec(Obj(fs)).Ok? <==> ExamEntry(Obj(fs), 0).Ok?
    ensures ResearchSpec(Obj(fs)).Ok? ==> ResearchSpec(Obj(fs)) == Ok([ExamEntry(Obj(fs), 0).value])
    ensures ResearchSpec(Obj(fs)).Ok? ==>
              ExamEntry(Obj(fs), 0).value ==
              Entry(GetResearchName(Obj(fs), 0).value, Py(Resolve(Obj(fs), [Key("section"), Key("text")], [], DefaultPrefix)))
  {
    var exams := Obj(fs);
    var js := Range(|fs|);
    MapAllSpec(ExamEntry, exams, js);
    forall j | 0 <= j < |js| ensures ExamEntry(exams, js[j]) == ExamEntry(exams, 0) {
      ExamEntryOfNonList(exams, js[j]);
    }
    assert js[0] == 0;
    if ExamEntry(exams, 0).Ok? {
      var e := ExamEntry(exams, 0).value;
      var out := Repeat(e, |fs|);
      MapAllOk(ExamEntry, exams, js, out);
      CollapseRepeated(out, e);
    }
  }

  /** Every child of a department is one of its examinations: the name read
      from examination `j`'s title, holding the raw `text` section of that
      same examination (the tables are not parsed). */
  lemma ResearchChildrenRaw(exams: Json, name: Json)
    requires ResearchSpec(exams).Ok? && HasKey(ResearchSpec(exams).value, name)
    requires Truthy(exams)
    ensures exists j: nat :: GetResearchName(exams, j) == Ok(name) &&
              Get(ResearchSpec(exams).value, name) == Some(Py(Resolve(exams, ExamPath(exams, j, "text"), [], DefaultPrefix)))
  {
    var es := ResearchEntries(exams);
    var k := LastWithSource(es, name);
    ExamEntryParts(exams, k, es[k]);
    assert Get(ResearchSpec(exams).value, name) == Some(es[k].val);
  }

  /** What a successful pass of the inner loop read. */
  lemma ExamEntryParts(exams: Json, j: nat, e: Entry<Json, Json>)
    requires ExamEntry(exams, j) == Ok(e)
    ensures GetResearchName(exams, j) == Ok(e.key)
    ensures e.val == Py(Resolve(exams, ExamPath(exams, j, "text"), [], DefaultPrefix))
  {
  }

  /** The entries the inner loop assigns, in order: entry `j` is
      examination `j`'s. */
  lemma ResearchEntries(exams: Json) returns (es: seq<Entry<Json, Json>>)
    requires ResearchSpec(exams).Ok? && Truthy(exams)
    ensures ResearchSpec(exams) == Ok(Collapse(es))
    ensures forall j :: 0 <= j < |es| ==> ExamEntry(exams, j) == Ok(es[j])
  {
    var n := Len(exams).value;
    var js := Range(n);
    es := MapAll(ExamEntry, exams, js).value;
    MapAllSpec(ExamEntry, exams, js);
  }

  /** A department with no examinations (no `component`, or none found
      under it) still appears, with an empty dict. */
  lemma WardWithoutExams(wards: Json, i: nat)
    requires GetWardName(wards, i).Ok? && IsHashable(GetWardName(wards, i).value)
    requires GetResearchList(wards, i) == Ok(Null)
    ensures WardEntry(wards, i) == Ok(Entry(GetWardName(wards, i).value, []))
  {
  }
}
