/** `SUB_PATH` and `get_full_path` of src/parsers/base_parser.py, and the
    field read that every fixed-path getter applies to what the navigator
    returns. */
module BaseParser {
  import opened Results
  import opened Dict
  import opened PyJson
  import opened Navigator

  /** The path from a document's root to its structured body's section. */
  const SubPath: seq<Segment> := [Key("component"), Key("structuredBody"), Key("component"), Key("section")]

  /** `get_full_path(short_path)`: a new list, `SUB_PATH` followed by the short path. */
  function FullPath(shortPath: seq<Segment>): (r: seq<Segment>)
    ensures |r| == 4 + |shortPath|
    ensures r[..4] == SubPath && r[4..] == shortPath
    ensures r[0] == Key("component") && r[1] == Key("structuredBody") && r[2] == Key("component") && r[3] == Key("section")
    ensures shortPath == [] ==> r == SubPath
  {
    SubPath + shortPath
  }

  /** What the getters do with a short path: resolve it under `SUB_PATH` with
      the default prefix and no projection. */
  function Locate(data: Json, shortPath: seq<Segment>): Option<Json>
  {
    Resolve(data, FullPath(shortPath), [], DefaultPrefix)
  }

  /** A full-path lookup is a lookup of the structured body's section followed
      by a lookup of the short path inside it; a document without that
      section resolves nothing. */
  lemma LocateInSection(data: Json, shortPath: seq<Segment>)
    ensures Locate(data, shortPath) ==
            match Resolve(data, SubPath, [], DefaultPrefix)
            case None => None
            case Some(section) => Resolve(section, shortPath, [], DefaultPrefix)
    ensures Resolve(data, SubPath, [], DefaultPrefix) == None ==> Locate(data, shortPath) == None
  {
    ResolveConcat(data, SubPath, shortPath, DefaultPrefix);
  }

  /** What `section_fields[name]` gives for a navigator result `found`:
      the value under `name` when `found` is a dict holding it, KeyError for
      a dict without it, TypeError for None and for every other value. */
  ghost predicate IsFieldRead(found: Option<Json>, name: string, r: Result<Json>)
  {
    if found.Some? && found.value.Obj? then
      if HasKey(found.value.fields, name) then r == Ok(Get(found.value.fields, name).value)
      else r == Err(KeyError)
    else r == Err(TypeError)
  }

  /** Whether `section_fields[name]` succeeds: the navigator found a dict
      holding `name`. */
  ghost predicate HasField(found: Option<Json>, name: string)
  {
    found.Some? && found.value.Obj? && HasKey(found.value.fields, name)
  }

  /** `section_fields[name]` on the navigator's result. */
  function Field(found: Option<Json>, name: string): (r: Result<Json>)
    ensures IsFieldRead(found, name, r)
    ensures found == None ==> r == Err(TypeError)
  {
    Subscript(Py(found), name)
  }

  /** A field read below `SUB_PATH`: it raises TypeError when the document
      has no structured body section. */
  function SectionField(data: Json, shortPath: seq<Segment>, name: string): (r: Result<Json>)
    ensures IsFieldRead(Locate(data, shortPath), name, r)
    ensures Resolve(data, SubPath, [], DefaultPrefix) == None ==> r == Err(TypeError)
  {
    LocateInSection(data, shortPath);
    Field(Locate(data, shortPath), name)
  }

  /** What a table getter returns: the section as the navigator found it
      (`type != 'table'`), or the table a strategy extracted from it. */
  datatype Extracted<T> = Raw(section: Json) | Parsed(table: T)

  /** `table = section_fields; if type == 'table': table = parse(section_fields)`. */
  function Select<T>(kind: string, section: Json, parsed: Result<T>): (r: Result<Extracted<T>>)
    ensures kind != "table" ==> r == Ok(Raw(section))
    ensures kind == "table" ==> (r.Ok? <==> parsed.Ok?)
    ensures kind == "table" && parsed.Ok? ==> r == Ok(Parsed(parsed.value))
    ensures kind == "table" && parsed.Err? ==> r == Err(parsed.error)
  {
    if kind == "table" then
      var t :- parsed;
      Ok(Parsed(t))
    else Ok(Raw(section))
  }
}

/** The patient getters of src/parsers/patient_parser.py (repeated in
    src/parser_main.py) and the condition-line parser. */
module PatientParser {
  import opened Results
  import opened Dict
  import opened PyStr
  import opened PyJson
  import opened Navigator
  import opened BaseParser

  /** The demographic paths start at the root, not under `SUB_PATH`. */
  const SexPath: seq<Segment> := [Key("recordTarget"), Key("patientRole"), Key("patient"), Key("administrativeGenderCode")]
  const AgePath: seq<Segment> := [Key("recordTarget"), Key("patientRole"), Key("patient"), Key("birthTime")]
  const AnamnesisPath: seq<Segment> := [Key("component"), Idx(0), Key("section"), Key("text")]
  const LifeAnamnesisPath: seq<Segment> := [Key("component"), Idx(2), Key("section"), Key("text")]
  const ConditionPath: seq<Segment> := [Key("component"), Idx(1), Key("section"), Key("text"), Key("content")]

  /** `get_sex(data)`: the `displayName` of the gender code. */
  function GetSex(data: Json): (r: Result<Json>)
    ensures IsFieldRead(Resolve(data, SexPath, [], DefaultPrefix), "displayName", r)
  {
    Field(Resolve(data, SexPath, [], DefaultPrefix), "displayName")
  }

  /** `get_age(data)`: the `value` of the birth time. */
  function GetAge(data: Json): (r: Result<Json>)
    ensures IsFieldRead(Resolve(data, AgePath, [], DefaultPrefix), "value", r)
  {
    Field(Resolve(data, AgePath, [], DefaultPrefix), "value")
  }

  /** `get_amnez_d(data)`: the `text` of the first body component's text. */
  function GetAmnezD(data: Json): (r: Result<Json>)
    ensures IsFieldRead(Locate(data, AnamnesisPath), "text", r)
    ensures Resolve(data, SubPath, [], DefaultPrefix) == None ==> r == Err(TypeError)
  {
    SectionField(data, AnamnesisPath, "text")
  }

  /** `get_amnez_life(data)`: the same read in the third body component. */
  function GetAmnezLife(data: Json): (r: Result<Json>)
    ensures IsFieldRead(Locate(data, LifeAnamnesisPath), "text", r)
    ensures Resolve(data, SubPath, [], DefaultPrefix) == None ==> r == Err(TypeError)
  {
    SectionField(data, LifeAnamnesisPath, "text")
  }

  /** `el['text']` for one element of the condition list. */
  function ElementText(u: (), el: Json): Result<Json>
  {
    Subscript(el, "text")
  }

  /** The texts `get_condition` collects from the resolved `content`. */
  function ConditionTexts(content: Json): Result<seq<Json>>
  {
    var items :- Iter(content);
    MapAll(ElementText, (), items)
  }

  /** `get_condition(data)`: the `text` of every element of the resolved
      `content`, in order. */
  function ConditionSpec(data: Json): (r: Result<seq<Json>>)
    ensures Locate(data, ConditionPath) == None ==> r == Err(TypeError)
  {
    ConditionTexts(Py(Locate(data, ConditionPath)))
  }

  /** The loop of `get_condition`, appending to `result`. */
  method GetCondition(data: Json) returns (r: Result<seq<Json>>)
    ensures r == ConditionSpec(data)
  {
    var sectionFields := Locate(data, ConditionPath);
    var items :- Iter(Py(sectionFields));
    var result: seq<Json> := [];
    assert items[0..] == items;
    PrependNil(MapAll(ElementText, (), items));
    for i := 0 to |items|
      invariant MapAll(ElementText, (), items) == Prepend(result, MapAll(ElementText, (), items[i..]))
    {
      MapAllStep(ElementText, (), items, i);
      var text := Subscript(items[i], "text");
      if text.Err? {
        return Err(text.error);
      }
      PrependPrepend(result, text.value, MapAll(ElementText, (), items[i + 1..]));
      result := result + [text.value];
    }
    MapAllDone(ElementText, (), items, result);
    return Ok(result);
  }

  /** On a resolved list, `get_condition` succeeds exactly when every element
      is a dict with a `text`, and then returns those texts in order. */
  lemma ConditionOfList(xs: seq<Json>)
    ensures ConditionTexts(Arr(xs)).Ok? <==> forall i :: 0 <= i < |xs| ==> xs[i].Obj? && HasKey(xs[i].fields, "text")
    ensures ConditionTexts(Arr(xs)).Ok? ==>
              |ConditionTexts(Arr(xs)).value| == |xs| &&
              forall i :: 0 <= i < |xs| ==> Get(xs[i].fields, "text") == Some(ConditionTexts(Arr(xs)).value[i])
  {
    MapAllSpec(ElementText, (), xs);
    assert forall i :: 0 <= i < |xs| ==> ElementText((), xs[i]) == Subscript(xs[i], "text");
  }

  /** A `content` that the converter collapsed into a single dict is iterated
      over its keys, and indexing a key string with `'text'` raises. */
  lemma {:induction false} ConditionOfSingleDict(fs: seq<Entry<string, Json>>)
    requires fs != []
    ensures ConditionTexts(Obj(fs)) == Err(TypeError)
  {
    var items := Iter(Obj(fs)).value;
    assert items[0] == Str(fs[0].key);
    assert ElementText((), items[0]) == Err(TypeError);
  }

  // parse_conditions_as_key_value

  /** The dict `structured`, with its keys in insertion order. */
  type Structured = seq<Entry<string, Json>>

  /** `{"raw_list": []}`. */
  const Initial: Structured := [Entry("raw_list", Arr([]))]

  /** `{"type": kind, "text": text}`. */
  function Record(kind: string, text: string): Json
  {
    Obj([Entry("type", Str(kind)), Entry("text", Str(text))])
  }

  /** `structured["raw_list"].append(rec)`: only a list has `append`. */
  function AppendRaw(d: Structured, rec: Json): (r: Result<Structured>)
    ensures r.Ok? <==> Get(d, "raw_list").Some? && Get(d, "raw_list").value.Arr?
    ensures r.Ok? ==> r.value == Put(d, "raw_list", Arr(Get(d, "raw_list").value.items + [rec]))
    ensures Get(d, "raw_list") == None ==> r == Err(KeyError)
  {
    match Get(d, "raw_list")
    case None => Err(KeyError)
    case Some(v) => if v.Arr? then Ok(Put(d, "raw_list", Arr(v.items + [rec]))) else Err(AttributeError)
  }

  /** The key and value of a line holding a colon: the two sides of its
      first colon, stripped. */
  function KeyValue(s: string): (string, string)
    requires ':' in s
  {
    var parts := SplitFirst(s, ':');
    (Strip(parts.0), Strip(parts.1))
  }

  /** The assignment `structured[key] = value` a string line makes: one
      entry when the line holds a colon, none otherwise. */
  function KeyEntry(s: string): (r: seq<Entry<string, Json>>)
    ensures |r| <= 1 && (|r| == 1 <==> ':' in s)
  {
    if ':' in s then
      var kv := KeyValue(s);
      [Entry(kv.0, Str(kv.1))]
    else []
  }

  /** The record a string line appends to `raw_list`. */
  function RawRecord(s: string): Json
  {
    if ':' in s then
      var kv := KeyValue(s);
      Record(Lower(kv.0), kv.1)
    else Record("unknown", Strip(s))
  }

  /** The dict after the assignments `es`, made in order. */
  function Assign(d: Structured, es: seq<Entry<string, Json>>): Structured
    requires |es| <= 1
  {
    if es == [] then d else Put(d, es[0].key, es[0].val)
  }

  /** One pass of the loop over `conditions`. `":" in line` needs a string
      (or a container); only a string has `split` and `strip`; for a string,
      `":" in line` is the test `':' in s` that `KeyEntry` and `RawRecord` make. */
  function ConditionLine(d: Structured, line: Json): (r: Result<Structured>)
    ensures line.Null? || line.Num? ==> r == Err(TypeError)
    ensures line.Arr? || line.Obj? ==> r == Err(AttributeError)
  {
    var hasColon :- Contains(":", line);
    if !line.Str? then Err(AttributeError)
    else AppendRaw(Assign(d, KeyEntry(line.s)), RawRecord(line.s))
  }

  /** The loop over the lines, from the dict built so far. */
  function Conditions(d: Structured, lines: seq<Json>): Result<Structured>
    decreases |lines|
  {
    if lines == [] then Ok(d)
    else
      var next :- ConditionLine(d, lines[0]);
      Conditions(next, lines[1..])
  }

  /** `parse_conditions_as_key_value(conditions)`. */
  function ParseConditionsSpec(lines: seq<Json>): Result<Json>
  {
    var d :- Conditions(Initial, lines);
    Ok(Obj(d))
  }

  method ParseConditionsAsKeyValue(lines: seq<Json>) returns (r: Result<Json>)
    ensures r == ParseConditionsSpec(lines)
  {
    var structured := Initial;
    for i := 0 to |lines|
      invariant Conditions(Initial, lines) == Conditions(structured, lines[i..])
    {
      assert lines[i..][0] == lines[i] && lines[i..][1..] == lines[i + 1..];
      var line := lines[i];
      var hasColon :- Contains(":", line);
      if !line.Str? {
        return Err(AttributeError);
      }
      SingleCharSubstring(':', line.s);
      var record: Json;
      if hasColon {
        var kv := KeyValue(line.s);
        structured := Put(structured, kv.0, Str(kv.1));
        record := Record(Lower(kv.0), kv.1);
      } else {
        record := Record("unknown", Strip(line.s));
      }
      assert record == RawRecord(line.s);
      var rawList := Get(structured, "raw_list");
      if rawList.None? {
        return Err(KeyError);
      }
      if !rawList.value.Arr? {
        return Err(AttributeError);
      }
      structured := Put(structured, "raw_list", Arr(rawList.value.items + [record]));
    }
    assert lines[|lines|..] == [];
    return Ok(Obj(structured));
  }

  /** A line the loop takes without raising: a string whose key, if it has
      a colon, is not `raw_list`. */
  predicate PlainLine(line: Json)
  {
    line.Str? && forall e :: e in KeyEntry(line.s) ==> e.key != "raw_list"
  }

  /** The records of all the lines, in order. */
  function RawRecords(lines: seq<Json>): (r: seq<Json>)
    requires forall i :: 0 <= i < |lines| ==> lines[i].Str?
    ensures |r| == |lines|
    decreases |lines|
  {
    if lines == [] then [] else [RawRecord(lines[0].s)] + RawRecords(lines[1..])
  }

  /** The record at `i` is the one of line `i`. */
  lemma {:induction false} RawRecordsAt(lines: seq<Json>, i: nat)
    requires forall i :: 0 <= i < |lines| ==> lines[i].Str?
    requires i < |lines|
    ensures RawRecords(lines)[i] == RawRecord(lines[i].s)
    decreases i
  {
    if i > 0 {
      RawRecordsAt(lines[1..], i - 1);
    }
  }

  /** The keyed assignments the lines make, in order. */
  function KeyEntries(lines: seq<Json>): seq<Entry<string, Json>>
    requires forall i :: 0 <= i < |lines| ==> lines[i].Str?
    decreases |lines|
  {
    if lines == [] then [] else KeyEntry(lines[0].s) + KeyEntries(lines[1..])
  }

  lemma EmptyPrefix<T>(s: seq<T>)
    ensures [] + s == s
  {
  }

  lemma Associate<T>(a: seq<T>, b: seq<T>, c: seq<T>)
    ensures (a + b) + c == a + (b + c)
  {
  }

  lemma PairFacts<T>(a: T, b: T)
    ensures [a] + [b] == [a, b] && [a] + [] + [b] == [a, b]
    ensures [a][1..] == [] && [a, b][1..] == [b]
    ensures [] + [a] == [a]
  {
  }

  /** One line's assignment leaves the raw list in front, and each other
      key holding its last assigned value. */
  lemma AssignStep(d: Structured, rs: seq<Json>, es: seq<Entry<string, Json>>, here: seq<Entry<string, Json>>)
    requires d != [] && d[0] == Entry("raw_list", Arr(rs))
    requires forall k :: k != "raw_list" ==> Get(d, k) == LastWith(es, k)
    requires |here| <= 1 && forall e :: e in here ==> e.key != "raw_list"
    ensures var mid := Assign(d, here);
            mid != [] && mid[0] == d[0] &&
            forall k :: k != "raw_list" ==> Get(mid, k) == LastWith(es + here, k)
  {
    var mid := Assign(d, here);
    if here != [] {
      assert here[0] in here;
      assert Get(mid, d[0].key) == Get(d, d[0].key);
      assert (es + here)[..|es|] == es;
    } else {
      assert es + here == es;
    }
  }

  /** Appending a record to the raw list in front keeps it in front. */
  lemma AppendStep(mid: Structured, rs: seq<Json>, rec: Json)
    requires mid != [] && mid[0] == Entry("raw_list", Arr(rs))
    ensures AppendRaw(mid, rec).Ok?
    ensures var next := AppendRaw(mid, rec).value;
            next != [] && next[0] == Entry("raw_list", Arr(rs + [rec])) &&
            forall k :: k != "raw_list" ==> Get(next, k) == Get(mid, k)
  {
    PutFront(mid, "raw_list", Arr(rs + [rec]));
  }

  /** One plain line: the raw list in front gains the line's record, and
      the line's assignment is the latest for its key. */
  lemma LineStep(d: Structured, rs: seq<Json>, es: seq<Entry<string, Json>>, line: Json) returns (next: Structured)
    requires d != [] && d[0] == Entry("raw_list", Arr(rs))
    requires forall k :: k != "raw_list" ==> Get(d, k) == LastWith(es, k)
    requires PlainLine(line)
    ensures ConditionLine(d, line) == Ok(next)
    ensures next != [] && next[0] == Entry("raw_list", Arr(rs + [RawRecord(line.s)]))
    ensures forall k :: k != "raw_list" ==> Get(next, k) == LastWith(es + KeyEntry(line.s), k)
  {
    var here := KeyEntry(line.s);
    var mid := Assign(d, here);
    AssignStep(d, rs, es, here);
    AppendStep(mid, rs, RawRecord(line.s));
    next := AppendRaw(mid, RawRecord(line.s)).value;
  }

  /** The loop from any dict whose first entry is the raw list: one record
      per line appended in order, and each key holding the value of its last
      assignment. */
  lemma {:induction false} ConditionsShape(d: Structured, rs: seq<Json>, es: seq<Entry<string, Json>>, lines: seq<Json>)
    requires d != [] && d[0] == Entry("raw_list", Arr(rs))
    requires forall k :: k != "raw_list" ==> Get(d, k) == LastWith(es, k)
    requires forall i :: 0 <= i < |lines| ==> lines[i].Str? && PlainLine(lines[i])
    ensures Conditions(d, lines).Ok?
    ensures var out := Conditions(d, lines).value;
            out != [] &&
            out[0] == Entry("raw_list", Arr(rs + RawRecords(lines))) &&
            forall k :: k != "raw_list" ==> Get(out, k) == LastWith(es + KeyEntries(lines), k)
    decreases |lines|
  {
    if lines == [] {
      assert RawRecords(lines) == [] && KeyEntries(lines) == [];
      assert rs + [] == rs && es + [] == es;
    } else {
      var line, tail := lines[0], lines[1..];
      var next := LineStep(d, rs, es, line);
      assert forall i :: 0 <= i < |tail| ==> tail[i] == lines[i + 1];
      ConditionsShape(next, rs + [RawRecord(line.s)], es + KeyEntry(line.s), tail);
      assert Conditions(d, lines) == Conditions(next, tail);
      assert RawRecords(lines) == [RawRecord(line.s)] + RawRecords(tail);
      Associate(rs, [RawRecord(line.s)], RawRecords(tail));
      Associate(es, KeyEntry(line.s), KeyEntries(tail));
    }
  }

  /** What `parse_conditions_as_key_value` returns for lines that do not
      raise: `raw_list` first, holding exactly one record per line in input
      order, and every other key holding the value of its LAST line. */
  lemma ParseConditionsOfPlainLines(lines: seq<Json>)
    requires forall i :: 0 <= i < |lines| ==> lines[i].Str? && PlainLine(lines[i])
    ensures ParseConditionsSpec(lines).Ok?
    ensures var out := ParseConditionsSpec(lines).value.fields;
            out != [] &&
            out[0] == Entry("raw_list", Arr(RawRecords(lines))) &&
            forall k :: k != "raw_list" ==> Get(out, k) == LastWith(KeyEntries(lines), k)
  {
    InitialShape();
    ConditionsShape(Initial, [], [], lines);
    EmptyPrefix(KeyEntries(lines));
    EmptyPrefix(RawRecords(lines));
  }

  /** `{"raw_list": []}` holds the empty raw list in front and no other key. */
  lemma InitialShape()
    ensures Initial != [] && Initial[0] == Entry("raw_list", Arr([]))
    ensures forall k :: k != "raw_list" ==> Get(Initial, k) == LastWith([], k)
  {
  }

  /** `get_structured_condition(data)`: the condition lines, parsed. */
  function GetStructuredCondition(data: Json): (r: Result<Json>)
    ensures ConditionSpec(data).Err? ==> r == Err(ConditionSpec(data).error)
    ensures ConditionSpec(data).Ok? ==> r == ParseConditionsSpec(ConditionSpec(data).value)
  {
    var lines :- ConditionSpec(data);
    ParseConditionsSpec(lines)
  }

  /** A line `key: value`, both sides already stripped and the key holding
      no colon, splits into exactly that key and value. */
  lemma KeyValueOf(key: string, value: string)
    requires ':' !in key && Strip(key) == key && Strip(value) == value
    ensures ':' in key + ": " + value
    ensures KeyValue(key + ": " + value) == (key, value)
  {
    var line := key + ": " + value;
    assert line == key + [':'] + (" " + value);
    assert ':' in line && SplitFirst(line, ':') == (key, " " + value) by {
      SplitFirstAt(key, ':', " " + value);
    }
    assert Strip(" " + value) == value by {
      StripLeadingBlank(value);
    }
  }

  /** A line `key: value` (stripped sides, a key with no colon other than
      `raw_list`) assigns the key and appends the lower-cased key's record. */
  lemma KeyedLine(d: Structured, key: string, value: string)
    requires ':' !in key && Strip(key) == key && Strip(value) == value
    ensures ConditionLine(d, Str(key + ": " + value)) ==
            AppendRaw(Put(d, key, Str(value)), Record(Lower(key), value))
  {
    var line := key + ": " + value;
    KeyValueOf(key, value);
    SingleCharSubstring(':', line);
    assert KeyEntry(line) == [Entry(key, Str(value))];
    assert RawRecord(line) == Record(Lower(key), value);
  }

  /** A line with no colon appends its stripped text as an "unknown" record. */
  lemma UnkeyedLine(d: Structured, s: string)
    requires ':' !in s
    ensures ConditionLine(d, Str(s)) == AppendRaw(d, Record("unknown", Strip(s)))
  {
    SingleCharSubstring(':', s);
  }

  /** Appending to the raw list in front rewrites only the first entry. */
  lemma AppendFront(d: Structured, rs: seq<Json>, rec: Json)
    requires d != [] && d[0] == Entry("raw_list", Arr(rs))
    ensures AppendRaw(d, rec) == Ok([Entry("raw_list", Arr(rs + [rec]))] + d[1..])
  {
    PutFront(d, "raw_list", Arr(rs + [rec]));
  }

  /** The same, after a dict holding the raw list in front. */
  lemma UnkeyedLineFront(d: Structured, rs: seq<Json>, s: string)
    requires ':' !in s && Strip(s) == s
    requires d != [] && d[0] == Entry("raw_list", Arr(rs))
    ensures ConditionLine(d, Str(s)) == Ok([Entry("raw_list", Arr(rs + [Record("unknown", s)]))] + d[1..])
  {
    UnkeyedLine(d, s);
    AppendFront(d, rs, Record("unknown", s));
  }

  lemma LowerComplaints()
    ensures Lower("Complaints") == "complaints"
  {
    LowerKeeps("omplaints");
    LowerFront('C', "omplaints");
    assert "Complaints" == ['C'] + "omplaints";
  }

  /** The loop over two lines is the two line steps in turn. */
  lemma TwoLines(d0: Structured, l1: Json, l2: Json, d1: Structured, d2: Structured)
    requires ConditionLine(d0, l1) == Ok(d1) && ConditionLine(d1, l2) == Ok(d2)
    ensures Conditions(d0, [l1, l2]) == Ok(d2)
  {
    var lines := [l1, l2];
    assert Conditions(d0, lines) == Conditions(d1, lines[1..]) by {
      assert lines[0] == l1;
    }
    var rest := lines[1..];
    assert rest[0] == l2 && rest[1..] == [];
    assert Conditions(d1, rest) == Conditions(d2, []);
  }

  /** A line `key: value` with a new key, after a dict holding the raw list
      in front: the raw list gains the line's record and the key is appended. */
  lemma NewKeyedLine(d: Structured, rs: seq<Json>, key: string, value: string)
    requires ':' !in key && Strip(key) == key && Strip(value) == value
    requires d != [] && d[0] == Entry("raw_list", Arr(rs)) && !HasKey(d, key)
    ensures ConditionLine(d, Str(key + ": " + value)) ==
            Ok([Entry("raw_list", Arr(rs + [Record(Lower(key), value)]))] + d[1..] + [Entry(key, Str(value))])
  {
    KeyedLine(d, key, value);
    var e := Entry(key, Str(value));
    var rec := Record(Lower(key), value);
    AppendFront(d + [e], rs, rec);
    assert (d + [e])[1..] == d[1..] + [e];
    Associate([Entry("raw_list", Arr(rs + [rec]))], d[1..], [e]);
  }

  /** A keyed line then an unkeyed one: one record each, in order, and the
      key after the raw list. */
  lemma KeyedThenUnkeyed(key: string, value: string, note: string)
    requires ':' !in key && Strip(key) == key && Strip(value) == value && key != "raw_list"
    requires ':' !in note && Strip(note) == note
    ensures ParseConditionsSpec([Str(key + ": " + value), Str(note)]) ==
            Ok(Obj([Entry("raw_list", Arr([Record(Lower(key), value), Record("unknown", note)])),
                    Entry(key, Str(value))]))
  {
    var rec1, rec2 := Record(Lower(key), value), Record("unknown", note);
    var e := Entry(key, Str(value));
    var d0, d1, d2 := Initial, [Entry("raw_list", Arr([rec1])), e], [Entry("raw_list", Arr([rec1, rec2])), e];
    assert !HasKey(d0, key);
    NewKeyedLine(d0, [], key, value);
    PairFacts(Entry("raw_list", Arr([])), e);
    PairFacts(rec1, rec2);
    PairFacts(Entry("raw_list", Arr([rec1])), e);
    UnkeyedLineFront(d1, [rec1], note);
    PairFacts(Entry("raw_list", Arr([rec1, rec2])), e);
    TwoLines(d0, Str(key + ": " + value), Str(note), d1, d2);
  }

  /** "Complaints: none" is split at its colon into the key "Complaints" and
      the value "none"; a line without a colon is kept whole as "unknown". */
  lemma ComplaintsExample(key: string, value: string, note: string)
    requires key == "Complaints" && value == "none" && note == "freeform note"
    ensures ParseConditionsSpec([Str(key + ": " + value), Str(note)]) ==
            Ok(Obj([Entry("raw_list", Arr([Record("complaints", value), Record("unknown", note)])),
                    Entry(key, Str(value))]))
  {
    StripPlain(key);
    StripPlain(value);
    StripPlain(note);
    LowerComplaints();
    KeyedThenUnkeyed(key, value, note);
  }

  /** A line whose key is `raw_list` overwrites the list with a string, and
      the `append` that follows on the same line raises AttributeError. */
  lemma RawListKeyRaises()
    ensures ParseConditionsSpec([Str("raw_list: x")]) == Err(AttributeError)
  {
    var key, value := "raw_list", "x";
    StripPlain(key);
    StripPlain(value);
    assert key + ": " + value == "raw_list: x";
    KeyedLine(Initial, key, value);
    assert Get(Put(Initial, key, Str(value)), "raw_list") == Some(Str(value));
  }
}
