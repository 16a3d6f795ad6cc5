# CDA-JSON extraction engine — a Dafny model

This project models the read-only extraction engine of `hse_mirorlab`. The engine works on the nested dict/list/string tree that a clinical
document in HL7 CDA R2 form (XML namespace `urn:hl7-org:v3`) becomes
after conversion to JSON. The model covers:

- the path navigator `find_section_by_optimized_path` and the key
  normaliser `clean_keys`;
- the four table strategies (`parse_table`, `parse_table_2`,
  `parse_table_wtheader`, `convert_table_to_dataframe`) and the
  `safe_parse_table` fallback;
- the fixed-path getters for patient, hospitalisation, final and
  laboratory sections (`SUB_PATH`, `get_full_path`);
- the condition-line parser `parse_conditions_as_key_value`;
- the department walker `compute_full_wards`;
- the XML-element-to-dict conversion `elem_to_dict`, which is where the
  list-versus-dict ambiguity that everything else branches on comes from;
- the output-name rules of the two batch drivers.

The tree is `PyJson.Json`. A dict is an ordered sequence of entries, with
Python's semantics written out in module `Dict`: assigning to an existing key
keeps its position, and assigning to a new key appends it. A getter either
returns a value, or the navigator's `None` (`Option`), or raises (a
`Results.Result` whose error names the Python exception).

Every loop of the source is a `method` with its loop invariants. Each one is
proved equal to a specification function, and lemmas state what the source
promises about those functions. This covers the navigator loop, the table
builders (including the `while` padding loop), `get_condition`,
`parse_conditions_as_key_value`, both loops of `compute_full_wards`,
`clean_keys` and `elem_to_dict`.

Several source files repeat others verbatim, and each such function is modelled once:

- `src/parser_fucn.py` repeats `src/utils/helpers.py` and
  `src/utils/table_utils.py`;
- `src/parser_main.py` repeats the getters of `src/parsers/`;
- `src/parser_lab.py` repeats `src/parsers/lab_parser.py`;
- the `elem_to_dict` of `src/converter.py` repeats the one in
  `src/io/file_converter.py`.

The function bodies are the same text. What the copies restate is their
paths, and `Duplicates.CopiesAgree` proves those equal to the package's.

The model follows the code as written. Some of its behaviours are easy to
miss:

- `clean_keys` strips one namespace per key, so `{a}{b}c` becomes `{b}c`
  and needs a second pass to become `c`.
- `safe_parse_table` tries the key-cleaning strategy, then `parse_table_2`
  on the original input, and nothing else. Each getter calls one fixed
  strategy.
- `parse_table` adds one `'None'` to a short row. `parse_table_2` and
  `convert_table_to_dataframe` fill a short row up to the column count
  and leave a long row long. `parse_table_wtheader` pads nothing.
- A getter that reads a field, and a table getter in table mode, raise
  when their section is missing, because they subscript or parse the
  navigator's None. In raw mode the table getters return that None, and
  so does `get_ward_list`.
- An integer segment also indexes a string, giving one character.
- The department walker stores raw examination sections, not parsed
  tables.
- A department list that is a single (non-empty) dict raises TypeError.

## Model

| member | source | states |
|---|---|---|
| Dict.Get | src/utils/table_utils.py:132-135 | `d[k]` / `k in d`: a value exactly when the key is present, and it is one the dict holds under that key |
| Dict.Put | src/utils/helpers.py:57 | `d[k] = v`: afterwards `k` reads `v` and every other key reads as before; an existing key keeps its place, a new key is appended |
| Dict.PutFront | src/io/file_converter.py:31-33 | assigning to a dict's first key rewrites its first entry in place |
| Dict.PutNew | src/io/file_converter.py:28-29 | assigning to a key the dict lacks appends it at the end |
| Dict.PutTwice | src/io/file_converter.py:31-33 | two assignments to the same key leave only the second, as when a child entry is first wrapped in a list and then extended |
| Dict.PutKeepsUnique | src/utils/helpers.py:52-58 | assignment keeps a dict's keys distinct |
| Dict.Remove | src/io/file_converter.py:38 | `d.pop(k, None)`: the key is gone and every other key reads as before |
| Dict.LastWithAt | src/parsers/ward_parser.py:149-151 | after a run of assignments a key holds the value of its last assignment |
| Dict.LastWithSource | src/parsers/ward_parser.py:149-151 | a value a run of assignments leaves under a key was assigned to that key by one of them |
| Dict.Collapse | src/utils/helpers.py:52-58 | the dict built by assigning entries in order reads, under every key, the last value assigned to it; its keys are distinct |
| Dict.CollapseOfDict | src/utils/helpers.py:52-58 | re-assigning a dict's own entries into `{}` rebuilds the same dict |
| Dict.CollapseRepeated | src/parsers/ward_parser.py:145-149 | assigning the same entry n >= 1 times leaves that one entry |
| PyStr.LStrip | src/parsers/patient_parser.py:118 | `lstrip`: removes only leading blanks, and leaves no leading blank |
| PyStr.RStrip | src/parsers/patient_parser.py:118 | `rstrip`: removes only trailing blanks, and leaves no trailing blank |
| PyStr.StripPlain | src/parsers/patient_parser.py:118-119 | a string with non-blank ends is its own `strip()` |
| PyStr.StripKeepsFirst | src/parsers/patient_parser.py:118 | `strip()` of a string starting with a non-blank keeps that first character |
| PyStr.RStripPrefix | src/parsers/patient_parser.py:118 | `rstrip` only cuts characters off the end: its result is a prefix of the string |
| PyStr.StripLeadingBlank | src/io/file_converter.py:35-36 | a leading blank does not change `strip()` |
| PyStr.FindAfter | src/utils/helpers.py:56 | in `a + c + b` with no `c` in `a`, `find(c)` is the length of `a` |
| PyStr.SingleCharSubstring | src/parsers/patient_parser.py:116 | `':' in line` holds exactly when the character occurs in the line |
| PyStr.LowerKeeps | src/parsers/patient_parser.py:122 | `lower()` leaves unchanged a string whose every character is its own lower case |
| PyStr.LowerFront | src/parsers/patient_parser.py:122 | `lower()` works character by character |
| PyStr.Find | src/utils/helpers.py:56 | `find('}')`: the first index of the character, or -1 exactly when it does not occur |
| PyStr.SplitFirst | src/parsers/patient_parser.py:117 | `split(':', 1)`: the text before the first colon (holding none) and the text after it, which rebuild the line |
| PyStr.SplitFirstAt | src/parsers/patient_parser.py:117 | the split of `a + ':' + b`, with no colon in `a`, is `(a, b)` |
| PyStr.Lower | src/parsers/patient_parser.py:122 | `lower()` maps each character and keeps the length |
| PyStr.NatToString | src/converter.py:116 | `str(idx)` is a non-empty run of decimal digits |
| PyStr.DigitsValueOfNatToString | src/converter.py:116 | reading back `str(n)` gives `n`, so `str` is injective on naturals |
| PyStr.BraceIsNotInt | src/utils/helpers.py:28-29 | `int()` of a string starting with `{` (any prefixed key) raises ValueError |
| PyJson.PyIndex | src/utils/helpers.py:29 | Python's index rule: `-len <= n < len` succeeds, and a negative index counts from the end |
| PyJson.Iter | src/utils/table_utils.py:22 | `for x in v` visits a list's elements, and a dict's keys in order |
| Navigator.Qualify | src/utils/helpers.py:23-24 | every string segment gets the prefix, integer segments are kept, length and order are unchanged |
| Navigator.StepRaw | src/utils/helpers.py:27-31 | one step raises only exceptions that the navigator's `except` clause catches |
| Navigator.FindSectionByOptimizedPath | src/utils/helpers.py:22-38 | the loop reassigning `current`, then the projection, returns exactly `Resolve` |
| Navigator.WalkConcat | src/utils/helpers.py:27-31 | walking `p + q` is walking `p`, then `q` from where `p` ended |
| Navigator.ResolveConcat | src/utils/helpers.py:22-38 | resolving `p + q` is resolving `p`, then `q` inside its result |
| Navigator.AllOrNothing | src/utils/helpers.py:26-38 | once a prefix of the path fails, every extension of it gives None, with or without projection |
| Navigator.EmptyPath | src/utils/helpers.py:36 | an empty path returns the data itself |
| Navigator.KeyOnListFails | src/utils/helpers.py:28-29 | a prefixed key segment that reaches a list goes through `int()` and the whole lookup is None |
| Navigator.IndexThenKeyFails | src/utils/helpers.py:30-31 | an integer segment followed by a key finds nothing from a dict or a string |
| Navigator.ListIndex | src/utils/helpers.py:29 | list indices in `[-len, len)` succeed (negative ones from the end); any other index gives None |
| Navigator.StringIndex | src/utils/helpers.py:30-31 | an integer segment on a string scalar takes the non-list branch and returns one character |
| Navigator.ProjectShape | src/utils/helpers.py:33-34 | the projection holds exactly the requested unprefixed names, each with the dict's value or None |
| Navigator.LastWithUniform | src/utils/helpers.py:34 | a field requested twice still maps to its single value |
| Navigator.ResolveProjects | src/utils/helpers.py:33-34 | with a non-empty field list and a dict result, resolution returns the projection |
| Normalizer.CleanKey | src/utils/helpers.py:54-56 | a key starting with `{` loses everything up to and including its first `}`; any other key, and a `{` key with no `}`, is unchanged |
| Normalizer.StripsNamespace | src/utils/helpers.py:55-56 | `{ns}local`, with no `}` in `ns`, becomes `local` |
| Normalizer.OneNamespaceOnly | src/utils/helpers.py:55-56 | `{a}{b}c` cleans to `{b}c` and only a second pass gives `c` |
| Normalizer.CleanedEntries | src/utils/helpers.py:53-57 | one new entry per original entry, in order: the cleaned key with the cleaned value |
| Normalizer.CleanKeys | src/utils/helpers.py:51-62 | the recursive walk returns exactly `Clean`: dicts and lists rebuilt, anything else returned as it is |
| Normalizer.CleanDict | src/utils/helpers.py:52-58 | the dict-building loop assigns each cleaned key its cleaned value, in order, so it builds `Collapse` of `CleanedEntries` |
| Normalizer.CleanList | src/utils/helpers.py:59-60 | the list comprehension cleans each element, keeping length and order |
| Normalizer.CleanShape | src/utils/helpers.py:59-62 | lists keep length and order with each element cleaned, dicts never grow, and scalars are returned unchanged |
| Normalizer.LastKeyWins | src/utils/helpers.py:57 | a cleaned key holds the cleaned value of the last original key that cleans to it |
| Normalizer.CollisionExample | src/utils/helpers.py:54-57 | two keys `{ns1}local` and `{ns2}local` collapse into the single key `local`, holding the later (cleaned) value |
| Normalizer.CleanWellFormed | src/utils/helpers.py:51-62 | every dict in the result has distinct keys |
| Normalizer.GetOfUnique | src/utils/helpers.py:53 | in a dict, the key of entry `i` reads entry `i`'s value |
| Normalizer.CleanIdentity | src/utils/helpers.py:51-62 | on a tree with distinct keys and no key starting with `{`, nothing changes |
| Normalizer.CleanIdempotentWhen | src/utils/helpers.py:51-62 | cleaning twice equals cleaning once whenever the first pass leaves no key starting with `{` |
| Tables.PadOnce | src/utils/table_utils.py:27-28 | a short row gets exactly one `'None'`, and any other row is unchanged |
| Tables.PadTo | src/utils/table_utils.py:67-68 | the row keeps its cells and is filled up to the width; a longer row is kept as it is |
| Tables.ParseTable | src/utils/table_utils.py:19-29 | the nested append loops build exactly `ParseTableSpec`: the `th` texts, and each row's content texts with one `'None'` when short |
| Tables.ParseTable2 | src/utils/table_utils.py:48-70 | the row loop builds exactly `ParseTable2Spec`, with a single-row dict wrapped in a list |
| Tables.ParseTable2OneRow | src/utils/table_utils.py:60-68 | one row: the cells' `content.get('text', 'None')`, then the `while` loop padding to the header count |
| Tables.ColumnNames | src/utils/table_utils.py:92 | `n` headers `Column 1` .. `Column n` |
| Tables.ParseTableWtheader | src/utils/table_utils.py:88-102 | the loops build exactly `ParseTableWtheaderSpec`: headers numbered after the first row's cell count, rows unpadded |
| Tables.ConvertTableToDataframe | src/utils/table_utils.py:120-147 | the cleaning and the row loop build exactly `ConvertTableSpec` |
| Tables.ConvertOneRow | src/utils/table_utils.py:128-147 | one row: a list `td` gives direct text, else `content.text`, else None, extended with None; a dict `td` gives `[text] + [None]*(n-1)` or is dropped |
| Tables.SafeParseTable | src/utils/table_utils.py:164-167 | the key-cleaning strategy's table when it succeeds, else `parse_table_2`'s result on the original input, including its exception |
| TableFacts.ParseTable2RowsCoverHeaders | src/utils/table_utils.py:59-70 | every `parse_table_2` row has at least one cell per column, and row i is the `content.get('text', 'None')` cells of body row i, padded with `'None'` up to the column count |
| TableFacts.ConvertRowsCoverHeaders | src/utils/table_utils.py:127-147 | every `convert_table_to_dataframe` row has at least one cell per column |
| TableFacts.ConvertRowWidth | src/utils/table_utils.py:139-146 | a kept row has at least the header count of cells |
| TableFacts.SafeParseFallback | src/utils/table_utils.py:164-167 | `safe_parse_table` fails exactly when both strategies fail, and prefers the key-cleaning one |
| TableFacts.Strs | src/utils/table_utils.py:25 | the cell texts as strings, one per cell in order |
| TableFacts.DocPaths | src/utils/table_utils.py:20-22 | in the converter's table layout, the header and body paths reach the `th` and `tr` values |
| TableFacts.HeadersOfDoc | src/utils/table_utils.py:20 | headers are the `text` of each `th`, in order |
| TableFacts.CellsOfRowObj | src/utils/table_utils.py:24-25 | a row's cells give their content texts, in order |
| TableFacts.ParseTableOfDoc | src/utils/table_utils.py:19-29 | on a table in the converter's layout, `parse_table` returns its headers and rows, each short row with one `'None'` appended |
| TableFacts.ParseTable2OfDoc | src/utils/table_utils.py:48-70 | on the same layout, `parse_table_2` returns each row padded with `'None'` to the column count |
| TableFacts.ParseTableWtheaderOfDoc | src/utils/table_utils.py:88-102 | on the same layout, the headers are numbered after the first row and the rows come back unpadded; an empty body gives no headers |
| TableFacts.CleanOne | src/utils/helpers.py:51-58 | a one-key dict keeps its single cleaned key |
| TableFacts.CleanTwo | src/utils/helpers.py:51-58 | a two-key dict whose cleaned keys differ keeps both, in order |
| TableFacts.CleanPrefixed | src/utils/helpers.py:55-56 | the layout's `{ns}` prefix comes off a key |
| TableFacts.CleanHeaderCells | src/utils/helpers.py:51-62 | header cells carry no prefix, so cleaning leaves them alone |
| TableFacts.CleanCell | src/utils/helpers.py:51-62 | cleaning a prefixed cell gives the unprefixed cell |
| TableFacts.CleanRowObj | src/utils/helpers.py:51-62 | cleaning a prefixed row gives the unprefixed row |
| TableFacts.CleanBody | src/utils/helpers.py:51-62 | cleaning a prefixed body gives the unprefixed body |
| TableFacts.CleanHead | src/utils/helpers.py:51-62 | cleaning a prefixed head gives the unprefixed head |
| TableFacts.CleanHeadOf | src/utils/helpers.py:51-62 | cleaning a head with any `th` cleans the `th` and drops the prefixes |
| TableFacts.CleanInnerOf | src/utils/helpers.py:51-62 | cleaning `thead`/`tbody` cleans their payloads |
| TableFacts.CleanDocOf | src/utils/table_utils.py:120 | cleaning the layout cleans its two payloads and drops the prefix from its keys |
| TableFacts.CleanDoc | src/utils/table_utils.py:120 | a prefixed table in the layout cleans to the unprefixed one |
| TableFacts.ColNameCases | src/utils/table_utils.py:124 | a header cell's name is its `text`, None without one, AttributeError for a non-dict |
| TableFacts.ListCellCases | src/utils/table_utils.py:132-137 | a list-`td` dict cell gives its own `text`, else its `content`'s `text`, else None; a non-dict `content` gives None or TypeError as `'text' in content` decides |
| TableFacts.DictRowCases | src/utils/table_utils.py:142-147 | a dict `td` gives `[content.text]` followed by None up to the column count (one cell with no columns), no row without `content` or its `text` |
| TableFacts.DictRowIgnoresText | src/utils/table_utils.py:142-147 | a dict `td` gives the same row, or none, with its own `text` key removed: only `content` is read |
| TableFacts.ListCellOfCell | src/utils/table_utils.py:132-135 | a cell holding `content.text` gives that text |
| TableFacts.ConvertRowOfRowObj | src/utils/table_utils.py:129-141 | a list `td` of cells gives their texts, padded with None |
| TableFacts.ConvertCleanedOfDoc | src/utils/table_utils.py:123-147 | on a cleaned table, the headers and the None-padded rows |
| TableFacts.ConvertTableOfDoc | src/utils/table_utils.py:120-147 | on a table whose keys carry any `{ns}`, the headers and the rows padded with None to the column count |
| TableFacts.ParseTable2SingleRow | src/utils/table_utils.py:52-56 | a one-row body left as a bare dict reads the same as that row inside a list |
| TableFacts.ParseTableSingleRowFails | src/utils/table_utils.py:22-24 | the same bare-dict row makes `parse_table` iterate keys and raise TypeError |
| TableFacts.ParseTableWtheaderSingleRowFails | src/utils/table_utils.py:89-90 | the same bare-dict row makes `parse_table_wtheader` raise KeyError at `tr[0]` |
| TableFacts.ShortRowExample | src/utils/table_utils.py:27-28 | headers A, B and rows [1, 2], [3] give `[3, 'None']` from both `parse_table` and `parse_table_2` |
| TableFacts.ParseTablePadsOnce | src/utils/table_utils.py:27-28 | with three columns, a one-cell row comes back with two cells, not three |
| TableFacts.TablesOfNone | src/utils/table_utils.py:20 | every strategy handed None raises TypeError at its first subscript |
| BaseParser.FullPath | src/parsers/base_parser.py:7-19 | `SUB_PATH + short_path`: length 4 + n, the four body segments first, then the short path; the empty short path gives `SUB_PATH` |
| BaseParser.LocateInSection | src/parsers/base_parser.py:19 | a full-path lookup is a lookup of the body section followed by the short path, and without that section it gives None |
| BaseParser.Field | src/parsers/patient_parser.py:24 | `section_fields[name]`: the value under the name, KeyError for a dict without it, TypeError for None |
| BaseParser.SectionField | src/parsers/patient_parser.py:58-59 | a field read below `SUB_PATH`, which raises TypeError when the document has no body section |
| BaseParser.Select | src/parsers/hosp_parser.py:23-25 | the raw section unless `type == 'table'`, otherwise the parsed table or the parser's exception |
| PatientParser.GetSex | src/parsers/patient_parser.py:18-24 | the `displayName` of the gender code, raising when the path is unresolved |
| PatientParser.GetAge | src/parsers/patient_parser.py:36-42 | the `value` of the birth time, raising when the path is unresolved |
| PatientParser.GetAmnezD | src/parsers/patient_parser.py:54-59 | the `text` of the first body component's text, TypeError without a body section |
| PatientParser.GetAmnezLife | src/parsers/patient_parser.py:71-76 | the `text` of the third body component's text, TypeError without a body section |
| PatientParser.ConditionSpec | src/parsers/patient_parser.py:88-99 | an unresolved `content` raises TypeError |
| PatientParser.GetCondition | src/parsers/patient_parser.py:93-99 | the append loop returns exactly `ConditionSpec` |
| PatientParser.ConditionOfList | src/parsers/patient_parser.py:95-97 | on a list, success exactly when every element is a dict with `text`; then the texts, same length and order |
| PatientParser.ConditionOfSingleDict | src/parsers/patient_parser.py:96-97 | a single-dict `content` is iterated over its keys and raises TypeError |
| PatientParser.AppendRaw | src/parsers/patient_parser.py:121 | `structured["raw_list"].append(rec)` succeeds exactly when `raw_list` holds a list, which then gains `rec` at its end |
| PatientParser.KeyEntry | src/parsers/patient_parser.py:116-120 | a line assigns one key exactly when it holds a colon |
| PatientParser.ConditionLine | src/parsers/patient_parser.py:115-130 | a None or number line raises TypeError at `in`; a list or dict line raises AttributeError |
| PatientParser.ParseConditionsAsKeyValue | src/parsers/patient_parser.py:111-132 | the loop mutating `structured` returns exactly `ParseConditionsSpec` |
| PatientParser.RawRecords | src/parsers/patient_parser.py:121-130 | one raw record per line |
| PatientParser.RawRecordsAt | src/parsers/patient_parser.py:121-130 | record `i` is line `i`'s |
| PatientParser.AssignStep | src/parsers/patient_parser.py:120 | a line's assignment keeps the raw list in front and makes each key hold its last assigned value |
| PatientParser.AppendStep | src/parsers/patient_parser.py:121-130 | appending a record keeps the raw list in front and changes no other key |
| PatientParser.LineStep | src/parsers/patient_parser.py:116-130 | one string line adds its record to the raw list, and its assignment becomes the latest for its key |
| PatientParser.ConditionsShape | src/parsers/patient_parser.py:115-130 | over string lines whose key is not `raw_list`, one record per line is appended in order, and each key holds its last value |
| PatientParser.ParseConditionsOfPlainLines | src/parsers/patient_parser.py:111-132 | `raw_list` comes first with exactly one record per line in input order, and every other key holds the value of its last line |
| PatientParser.InitialShape | src/parsers/patient_parser.py:111-113 | the start `{"raw_list": []}` holds the empty raw list and no other key |
| PatientParser.GetStructuredCondition | src/parsers/patient_parser.py:144-145 | the condition lines' exception, or the lines parsed |
| PatientParser.KeyValueOf | src/parsers/patient_parser.py:117-119 | `key: value` with stripped sides splits into exactly that key and value |
| PatientParser.KeyedLine | src/parsers/patient_parser.py:116-124 | a keyed line assigns the key and appends `{type: key.lower(), text: value}` |
| PatientParser.UnkeyedLine | src/parsers/patient_parser.py:125-130 | a line without a colon appends `{type: "unknown", text: line.strip()}` and assigns nothing |
| PatientParser.AppendFront | src/parsers/patient_parser.py:121 | appending to the raw list in front rewrites only the first entry |
| PatientParser.UnkeyedLineFront | src/parsers/patient_parser.py:125-130 | an unkeyed line rewrites only the raw list in front |
| PatientParser.LowerComplaints | src/parsers/patient_parser.py:122 | `"Complaints".lower()` is `"complaints"` |
| PatientParser.TwoLines | src/parsers/patient_parser.py:115 | the loop over two lines is the two line steps in turn |
| PatientParser.NewKeyedLine | src/parsers/patient_parser.py:120-124 | a keyed line with a new key updates the raw list in front and appends the key at the end |
| PatientParser.KeyedThenUnkeyed | src/parsers/patient_parser.py:111-132 | a keyed then an unkeyed line give two records in order, and the key after `raw_list` |
| PatientParser.ComplaintsExample | src/parsers/patient_parser.py:116-124 | "Complaints: none" gives key "Complaints" -> "none" and type "complaints" |
| PatientParser.RawListKeyRaises | src/parsers/patient_parser.py:120-121 | a line keyed `raw_list` replaces the list with a string, and the append raises AttributeError |
| HospParser.GetGospInfo | src/parsers/hosp_parser.py:20-41 | succeeds exactly when table mode's `parse_table` succeeds (in raw mode always) and both `entry[2]` and `entry[3]` values hold a `displayName`; the table is the section at `text` raw, or parsed in table mode; the type and route are those `displayName`s; the first failure is the result: `parse_table`'s exception in table mode, then for the `entry[2]` read and then the `entry[3]` read TypeError when the path does not resolve to a dict and KeyError for a dict without `displayName` |
| HospParser.GospWithoutBody | src/parsers/hosp_parser.py:22-32 | without a body section, both modes raise TypeError |
| HospParser.GospModes | src/parsers/hosp_parser.py:23-41 | when table mode succeeds, raw mode does too: same type and route, and the table is the raw section parsed |
| HospParser.GetDiagnosis | src/parsers/hosp_parser.py:54-65 | raw mode returns the resolution at `component[1].section.component.section.text` unchanged, None included; table mode returns `parse_table` of it, or its exception |
| HospParser.DiagnosisModes | src/parsers/hosp_parser.py:60-63 | table mode fails exactly when `parse_table` fails on the raw section, and without a body it raises TypeError |
| FinalParser.GetFinalTable1 | src/parsers/final_parser.py:20-28 | raw mode returns the resolution at `component[4].section.text` unchanged and never raises; table mode returns `parse_table_2` of it, or its exception |
| FinalParser.GetFinalTable2 | src/parsers/final_parser.py:41-50 | raw mode returns the resolution at `component[4].section.component.section.text` unchanged and never raises; table mode returns `parse_table_2` of it, or its exception |
| FinalParser.FinalTablesShareSection | src/parsers/final_parser.py:20-46 | both tables are found inside the same `component[4].section`; without it neither is found and table mode raises TypeError |
| LabParser.GetTable1 | src/parsers/lab_parser.py:18-24 | an unresolved lab path raises TypeError (`clean_keys(None)` is None and its subscript fails); a resolved one gives `convert_table_to_dataframe` of the section found |
| LabParser.LabAndSectionExclusive | src/parsers/lab_parser.py:18-21 | no document resolves both the lab path and `SUB_PATH`: one indexes the body's `component`, the other keys it |
| WardParser.GetWardTable | src/parsers/ward_parser.py:20-28 | raw mode returns the resolved section unchanged; table mode returns `parse_table` of it, or its exception, which is TypeError without a body |
| WardParser.GetWardList | src/parsers/ward_parser.py:40-45 | the navigator's result at `SUB_PATH + component[3].section.component`, that is the lookup of `component[3].section.component` inside the body section, and None (Python's) when the document has no body section |
| WardParser.GetWardName | src/parsers/ward_parser.py:58-61 | the `text` of `[i].section.title`, raising as a field read does |
| WardParser.GetResearchList | src/parsers/ward_parser.py:74-81 | AttributeError exactly when the ward section is not a dict; with the prefixed `component` key, the navigator's result at `component.section.component` under the section (None when that path fails); without it, None |
| WardParser.ExamPath | src/parsers/ward_parser.py:94-96 | indexed by `j` when the examinations are a list, and straight into `section` otherwise |
| WardParser.GetResearchName | src/parsers/ward_parser.py:94-99 | the `text` of the examination's title |
| WardParser.GetResearchTable | src/parsers/ward_parser.py:113-124 | the raw section unless `typed == 'table'`; then `parse_table_wtheader` of it, or its exception |
| Dict.CollapseSnoc | src/parsers/ward_parser.py:149 | one more assignment extends the assignments made so far |
| WardParser.ResearchPass | src/parsers/ward_parser.py:147-149 | one pass of the inner loop: the name's exception, or TypeError for an unhashable name, or the entry whose key is `get_research_name(res_list, j)` and whose value is the raw section at the examination's `section.text` (the `'r'`-mode table); equal to `ExamEntry` |
| WardParser.ComputeResearch | src/parsers/ward_parser.py:144-149 | the inner loop fills `research_result` exactly as `ResearchSpec` says |
| WardParser.ComputeFullWards | src/parsers/ward_parser.py:136-152 | the nested loops fill `ward_result` exactly as `FullWardsSpec` says |
| WardParser.WardsWithoutList | src/parsers/ward_parser.py:138-140 | a None department list raises TypeError at `len` |
| WardParser.NonListWards | src/parsers/ward_parser.py:140-141 | a department list that is not a list raises TypeError unless it is empty |
| WardParser.WardEntryAt | src/parsers/ward_parser.py:140-151 | one assignment per department, in order: entry `i` is department `i`'s name and examinations |
| WardParser.LastWardWins | src/parsers/ward_parser.py:151 | a name maps to the examinations of the last department with that name |
| WardParser.ExamEntryOfNonList | src/parsers/ward_parser.py:94-99 | when the examinations are not a list, `j` is ignored and every pass reads the same entry |
| WardParser.SingleExamDict | src/parsers/ward_parser.py:145-149 | a single examination dict yields exactly one child, its title mapped to its raw text, however many keys it has |
| WardParser.ResearchChildrenRaw | src/parsers/ward_parser.py:148-149 | every child is some examination `j`'s title mapped to that examination's raw `text` section |
| WardParser.ExamEntryParts | src/parsers/ward_parser.py:147-149 | what a successful inner pass read: examination `j`'s name and raw text |
| WardParser.ResearchEntries | src/parsers/ward_parser.py:146-149 | the children dict is the assignments of examinations 0, 1, ... in order |
| WardParser.WardWithoutExams | src/parsers/ward_parser.py:143-151 | a department without examinations still appears, with an empty dict |
| Converter.Update | src/io/file_converter.py:34 | after `d.update(attrib)` a key reads its last attribute's value, and otherwise reads as before |
| Converter.ChildEntries | src/io/file_converter.py:27-33 | the children, in document order, each with its tag and its conversion |
| Converter.ElemToDict | src/io/file_converter.py:25-39 | the recursive conversion with its in-place steps on `d` returns exactly `ToDict` |
| Converter.AddChildInPlace | src/io/file_converter.py:28-33 | one pass of the children loop on `d` gives `AddChild`: a new tag assigned, a repeated tag wrapped in a list once and appended to |
| Converter.UpdateInPlace | src/io/file_converter.py:34 | `d.update(elem.attrib)` assigns the attributes one by one, so the last attribute of a name wins |
| Converter.GroupSnoc | src/io/file_converter.py:27-33 | the children loop after one more child is one more `AddChild` |
| Converter.Values | src/io/file_converter.py:27-33 | the converted children with a given tag, all taken from the children |
| Converter.Grouped | src/io/file_converter.py:28-33 | a tag holds nothing, its one child, or a list of two or more children |
| Converter.GroupSpec | src/io/file_converter.py:27-33 | a tag met once holds that child's dict, and a tag met k >= 2 times holds the list of those k dicts in document order |
| Converter.AddChildSpec | src/io/file_converter.py:28-33 | one pass of the children loop, seen from one tag |
| Converter.ToDictGet | src/io/file_converter.py:26-39 | `text` follows the text rule alone; otherwise the last attribute of that name wins; otherwise the children with that tag decide |
| Converter.NoSingletonList | src/io/file_converter.py:30-33 | no value of a converted element is a one-element list |
| Converter.OnlyChild | src/io/file_converter.py:28-29 | a child whose tag no sibling or attribute shares is stored as its own converted dict |
| Converter.ValuesOne | src/io/file_converter.py:27-29 | a tag carried by exactly one child has that child's value only |
| Converter.ValuesNone | src/io/file_converter.py:27-29 | a tag carried by no child has no values |
| Converter.BareElement | src/io/file_converter.py:26-39 | an element with no children, no attributes and blank text converts to `{}` |
| Converter.GroupFirstTwo | src/io/file_converter.py:28-29 | two children with different tags give two entries, in document order |
| Converter.ExampleGroup | src/io/file_converter.py:27-33 | the children `<b/><c/><b/>` give `{b: [{}, {}], c: {}}` |
| Converter.UpdateOne | src/io/file_converter.py:34 | one attribute whose name no entry has is appended, as a string |
| Converter.SetTextNew | src/io/file_converter.py:35-36 | non-blank text is appended, stripped, under `text` when no entry has that name |
| Converter.RepeatedTag | src/io/file_converter.py:28-33 | children tagged b, c, b: `b` holds the list of both, in its first place, before `c` |
| Converter.StripExample | src/io/file_converter.py:35-36 | `" t ".strip()` is `"t"` |
| Converter.ConversionExample | src/io/file_converter.py:25-39 | `<a n="1"> t <b/><c/><b/></a>`, for distinct tags `b`, `c` and an attribute name `n` other than them and `text`, converts to `{b: [{}, {}], c: {}, n: "1", text: "t"}` |
| Converter.ReplaceEveryXml | src/io/file_converter.py:62-63 | `replace('.xml', '.json')` rewrites every occurrence of `.xml`, wherever it stands |
| Converter.ReplaceXmlAtFront | src/io/file_converter.py:62-63 | a `.xml` at the front of the name is replaced first, and the rest is rewritten as before |
| Converter.ReplaceXmlKeepFirst | src/io/file_converter.py:62-63 | a name not starting with `.xml` keeps its first character, since no match can run into the `.xml` after it |
| Converter.ReplaceNoXml | src/io/file_converter.py:62-63 | a name without `.xml` is left as it is |
| Converter.JsonNameRule | src/io/file_converter.py:58-63 | only names ending in `.xml` are converted; `<stem>.xml` becomes `<stem>.json` with every `.xml` inside the stem rewritten too |
| Converter.FeatureNamesDistinct | src/converter.py:116 | different positions give different `file_{k}.json` names |
| Converter.JsonFiles | src/converter.py:111 | the files read are exactly the listed names ending in `.json` |
| Converter.FeatureTargets | src/converter.py:114-116 | the k-th input file (counting from 1) is written to `file_{k}.json` |
| Converter.FeatureTargetsDistinct | src/converter.py:111-116 | no two inputs are written to the same output |
| Duplicates.CopiesAgree | src/parser_main.py:4-219 | the `SUB_PATH` and all getter paths of src/parser_main.py, and the path of src/parser_lab.py, equal the package's; `SUB_PATH + p` is `get_full_path(p)` |

## Left out

- Conversion into pandas. This covers the `pd.DataFrame(...)` calls and
  `save_table_as_dict`. A strategy's result is the header and row lists
  handed to pandas. pandas itself can raise ValueError, for example when a
  row is longer than the headers, and `safe_parse_table` would catch that
  error and fall back. The model does not capture that case.
- `xml.etree.ElementTree` parsing. An element is given as a datatype
  holding its tag, its attributes in order, its optional text and its
  children. Tails, comments and processing instructions are not modelled.
- File and directory I/O. This covers `xml_to_json`'s read and write, the
  `json.load` and `json.dump` calls, `os.listdir`, `os.makedirs`, the
  whole of `modify_json`, and the driver loops around the two
  output-name rules.
- Converter.JsonFiles: the directory listing is taken in the order given, as
  if already sorted. `sorted` and string ordering are not modelled.
- src/io/data_processor.py, src/io/dataset_process.py,
  src/utils/analysis_utils.py, src/main.py and the package `__init__`
  files. These are batch orchestration, `eval` of caller strings,
  plotting, and re-exports.
- `print` diagnostics.
- src/parsers/hosp_parser.py line 6 imports a `BaseParser` name that
  src/parsers/base_parser.py does not define. Importing the module as
  written would fail. The model treats its two functions as if the import
  succeeded.
- JSON numbers are integers only, and JSON booleans are not modelled. The
  documents' values are strings.
- PyStr.Lower: lowers Latin and Cyrillic capitals only. Full Unicode case
  mapping is not modelled.
