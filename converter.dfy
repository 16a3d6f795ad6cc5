/** The XML-to-dict conversion of src/io/file_converter.py (`elem_to_dict`,
    nested in `xml_to_json`; repeated verbatim in src/converter.py), and the
    two output-name rules of the batch drivers. The conversion is where the
    list-versus-dict ambiguity that the parsers branch on comes from: one
    child with a tag gives a dict, two or more give a list. */
module Converter {
  import opened Results
  import opened Dict
  import opened PyStr
  import opened PyJson

  /** An element as `xml.etree.ElementTree` parses it: its tag (qualified as
      `{uri}local`), its attributes in document order, its text (None when
      there is none) and its child elements in document order. */
  datatype Element = Element(tag: string, attrib: seq<Entry<string, string>>, text: Option<string>, children: seq<Element>)

  /** `elem.text and elem.text.strip()`: text that is present and not blank. */
  predicate HasText(text: Option<string>)
  {
    text.Some? && Strip(text.value) != []
  }

  /** One pass of the children loop: the first child with a tag is stored
      as it is; the second turns the entry into a list of both; later ones
      are appended to that list. */
  function AddChild(d: seq<Entry<string, Json>>, tag: string, v: Json): seq<Entry<string, Json>>
  {
    match Get(d, tag)
    case None => Put(d, tag, v)
    case Some(cur) => Put(d, tag, Arr((if cur.Arr? then cur.items else [cur]) + [v]))
  }

  /** The dict the children loop builds from the (tag, converted child)
      pairs, in document order. */
  function Group(es: seq<Entry<string, Json>>): seq<Entry<string, Json>>
  {
    if es == [] then []
    else AddChild(Group(es[..|es| - 1]), es[|es| - 1].key, es[|es| - 1].val)
  }

  /** `d.update(elem.attrib)`: every attribute is assigned in order, so an
      attribute overwrites a child entry with the same name. */
  function Update(d: seq<Entry<string, Json>>, attrs: seq<Entry<string, string>>): (r: seq<Entry<string, Json>>)
    ensures forall k :: Get(r, k) == match LastWith(attrs, k) case Some(v) => Some(Str(v)) case None => Get(d, k)
  {
    if attrs == [] then d
    else Put(Update(d, attrs[..|attrs| - 1]), attrs[|attrs| - 1].key, Str(attrs[|attrs| - 1].val))
  }

  /** The last step: `text` holds the stripped text when there is any, and
      is removed otherwise (also when an attribute named `text` put it there). */
  function SetText(d: seq<Entry<string, Json>>, text: Option<string>): seq<Entry<string, Json>>
  {
    if HasText(text) then Put(d, "text", Str(Strip(text.value))) else Remove(d, "text")
  }

  /** The children, each paired with its tag and converted. */
  function ChildEntries(e: Element): (r: seq<Entry<string, Json>>)
    ensures |r| == |e.children|
    ensures forall i :: 0 <= i < |e.children| ==> r[i] == Entry(e.children[i].tag, ToDict(e.children[i]))
    decreases e, 0
  {
    seq(|e.children|, i requires 0 <= i < |e.children| => Entry(e.children[i].tag, ToDict(e.children[i])))
  }

  /** `elem_to_dict(elem)`. */
  function ToDict(e: Element): Json
    decreases e, 1
  {
    Obj(SetText(Update(Group(ChildEntries(e)), e.attrib), e.text))
  }

  /** The recursive conversion with its three in-place steps on `d`. */
  method ElemToDict(e: Element) returns (r: Json)
    ensures r == ToDict(e)
    decreases e
  {
    var d: seq<Entry<string, Json>> := [];
    for i := 0 to |e.children|
      invariant d == Group(ChildEntries(e)[..i])
    {
      var child := e.children[i];
      var converted := ElemToDict(child);
      d := AddChildInPlace(d, child.tag, converted);
      GroupSnoc(ChildEntries(e), i);
    }
    assert ChildEntries(e)[..|e.children|] == ChildEntries(e);
    d := UpdateInPlace(d, e.attrib);
    if e.text.Some? && Strip(e.text.value) != [] {
      d := Put(d, "text", Str(Strip(e.text.value)));
    } else {
      d := Remove(d, "text");
    }
    return Obj(d);
  }

  /** `d.update(elem.attrib)`, one assignment per attribute in order. */
  method UpdateInPlace(d: seq<Entry<string, Json>>, attrs: seq<Entry<string, string>>) returns (r: seq<Entry<string, Json>>)
    ensures r == Update(d, attrs)
  {
    r := d;
    for i := 0 to |attrs|
      invariant r == Update(d, attrs[..i])
    {
      assert attrs[..i + 1][..i] == attrs[..i];
      r := Put(r, attrs[i].key, Str(attrs[i].val));
    }
    assert attrs[..|attrs|] == attrs;
  }

  /** One pass of the children loop on `d`: a new tag is assigned, and a
      repeated tag is first wrapped in a list, unless it holds one, and then
      appended to. */
  method AddChildInPlace(d: seq<Entry<string, Json>>, tag: string, converted: Json) returns (r: seq<Entry<string, Json>>)
    ensures r == AddChild(d, tag, converted)
  {
    r := d;
    if !HasKey(r, tag) {
      r := Put(r, tag, converted);
    } else {
      var cur := Get(r, tag).value;
      if !cur.Arr? {
        PutTwice(r, tag, Arr([cur]), Arr([cur] + [converted]));
        r := Put(r, tag, Arr([cur]));
      }
      r := Put(r, tag, Arr(Get(r, tag).value.items + [converted]));
    }
  }

  /** The children loop after one more child. */
  lemma GroupSnoc(es: seq<Entry<string, Json>>, i: nat)
    requires i < |es|
    ensures Group(es[..i + 1]) == AddChild(Group(es[..i]), es[i].key, es[i].val)
  {
    assert es[..i + 1][..i] == es[..i];
  }

  // What the conversion gives

  /** The converted children with tag `t`, in document order. */
  function Values(es: seq<Entry<string, Json>>, t: string): (r: seq<Json>)
    ensures forall v :: v in r ==> Entry(t, v) in es
  {
    if es == [] then []
    else
      var init := Values(es[..|es| - 1], t);
      if es[|es| - 1].key == t then init + [es[|es| - 1].val] else init
  }

  /** What a tag holding `vs` turns into: nothing, the one child itself, or
      the list of all of them. */
  function Grouped(vs: seq<Json>): (r: Option<Json>)
    ensures r.None? <==> vs == []
    ensures r.Some? && r.value.Arr? ==> |r.value.items| >= 2 || (|vs| == 1 && vs[0].Arr?)
  {
    if vs == [] then None else if |vs| == 1 then Some(vs[0]) else Some(Arr(vs))
  }

  /** The children loop over children that convert to dicts (as all do): a
      tag met once holds that child, a tag met k >= 2 times holds the list
      of those k children in document order. */
  lemma {:induction false} GroupSpec(es: seq<Entry<string, Json>>, t: string)
    requires forall i :: 0 <= i < |es| ==> es[i].val.Obj?
    ensures Get(Group(es), t) == Grouped(Values(es, t))
  {
    if es != [] {
      var init, last := es[..|es| - 1], es[|es| - 1];
      assert forall i :: 0 <= i < |init| ==> init[i] == es[i];
      GroupSpec(init, t);
      var vs := Values(init, t);
      forall x | x in vs ensures x.Obj? {
        var i :| 0 <= i < |init| && init[i] == Entry(t, x);
      }
      AddChildSpec(Group(init), t, last.key, last.val, vs);
    }
  }

  /** One pass of the children loop, seen from tag `t`. */
  lemma AddChildSpec(g: seq<Entry<string, Json>>, t: string, tag: string, v: Json, vs: seq<Json>)
    requires Get(g, t) == Grouped(vs)
    requires forall x :: x in vs ==> x.Obj?
    ensures Get(AddChild(g, tag, v), t) == Grouped(if tag == t then vs + [v] else vs)
  {
    if tag == t && |vs| == 1 {
      assert vs[0] in vs;
      assert [vs[0]] + [v] == vs + [v];
    }
  }

  /** The value under `k` in the converted element: `text` follows the text
      rule alone; otherwise the last attribute named `k` wins; otherwise
      the child entries with tag `k` decide. */
  lemma ToDictGet(e: Element, k: string)
    ensures Get(ToDict(e).fields, k) ==
            if k == "text" then (if HasText(e.text) then Some(Str(Strip(e.text.value))) else None)
            else match LastWith(e.attrib, k)
                 case Some(v) => Some(Str(v))
                 case None => Grouped(Values(ChildEntries(e), k))
  {
    GroupSpec(ChildEntries(e), k);
  }

  /** No value of a converted element is a one-element list: a list only
      ever holds two or more same-tagged children. */
  lemma NoSingletonList(e: Element, k: string)
    requires Get(ToDict(e).fields, k).Some? && Get(ToDict(e).fields, k).value.Arr?
    ensures |Get(ToDict(e).fields, k).value.items| >= 2
  {
    var vs := Values(ChildEntries(e), k);
    assert vs != [] ==> vs[0].Obj? by {
      if vs != [] {
        assert vs[0] in vs;
      }
    }
    ToDictGet(e, k);
  }

  /** A child whose tag no sibling and no attribute shares is stored as its
      own converted dict. */
  lemma OnlyChild(e: Element, i: nat)
    requires i < |e.children| && e.children[i].tag != "text"
    requires forall j :: 0 <= j < |e.children| && j != i ==> e.children[j].tag != e.children[i].tag
    requires LastWith(e.attrib, e.children[i].tag).None?
    ensures Get(ToDict(e).fields, e.children[i].tag) == Some(ToDict(e.children[i]))
  {
    var t := e.children[i].tag;
    ToDictGet(e, t);
    ValuesOne(ChildEntries(e), t, i);
  }

  /** The values with tag `t` when only entry `i` has it. */
  lemma {:induction false} ValuesOne(es: seq<Entry<string, Json>>, t: string, i: nat)
    requires i < |es| && es[i].key == t
    requires forall j :: 0 <= j < |es| && j != i ==> es[j].key != t
    ensures Values(es, t) == [es[i].val]
  {
    var init := es[..|es| - 1];
    if i < |es| - 1 {
      ValuesOne(init, t, i);
    } else {
      ValuesNone(init, t);
    }
  }

  /** No entry has tag `t`: no values. */
  lemma {:induction false} ValuesNone(es: seq<Entry<string, Json>>, t: string)
    requires forall j :: 0 <= j < |es| ==> es[j].key != t
    ensures Values(es, t) == []
  {
    if es != [] {
      ValuesNone(es[..|es| - 1], t);
    }
  }

  /** An element with no children, no attributes and blank text converts to `{}`. */
  lemma BareElement(tag: string, text: Option<string>)
    requires !HasText(text)
    ensures ToDict(Element(tag, [], text, [])) == Obj([])
  {
    assert ChildEntries(Element(tag, [], text, [])) == [];
  }

  /** Two children with different tags are grouped as two entries. */
  lemma GroupFirstTwo(es: seq<Entry<string, Json>>, b: string, c: string, x: Json, y: Json)
    requires |es| >= 2 && es[0] == Entry(b, x) && es[1] == Entry(c, y) && b != c
    ensures Group(es[..2]) == [Entry(b, x), Entry(c, y)]
  {
    var g1 := AddChild([], b, x);
    assert g1 == [Entry(b, x)];
    assert Group(es[..1]) == g1 by { GroupSnoc(es, 0); assert es[..1][..0] == []; }
    assert AddChild(g1, c, y) == [Entry(b, x), Entry(c, y)] by { assert Get(g1, c) == None; }
    GroupSnoc(es, 1);
  }

  /** Children tagged b, c, b: `b` holds the list of both, in its first place. */
  lemma RepeatedTag(es: seq<Entry<string, Json>>, b: string, c: string, x: Json, y: Json, z: Json)
    requires |es| == 3 && es[0] == Entry(b, x) && es[1] == Entry(c, y) && es[2] == Entry(b, z)
    requires b != c && !x.Arr?
    ensures Group(es) == [Entry(b, Arr([x, z])), Entry(c, y)]
  {
    GroupFirstTwo(es, b, c, x, y);
    var g2 := [Entry(b, x), Entry(c, y)];
    var g3 := AddChild(g2, b, z);
    assert g3 == [Entry(b, Arr([x, z])), Entry(c, y)] by {
      assert Get(g2, b) == Some(x);
      assert g3 == Put(g2, b, Arr([x] + [z]));
      PutFront(g2, b, Arr([x] + [z]));
      assert g2[1..] == [Entry(c, y)] && [x] + [z] == [x, z];
    }
    assert Group(es) == g3 by { assert es[..|es| - 1] == es[..2]; }
  }

  /** Surrounding blanks go. */
  lemma StripExample()
    ensures Strip(" t ") == "t"
  {
    assert LStrip(" t ") == LStrip("t ") by { assert " t "[1..] == "t "; }
    assert LStrip("t ") == "t ";
    assert RStrip("t ") == RStrip("t") by { assert "t "[..1] == "t"; }
  }

  /** One attribute whose name no entry has is appended. */
  lemma UpdateOne(d: seq<Entry<string, Json>>, attrs: seq<Entry<string, string>>)
    requires |attrs| == 1 && forall i :: 0 <= i < |d| ==> d[i].key != attrs[0].key
    ensures Update(d, attrs) == d + [Entry(attrs[0].key, Str(attrs[0].val))]
  {
    assert attrs[..0] == [];
    PutNew(d, attrs[0].key, Str(attrs[0].val));
  }

  /** Text that is not blank is appended under `text` when no entry has
      that name. */
  lemma SetTextNew(d: seq<Entry<string, Json>>, text: Option<string>)
    requires HasText(text) && forall i :: 0 <= i < |d| ==> d[i].key != "text"
    ensures SetText(d, text) == d + [Entry("text", Str(Strip(text.value)))]
  {
    PutNew(d, "text", Str(Strip(text.value)));
  }

  /** The children `<b/><c/><b/>` are grouped as `{b: [{}, {}], c: {}}`. */
  lemma ExampleGroup(e: Element, b: string, c: string)
    requires b != c
    requires e.children == [Element(b, [], None, []), Element(c, [], None, []), Element(b, [], None, [])]
    ensures Group(ChildEntries(e)) == [Entry(b, Arr([Obj([]), Obj([])])), Entry(c, Obj([]))]
  {
    BareElement(b, None);
    BareElement(c, None);
    RepeatedTag(ChildEntries(e), b, c, Obj([]), Obj([]), Obj([]));
  }

  /** `<a x="1"> t </a>` with a `<b/>` child twice and a `<c/>` child once:
      `b` becomes a list of two empty dicts, `c` one empty dict, then the
      attribute, then the stripped text. */
  lemma ConversionExample(e: Element, b: string, c: string, xn: string)
    requires b != c && b != xn && c != xn && b != "text" && c != "text" && xn != "text"
    requires e == Element("a", [Entry(xn, "1")], Some(" t "),
                          [Element(b, [], None, []), Element(c, [], None, []), Element(b, [], None, [])])
    ensures ToDict(e) ==
            Obj([Entry(b, Arr([Obj([]), Obj([])])), Entry(c, Obj([])), Entry(xn, Str("1")), Entry("text", Str("t"))])
  {
    var g := [Entry(b, Arr([Obj([]), Obj([])])), Entry(c, Obj([]))];
    var u := g + [Entry(xn, Str("1"))];
    calc {
      ToDict(e);
      Obj(SetText(Update(Group(ChildEntries(e)), e.attrib), e.text));
      { ExampleGroup(e, b, c); }
      Obj(SetText(Update(g, e.attrib), e.text));
      { UpdateOne(g, e.attrib); }
      Obj(SetText(u, e.text));
      { StripExample(); SetTextNew(u, e.text); }
      Obj(u + [Entry("text", Str("t"))]);
      { AppendTwo(g, Entry(xn, Str("1")), Entry("text", Str("t"))); }
      Obj([Entry(b, Arr([Obj([]), Obj([])])), Entry(c, Obj([])), Entry(xn, Str("1")), Entry("text", Str("t"))]);
    }
  }

  /** Two entries appended to a two-entry dict. */
  lemma AppendTwo<T>(g: seq<T>, x: T, y: T)
    requires |g| == 2
    ensures g + [x] + [y] == [g[0], g[1], x, y]
  {
  }

  // Output names

  /** The JSON name `process_files_in_directory` gives a directory entry:
      only names ending in `.xml` are converted, and `replace` rewrites
      every `.xml` in the name, not only the last. */
  function JsonName(filename: string): Option<string>
  {
    if EndsWith(filename, ".xml") then Some(ReplaceAll(filename, ".xml", ".json")) else None
  }

  /** Every `.xml` in a name becomes `.json`, wherever it stands: `.xml` has
      no proper prefix that is also its suffix, so no occurrence can start
      before one and end inside it. */
  lemma {:induction false} ReplaceEveryXml(p: string, q: string)
    ensures ReplaceAll(p + ".xml" + q, ".xml", ".json") == ReplaceAll(p, ".xml", ".json") + ".json" + ReplaceAll(q, ".xml", ".json")
    decreases |p|, 1
  {
    var s := p + ".xml" + q;
    if p == [] {
      calc {
        ReplaceAll(s, ".xml", ".json");
        { assert s == ".xml" + q && s[..4] == ".xml" && s[4..] == q; ReplaceAllStep(s, ".xml", ".json"); }
        ".json" + ReplaceAll(q, ".xml", ".json");
        { assert ReplaceAll(p, ".xml", ".json") == []; }
        ReplaceAll(p, ".xml", ".json") + ".json" + ReplaceAll(q, ".xml", ".json");
      }
    } else if |p| >= 4 && StartsWith(p, ".xml") {
      ReplaceXmlAtFront(p, q);
    } else {
      ReplaceXmlKeepFirst(p, q);
    }
  }

  /** The `.xml` at the front of `p` is replaced first. */
  lemma {:induction false} ReplaceXmlAtFront(p: string, q: string)
    requires |p| >= 4 && StartsWith(p, ".xml")
    ensures ReplaceAll(p + ".xml" + q, ".xml", ".json") == ReplaceAll(p, ".xml", ".json") + ".json" + ReplaceAll(q, ".xml", ".json")
    decreases |p|, 0
  {
    var s := p + ".xml" + q;
    calc {
      ReplaceAll(s, ".xml", ".json");
      { assert s[..4] == p[..4] && s[4..] == p[4..] + ".xml" + q; ReplaceAllStep(s, ".xml", ".json"); }
      ".json" + ReplaceAll(p[4..] + ".xml" + q, ".xml", ".json");
      { ReplaceEveryXml(p[4..], q); }
      ".json" + (ReplaceAll(p[4..], ".xml", ".json") + ".json" + ReplaceAll(q, ".xml", ".json"));
      { ReplaceAllStep(p, ".xml", ".json"); }
      ReplaceAll(p, ".xml", ".json") + ".json" + ReplaceAll(q, ".xml", ".json");
    }
  }

  /** A `p` not starting with `.xml` keeps its first character: no match can
      start inside `p` and run into the `.xml` after it, since `.xml` holds
      only one `.`. */
  lemma {:induction false} ReplaceXmlKeepFirst(p: string, q: string)
    requires p != [] && !(|p| >= 4 && StartsWith(p, ".xml"))
    ensures ReplaceAll(p + ".xml" + q, ".xml", ".json") == ReplaceAll(p, ".xml", ".json") + ".json" + ReplaceAll(q, ".xml", ".json")
    decreases |p|, 0
  {
    var s := p + ".xml" + q;
    assert !StartsWith(s, ".xml") by {
      if |p| < 4 {
        assert s[|p|] == '.' && ".xml"[|p|] != '.';
        assert s[..4][|p|] == s[|p|];
      } else {
        assert s[..4] == p[..4];
      }
    }
    calc {
      ReplaceAll(s, ".xml", ".json");
      { assert s[0] == p[0] && s[1..] == p[1..] + ".xml" + q; ReplaceAllStep(s, ".xml", ".json"); }
      [p[0]] + ReplaceAll(p[1..] + ".xml" + q, ".xml", ".json");
      { ReplaceEveryXml(p[1..], q); }
      [p[0]] + (ReplaceAll(p[1..], ".xml", ".json") + ".json" + ReplaceAll(q, ".xml", ".json"));
      { ReplaceAllStep(p, ".xml", ".json"); }
      ReplaceAll(p, ".xml", ".json") + ".json" + ReplaceAll(q, ".xml", ".json");
    }
  }

  /** A name without `.xml` is left as it is. */
  lemma {:induction false} ReplaceNoXml(s: string)
    requires !IsSubstring(".xml", s)
    ensures ReplaceAll(s, ".xml", ".json") == s
  {
    if s != [] {
      ReplaceNoXml(s[1..]);
    }
  }

  /** What the converter names its output: `<stem>.xml` becomes `<stem'>.json`
      where `<stem'>` has every `.xml` rewritten too; any other name is
      skipped. */
  lemma JsonNameRule(filename: string)
    ensures JsonName(filename).Some? <==> EndsWith(filename, ".xml")
    ensures EndsWith(filename, ".xml") ==>
              var stem := filename[..|filename| - 4];
              JsonName(filename) == Some(ReplaceAll(stem, ".xml", ".json") + ".json")
  {
    if EndsWith(filename, ".xml") {
      var stem := filename[..|filename| - 4];
      assert filename == stem + ".xml" + [];
      ReplaceEveryXml(stem, []);
      assert ReplaceAll([], ".xml", ".json") == [];
      assert ReplaceAll(stem, ".xml", ".json") + ".json" + [] == ReplaceAll(stem, ".xml", ".json") + ".json";
    }
  }

  /** `f"file_{idx}.json"`: the name `save_features` gives the idx-th input. */
  function FeatureName(idx: nat): string
  {
    "file_" + NatToString(idx) + ".json"
  }

  /** Different positions give different names, so no output overwrites another. */
  lemma FeatureNamesDistinct(a: nat, b: nat)
    requires a != b
    ensures FeatureName(a) != FeatureName(b)
  {
    if FeatureName(a) == FeatureName(b) {
      var x, y := FeatureName(a), FeatureName(b);
      assert |NatToString(a)| == |NatToString(b)|;
      assert x[5..|x| - 5] == NatToString(a) && y[5..|y| - 5] == NatToString(b);
      DigitsValueOfNatToString(a);
      DigitsValueOfNatToString(b);
    }
  }

  /** The names `save_features` reads: those ending in `.json`, in listing order. */
  function JsonFiles(listing: seq<string>): (r: seq<string>)
    ensures forall f :: f in r <==> f in listing && EndsWith(f, ".json")
  {
    if listing == [] then []
    else
      var init := JsonFiles(listing[..|listing| - 1]);
      assert listing == listing[..|listing| - 1] + [listing[|listing| - 1]];
      if EndsWith(listing[|listing| - 1], ".json") then init + [listing[|listing| - 1]] else init
  }

  /** `enumerate(files, start=1)`: each input name with its output name. */
  function FeatureTargets(files: seq<string>): (r: seq<Entry<string, string>>)
    ensures |r| == |files|
    ensures forall i :: 0 <= i < |files| ==> r[i] == Entry(files[i], FeatureName(i + 1))
  {
    seq(|files|, i requires 0 <= i < |files| => Entry(files[i], FeatureName(i + 1)))
  }

  /** Every `.json` input gets an output, and the outputs are pairwise distinct. */
  lemma FeatureTargetsDistinct(listing: seq<string>, i: nat, j: nat)
    requires var r := FeatureTargets(JsonFiles(listing)); i < j < |r|
    ensures var r := FeatureTargets(JsonFiles(listing)); r[i].val != r[j].val
  {
    FeatureNamesDistinct(i + 1, j + 1);
  }
}
