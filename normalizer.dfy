/** `clean_keys` of src/utils/helpers.py (repeated in src/parser_fucn.py):
    strips the `{namespace}` prefix from every dict key at every depth of a
    converted document. */
module Normalizer {
  import opened Results
  import opened Dict
  import opened PyStr
  import opened PyJson

  /** The new key for `k`: a key that starts with `{` loses everything up to
      and including its first `}`. With no `}` at all, `find` gives -1 and the
      slice from 0 keeps the whole key. */
  function CleanKey(k: string): (r: string)
    ensures k == [] || k[0] != '{' ==> r == k
    ensures k != [] && k[0] == '{' && '}' !in k ==> r == k
    ensures k != [] && k[0] == '{' && '}' in k ==>
              exists q :: k == q + r && |q| >= 2 && q[0] == '{' && q[|q| - 1] == '}' && '}' !in q[..|q| - 1]
  {
    StartsWithChar(k, '{');
    if StartsWith(k, "{") then
      var i := Find(k, '}');
      if i == -1 then k
      else
        var q := k[..i + 1];
        assert q[..|q| - 1] == k[..i];
        assert k == q + k[i + 1..];
        k[i + 1..]
    else k
  }

  /** A key of the form `{ns}local`, `ns` holding no `}`, becomes `local`. */
  lemma StripsNamespace(ns: string, local: string)
    requires '}' !in ns
    ensures CleanKey("{" + ns + "}" + local) == local
  {
    var k := "{" + ns + "}" + local;
    assert k[0] == '{' && k[..1] == "{";
    assert k[|ns| + 1] == '}' && k[..|ns| + 1] == "{" + ns;
    assert Find(k, '}') == |ns| + 1;
    assert k[|ns| + 2..] == local;
  }

  /** Only one namespace goes: a key carrying two prefixes keeps the second. */
  lemma OneNamespaceOnly()
    ensures CleanKey("{a}{b}c") == "{b}c"
    ensures CleanKey(CleanKey("{a}{b}c")) == "c"
  {
    StripsNamespace("a", "{b}c");
    assert "{" + "a" + "}" + "{b}c" == "{a}{b}c";
    StripsNamespace("b", "c");
    assert "{" + "b" + "}" + "c" == "{b}c";
  }

  /** The entries `clean_keys` assigns into the new dict, in order. */
  function CleanedEntries(fs: seq<Entry<string, Json>>): (r: seq<Entry<string, Json>>)
    ensures |r| == |fs|
    ensures forall i :: 0 <= i < |fs| ==> r[i] == Entry(CleanKey(fs[i].key), Clean(fs[i].val))
    decreases Obj(fs), 0
  {
    seq(|fs|, i requires 0 <= i < |fs| => Entry(CleanKey(fs[i].key), Clean(fs[i].val)))
  }

  /** `clean_keys(obj)`. */
  function Clean(j: Json): Json
    decreases j, 1
  {
    match j
    case Obj(fs) => Obj(Collapse(CleanedEntries(fs)))
    case Arr(xs) => Arr(seq(|xs|, i requires 0 <= i < |xs| => Clean(xs[i])))
    case _ => j
  }

  /** The recursive walk: dicts and lists are rebuilt, anything else is
      returned as it is. */
  method CleanKeys(obj: Json) returns (r: Json)
    ensures r == Clean(obj)
    decreases obj, 1
  {
    match obj {
      case Obj(fs) =>
        var newDict := CleanDict(fs);
        r := Obj(newDict);
      case Arr(xs) =>
        var items := CleanList(xs);
        r := Arr(items);
      case _ =>
        r := obj;
    }
  }

  /** The dict-building loop: each cleaned key is assigned its cleaned value. */
  method CleanDict(fs: seq<Entry<string, Json>>) returns (newDict: seq<Entry<string, Json>>)
    ensures newDict == Collapse(CleanedEntries(fs))
    decreases Obj(fs), 0
  {
    newDict := [];
    for i := 0 to |fs|
      invariant newDict == Collapse(CleanedEntries(fs)[..i])
    {
      var value := CleanKeys(fs[i].val);
      CollapseStep(CleanedEntries(fs), i);
      newDict := Put(newDict, CleanKey(fs[i].key), value);
    }
    TakeAll(CleanedEntries(fs));
  }

  /** The list comprehension: each element cleaned, in order. */
  method CleanList(xs: seq<Json>) returns (items: seq<Json>)
    ensures items == Clean(Arr(xs)).items
    decreases Arr(xs), 0
  {
    items := [];
    for i := 0 to |xs|
      invariant |items| == i && forall k :: 0 <= k < i ==> items[k] == Clean(xs[k])
    {
      var item := CleanKeys(xs[i]);
      items := items + [item];
    }
  }

  /** Lists keep their length and order; scalars are untouched. */
  lemma CleanShape(j: Json)
    ensures j.Arr? ==> Clean(j).Arr? && |Clean(j).items| == |j.items| &&
                       forall i :: 0 <= i < |j.items| ==> Clean(j).items[i] == Clean(j.items[i])
    ensures j.Obj? ==> Clean(j).Obj? && |Clean(j).fields| <= |j.fields|
    ensures !j.Arr? && !j.Obj? ==> Clean(j) == j
  {
  }

  /** A key of the cleaned dict holds the cleaned value of the LAST original
      key that cleans to it: keys that collide after stripping overwrite one
      another. */
  lemma {:induction false} LastKeyWins(fs: seq<Entry<string, Json>>, k: string, i: nat)
    requires i < |fs| && CleanKey(fs[i].key) == k
    requires forall j :: i < j < |fs| ==> CleanKey(fs[j].key) != k
    ensures Get(Clean(Obj(fs)).fields, k) == Some(Clean(fs[i].val))
  {
    var es := CleanedEntries(fs);
    LastWithAt(es, k, i);
  }

  /** Two keys with different namespaces and the same local name collapse
      into one, the later value winning. */
  lemma CollisionExample(fs: seq<Entry<string, Json>>, ns1: string, ns2: string, local: string, u: Json, w: Json)
    requires '}' !in ns1 && '}' !in ns2
    requires |fs| == 2 && fs[0] == Entry("{" + ns1 + "}" + local, u) && fs[1] == Entry("{" + ns2 + "}" + local, w)
    ensures Clean(Obj(fs)) == Obj([Entry(local, Clean(w))])
  {
    var es := CleanedEntries(fs);
    assert es[0] == Entry(local, Clean(u)) by {
      StripsNamespace(ns1, local);
    }
    assert es[1] == Entry(local, Clean(w)) by {
      StripsNamespace(ns2, local);
    }
    CollapseSameKey(es, local, Clean(u), Clean(w));
  }

  /** Every dict in the tree has distinct keys (true of anything `json.load`
      produces and of anything `clean_keys` returns). */
  ghost predicate WellFormed(j: Json)
    decreases j
  {
    match j
    case Obj(fs) => UniqueKeys(fs) && forall i :: 0 <= i < |fs| ==> WellFormed(fs[i].val)
    case Arr(xs) => forall i :: 0 <= i < |xs| ==> WellFormed(xs[i])
    case _ => true
  }

  /** No dict key anywhere in the tree starts with `{`. */
  ghost predicate NoBraceKeys(j: Json)
    decreases j
  {
    match j
    case Obj(fs) => forall i :: 0 <= i < |fs| ==> (fs[i].key == [] || fs[i].key[0] != '{') && NoBraceKeys(fs[i].val)
    case Arr(xs) => forall i :: 0 <= i < |xs| ==> NoBraceKeys(xs[i])
    case _ => true
  }

  /** What `clean_keys` returns is well formed. */
  lemma {:induction false} CleanWellFormed(j: Json)
    ensures WellFormed(Clean(j))
    decreases j
  {
    match j
    case Obj(fs) =>
      var es := CleanedEntries(fs);
      var m := Collapse(es);
      forall i | 0 <= i < |m| ensures WellFormed(m[i].val) {
        var e := m[i];
        assert HasKey(m, e.key);
        var v := Get(m, e.key).value;
        assert LastWith(es, e.key) == Some(v);
        var n := LastWithSource(es, e.key);
        CleanWellFormed(fs[n].val);
        GetOfUnique(m, i);
      }
    case Arr(xs) =>
      forall i | 0 <= i < |xs| ensures WellFormed(Clean(j).items[i]) {
        CleanWellFormed(xs[i]);
      }
    case _ =>
  }

  /** In a dict, looking up the key of the entry at `i` gives that entry's value. */
  lemma {:induction false} GetOfUnique(m: seq<Entry<string, Json>>, i: nat)
    requires UniqueKeys(m) && i < |m|
    ensures Get(m, m[i].key) == Some(m[i].val)
    decreases |m|
  {
    if i > 0 {
      assert m[0].key != m[i].key;
      var tail := m[1..];
      assert UniqueKeys(tail) by {
        forall a, b | 0 <= a < b < |tail| ensures tail[a].key != tail[b].key {
          assert tail[a] == m[a + 1] && tail[b] == m[b + 1];
        }
      }
      GetOfUnique(tail, i - 1);
    }
  }

  /** On a well-formed tree whose keys carry no prefix, `clean_keys` changes nothing. */
  lemma {:induction false} CleanIdentity(j: Json)
    requires WellFormed(j) && NoBraceKeys(j)
    ensures Clean(j) == j
    decreases j
  {
    match j
    case Obj(fs) =>
      var es := CleanedEntries(fs);
      forall i | 0 <= i < |fs| ensures es[i] == fs[i] {
        CleanIdentity(fs[i].val);
      }
      assert es == fs;
      CollapseOfDict(fs);
    case Arr(xs) =>
      forall i | 0 <= i < |xs| ensures Clean(xs[i]) == xs[i] {
        CleanIdentity(xs[i]);
      }
      assert Clean(j).items == xs;
    case _ =>
  }

  /** Cleaning twice is cleaning once whenever the first pass leaves no
      key starting with `{`. */
  lemma CleanIdempotentWhen(j: Json)
    requires NoBraceKeys(Clean(j))
    ensures Clean(Clean(j)) == Clean(j)
  {
    CleanWellFormed(j);
    CleanIdentity(Clean(j));
  }
}
