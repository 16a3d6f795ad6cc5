/** The path navigator of src/utils/helpers.py (`find_section_by_optimized_path`,
    repeated verbatim in src/parser_fucn.py): it puts the namespace prefix in
    front of every string segment, then walks the tree one segment at a time,
    indexing lists and looking keys up in everything else; any failure on the
    way makes the whole lookup None. */
module Navigator {
  import opened Results
  import opened Dict
  import opened PyStr
  import opened PyJson

  /** A path element as written in the source: a string key or an integer. */
  datatype Segment = Key(name: string) | Idx(index: int)

  /** `[(prefix + e) if isinstance(e, str) else e for e in short_path]`. */
  function Qualify(path: seq<Segment>, prefix: string): (r: seq<Segment>)
    ensures |r| == |path|
    ensures forall i :: 0 <= i < |path| && path[i].Key? ==> r[i] == Key(prefix + path[i].name)
    ensures forall i :: 0 <= i < |path| && path[i].Idx? ==> r[i] == path[i]
  {
    seq(|path|, i requires 0 <= i < |path| => if path[i].Key? then Key(prefix + path[i].name) else path[i])
  }

  /** `int(key)`. */
  function PyInt(seg: Segment): Result<int>
  {
    match seg
    case Idx(n) => Ok(n)
    case Key(k) =>
      (match IntOfString(k)
       case Some(n) => Ok(n)
       case None => Err(ValueError))
  }

  /** One pass of the loop body: `current[int(key)]` on a list, `current[key]`
      on anything else. Every exception it can raise is one the navigator's
      `except` clause names. */
  function StepRaw(cur: Json, seg: Segment): (r: Result<Json>)
    ensures r.Err? ==> r.error in {KeyError, IndexError, ValueError, TypeError}
  {
    if cur.Arr? then
      var n :- PyInt(seg);
      SubscriptIdx(cur, n)
    else
      match seg
      case Key(k) => Subscript(cur, k)
      case Idx(n) => SubscriptIdx(cur, n)
  }

  /** The walk over an already qualified path: None as soon as a step raises. */
  function Walk(cur: Json, path: seq<Segment>): Option<Json>
    decreases |path|
  {
    if path == [] then Some(cur)
    else
      match StepRaw(cur, path[0])
      case Err(_) => None
      case Ok(next) => Walk(next, path[1..])
  }

  /** `{field: current.get(field, None) for field in fields}`. */
  function Project(fields: seq<string>, fs: seq<Entry<string, Json>>): seq<Entry<string, Json>>
  {
    Collapse(seq(|fields|, i requires 0 <= i < |fields| => Entry(fields[i], Py(Get(fs, fields[i])))))
  }

  /** `find_section_by_optimized_path(data, short_path, fields, prefix)`; an
      empty `fields` stands for `fields=None`. */
  function Resolve(data: Json, shortPath: seq<Segment>, fields: seq<string>, prefix: string): Option<Json>
  {
    match Walk(data, Qualify(shortPath, prefix))
    case None => None
    case Some(cur) =>
      if |fields| > 0 && cur.Obj? then Some(Obj(Project(fields, cur.fields))) else Some(cur)
  }

  /** The navigator's loop, reassigning `current` along the qualified path. */
  method FindSectionByOptimizedPath(data: Json, shortPath: seq<Segment>, fields: seq<string>, prefix: string)
    returns (r: Option<Json>)
    ensures r == Resolve(data, shortPath, fields, prefix)
  {
    var current := data;
    var fullPath := Qualify(shortPath, prefix);
    for i := 0 to |fullPath|
      invariant Walk(data, fullPath) == Walk(current, fullPath[i..])
    {
      assert fullPath[i..][1..] == fullPath[i + 1..];
      var next := StepRaw(current, fullPath[i]);
      if next.Err? {
        return None;
      }
      current := next.value;
    }
    assert fullPath[|fullPath|..] == [];
    if |fields| > 0 && current.Obj? {
      return Some(Obj(Project(fields, current.fields)));
    }
    return Some(current);
  }

  /** Walking `p + q` is walking `p`, then walking `q` from where `p` ended. */
  lemma {:induction false} WalkConcat(cur: Json, p: seq<Segment>, q: seq<Segment>)
    ensures Walk(cur, p + q) == match Walk(cur, p) case None => None case Some(x) => Walk(x, q)
    decreases |p|
  {
    if p != [] {
      assert (p + q)[0] == p[0] && (p + q)[1..] == p[1..] + q;
      match StepRaw(cur, p[0])
      case Err(_) =>
      case Ok(next) => WalkConcat(next, p[1..], q);
    } else {
      assert p + q == q;
    }
  }

  /** Qualifying a concatenated path qualifies each part. */
  lemma QualifyConcat(p: seq<Segment>, q: seq<Segment>, prefix: string)
    ensures Qualify(p + q, prefix) == Qualify(p, prefix) + Qualify(q, prefix)
  {
    var l, r := Qualify(p + q, prefix), Qualify(p, prefix) + Qualify(q, prefix);
    forall i | 0 <= i < |l| ensures l[i] == r[i] {
      if i < |p| {
        assert (p + q)[i] == p[i];
      } else {
        assert (p + q)[i] == q[i - |p|];
      }
    }
  }

  /** Resolving `p + q` is resolving `p`, then resolving `q` from its result;
      this is what makes `SUB_PATH + short_path` a lookup in two stages. */
  lemma ResolveConcat(data: Json, p: seq<Segment>, q: seq<Segment>, prefix: string)
    ensures Resolve(data, p + q, [], prefix) ==
            match Resolve(data, p, [], prefix) case None => None case Some(x) => Resolve(x, q, [], prefix)
  {
    QualifyConcat(p, q, prefix);
    WalkConcat(data, Qualify(p, prefix), Qualify(q, prefix));
  }

  /** All or nothing: once a prefix of the path fails, every extension of it
      fails too, with or without a field projection. */
  lemma AllOrNothing(data: Json, p: seq<Segment>, q: seq<Segment>, fields: seq<string>, prefix: string)
    requires Resolve(data, p, [], prefix) == None
    ensures Resolve(data, p + q, fields, prefix) == None
  {
    QualifyConcat(p, q, prefix);
    WalkConcat(data, Qualify(p, prefix), Qualify(q, prefix));
    assert Walk(data, Qualify(p + q, prefix)) == None;
  }

  /** An empty path returns the data itself. */
  lemma EmptyPath(data: Json, prefix: string)
    ensures Resolve(data, [], [], prefix) == Some(data)
  {
  }

  /** A string segment reaching a list goes through `int()`; with a prefix
      that starts with `{` (the default one does) that raises ValueError, so
      the whole lookup is None. */
  lemma KeyOnListFails(xs: seq<Json>, k: string, rest: seq<Segment>, fields: seq<string>, prefix: string)
    requires prefix != [] && prefix[0] == '{'
    ensures Resolve(Arr(xs), [Key(k)] + rest, fields, prefix) == None
  {
    BraceIsNotInt(prefix + k);
    assert Resolve(Arr(xs), [Key(k)], [], prefix) == None;
    AllOrNothing(Arr(xs), [Key(k)], rest, fields, prefix);
  }

  /** An integer segment followed by a key leads nowhere from anything but a
      list: a dict has no integer keys, and one character of a string has no
      keys at all. */
  lemma IndexThenKeyFails(x: Json, n: int, k: string, rest: seq<Segment>, prefix: string)
    requires !x.Arr?
    ensures Resolve(x, [Idx(n), Key(k)] + rest, [], prefix) == None
  {
    var q := Qualify([Idx(n), Key(k)], prefix);
    assert q[0] == Idx(n) && q[1..] == [Key(prefix + k)] && q[1..][0] == Key(prefix + k);
    match StepRaw(x, Idx(n))
    case Err(_) =>
    case Ok(y) =>
      assert y.Str?;
      assert Walk(x, q) == Walk(y, q[1..]);
      assert StepRaw(y, Key(prefix + k)) == Err(TypeError);
    AllOrNothing(x, [Idx(n), Key(k)], rest, [], prefix);
  }

  /** Python list indexing: `-len <= n < len` succeeds, a negative index
      counting from the end; anything else makes the lookup None. */
  lemma ListIndex(xs: seq<Json>, n: int, prefix: string)
    ensures -|xs| <= n < 0 ==> Resolve(Arr(xs), [Idx(n)], [], prefix) == Some(xs[|xs| + n])
    ensures 0 <= n < |xs| ==> Resolve(Arr(xs), [Idx(n)], [], prefix) == Some(xs[n])
    ensures !(-|xs| <= n < |xs|) ==> Resolve(Arr(xs), [Idx(n)], [], prefix) == None
  {
    assert Qualify([Idx(n)], prefix) == [Idx(n)];
    assert [Idx(n)][1..] == [];
    assert StepRaw(Arr(xs), Idx(n)) == SubscriptIdx(Arr(xs), n);
    match SubscriptIdx(Arr(xs), n)
    case Ok(x) => assert Walk(Arr(xs), [Idx(n)]) == Walk(x, []);
    case Err(_) =>
  }

  /** An integer segment applied to a string picks one character (the
      non-list branch of the loop). */
  lemma StringIndex(s: string, n: int, prefix: string)
    requires 0 <= n < |s|
    ensures Resolve(Str(s), [Idx(n)], [], prefix) == Some(Str([s[n]]))
  {
    assert Qualify([Idx(n)], prefix) == [Idx(n)];
    assert [Idx(n)][1..] == [];
    assert StepRaw(Str(s), Idx(n)) == Ok(Str([s[n]]));
    assert Walk(Str(s), [Idx(n)]) == Walk(Str([s[n]]), []);
  }

  /** The projection has exactly the requested (unprefixed) names, each with
      the dict's value or None. */
  lemma {:induction false} ProjectShape(fields: seq<string>, fs: seq<Entry<string, Json>>, f: string)
    ensures f in fields ==> Get(Project(fields, fs), f) == Some(Py(Get(fs, f)))
    ensures f !in fields ==> Get(Project(fields, fs), f) == None
    ensures UniqueKeys(Project(fields, fs))
  {
    var xs := seq(|fields|, i requires 0 <= i < |fields| => Entry(fields[i], Py(Get(fs, fields[i]))));
    LastWithUniform(xs, f, Py(Get(fs, f)));
    if f in fields {
      var i :| 0 <= i < |fields| && fields[i] == f;
      assert xs[i].key == f;
    }
  }

  /** In a list of entries whose values under `f` all equal `v`, the last
      entry under `f` holds `v`, and there is one exactly when `f` occurs. */
  lemma {:induction false} LastWithUniform(xs: seq<Entry<string, Json>>, f: string, v: Json)
    requires forall i :: 0 <= i < |xs| && xs[i].key == f ==> xs[i].val == v
    ensures (exists i :: 0 <= i < |xs| && xs[i].key == f) ==> LastWith(xs, f) == Some(v)
    ensures (forall i :: 0 <= i < |xs| ==> xs[i].key != f) ==> LastWith(xs, f) == None
  {
    if xs != [] && xs[|xs| - 1].key != f {
      var init := xs[..|xs| - 1];
      LastWithUniform(init, f, v);
      if exists i :: 0 <= i < |xs| && xs[i].key == f {
        var i :| 0 <= i < |xs| && xs[i].key == f;
        assert init[i] == xs[i];
      }
    }
  }

  /** Resolution with a projection on a dict: the names asked for, nothing else. */
  lemma ResolveProjects(data: Json, path: seq<Segment>, fields: seq<string>, prefix: string,
                        fs: seq<Entry<string, Json>>, f: string)
    requires |fields| > 0
    requires Resolve(data, path, [], prefix) == Some(Obj(fs))
    ensures Resolve(data, path, fields, prefix).Some? && Resolve(data, path, fields, prefix).value.Obj?
    ensures var proj := Resolve(data, path, fields, prefix).value.fields;
            Get(proj, f) == (if f in fields then Some(Py(Get(fs, f))) else None)
  {
    assert Walk(data, Qualify(path, prefix)) == Some(Obj(fs));
    assert Resolve(data, path, fields, prefix) == Some(Obj(Project(fields, fs)));
    ProjectShape(fields, fs, f);
  }
}
