/** The tree the extraction code walks: what `json.load` gives for a document
    converted from CDA XML (dicts, lists, strings; numbers and None for
    completeness), together with the Python operations the code applies to
    it, each with the exception Python raises when the value has the wrong
    shape. */
module PyJson {
  import opened Results
  import opened Dict
  import opened PyStr

  datatype Json =
    | Null
    | Num(n: int)
    | Str(s: string)
    | Arr(items: seq<Json>)
    | Obj(fields: seq<Entry<string, Json>>)

  /** The Python string `'None'` that several table strategies use for a
      missing cell (distinct from the value None, `Null`). */
  const NoneText: Json := Str("None")

  /** The CDA R2 namespace that qualifies every element name in a converted
      document, as the converter writes it in front of a key. */
  const DefaultPrefix: string := "{urn:hl7-org:v3}"

  /** The Python value a caller holds after a lookup: the navigator's None is
      Python's None. */
  function Py(o: Option<Json>): Json
  {
    match o
    case Some(v) => v
    case None => Null
  }

  /** Python's index rule for a sequence of length `len`: `-len <= n < len`,
      negative indices counting from the end. */
  function PyIndex(len: nat, n: int): (r: Option<nat>)
    ensures r.Some? <==> -(len as int) <= n < len
    ensures r.Some? ==> r.value < len && r.value == (if n < 0 then n + len else n)
  {
    if 0 <= n < len then Some(n)
    else if -(len as int) <= n < 0 then Some(n + len)
    else None
  }

  /** `v[k]` with a string `k`. */
  function Subscript(v: Json, k: string): Result<Json>
  {
    match v
    case Obj(fs) =>
      (match Get(fs, k)
       case Some(x) => Ok(x)
       case None => Err(KeyError))
    case _ => Err(TypeError)
  }

  /** `v[n]` with an integer `n`. */
  function SubscriptIdx(v: Json, n: int): Result<Json>
  {
    match v
    case Arr(xs) =>
      (match PyIndex(|xs|, n)
       case Some(i) => Ok(xs[i])
       case None => Err(IndexError))
    case Str(s) =>
      (match PyIndex(|s|, n)
       case Some(i) => Ok(Str([s[i]]))
       case None => Err(IndexError))
    case Obj(_) => Err(KeyError)
    case _ => Err(TypeError)
  }

  /** `v.get(k, d)`. */
  function DictGet(v: Json, k: string, d: Json): Result<Json>
  {
    match v
    case Obj(fs) =>
      (match Get(fs, k)
       case Some(x) => Ok(x)
       case None => Ok(d))
    case _ => Err(AttributeError)
  }

  /** `k in v` with a string `k`: a key test on a dict, an element test on a
      list, a substring test on a string. */
  function Contains(k: string, v: Json): Result<bool>
  {
    match v
    case Obj(fs) => Ok(HasKey(fs, k))
    case Arr(xs) => Ok(Str(k) in xs)
    case Str(s) => Ok(IsSubstring(k, s))
    case _ => Err(TypeError)
  }

  /** What `for x in v` visits: a dict's keys, a list's elements, a string's
      characters. */
  function Iter(v: Json): (r: Result<seq<Json>>)
    ensures v.Arr? ==> r == Ok(v.items)
    ensures v.Obj? ==> r.Ok? && |r.value| == |v.fields| && forall i :: 0 <= i < |v.fields| ==> r.value[i] == Str(v.fields[i].key)
  {
    match v
    case Obj(fs) => Ok(seq(|fs|, i requires 0 <= i < |fs| => Str(fs[i].key)))
    case Arr(xs) => Ok(xs)
    case Str(s) => Ok(seq(|s|, i requires 0 <= i < |s| => Str([s[i]])))
    case _ => Err(TypeError)
  }

  /** `len(v)`. */
  function Len(v: Json): Result<nat>
  {
    match v
    case Obj(fs) => Ok(|fs|)
    case Arr(xs) => Ok(|xs|)
    case Str(s) => Ok(|s|)
    case _ => Err(TypeError)
  }

  /** `bool(v)`. */
  predicate Truthy(v: Json)
  {
    match v
    case Null => false
    case Num(n) => n != 0
    case Str(s) => s != []
    case Arr(xs) => xs != []
    case Obj(fs) => fs != []
  }

  /** Whether `v` may be a dict key (lists and dicts are unhashable). */
  predicate IsHashable(v: Json)
  {
    !v.Arr? && !v.Obj?
  }

  /** `v[k0][k1]...` for string keys, left to right. */
  function Dig(v: Json, ks: seq<string>): Result<Json>
  {
    if ks == [] then Ok(v)
    else
      match Subscript(v, ks[0])
      case Err(e) => Err(e)
      case Ok(w) => Dig(w, ks[1..])
  }
}
