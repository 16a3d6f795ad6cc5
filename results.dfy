/** Outcomes shared by the whole model: an optional value, the Python
    exceptions the modelled code can raise, and a result that is either a
    value or one of those exceptions. */
module Results {

  datatype Option<+T> = None | Some(value: T)

  /** The exception classes raised by the modelled Python code. */
  datatype Exc = KeyError | IndexError | TypeError | ValueError | AttributeError

  datatype Result<+T> = Ok(value: T) | Err(error: Exc) {
    predicate IsFailure() { Err? }

    function PropagateFailure<U>(): Result<U>
      requires Err?
    {
      Err(error)
    }

    function Extract(): T
      requires Ok?
    {
      value
    }
  }

  /** `acc` followed by the successful value of `r`; an exception passes through. */
  function Prepend<T>(acc: seq<T>, r: Result<seq<T>>): Result<seq<T>>
  {
    match r
    case Ok(xs) => Ok(acc + xs)
    case Err(e) => Err(e)
  }

  /** A Python loop that appends `f(ctx, x)` for each `x` of `s` in order and
      stops at the first exception. */
  function MapAll<C, A, B>(f: (C, A) -> Result<B>, ctx: C, s: seq<A>): Result<seq<B>>
    decreases |s|
  {
    if s == [] then Ok([])
    else
      match f(ctx, s[0])
      case Err(e) => Err(e)
      case Ok(b) => Prepend([b], MapAll(f, ctx, s[1..]))
  }

  /** The loop succeeds exactly when every element does, and then holds one
      value per element, in order; otherwise it reports the first failure. */
  lemma {:induction false} MapAllSpec<C, A, B>(f: (C, A) -> Result<B>, ctx: C, s: seq<A>)
    ensures MapAll(f, ctx, s).Ok? <==> forall i :: 0 <= i < |s| ==> f(ctx, s[i]).Ok?
    ensures MapAll(f, ctx, s).Ok? ==>
              |MapAll(f, ctx, s).value| == |s| && forall i :: 0 <= i < |s| ==> f(ctx, s[i]) == Ok(MapAll(f, ctx, s).value[i])
    ensures MapAll(f, ctx, s).Err? ==>
              exists i :: 0 <= i < |s| && f(ctx, s[i]) == Err(MapAll(f, ctx, s).error) &&
                          forall k :: 0 <= k < i ==> f(ctx, s[k]).Ok?
    decreases |s|
  {
    if s != [] {
      MapAllSpec(f, ctx, s[1..]);
      assert forall i :: 1 <= i < |s| ==> s[1..][i - 1] == s[i];
      if f(ctx, s[0]).Ok? && MapAll(f, ctx, s[1..]).Err? {
        var i :| 0 <= i < |s[1..]| && f(ctx, s[1..][i]) == Err(MapAll(f, ctx, s[1..]).error) &&
                 forall k :: 0 <= k < i ==> f(ctx, s[1..][k]).Ok?;
        assert f(ctx, s[i + 1]) == Err(MapAll(f, ctx, s).error);
        forall k | 0 <= k < i + 1 ensures f(ctx, s[k]).Ok? {
          if k > 0 {
            assert s[1..][k - 1] == s[k];
          }
        }
      }
      if MapAll(f, ctx, s).Ok? {
        assert forall i :: 1 <= i < |s| ==> f(ctx, s[i]).Ok? by {
          forall i | 1 <= i < |s| ensures f(ctx, s[i]).Ok? {
            assert s[1..][i - 1] == s[i];
          }
        }
      }
    }
  }

  /** One pass of a loop over `s` at position `i`, in terms of `MapAll`. */
  lemma MapAllStep<C, A, B>(f: (C, A) -> Result<B>, ctx: C, s: seq<A>, i: nat)
    requires i < |s|
    ensures MapAll(f, ctx, s[i..]) ==
            match f(ctx, s[i]) case Err(e) => Err(e) case Ok(b) => Prepend([b], MapAll(f, ctx, s[i + 1..]))
  {
    assert s[i..][0] == s[i] && s[i..][1..] == s[i + 1..];
  }

  /** A loop that has visited all of `s` has nothing left to add. */
  lemma MapAllDone<C, A, B>(f: (C, A) -> Result<B>, ctx: C, s: seq<A>, acc: seq<B>)
    ensures Prepend(acc, MapAll(f, ctx, s[|s|..])) == Ok(acc)
  {
    assert s[|s|..] == [];
    assert acc + [] == acc;
  }

  /** Nothing accumulated yet. */
  lemma PrependNil<T>(r: Result<seq<T>>)
    ensures Prepend([], r) == r
  {
    match r
    case Ok(xs) => assert [] + xs == xs;
    case Err(_) =>
  }

  /** Appending one more value to the accumulator. */
  lemma PrependPrepend<T>(acc: seq<T>, b: T, r: Result<seq<T>>)
    ensures Prepend(acc, Prepend([b], r)) == Prepend(acc + [b], r)
  {
    match r
    case Ok(xs) => assert acc + ([b] + xs) == (acc + [b]) + xs;
    case Err(_) =>
  }

  /** When every element succeeds with a known value, the loop returns those values. */
  lemma MapAllOk<C, A, B>(f: (C, A) -> Result<B>, ctx: C, s: seq<A>, out: seq<B>)
    requires |out| == |s| && forall i :: 0 <= i < |s| ==> f(ctx, s[i]) == Ok(out[i])
    ensures MapAll(f, ctx, s) == Ok(out)
  {
    var r := MapAll(f, ctx, s);
    MapAllSpec(f, ctx, s);
    assert r.Ok? by {
      forall i | 0 <= i < |s| ensures f(ctx, s[i]).Ok? {
        assert f(ctx, s[i]) == Ok(out[i]);
      }
    }
    assert forall i :: 0 <= i < |s| ==> r.value[i] == out[i];
    assert r.value == out;
  }

  /** The present values of `s`, in order. */
  function Somes<T>(s: seq<Option<T>>): (r: seq<T>)
    ensures |r| <= |s|
    ensures forall i :: 0 <= i < |r| ==> Some(r[i]) in s
  {
    if s == [] then []
    else
      var init := Somes(s[..|s| - 1]);
      assert s == s[..|s| - 1] + [s[|s| - 1]];
      match s[|s| - 1]
      case None => init
      case Some(x) => init + [x]
  }

  /** When every element is present, `Somes` returns them all. */
  lemma {:induction false} SomesAll<T>(s: seq<Option<T>>, xs: seq<T>)
    requires |s| == |xs| && forall i :: 0 <= i < |s| ==> s[i] == Some(xs[i])
    ensures Somes(s) == xs
  {
    if s != [] {
      SomesAll(s[..|s| - 1], xs[..|xs| - 1]);
      assert xs == xs[..|xs| - 1] + [xs[|xs| - 1]];
    }
  }

  /** `count` copies of `x`. */
  function Repeat<T>(x: T, count: nat): (r: seq<T>)
    ensures |r| == count && forall i :: 0 <= i < count ==> r[i] == x
  {
    seq(count, _ => x)
  }

  /** 0, 1, ..., n - 1: the indices a `for i in range(n)` loop visits. */
  function Range(n: nat): (r: seq<nat>)
    ensures |r| == n && forall i :: 0 <= i < n ==> r[i] == i
  {
    seq(n, i requires 0 <= i => i)
  }
}
