/** Python dictionaries as ordered key/value sequences: a dict keeps its keys
    in first-insertion order, assigning to an existing key replaces the value
    in place, and assigning to a new key appends it. */
module Dict {
  import opened Results

  datatype Entry<K, V> = Entry(key: K, val: V)

  /** No key occurs twice: the shape of every Python dict. */
  ghost predicate UniqueKeys<K, V>(m: seq<Entry<K, V>>)
  {
    forall i, j :: 0 <= i < j < |m| ==> m[i].key != m[j].key
  }

  /** Whether `k` is a key of `m`. */
  predicate HasKey<K(==), V>(m: seq<Entry<K, V>>, k: K)
  {
    exists i :: 0 <= i < |m| && m[i].key == k
  }

  /** `m[k]` / `m.get(k)`: the value stored under `k`, if any. */
  function Get<K(==), V>(m: seq<Entry<K, V>>, k: K): (r: Option<V>)
    ensures r.Some? <==> HasKey(m, k)
    ensures r.Some? ==> Entry(k, r.value) in m
  {
    if m == [] then None
    else if m[0].key == k then Some(m[0].val)
    else
      assert forall i :: 1 <= i < |m| ==> m[1..][i - 1] == m[i];
      Get(m[1..], k)
  }

  /** A key other than the first one is in the dict exactly when it is in
      the rest. */
  lemma HasKeyTail<K, V>(m: seq<Entry<K, V>>, k: K)
    requires m != [] && m[0].key != k
    ensures HasKey(m, k) == HasKey(m[1..], k)
  {
    if HasKey(m, k) {
      var i :| 0 <= i < |m| && m[i].key == k;
      assert m[1..][i - 1] == m[i];
    }
    if HasKey(m[1..], k) {
      var i :| 0 <= i < |m| - 1 && m[1..][i].key == k;
      assert m[i + 1] == m[1..][i];
    }
  }

  /** A non-empty sequence with one more element at the end, split at its
      head. */
  lemma ConsSnoc<T>(m: seq<T>, y: T)
    requires m != []
    ensures [m[0]] + (m[1..] + [y]) == m + [y]
  {
  }

  /** Taking every element of a sequence gives the sequence. */
  lemma TakeAll<T>(s: seq<T>)
    ensures s[..|s|] == s
  {
  }

  /** A non-empty sequence is its front followed by its last element. */
  lemma InitLast<T>(m: seq<T>)
    requires m != []
    ensures m[..|m| - 1] + [m[|m| - 1]] == m
  {
  }

  /** Looking up a key in a dict with one more entry in front. */
  lemma GetCons<K, V>(x: Entry<K, V>, m: seq<Entry<K, V>>, k: K)
    ensures Get([x] + m, k) == if x.key == k then Some(x.val) else Get(m, k)
  {
    assert ([x] + m)[1..] == m;
  }

  /** `m[k] = v`. */
  function Put<K(==, !new), V(!new)>(m: seq<Entry<K, V>>, k: K, v: V): (r: seq<Entry<K, V>>)
    ensures Get(r, k) == Some(v)
    ensures forall k' :: k' != k ==> Get(r, k') == Get(m, k')
    ensures HasKey(m, k) ==> |r| == |m| && forall i :: 0 <= i < |m| ==> r[i].key == m[i].key
    ensures !HasKey(m, k) ==> r == m + [Entry(k, v)]
  {
    if m == [] then
      assert m + [Entry(k, v)] == [Entry(k, v)];
      [Entry(k, v)]
    else if m[0].key == k then
      var r := [Entry(k, v)] + m[1..];
      assert HasKey(m, k) by { assert m[0].key == k; }
      assert r[1..] == m[1..];
      r
    else
      var rest := Put(m[1..], k, v);
      HasKeyTail(m, k);
      assert ([m[0]] + rest)[1..] == rest;
      assert forall k' :: k' != k ==> Get([m[0]] + rest, k') == Get(m, k') by {
        forall k' | k' != k ensures Get([m[0]] + rest, k') == Get(m, k') {
          GetCons(m[0], rest, k');
        }
      }
      assert !HasKey(m, k) ==> [m[0]] + rest == m + [Entry(k, v)] by {
        if !HasKey(m, k) {
          assert rest == m[1..] + [Entry(k, v)];
          ConsSnoc(m, Entry(k, v));
        }
      }
      [m[0]] + rest
  }

  /** Assigning to a key no entry has appends it. */
  lemma PutNew<K(!new), V(!new)>(m: seq<Entry<K, V>>, k: K, v: V)
    requires forall i :: 0 <= i < |m| ==> m[i].key != k
    ensures Put(m, k, v) == m + [Entry(k, v)]
  {
  }

  /** Assigning to the first key replaces the first entry. */
  lemma PutFront<K(!new), V(!new)>(m: seq<Entry<K, V>>, k: K, v: V)
    requires m != [] && m[0].key == k
    ensures Put(m, k, v) == [Entry(k, v)] + m[1..]
  {
  }

  /** Two assignments to the same key leave only the second value. */
  lemma {:induction false} PutTwice<K(!new), V(!new)>(m: seq<Entry<K, V>>, k: K, v1: V, v2: V)
    ensures Put(Put(m, k, v1), k, v2) == Put(m, k, v2)
  {
    if m != [] && m[0].key != k {
      PutTwice(m[1..], k, v1, v2);
      assert ([m[0]] + Put(m[1..], k, v1))[1..] == Put(m[1..], k, v1);
    }
  }

  /** Assigning to a dict keeps it a dict. */
  lemma {:induction false} PutKeepsUnique<K(!new), V(!new)>(m: seq<Entry<K, V>>, k: K, v: V)
    requires UniqueKeys(m)
    ensures UniqueKeys(Put(m, k, v))
  {
    var r := Put(m, k, v);
    if HasKey(m, k) {
      forall i, j | 0 <= i < j < |r| ensures r[i].key != r[j].key {
        assert r[i].key == m[i].key && r[j].key == m[j].key;
      }
    }
  }

  /** `m.pop(k, None)`: every entry under `k` goes. */
  function Remove<K(==, !new), V(!new)>(m: seq<Entry<K, V>>, k: K): (r: seq<Entry<K, V>>)
    ensures Get(r, k) == None
    ensures forall k' :: k' != k ==> Get(r, k') == Get(m, k')
    ensures forall i :: 0 <= i < |r| ==> r[i] in m
  {
    if m == [] then []
    else
      var rest := Remove(m[1..], k);
      if m[0].key == k then rest else [m[0]] + rest
  }

  /** The value of the last entry of `xs` under `k`: what a sequence of
      assignments leaves in the dict. */
  function LastWith<K(==), V>(xs: seq<Entry<K, V>>, k: K): Option<V>
  {
    if xs == [] then None
    else if xs[|xs| - 1].key == k then Some(xs[|xs| - 1].val)
    else LastWith(xs[..|xs| - 1], k)
  }

  /** `LastWith` finds the entry at `i` when no later entry has its key. */
  lemma {:induction false} LastWithAt<K, V>(es: seq<Entry<K, V>>, k: K, i: nat)
    requires i < |es| && es[i].key == k
    requires forall j :: i < j < |es| ==> es[j].key != k
    ensures LastWith(es, k) == Some(es[i].val)
    decreases |es|
  {
    if i < |es| - 1 {
      var init := es[..|es| - 1];
      LastWithAt(init, k, i);
    }
  }

  /** The index of the entry `LastWith` reads. */
  lemma {:induction false} LastWithSource<K, V>(es: seq<Entry<K, V>>, k: K) returns (n: nat)
    requires LastWith(es, k).Some?
    ensures n < |es| && es[n].key == k && es[n].val == LastWith(es, k).value
    decreases |es|
  {
    if es[|es| - 1].key == k {
      n := |es| - 1;
    } else {
      n := LastWithSource(es[..|es| - 1], k);
    }
  }

  /** The dict built from `{}` by `d[x.key] = x.val` for each `x` of `xs` in
      order: a key keeps its first position and its last value. */
  function Collapse<K(==, !new), V(!new)>(xs: seq<Entry<K, V>>): (r: seq<Entry<K, V>>)
    ensures forall k :: Get(r, k) == LastWith(xs, k)
    ensures UniqueKeys(r)
    ensures |r| <= |xs|
  {
    if xs == [] then []
    else
      var init := Collapse(xs[..|xs| - 1]);
      PutKeepsUnique(init, xs[|xs| - 1].key, xs[|xs| - 1].val);
      Put(init, xs[|xs| - 1].key, xs[|xs| - 1].val)
  }

  /** Dropping a dict's last entry leaves a dict without that entry's key. */
  lemma UniqueInit<K, V>(m: seq<Entry<K, V>>)
    requires m != [] && UniqueKeys(m)
    ensures UniqueKeys(m[..|m| - 1]) && !HasKey(m[..|m| - 1], m[|m| - 1].key)
  {
    var init := m[..|m| - 1];
    forall i, j | 0 <= i < j < |init| ensures init[i].key != init[j].key {
      assert init[i] == m[i] && init[j] == m[j];
    }
    forall i | 0 <= i < |init| ensures init[i].key != m[|m| - 1].key {
      assert init[i] == m[i];
    }
  }

  /** Adding one entry to the entries assigned so far is one more assignment. */
  lemma CollapseSnoc<K(!new), V(!new)>(xs: seq<Entry<K, V>>, e: Entry<K, V>)
    ensures Collapse(xs + [e]) == Put(Collapse(xs), e.key, e.val)
  {
    assert (xs + [e])[..|xs|] == xs;
  }

  /** The dict built from the first i + 1 entries is the one built from the
      first i, with entry i assigned. */
  lemma CollapseStep<K(!new), V(!new)>(xs: seq<Entry<K, V>>, i: nat)
    requires i < |xs|
    ensures Collapse(xs[..i + 1]) == Put(Collapse(xs[..i]), xs[i].key, xs[i].val)
  {
    assert xs[..i + 1][..i] == xs[..i];
  }

  /** A dict rebuilt from its own entries is unchanged. */
  lemma {:induction false} CollapseOfDict<K(!new), V(!new)>(m: seq<Entry<K, V>>)
    requires UniqueKeys(m)
    ensures Collapse(m) == m
  {
    if m != [] {
      var init, last := m[..|m| - 1], m[|m| - 1];
      UniqueInit(m);
      CollapseOfDict(init);
      assert Collapse(m) == Put(Collapse(init), last.key, last.val);
      assert Put(init, last.key, last.val) == init + [last];
      InitLast(m);
    }
  }

  /** Two assignments to one key from `{}` leave one entry, the later value. */
  lemma CollapseSameKey<K(!new), V(!new)>(xs: seq<Entry<K, V>>, k: K, a: V, b: V)
    requires |xs| == 2 && xs[0] == Entry(k, a) && xs[1] == Entry(k, b)
    ensures Collapse(xs) == [Entry(k, b)]
  {
    assert xs[..1][..0] == [];
    assert Collapse(xs[..1]) == [Entry(k, a)];
    assert xs[..|xs| - 1] == xs[..1];
    PutFront([Entry(k, a)], k, b);
  }

  /** Assigning the same key and value n >= 1 times leaves one entry. */
  lemma {:induction false} CollapseRepeated<K(!new), V(!new)>(xs: seq<Entry<K, V>>, e: Entry<K, V>)
    requires |xs| >= 1
    requires forall i :: 0 <= i < |xs| ==> xs[i] == e
    ensures Collapse(xs) == [e]
  {
    if |xs| > 1 {
      CollapseRepeated(xs[..|xs| - 1], e);
    }
  }
}
