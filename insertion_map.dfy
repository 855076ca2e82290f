/**
  Insertion-ordered dictionaries with string keys, as JavaScript has them: a
  `Map<string, V>` and a plain object used as a `Record<string, V>` both keep
  their keys in first-insertion order, and setting a key that is already present
  overwrites its value without moving it.

  A dictionary is a sequence of entries. `Set` is the one update both kinds
  support; `SetAll` applies `Set` to a list of entries in order, which is what
  a `forEach` that calls `map.set` (or assigns `obj[k] = v`) does.
 */
module InsertionMap {
  import opened Wrappers

  datatype Entry<V> = Entry(key: string, value: V)

  function Keys<V>(m: seq<Entry<V>>): (ks: seq<string>)
    ensures |ks| == |m|
    ensures forall i :: 0 <= i < |m| ==> ks[i] == m[i].key
  {
    seq(|m|, i requires 0 <= i < |m| => m[i].key)
  }

  function Values<V>(m: seq<Entry<V>>): (vs: seq<V>)
    ensures |vs| == |m|
    ensures forall i :: 0 <= i < |m| ==> vs[i] == m[i].value
  {
    seq(|m|, i requires 0 <= i < |m| => m[i].value)
  }

  /** No key occurs twice. */
  predicate Distinct(ks: seq<string>)
  {
    forall i, j :: 0 <= i < j < |ks| ==> ks[i] != ks[j]
  }

  /** Position of the first occurrence of `k`. */
  function IndexOf(ks: seq<string>, k: string): (i: nat)
    requires k in ks
    ensures i < |ks| && ks[i] == k && k !in ks[..i]
  {
    if ks[0] == k then 0 else 1 + IndexOf(ks[1..], k)
  }

  /** `map.get(k)` (or `obj[k]` for an own property): the value stored under `k`. */
  function Get<V>(m: seq<Entry<V>>, k: string): (r: Option<V>)
    ensures r.None? <==> k !in Keys(m)
    ensures r.Some? ==> m[IndexOf(Keys(m), k)] == Entry(k, r.value)
  {
    if m == [] then None
    else if m[0].key == k then Some(m[0].value)
    else
      assert Keys(m[1..]) == Keys(m)[1..];
      Get(m[1..], k)
  }

  /**
    `map.set(k, v)`: when `k` is present its entry is overwritten where it stands,
    otherwise a new entry goes at the end.
   */
  function Set<V>(m: seq<Entry<V>>, k: string, v: V): (r: seq<Entry<V>>)
    ensures k in Keys(m) ==> r == m[IndexOf(Keys(m), k) := Entry(k, v)]
    ensures k !in Keys(m) ==> r == m + [Entry(k, v)]
  {
    if m == [] then [Entry(k, v)]
    else if m[0].key == k then [Entry(k, v)] + m[1..]
    else
      assert Keys(m[1..]) == Keys(m)[1..];
      [m[0]] + Set(m[1..], k, v)
  }

  /** The keys of `m` after setting `k`: unchanged when `k` was present, `k` appended otherwise. */
  lemma SetKeys<V>(m: seq<Entry<V>>, k: string, v: V)
    ensures Keys(Set(m, k, v)) == if k in Keys(m) then Keys(m) else Keys(m) + [k]
  {
  }

  /** After `map.set(k, v)`, `k` maps to `v` and every other key keeps its value. */
  lemma {:induction false} SetGet<V>(m: seq<Entry<V>>, k: string, v: V, j: string)
    ensures Get(Set(m, k, v), j) == if j == k then Some(v) else Get(m, j)
  {
    var r := Set(m, k, v);
    if k in Keys(m) {
      var p := IndexOf(Keys(m), k);
      assert Keys(r) == Keys(m);
      if j in Keys(m) {
        var q := IndexOf(Keys(m), j);
        assert IndexOf(Keys(r), j) == q;
      }
    } else {
      assert Keys(r) == Keys(m) + [k];
      if j in Keys(m) {
        IndexOfAppend(Keys(m), [k], j);
      } else if j == k {
        assert Keys(r)[..|m|] == Keys(m);
        assert IndexOf(Keys(r), j) == |m|;
      }
    }
  }

  lemma {:induction false} IndexOfAppend(ks: seq<string>, more: seq<string>, k: string)
    requires k in ks
    ensures IndexOf(ks + more, k) == IndexOf(ks, k)
  {
    if ks[0] != k {
      assert (ks + more)[1..] == ks[1..] + more;
      IndexOfAppend(ks[1..], more, k);
    }
  }

  /** Applies `Set` once per entry of `es`, first to last. */
  function SetAll<V>(m: seq<Entry<V>>, es: seq<Entry<V>>): seq<Entry<V>>
  {
    if es == [] then m
    else
      var n := |es| - 1;
      Set(SetAll(m, es[..n]), es[n].key, es[n].value)
  }

  lemma SetAllSnoc<V>(m: seq<Entry<V>>, es: seq<Entry<V>>, e: Entry<V>)
    ensures SetAll(m, es + [e]) == Set(SetAll(m, es), e.key, e.value)
  {
    assert (es + [e])[..|es|] == es;
  }

  /**
    Reference order of keys: `ks` followed by every key of `added` that is new,
    in the order of its first occurrence in `added`.
   */
  function AppendNew(ks: seq<string>, added: seq<string>): seq<string>
  {
    if added == [] then ks
    else
      var n := |added| - 1;
      var p := AppendNew(ks, added[..n]);
      if added[n] in p then p else p + [added[n]]
  }

  /** The value of the last entry of `es` with key `k`. */
  function LastValue<V>(es: seq<Entry<V>>, k: string): V
    requires k in Keys(es)
  {
    var n := |es| - 1;
    if es[n].key == k then es[n].value
    else
      assert Keys(es[..n]) + [es[n].key] == Keys(es);
      LastValue(es[..n], k)
  }

  lemma {:induction false} LastValueIsLast<V>(es: seq<Entry<V>>, k: string)
    requires k in Keys(es)
    ensures exists j :: 0 <= j < |es| && es[j] == Entry(k, LastValue(es, k))
                        && forall l :: j < l < |es| ==> es[l].key != k
  {
    var n := |es| - 1;
    if es[n].key != k {
      assert Keys(es[..n]) + [es[n].key] == Keys(es);
      LastValueIsLast(es[..n], k);
      var j :| 0 <= j < n && es[..n][j] == Entry(k, LastValue(es[..n], k))
               && forall l :: j < l < n ==> es[..n][l].key != k;
      assert es[j] == Entry(k, LastValue(es, k));
    } else {
      assert es[n] == Entry(k, LastValue(es, k));
    }
  }

  lemma {:induction false} AppendNewContains(ks: seq<string>, added: seq<string>, k: string)
    ensures k in AppendNew(ks, added) <==> k in ks || k in added
  {
    if added != [] {
      var n := |added| - 1;
      AppendNewContains(ks, added[..n], k);
      assert added == added[..n] + [added[n]];
    }
  }

  /** The original keys stay first, in their original order. */
  lemma {:induction false} AppendNewPrefix(ks: seq<string>, added: seq<string>)
    ensures |ks| <= |AppendNew(ks, added)| && AppendNew(ks, added)[..|ks|] == ks
  {
    if added != [] {
      AppendNewPrefix(ks, added[..|added| - 1]);
    }
  }

  lemma {:induction false} AppendNewDistinct(ks: seq<string>, added: seq<string>)
    requires Distinct(ks)
    ensures Distinct(AppendNew(ks, added))
  {
    if added != [] {
      AppendNewDistinct(ks, added[..|added| - 1]);
    }
  }

  /** The keys after a sequence of `Set`s follow the reference order `AppendNew`. */
  lemma {:induction false} SetAllKeys<V>(m: seq<Entry<V>>, es: seq<Entry<V>>)
    ensures Keys(SetAll(m, es)) == AppendNew(Keys(m), Keys(es))
  {
    if es != [] {
      var n := |es| - 1;
      SetAllKeys(m, es[..n]);
      assert Keys(es[..n]) == Keys(es)[..n];
      SetKeys(SetAll(m, es[..n]), es[n].key, es[n].value);
    }
  }

  /** The last setting of a key wins; keys never set keep their old value. */
  lemma {:induction false} SetAllGet<V>(m: seq<Entry<V>>, es: seq<Entry<V>>, k: string)
    ensures Get(SetAll(m, es), k) == if k in Keys(es) then Some(LastValue(es, k)) else Get(m, k)
  {
    if es != [] {
      var n := |es| - 1;
      assert Keys(es[..n]) + [es[n].key] == Keys(es);
      SetAllGet(m, es[..n], k);
      SetGet(SetAll(m, es[..n]), es[n].key, es[n].value, k);
    }
  }

  /** Setting only new, distinct keys appends them in order. */
  lemma {:induction false} SetAllFresh<V>(m: seq<Entry<V>>, es: seq<Entry<V>>)
    requires Distinct(Keys(es))
    requires forall i :: 0 <= i < |es| ==> es[i].key !in Keys(m)
    ensures SetAll(m, es) == m + es
  {
    if es != [] {
      var n := |es| - 1;
      assert Keys(es[..n]) == Keys(es)[..n];
      SetAllFresh(m, es[..n]);
      assert Keys(m + es[..n]) == Keys(m) + Keys(es[..n]);
      assert es[n].key !in Keys(m + es[..n]);
      assert m + es[..n] + [es[n]] == m + es;
    }
  }
}
