/**
 * `useFilter` (src/useLister.ts:314-358) on values: what each filter
 * operation makes of the filter record. The lister's methods apply these
 * to its `filters` cell.
 */
module FilterRecord {
  import opened Json

  /** `removeFilter`: drops `key` if present, and nothing else. */
  function Removed(f: Record, key: string): (r: Record)
    ensures key !in r
    ensures forall k :: k != key ==> (k in r <==> k in f)
    ensures forall k :: k in r ==> r[k] == f[k]
    ensures key !in f ==> r == f
  {
    f - {key}
  }

  /** `setFilter`: stores a truthy value, and removes the key for a falsy one. */
  function WithFilter(f: Record, key: string, value: Json): (r: Record)
    ensures Truthy(value) ==> key in r && r[key] == value
    ensures !Truthy(value) ==> key !in r
    ensures forall k :: k != key ==> (k in r <==> k in f)
    ensures forall k :: k != key && k in r ==> r[k] == f[k]
  {
    if Truthy(value) then f[key := value] else Removed(f, key)
  }

  /** The array stored under `key`, or a fresh empty one (src/useLister.ts:329-331). */
  function ArrayAt(f: Record, key: string): seq<Json> {
    if key in f && f[key].Arr? then f[key].a else []
  }

  /**
   * `toggleFilter`: for a truthy value, appends it to the key's array when
   * absent and removes its first occurrence when present; the key is
   * dropped once its array is empty. A falsy value changes nothing.
   */
  function Toggled(f: Record, key: string, value: Json): (r: Record)
    ensures !Truthy(value) ==> r == f
    ensures forall k :: k != key ==> (k in r <==> k in f)
    ensures forall k :: k != key && k in r ==> r[k] == f[k]
    ensures Truthy(value) ==> (key !in r <==> ArrayAt(f, key) == [value])
    ensures key in r && Truthy(value) ==> r[key].Arr? && r[key].a != []
  {
    if !Truthy(value) then f
    else
      var vals := ArrayAt(f, key);
      var index := IndexOf(vals, value);
      var vals' := if index == -1 then vals + [value] else vals[..index] + vals[index + 1..];
      if |vals'| > 0 then f[key := Arr(vals')] else Removed(f, key)
  }

  /** The two steps of `toggleFilter`: push or splice on the key's array, then store it or drop the key. */
  lemma ToggleSteps(f: Record, key: string, value: Json, next: seq<Json>)
    requires Truthy(value)
    requires var vals := ArrayAt(f, key);
      var index := IndexOf(vals, value);
      next == if index == -1 then vals + [value] else vals[..index] + vals[index + 1..]
    ensures Toggled(f, key, value) == if |next| > 0 then f[key := Arr(next)] else Removed(f, key)
    ensures |next| == 0 ==> key in f
  {
    var vals := ArrayAt(f, key);
    if |next| == 0 {
      assert IndexOf(vals, value) != -1;
    }
  }

  /** `filterValue`: the stored value, `undefined` (Null) when absent. */
  function Value(f: Record, key: string): (v: Json)
    ensures key in f ==> v == f[key]
    ensures key !in f ==> v == Null
  {
    Prop(f, key)
  }

  /** `filterContains`: the stored value is an array that includes `value`. */
  predicate Contains(f: Record, key: string, value: Json) {
    key in f && f[key].Arr? && value in f[key].a
  }

  /** `filterContains` is a test on `filterValue`: it holds of an array value that includes `value`, and of nothing else. */
  lemma ContainsReadsValue(f: Record, key: string, value: Json)
    ensures Contains(f, key, value) <==> Value(f, key).Arr? && value in Value(f, key).a
    ensures Contains(f, key, value) <==> value in ArrayAt(f, key)
  {
  }

  /**
   * Toggling a value that is present splices out its first occurrence:
   * the elements before and after it keep their order, and the key is
   * dropped when nothing is left.
   */
  lemma ToggleRemovesFirst(f: Record, key: string, value: Json, i: nat)
    requires Truthy(value)
    requires i < |ArrayAt(f, key)| && ArrayAt(f, key)[i] == value && value !in ArrayAt(f, key)[..i]
    ensures var vals := ArrayAt(f, key);
      var rest := vals[..i] + vals[i + 1..];
      Toggled(f, key, value) == if rest == [] then Removed(f, key) else f[key := Arr(rest)]
  {
    assert IndexOf(ArrayAt(f, key), value) == i;
  }

  /**
   * Toggling a truthy value adds one occurrence of it to the key's array
   * when there was none and takes one away when there was.
   */
  lemma ToggledMultiset(f: Record, key: string, value: Json)
    requires Truthy(value)
    ensures var before := multiset(ArrayAt(f, key));
      multiset(ArrayAt(Toggled(f, key, value), key)) ==
        if value in ArrayAt(f, key) then before - multiset{value} else before + multiset{value}
  {
    var vals := ArrayAt(f, key);
    var index := IndexOf(vals, value);
    if index != -1 {
      assert vals == vals[..index] + [vals[index]] + vals[index + 1..];
    }
  }

  /**
   * After toggling a truthy value the key contains it exactly when it did
   * not before, or when it held more than one occurrence.
   */
  lemma ContainsAfterToggle(f: Record, key: string, value: Json)
    requires Truthy(value)
    ensures Contains(Toggled(f, key, value), key, value) <==>
      (!Contains(f, key, value) || multiset(ArrayAt(f, key))[value] >= 2)
  {
    ToggledMultiset(f, key, value);
    var r := Toggled(f, key, value);
    assert Contains(r, key, value) <==> value in multiset(ArrayAt(r, key));
    assert Contains(f, key, value) <==> value in multiset(ArrayAt(f, key));
  }

  /** Toggling a truthy value the key's array lacks appends it. */
  lemma ToggleAppends(f: Record, key: string, value: Json)
    requires Truthy(value) && value !in ArrayAt(f, key)
    ensures Toggled(f, key, value) == f[key := Arr(ArrayAt(f, key) + [value])]
  {
    assert IndexOf(ArrayAt(f, key), value) == -1;
  }

  /** Toggling the value that ends the key's array, and occurs nowhere else in it, drops it again. */
  lemma ToggleDropsLast(g: Record, key: string, vals: seq<Json>, value: Json)
    requires Truthy(value) && value !in vals
    requires key in g && g[key] == Arr(vals + [value])
    ensures Toggled(g, key, value) == if vals == [] then Removed(g, key) else g[key := Arr(vals)]
  {
    var grown := vals + [value];
    assert ArrayAt(g, key) == grown;
    var index := IndexOf(grown, value);
    assert index == |vals| by {
      assert grown[|vals|] == value && grown[..|vals|] == vals;
    }
    assert grown[..index] + grown[index + 1..] == vals;
  }

  /**
   * Toggling the same truthy value twice restores the record when the key
   * was absent or held a non-empty array without the value.
   */
  lemma ToggleTwice(f: Record, key: string, value: Json)
    requires Truthy(value)
    requires key !in f || (f[key].Arr? && f[key].a != [] && value !in f[key].a)
    ensures Toggled(Toggled(f, key, value), key, value) == f
  {
    var vals := ArrayAt(f, key);
    ToggleAppends(f, key, value);
    var once := f[key := Arr(vals + [value])];
    ToggleDropsLast(once, key, vals, value);
    if vals == [] {
      RemoveAfterAdd(f, key, Arr([value]));
    } else {
      RestoreAfterUpdate(f, key, Arr(vals + [value]));
    }
  }

  lemma RemoveAfterAdd(f: Record, key: string, v: Json)
    requires key !in f
    ensures Removed(f[key := v], key) == f
  {
    assert f[key := v] - {key} == f;
  }

  lemma RestoreAfterUpdate(f: Record, key: string, v: Json)
    requires key in f
    ensures f[key := v][key := f[key]] == f
  {
  }
}
