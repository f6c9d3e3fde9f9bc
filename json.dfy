/**
 * The JavaScript values that flow through the lister: the JSON data model
 * with integer numbers, and the handful of dynamic tests the code applies
 * to them (`isObject`, `isVal`, truthiness, `Number.isInteger`,
 * `Object.assign({}, v)`, `Array.prototype.indexOf`).
 */
module Json {
  import Numerals

  datatype Json =
    | Null
    | Bool(b: bool)
    | Int(i: int)
    | Str(s: string)
    | Arr(a: seq<Json>)
    | Obj(m: map<string, Json>)

  type Record = map<string, Json>

  /** JavaScript truthiness: `false`, `0`, `""`, `null` and `undefined` are falsy. */
  predicate Truthy(v: Json) {
    match v
    case Null => false
    case Bool(b) => b
    case Int(i) => i != 0
    case Str(s) => s != ""
    case Arr(_) => true
    case Obj(_) => true
  }

  /** `isObject`: `v && typeof v == "object"`, so arrays count as objects. */
  predicate IsObject(v: Json) {
    v.Arr? || v.Obj?
  }

  /** `isVal`: `v != null && v != undefined`. */
  predicate IsVal(v: Json) {
    !v.Null?
  }

  /**
   * The property read `m[key]`. A missing key reads as `undefined`, which
   * is represented by `Null`: every test the lister applies to a property
   * (`Number.isInteger`, truthiness, `isVal`, `isObject`, `includes`)
   * treats `undefined` and `null` alike, and the lister never stores it.
   */
  function Prop(m: Record, key: string): (v: Json)
    ensures v != Null ==> key in m && m[key] == v
    ensures key in m ==> v == m[key]
  {
    if key in m then m[key] else Null
  }

  /** The own indexed properties of an array: `"0"`, `"1"`, ... */
  function Indexed(a: seq<Json>): (r: Record)
    ensures forall i :: 0 <= i < |a| ==> Numerals.Decimal(i) in r
    decreases |a|
  {
    if a == [] then map[]
    else Indexed(a[..|a| - 1])[Numerals.Decimal(|a| - 1) := a[|a| - 1]]
  }

  /** Index `i` holds element `i`. */
  lemma {:induction false} IndexedValues(a: seq<Json>)
    ensures forall i :: 0 <= i < |a| ==> Indexed(a)[Numerals.Decimal(i)] == a[i]
    decreases |a|
  {
    if a != [] {
      var n := |a| - 1;
      var p := Indexed(a[..n]);
      IndexedValues(a[..n]);
      forall i | 0 <= i < n
        ensures Indexed(a)[Numerals.Decimal(i)] == a[i]
      {
        NumeralBelow(i, n);
        assert p[Numerals.Decimal(i)] == a[..n][i];
      }
    }
  }

  /** The index keys of a length-`n` array: `"0"` up to the numeral of `n - 1`. */
  function IndexKeys(n: nat): set<string> {
    set i | 0 <= i < n :: Numerals.Decimal(i)
  }

  /** There is no key but the indices. */
  lemma {:induction false} IndexedKeys(a: seq<Json>)
    ensures Indexed(a).Keys == IndexKeys(|a|)
    decreases |a|
  {
    if a != [] {
      var n := |a| - 1;
      IndexedKeys(a[..n]);
      IndexKeysStep(n);
    }
  }

  lemma IndexKeysStep(n: nat)
    ensures IndexKeys(n + 1) == IndexKeys(n) + {Numerals.Decimal(n)}
  {
    var whole, front := IndexKeys(n + 1), IndexKeys(n);
    forall x | x in whole
      ensures x in front || x == Numerals.Decimal(n)
    {
      var i :| 0 <= i < n + 1 && x == Numerals.Decimal(i);
      if i < n {
        assert x in front;
      }
    }
    forall x | x in front
      ensures x in whole
    {
      var i :| 0 <= i < n && x == Numerals.Decimal(i);
    }
    assert Numerals.Decimal(n) in whole;
  }

  lemma NumeralBelow(i: nat, n: nat)
    requires i < n
    ensures Numerals.Decimal(i) != Numerals.Decimal(n)
  {
    if Numerals.Decimal(i) == Numerals.Decimal(n) {
      Numerals.DecimalInjective(i, n);
    }
  }

  /** The characters of a string as the one-character strings that index reads give. */
  function CharStrings(s: string): (r: seq<Json>)
    ensures |r| == |s|
    ensures forall i :: 0 <= i < |s| ==> r[i] == Str([s[i]])
  {
    seq(|s|, i requires 0 <= i < |s| => Str([s[i]]))
  }

  /** JavaScript's tests nest: an object is truthy, and a truthy value is neither null nor undefined. */
  lemma TestsNest(v: Json)
    ensures IsObject(v) ==> Truthy(v)
    ensures Truthy(v) ==> IsVal(v)
    ensures v == Null ==> !Truthy(v) && !IsVal(v) && !IsObject(v)
  {
  }

  /**
   * `Object.assign({}, v)`: a fresh record holding the own enumerable
   * properties of `v`. Null, booleans and numbers have none; an array and
   * a string have one per index, holding the element or the character.
   */
  function ObjectAssign(v: Json): (r: Record)
    ensures v.Obj? ==> r == v.m
    ensures v.Null? || v.Bool? || v.Int? || v == Str("") || v == Arr([]) ==> r == map[]
    ensures v.Arr? ==> forall i :: 0 <= i < |v.a| ==> Numerals.Decimal(i) in r && r[Numerals.Decimal(i)] == v.a[i]
    ensures v.Arr? ==> r.Keys == IndexKeys(|v.a|)
    ensures v.Str? ==> forall i :: 0 <= i < |v.s| ==> Numerals.Decimal(i) in r && r[Numerals.Decimal(i)] == Str([v.s[i]])
    ensures v.Str? ==> r.Keys == IndexKeys(|v.s|)
  {
    match v
    case Obj(m) => m
    case Arr(a) =>
      IndexedValues(a);
      IndexedKeys(a);
      Indexed(a)
    case Str(s) =>
      IndexedValues(CharStrings(s));
      IndexedKeys(CharStrings(s));
      Indexed(CharStrings(s))
    case _ => map[]
  }

  /**
   * `a.indexOf(v)`: the first position holding `v`, or -1. Strict equality
   * on objects compares references; values here compare structurally.
   */
  function IndexOf(a: seq<Json>, v: Json): (i: int)
    ensures -1 <= i < |a|
    ensures i == -1 <==> v !in a
    ensures 0 <= i ==> a[i] == v && v !in a[..i]
    decreases |a|
  {
    if a == [] then -1
    else if a[0] == v then 0
    else
      var j := IndexOf(a[1..], v);
      if j == -1 then -1 else j + 1
  }
}
