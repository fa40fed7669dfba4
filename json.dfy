/** JavaScript values as the configuration loader and the `package.json`
    edit see them, with the two operations they rely on: truthiness (for
    `x || {}`) and object spread (`{...a, ...b}`). */
module Json {
  import opened Strings

  datatype Value =
    | Undefined
    | Null
    | Bool(b: bool)
    | Num(n: int)
    | Str(s: string)
    | Arr(elems: seq<Value>)
    | Obj(fields: map<string, Value>)

  /** The values JavaScript treats as false. */
  predicate Falsy(v: Value) {
    v == Undefined || v == Null || v == Bool(false) || v == Num(0) || v == Str("")
  }

  /** `v?.[k]`: the property of an object, `undefined` for anything else. */
  function Get(v: Value, k: string): Value {
    if v.Obj? && k in v.fields then v.fields[k] else Undefined
  }

  /** The properties `{...v}` copies out of `v`: an object's own keys, the
      index keys of a string (one character each) or an array, and nothing
      from any other value. */
  function Props(v: Value): map<string, Value> {
    match v
    case Obj(f) => f
    case Str(s) => Indexed(seq(|s|, i requires 0 <= i < |s| => Str([s[i]])))
    case Arr(a) => Indexed(a)
    case _ => map[]
  }

  /** The index keys `"0"`, `"1"`, ... of a sequence, each with its element. */
  function Indexed(xs: seq<Value>): (m: map<string, Value>)
    ensures forall i :: 0 <= i < |xs| ==> Decimal(i) in m && m[Decimal(i)] == xs[i]
    ensures forall k :: k in m ==> exists i :: 0 <= i < |xs| && k == Decimal(i)
  {
    DecimalInjective();
    map i | 0 <= i < |xs| :: Decimal(i) := xs[i]
  }

  /** Element `i` of an array is spread under the key `"i"`. */
  lemma ArrayIndexProp(a: seq<Value>, i: nat)
    requires i < |a|
    ensures Decimal(i) in Props(Arr(a)) && Props(Arr(a))[Decimal(i)] == a[i]
  {
  }

  /** Character `i` of a string is spread under the key `"i"`. */
  lemma StringIndexProp(s: string, i: nat)
    requires i < |s|
    ensures Decimal(i) in Props(Str(s)) && Props(Str(s))[Decimal(i)] == Str([s[i]])
  {
  }

  /** A later spread wins. */
  lemma GetUpdateOther(m: map<string, Value>, j: string, x: Value, k: string)
    requires k != j
    ensures Get(Obj(m[j := x]), k) == Get(Obj(m), k)
  {
  }

  lemma GetUnionRight(m1: map<string, Value>, m2: map<string, Value>, k: string)
    requires k in m2
    ensures Get(Obj(m1 + m2), k) == m2[k]
  {
  }

  /** `{...(v || {})}`: the same properties, since a falsy value has none. */
  function PropsOr(v: Value): map<string, Value> {
    if Falsy(v) then map[] else Props(v)
  }
}
