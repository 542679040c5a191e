/**
 * The JavaScript values the service handles without checking their shape: whatever
 * `JSON.parse` returns (the source declares it `any`), JavaScript truthiness and `||`,
 * property access with its TypeError on `null` and `undefined`, and object spread.
 */
module JsValues {
  import opened Wrappers
  import opened JsStrings

  /**
   * A JavaScript value. `JSON.parse` yields every case but `Undefined`. Numbers are
   * rationals: negative zero is zero (both are falsy) and the infinities are not
   * represented. Strings are sequences of characters, not of UTF-16 code units. An
   * object's own enumerable properties are a map (their order is not modelled).
   */
  datatype Value =
    | Undefined
    | Null
    | Bool(b: bool)
    | Num(n: real)
    | Str(s: string)
    | Arr(items: seq<Value>)
    | Obj(fields: map<string, Value>)

  /** The empty object `{}`. */
  const EmptyObject: Value := Obj(map[])

  /** `!!v`: `undefined`, `null`, `false`, `0` and `""` are falsy, everything else truthy. */
  predicate Truthy(v: Value) {
    match v
    case Undefined => false
    case Null => false
    case Bool(b) => b
    case Num(n) => n != 0.0
    case Str(s) => s != ""
    case Arr(_) => true
    case Obj(_) => true
  }

  /** `a || b`: `a` when it is truthy, otherwise `b`. */
  function Or(a: Value, b: Value): Value {
    if Truthy(a) then a else b
  }

  /** Reading any property of `null` or `undefined` throws a TypeError. */
  predicate IsNullish(v: Value) {
    v.Undefined? || v.Null?
  }

  /**
   * `v.key` for a non-nullish `v` and one of the record keys the service reads: an own
   * property of an object, `undefined` otherwise (none of those keys names a property of
   * arrays, strings, numbers or booleans).
   */
  function Field(v: Value, key: string): Value
    requires !IsNullish(v)
  {
    if v.Obj? && key in v.fields then v.fields[key] else Undefined
  }

  /** The string `undefined` or a URL that an optional string field denotes. */
  function OptionalString(u: Option<string>): Value {
    match u
    case None => Undefined
    case Some(s) => Str(s)
  }

  /** The keys `"0"`, `"1"`, ... of the first `n` indices, as spread writes them. */
  function IndexKeys(n: nat): set<string> {
    set i | 0 <= i < n :: NatToString(i)
  }

  /** The own properties `{"0": items[0], "1": items[1], ...}` of an array-like value. */
  function IndexedEntries(items: seq<Value>): (m: map<string, Value>)
    decreases |items|
  {
    if |items| == 0 then map[]
    else IndexedEntries(items[..|items| - 1])[NatToString(|items| - 1) := items[|items| - 1]]
  }

  /** The keys of the indexed entries are exactly the decimal indices. */
  lemma {:induction false} IndexedEntriesKeys(items: seq<Value>)
    ensures IndexedEntries(items).Keys == IndexKeys(|items|)
    decreases |items|
  {
    if |items| > 0 {
      var n := |items| - 1;
      IndexedEntriesKeys(items[..n]);
      assert IndexKeys(n + 1) == IndexKeys(n) + {NatToString(n)};
    }
  }

  /** The entry under the decimal text of index `i` is element `i`: later ones overwrite nothing. */
  lemma {:induction false} IndexedEntriesAt(items: seq<Value>, i: nat)
    requires i < |items|
    ensures NatToString(i) in IndexedEntries(items)
    ensures IndexedEntries(items)[NatToString(i)] == items[i]
    decreases |items|
  {
    var n := |items| - 1;
    if i < n {
      IndexedEntriesAt(items[..n], i);
      NatToStringInjective(i, n);
    }
  }

  /** The one-character strings of `s`, as spreading a string produces them. */
  function Characters(s: string): seq<Value> {
    seq(|s|, i requires 0 <= i < |s| => Str([s[i]]))
  }

  /**
   * The properties `{...v}` copies: an object's own properties, the indexed elements of
   * an array or the characters of a string; nothing for `undefined`, `null`, booleans and
   * numbers. Apart from an object's, every spread key is a decimal index.
   */
  function Spread(v: Value): (r: map<string, Value>)
    ensures v.Arr? ==> r.Keys == IndexKeys(|v.items|)
    ensures v.Str? ==> r.Keys == IndexKeys(|v.s|)
    ensures !v.Obj? ==> forall k :: k in r ==> |k| >= 1 && IsDigit(k[0])
  {
    match v
    case Obj(fields) => fields
    case Arr(items) =>
      IndexedEntriesKeys(items);
      IndexedEntries(items)
    case Str(s) =>
      IndexedEntriesKeys(Characters(s));
      IndexedEntries(Characters(s))
    case _ => map[]
  }

  // ---------------------------------------------------------------------------
  // Lemmas

  /**
   * A key that starts with something other than a digit is spread exactly when the value
   * is an object holding it; spread then copies the value `v.key` reads.
   */
  lemma SpreadNamedKey(v: Value, k: string)
    requires !IsNullish(v) && |k| >= 1 && !IsDigit(k[0])
    ensures k in Spread(v) <==> v.Obj? && k in v.fields
    ensures k in Spread(v) ==> Spread(v)[k] == Field(v, k)
    ensures k !in Spread(v) ==> Field(v, k) == Undefined
  {
  }
}
