/**
 * JavaScript values as the store slices and utilities see them: parsed
 * JSON bodies, action payloads and the values held in state, together with
 * the few operators the source applies to them (truthiness, `||`, `??`,
 * `===`, property reads, property writes and object spread).
 */
module JsValue {
  import opened JsText

  datatype Option<T> = None | Some(value: T)

  /** How a JavaScript evaluation ends: with a value, or by throwing a
      TypeError (reading a property of null or undefined, or destructuring
      one of them). */
  datatype Completion<T> = Normal(value: T) | Threw

  /** A JavaScript value. Numbers are integers; a function is known only by
      an opaque reference. */
  datatype Value =
    | Undefined
    | Null
    | Bool(b: bool)
    | Num(n: int)
    | Str(s: string)
    | Arr(items: seq<Value>)
    | Obj(props: seq<Prop>)
    | Func(ref: nat)

  /** One own property of an object; an object lists them in insertion order. */
  datatype Prop = Prop(key: string, val: Value)

  predicate Nullish(v: Value) { v.Undefined? || v.Null? }

  /** ToBoolean: the falsy values are undefined, null, false, 0 and "". */
  predicate Truthy(v: Value) {
    match v
    case Undefined => false
    case Null => false
    case Bool(b) => b
    case Num(n) => n != 0
    case Str(s) => s != ""
    case _ => true
  }

  /** `a || b` */
  function Or(a: Value, b: Value): Value { if Truthy(a) then a else b }

  /** `a ?? b` */
  function Coalesce(a: Value, b: Value): Value { if Nullish(a) then b else a }

  /** `typeof v === 'object'`, which holds of null and of arrays too. */
  predicate IsTypeofObject(v: Value) { v.Null? || v.Arr? || v.Obj? }

  /** `a === b`. Arrays and objects compare by reference; every one of them in
      the model comes from its own JSON parse or literal, so none is `===` to
      another. */
  predicate StrictEquals(a: Value, b: Value) {
    match (a, b)
    case (Undefined, Undefined) => true
    case (Null, Null) => true
    case (Bool(x), Bool(y)) => x == y
    case (Num(x), Num(y)) => x == y
    case (Str(x), Str(y)) => x == y
    case (Func(x), Func(y)) => x == y
    case _ => false
  }

  // ---------------------------------------------------------------- numbers as text

  function DigitChar(d: nat): char
    requires d < 10
  {
    (48 + d) as char
  }

  /** The decimal numeral of a natural number. */
  function NatToString(n: nat): (s: string)
    ensures s != []
    ensures forall i :: 0 <= i < |s| ==> IsAsciiDigit(s[i])
  {
    if n < 10 then [DigitChar(n)] else NatToString(n / 10) + [DigitChar(n % 10)]
  }

  /** `String(i)` for an integer. */
  function IntToString(i: int): string {
    if i < 0 then "-" + NatToString(-i) else NatToString(i)
  }

  /** ToString, as template literals, `+` on strings and property keys apply
      it. The source text of a function is not modelled. */
  function ToJsString(v: Value): string {
    match v
    case Undefined => "undefined"
    case Null => "null"
    case Bool(b) => if b then "true" else "false"
    case Num(n) => IntToString(n)
    case Str(s) => s
    case Arr(items) =>
      Join(seq(|items|, i requires 0 <= i < |items| =>
                 if Nullish(items[i]) then "" else ToJsString(items[i])), ",")
    case Obj(_) => "[object Object]"
    case Func(_) => "function"
  }

  // ---------------------------------------------------------------- properties

  function Keys(props: seq<Prop>): seq<string> {
    seq(|props|, i requires 0 <= i < |props| => props[i].key)
  }

  /** Every key occurs once, as in every JavaScript object. */
  predicate DistinctKeys(props: seq<Prop>) {
    forall i, j :: 0 <= i < j < |props| ==> props[i].key != props[j].key
  }

  /** The value of the first property named k. */
  function Lookup(props: seq<Prop>, k: string): Option<Value> {
    if props == [] then None
    else if props[0].key == k then Some(props[0].val)
    else Lookup(props[1..], k)
  }

  /** The value of the last property named k: of several, the latest wins. */
  function LastValue(props: seq<Prop>, k: string): Option<Value> {
    if props == [] then None
    else if props[|props| - 1].key == k then Some(props[|props| - 1].val)
    else LastValue(props[..|props| - 1], k)
  }

  /** `obj[k] = v`: overwrites the property in place, or appends it as the
      newest key. */
  function SetProp(props: seq<Prop>, k: string, v: Value): seq<Prop> {
    if props == [] then [Prop(k, v)]
    else if props[0].key == k then [Prop(k, v)] + props[1..]
    else [props[0]] + SetProp(props[1..], k, v)
  }

  /** `{...target, ...source}`: the properties of source assigned to a copy of
      target one after the other, in their order. */
  function Assign(target: seq<Prop>, source: seq<Prop>): seq<Prop>
    decreases |source|
  {
    if source == [] then target
    else
      var last := source[|source| - 1];
      SetProp(Assign(target, source[..|source| - 1]), last.key, last.val)
  }

  /** The own enumerable properties of a value, as object spread and
      `Object.entries` list them: an array and a string contribute one
      property per index. */
  function OwnProps(v: Value): seq<Prop> {
    match v
    case Obj(props) => props
    case Arr(items) => seq(|items|, i requires 0 <= i < |items| => Prop(NatToString(i), items[i]))
    case Str(s) => seq(|s|, i requires 0 <= i < |s| => Prop(NatToString(i), Str([s[i]])))
    case _ => []
  }

  /** `v?.k`; and `v.k` on a value that is neither null nor undefined.
      Properties inherited from a prototype (`length`, methods) are not
      modelled. */
  function OptGet(v: Value, k: string): Value {
    match Lookup(OwnProps(v), k)
    case Some(x) => x
    case None => Undefined
  }

  /** `v.k`, which throws on null and undefined. */
  function Get(v: Value, k: string): Completion<Value> {
    if Nullish(v) then Threw else Normal(OptGet(v, k))
  }

  // ---------------------------------------------------------------- lemmas

  /** Writing k changes what k reads and nothing else. */
  lemma {:induction false} LookupSetProp(props: seq<Prop>, k: string, v: Value, k2: string)
    ensures Lookup(SetProp(props, k, v), k2) == if k2 == k then Some(v) else Lookup(props, k2)
  {
    if props != [] && props[0].key != k {
      LookupSetProp(props[1..], k, v, k2);
    }
  }

  /** Writing an existing key keeps the key order; a new key goes last. */
  lemma {:induction false} KeysSetProp(props: seq<Prop>, k: string, v: Value)
    ensures Keys(SetProp(props, k, v)) == if k in Keys(props) then Keys(props) else Keys(props) + [k]
  {
    if props != [] {
      assert Keys(props) == [props[0].key] + Keys(props[1..]);
      if props[0].key != k {
        KeysSetProp(props[1..], k, v);
        assert Keys(SetProp(props, k, v)) == [props[0].key] + Keys(SetProp(props[1..], k, v));
      } else {
        assert Keys(SetProp(props, k, v)) == [k] + Keys(props[1..]);
      }
    }
  }

  /** Writing a property never duplicates a key. */
  lemma {:induction false} SetPropDistinct(props: seq<Prop>, k: string, v: Value)
    requires DistinctKeys(props)
    ensures DistinctKeys(SetProp(props, k, v))
  {
    if props != [] && props[0].key != k {
      var tail := props[1..];
      var rest := SetProp(tail, k, v);
      SetPropDistinct(tail, k, v);
      KeysSetProp(tail, k, v);
      forall i | 0 <= i < |rest| ensures rest[i].key != props[0].key {
        assert Keys(rest)[i] == rest[i].key;
        if i < |tail| {
          assert Keys(rest)[i] == Keys(tail)[i] == props[i + 1].key;
        } else {
          assert Keys(rest)[i] == k;
        }
      }
      assert SetProp(props, k, v) == [props[0]] + rest;
    }
  }

  /** After a spread, a key reads its last value in source, or else its value
      in target. */
  lemma {:induction false} LookupAssign(target: seq<Prop>, source: seq<Prop>, k: string)
    ensures Lookup(Assign(target, source), k)
         == if LastValue(source, k).Some? then LastValue(source, k) else Lookup(target, k)
    decreases |source|
  {
    if source != [] {
      var last := source[|source| - 1];
      LookupAssign(target, source[..|source| - 1], k);
      LookupSetProp(Assign(target, source[..|source| - 1]), last.key, last.val, k);
    }
  }

  /** A spread never duplicates a key. */
  lemma {:induction false} AssignDistinct(target: seq<Prop>, source: seq<Prop>)
    requires DistinctKeys(target)
    ensures DistinctKeys(Assign(target, source))
    decreases |source|
  {
    if source != [] {
      var last := source[|source| - 1];
      AssignDistinct(target, source[..|source| - 1]);
      SetPropDistinct(Assign(target, source[..|source| - 1]), last.key, last.val);
    }
  }

  /** A spread keeps the keys of target first and in their order. */
  lemma {:induction false} AssignKeepsKeyOrder(target: seq<Prop>, source: seq<Prop>)
    ensures Keys(target) <= Keys(Assign(target, source))
    decreases |source|
  {
    if source != [] {
      var last := source[|source| - 1];
      var mid := Assign(target, source[..|source| - 1]);
      AssignKeepsKeyOrder(target, source[..|source| - 1]);
      KeysSetProp(mid, last.key, last.val);
    }
  }

  /** With distinct keys the first and the last property named k agree. */
  lemma {:induction false} LastValueDistinct(props: seq<Prop>, k: string)
    requires DistinctKeys(props)
    ensures LastValue(props, k) == Lookup(props, k)
  {
    if props != [] {
      if props[0].key == k {
        if |props| > 1 {
          NoLaterKey(props, k);
        }
      } else {
        LastValueSkipFirst(props, k);
        LastValueDistinct(props[1..], k);
      }
    }
  }

  /** If the first key is k, no later property is named k. */
  lemma NoLaterKey(props: seq<Prop>, k: string)
    requires DistinctKeys(props) && |props| > 1 && props[0].key == k
    ensures LastValue(props, k) == Some(props[0].val)
  {
    KeyAbsent(props[1..], k);
    LastValueTail(props, k);
  }

  lemma {:induction false} KeyAbsent(props: seq<Prop>, k: string)
    requires forall i :: 0 <= i < |props| ==> props[i].key != k
    ensures LastValue(props, k) == None
  {
    if props != [] { KeyAbsent(props[..|props| - 1], k); }
  }

  /** LastValue looks at the first property only when no later one matches. */
  lemma {:induction false} LastValueTail(props: seq<Prop>, k: string)
    requires props != []
    ensures LastValue(props, k)
         == if LastValue(props[1..], k).Some? then LastValue(props[1..], k)
            else if props[0].key == k then Some(props[0].val) else None
  {
    var n := |props|;
    if n > 1 && props[n - 1].key != k {
      assert props[..n - 1][1..] == props[1..][..n - 2];
      LastValueTail(props[..n - 1], k);
    }
  }

  lemma LastValueSkipFirst(props: seq<Prop>, k: string)
    requires props != [] && props[0].key != k
    ensures LastValue(props, k) == LastValue(props[1..], k)
  {
    LastValueTail(props, k);
  }

  /** Spreading an object with distinct keys into an empty one copies it. */
  lemma {:induction false} AssignIntoEmpty(source: seq<Prop>)
    requires DistinctKeys(source)
    ensures Assign([], source) == source
    decreases |source|
  {
    if source != [] {
      var n := |source|;
      var init := source[..n - 1];
      AssignIntoEmpty(init);
      AppendNewKey(init, source[n - 1].key, source[n - 1].val);
      assert init + [source[n - 1]] == source;
    }
  }

  /** Writing a key that is not there appends it. */
  lemma {:induction false} AppendNewKey(props: seq<Prop>, k: string, v: Value)
    requires forall i :: 0 <= i < |props| ==> props[i].key != k
    ensures SetProp(props, k, v) == props + [Prop(k, v)]
  {
    if props != [] {
      AppendNewKey(props[1..], k, v);
    }
  }
}
