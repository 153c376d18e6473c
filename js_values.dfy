/**
 * The generic tree the XML parser hands to the feed normaliser, seen as
 * JavaScript values, together with the three pieces of JavaScript semantics
 * the normaliser relies on: truthiness, the `||` operator and `String(...)`.
 */
module JsValues {
  import opened Wrappers

  /**
   * A JavaScript value as the parser produces it. A number carries its
   * numeric value (for truthiness) and `shown`, the text JavaScript's
   * `String(...)` gives for it; the model does not compute float formatting.
   * `Builtin(name)` is a built-in function the normaliser can reach by reading
   * a property: the parser never produces one.
   */
  datatype Val =
    | Undefined
    | Null
    | Bool(b: bool)
    | Num(value: real, shown: string)
    | Str(s: string)
    | Arr(elems: seq<Val>)
    | Obj(fields: map<string, Val>)
    | Builtin(name: string)

  /** JavaScript truthiness: `undefined`, `null`, `false`, `0` and `""` are falsy. */
  predicate Truthy(v: Val) {
    match v
    case Undefined => false
    case Null => false
    case Bool(b) => b
    case Num(x, _) => x != 0.0
    case Str(s) => s != ""
    case Arr(_) => true
    case Obj(_) => true
    case Builtin(_) => true
  }

  predicate Nullish(v: Val) {
    v.Undefined? || v.Null?
  }

  /**
   * `v?.[k]`: the own property `k` of an object, `undefined` for a nullish
   * value; for a value that is not nullish it is also `v[k]`. Of the keys the
   * normaliser reads, the only one a primitive or an array inherits is `link`
   * on strings (`String.prototype.link` of Annex B of ECMAScript).
   */
  function Prop(v: Val, k: string): Val {
    match v
    case Obj(fields) => if k in fields then fields[k] else Undefined
    case Str(_) => if k == "link" then Builtin("link") else Undefined
    case _ => Undefined
  }

  /**
   * The errors a fetch can end in: TypeError, which JavaScript raises when a
   * property of `null` or `undefined` is read, and InvalidFeedFormat, the
   * normaliser's own error for a document with no feed root.
   */
  datatype Error = TypeError | InvalidFeedFormat

  /** `v[k]` without optional chaining: reading from a nullish value throws. */
  function Access(v: Val, k: string): (r: Result<Val, Error>)
    ensures r.Err? <==> Nullish(v)
    ensures r.Err? ==> r.error == TypeError
    ensures r.Ok? ==> r.value == Prop(v, k)
  {
    if Nullish(v) then Err(TypeError) else Ok(Prop(v, k))
  }

  /** JavaScript `a || b`: the left operand when truthy, otherwise the right one. */
  function Or(a: Val, b: Val): Val {
    if Truthy(a) then a else b
  }

  /** `cs[0] || cs[1] || ... || cs[n-1]`, associating to the left as JavaScript does. */
  function Chain(cs: seq<Val>): Val
    requires |cs| > 0
    decreases |cs|
  {
    if |cs| == 1 then cs[0] else Or(Chain(cs[..|cs| - 1]), cs[|cs| - 1])
  }

  /** The position of the first truthy candidate, if there is one. */
  function FirstTruthy(cs: seq<Val>): (r: Option<nat>)
    ensures r.Some? ==> r.value < |cs| && Truthy(cs[r.value])
    ensures r.Some? ==> forall j :: 0 <= j < r.value ==> !Truthy(cs[j])
    ensures r.None? <==> forall j :: 0 <= j < |cs| ==> !Truthy(cs[j])
    decreases |cs|
  {
    if |cs| == 0 then None
    else if Truthy(cs[0]) then Some(0)
    else match FirstTruthy(cs[1..])
      case None => None
      case Some(i) => Some(i + 1)
  }

  /** The contract of FirstTruthy pins down its result: k is found exactly when it is the least truthy position. */
  lemma FirstTruthyAt(cs: seq<Val>, k: nat)
    requires k < |cs|
    ensures FirstTruthy(cs) == Some(k) <==> Truthy(cs[k]) && forall j :: 0 <= j < k ==> !Truthy(cs[j])
  {
  }

  /** The first truthy candidate, or `d` when every candidate is falsy. */
  function FirstTruthyOr(cs: seq<Val>, d: Val): Val {
    match FirstTruthy(cs)
    case Some(i) => cs[i]
    case None => d
  }

  lemma {:induction false} FirstTruthyOrSnoc(init: seq<Val>, last: Val, d: Val)
    ensures FirstTruthyOr(init + [last], d) == Or(FirstTruthyOr(init, last), d)
    decreases |init|
  {
    if |init| > 0 && !Truthy(init[0]) {
      assert (init + [last])[1..] == init[1..] + [last];
      FirstTruthyOrSnoc(init[1..], last, d);
    }
  }

  /**
   * A chain of `||` ending in a default yields the first truthy candidate,
   * and falls back to the default exactly when every candidate before it is falsy.
   */
  lemma {:induction false} ChainIsFirstTruthy(cs: seq<Val>, d: Val)
    ensures Chain(cs + [d]) == FirstTruthyOr(cs, d)
    decreases |cs|
  {
    if |cs| > 0 {
      var init, last := cs[..|cs| - 1], cs[|cs| - 1];
      assert (cs + [d])[..|cs|] == cs;
      assert cs == init + [last];
      ChainIsFirstTruthy(init, last);
      FirstTruthyOrSnoc(init, last, d);
    }
  }

  /** The element list of `Array.prototype.join(",")`: nullish elements print as "". */
  function JoinElems(vs: seq<Val>): string
    decreases vs
  {
    if |vs| == 0 then ""
    else
      var head := if Nullish(vs[0]) then "" else ToStr(vs[0]);
      if |vs| == 1 then head else head + "," + JoinElems(vs[1..])
  }

  /**
   * JavaScript `String(v)`. A number prints as its carried rendering; an array
   * prints as its elements joined by commas; a plain object as "[object Object]";
   * a built-in function as V8 prints its source text.
   */
  function ToStr(v: Val): (r: string)
    ensures v.Str? ==> r == v.s
    decreases v
  {
    match v
    case Undefined => "undefined"
    case Null => "null"
    case Bool(b) => if b then "true" else "false"
    case Num(_, shown) => shown
    case Str(s) => s
    case Arr(vs) => JoinElems(vs)
    case Obj(_) => "[object Object]"
    case Builtin(name) => "function " + name + "() { [native code] }"
  }
}
