/** A JSON value as the parsed upstream payload holds it, with the few JavaScript operations the core
    applies to such values: property access, truthiness, `??`, own enumerable properties (what
    `{...v}` and `Object.entries(v)` see) and template-literal conversion `${v}`. */
module JsonModel {
  import opened Wrappers
  import JsText

  /** JSON numbers are integers here (floating point is not modelled). */
  datatype Json =
    | JNull
    | JBool(b: bool)
    | JNum(n: int)
    | JStr(s: string)
    | JArr(items: seq<Json>)
    | JObj(fields: map<string, Json>)

  /** `v.name` (or `v?.name`): an own field of a plain object; `None` for `undefined`. None of the
      property names the core reads is a member of the array or string prototypes, so only objects
      yield a value. */
  function Prop(v: Json, name: string): (r: Option<Json>)
    ensures r.Some? <==> v.JObj? && name in v.fields
    ensures r.Some? ==> r.value == v.fields[name]
  {
    if v.JObj? && name in v.fields then Some(v.fields[name]) else None
  }

  /** `v?.name` where `v` may itself be `undefined`. */
  function OptProp(v: Option<Json>, name: string): Option<Json> {
    if v.Some? then Prop(v.value, name) else None
  }

  /** ECMAScript ToBoolean. */
  predicate Truthy(v: Json) {
    match v
    case JNull => false
    case JBool(b) => b
    case JNum(n) => n != 0
    case JStr(s) => s != ""
    case JArr(_) => true
    case JObj(_) => true
  }

  /** ToBoolean of a value that may be `undefined`. */
  predicate OptTruthy(v: Option<Json>) {
    v.Some? && Truthy(v.value)
  }

  /** `v ?? fallback`. */
  function Coalesce(v: Option<Json>, fallback: Json): (r: Json)
    ensures v.Some? && !v.value.JNull? ==> r == v.value
    ensures v.None? || v.value.JNull? ==> r == fallback
  {
    if v.Some? && !v.value.JNull? then v.value else fallback
  }

  /** The own enumerable properties of `v`, keyed as JavaScript keys them: an object's fields, an
      array's elements under their decimal indices, a string's characters likewise; none for the
      other primitives. */
  function OwnProps(v: Json): (m: map<string, Json>)
    ensures v.JObj? ==> m == v.fields
  {
    match v
    case JObj(fields) => fields
    case JArr(items) => IndexKeyed(items)
    case JStr(s) => IndexKeyed(seq(|s|, i requires 0 <= i < |s| => JStr([s[i]])))
    case _ => map[]
  }

  /** The elements of a list keyed by their decimal indices. */
  function IndexKeyed(items: seq<Json>): (m: map<string, Json>)
    ensures HoldsAtIndexKeys(m, items)
    ensures OnlyIndexKeys(m, |items|)
  {
    if items == [] then map[]
    else
      var n := |items| - 1;
      var prefix := IndexKeyed(items[..n]);
      ExtendIndexKeyed(items, prefix);
      prefix[JsText.NatToString(n) := items[n]]
  }

  /** Every element is under the decimal text of its index. */
  predicate HoldsAtIndexKeys(m: map<string, Json>, items: seq<Json>) {
    forall i :: 0 <= i < |items| ==> JsText.NatToString(i) in m && m[JsText.NatToString(i)] == items[i]
  }

  /** Every key is the decimal text of an index below `n`. */
  predicate OnlyIndexKeys(m: map<string, Json>, n: nat) {
    forall k :: k in m ==> exists i :: 0 <= i < n && k == JsText.NatToString(i)
  }

  /** Keying one more element under the next index. */
  lemma ExtendIndexKeyed(items: seq<Json>, prefix: map<string, Json>)
    requires items != []
    requires HoldsAtIndexKeys(prefix, items[..|items| - 1]) && OnlyIndexKeys(prefix, |items| - 1)
    ensures var n := |items| - 1;
            var m := prefix[JsText.NatToString(n) := items[n]];
            HoldsAtIndexKeys(m, items) && OnlyIndexKeys(m, |items|)
  {
    var n := |items| - 1;
    var m := prefix[JsText.NatToString(n) := items[n]];
    IndexKeysDiffer(n);
    forall i | 0 <= i < |items| ensures JsText.NatToString(i) in m && m[JsText.NatToString(i)] == items[i] {
      if i < n {
        assert items[..n][i] == items[i];
      }
    }
    forall k | k in m ensures exists i :: 0 <= i < |items| && k == JsText.NatToString(i) {
      if k != JsText.NatToString(n) {
        assert k in prefix;
      }
    }
  }

  /** Distinct indices have distinct keys. */
  lemma IndexKeysDiffer(n: nat)
    ensures forall i :: 0 <= i < n ==> JsText.NatToString(i) != JsText.NatToString(n)
  {
    forall i | 0 <= i < n ensures JsText.NatToString(i) != JsText.NatToString(n) {
      if JsText.NatToString(i) == JsText.NatToString(n) {
        JsText.NatToStringInjective(i, n);
      }
    }
  }

  /** `${v}` (String(v)) for a JSON value: arrays join their elements with commas, writing `null`
      elements as the empty text; objects become "[object Object]". */
  function ToJsString(v: Json): string
    decreases v
  {
    match v
    case JNull => "null"
    case JBool(b) => if b then "true" else "false"
    case JNum(n) => JsText.IntToString(n)
    case JStr(s) => s
    case JObj(_) => "[object Object]"
    case JArr(items) =>
      JoinWithCommas(seq(|items|, i requires 0 <= i < |items| =>
        if items[i].JNull? then "" else ToJsString(items[i])))
  }

  function JoinWithCommas(parts: seq<string>): string {
    if parts == [] then ""
    else if |parts| == 1 then parts[0]
    else parts[0] + "," + JoinWithCommas(parts[1..])
  }

  /** `${v}` for a value that may be `undefined`. */
  function TemplateString(v: Option<Json>): string {
    if v.Some? then ToJsString(v.value) else "undefined"
  }
}
