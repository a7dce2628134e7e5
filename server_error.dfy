/**
 * The JSON body of a failed backend response, as the error handlers read it:
 * an object whose values are either one message or an array of messages
 * (`{"error": "..."}`, `{"field": ["...", "..."]}`), in property order.
 */
module ServerError {
  import opened Js

  datatype Value = Message(text: string) | Messages(texts: seq<string>)
  datatype Entry = Entry(key: string, value: Value)
  type Body = seq<Entry>

  /** `data.key`: the value of the first entry with that key. */
  function Field(body: Body, key: string): (v: Option<Value>)
    ensures v.Some? <==> exists i :: 0 <= i < |body| && body[i].key == key
    ensures v.Some? ==> exists i :: 0 <= i < |body| && body[i] == Entry(key, v.value)
  {
    if body == [] then None
    else if body[0].key == key then Some(body[0].value)
    else Field(body[1..], key)
  }

  /** JavaScript truthiness of a value: a non-empty string, or any array. */
  predicate IsTruthy(v: Value) {
    v.Messages? || v.text != ""
  }

  /** How React draws a value as a child: a string as itself, an array as its items with nothing between them. */
  function Shown(v: Value): string {
    match v
    case Message(t) => t
    case Messages(ts) => Join(ts, "")
  }

  /**
   * `response?.data?.error` when it is truthy, passed on as it is (a string,
   * or an array of strings); None when the body, the field or its truthiness
   * is missing.
   */
  function ErrorField(data: Option<Body>): (e: Option<Value>)
    ensures e.Some? <==> data.Some? && Field(data.value, "error").Some? && IsTruthy(Field(data.value, "error").value)
    ensures e.Some? ==> e.value == Field(data.value, "error").value
  {
    match data
    case None => None
    case Some(body) =>
      match Field(body, "error")
      case Some(v) => if IsTruthy(v) then Some(v) else None
      case None => None
  }

  /** `response?.data?.error || fallback`, the rejection value of the auth thunks. */
  function ErrorOr(data: Option<Body>, fallback: string): (v: Value)
    ensures ErrorField(data).Some? ==> v == ErrorField(data).value
    ensures ErrorField(data).None? ==> v == Message(fallback)
  {
    match ErrorField(data)
    case Some(e) => e
    case None => Message(fallback)
  }

  /** One value after `.flat()`: an array contributes its elements, a string itself. */
  function Flat(v: Value): seq<string> {
    match v
    case Message(t) => [t]
    case Messages(ts) => ts
  }

  /** `Object.values(data).flat()`. */
  function FlatValues(body: Body): seq<string> {
    if body == [] then [] else Flat(body[0].value) + FlatValues(body[1..])
  }

  /** Every message of every property appears among the flattened values. */
  lemma {:induction false} FlatValuesContains(body: Body, i: nat, m: string)
    requires i < |body| && m in Flat(body[i].value)
    ensures m in FlatValues(body)
  {
    if i > 0 {
      FlatValuesContains(body[1..], i - 1, m);
    }
  }
}
