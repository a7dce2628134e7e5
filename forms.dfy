/** What every form's submit handler does with the result of its validator. */
module Forms {
  import opened Js

  /** Field to message; a field holding "" is a cleared error. */
  type Errors<K> = map<K, string>

  /**
   * The outcome of a submit: either the validator's non-empty error map is
   * shown, or the payload is sent.
   */
  datatype Submission<K, P> = Blocked(errors: Errors<K>) | Sent(payload: P)

  /** The message held for a field, if the map has an entry for it. */
  function MessageFor<K>(errors: Errors<K>, key: K): Option<string> {
    if key in errors then Some(errors[key]) else None
  }

  /** `if (check fails) newErrors[key] = message`: a failed check's message is recorded under its field. */
  function Record<K(!new)>(errors: Errors<K>, key: K, failure: Option<string>): (r: Errors<K>)
    ensures MessageFor(r, key) == if failure.Some? then failure else MessageFor(errors, key)
    ensures forall k :: k != key ==> MessageFor(r, k) == MessageFor(errors, k)
    ensures |errors| <= |r|
  {
    if failure.Some? then errors[key := failure.value] else errors
  }

  /** A map has no entries exactly when no field has a message. */
  lemma EmptyIffNoMessages<K>(errors: Errors<K>)
    ensures |errors| == 0 <==> forall k :: MessageFor(errors, k).None?
  {
    if |errors| != 0 {
      var k :| k in errors;
      assert MessageFor(errors, k).Some?;
    }
  }

  /** `if (!value)`: a required input fails when it is empty; it is not trimmed, so "  " passes. */
  function Required(value: string, message: string): (r: Option<string>)
    ensures r.Some? <==> value == ""
    ensures r.Some? ==> r.value == message
  {
    if value == "" then Some(message) else None
  }

  /** `if (!value.trim())`: a text input fails when nothing visible is left once it is trimmed. */
  function NotBlank(value: string, message: string): (r: Option<string>)
    ensures r.Some? <==> IsBlank(value)
    ensures r.Some? <==> forall i :: 0 <= i < |value| ==> IsWhitespace(value[i])
    ensures r.Some? ==> r.value == message
  {
    BlankIffAllWhitespace(value);
    if IsBlank(value) then Some(message) else None
  }

  /** `if (!n || n < 1)`: a numeric input fails when it is empty or below 1. */
  function AtLeastOne(n: Option<int>, message: string): (r: Option<string>)
    ensures r.Some? <==> n.None? || n.value < 1
    ensures r.Some? ==> r.value == message
  {
    if n.None? || n.value < 1 then Some(message) else None
  }

  /** `{ ...errors, [name]: '' }`: the entry for one field is cleared. */
  function ClearError<K>(errors: Errors<K>, key: K): (r: Errors<K>)
    ensures r.Keys == errors.Keys + {key} && r[key] == ""
    ensures forall k :: k in errors && k != key ==> r[k] == errors[k]
  {
    errors[key := ""]
  }
}
