/** Option and Result values used across the model in place of JavaScript's
    `null`/`undefined` and thrown errors. */
module Wrappers {

  datatype Option<+T> = None | Some(value: T) {
    /** The value, or `default` when there is none. */
    function GetOr(default: T): T {
      match this
      case Some(v) => v
      case None => default
    }
  }

  datatype Result<+R, +E> = Success(value: R) | Failure(error: E)

  /** The value stored under `key`, or `None` when there is none (a JavaScript
      property read that may give `undefined`). */
  function Lookup<K, V>(m: map<K, V>, key: K): (r: Option<V>)
    ensures r.Some? <==> key in m
    ensures r.Some? ==> r.value == m[key]
  {
    if key in m then Some(m[key]) else None
  }
}

/** The few JavaScript value rules the client code relies on. */
module JsValues {
  import opened Wrappers

  /** A string is truthy in JavaScript exactly when it is non-empty. */
  predicate Truthy(s: Option<string>) {
    s.Some? && s.value != ""
  }

  /** `value || fallback` where `value` is a string or `undefined`: the empty
      string is falsy, so it is replaced by the fallback as well. */
  function OrElse(value: Option<string>, fallback: string): (r: string)
    ensures Truthy(value) ==> r == value.value
    ensures !Truthy(value) ==> r == fallback
    ensures fallback != "" ==> r != ""
  {
    if Truthy(value) then value.value else fallback
  }
}
