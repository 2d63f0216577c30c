/** Small value types and JavaScript idioms shared by every module of the model. */
module Base {

  datatype Option<T> = None | Some(value: T)

  /** The outcome of a backend call that either completes or throws with a message. */
  datatype Outcome = Ok | Err(message: string)

  /** JavaScript `s || fallback` on an optional string: a missing value and the empty string are both falsy. */
  function OrElse(s: Option<string>, fallback: string): string
  {
    if s.Some? && s.value != "" then s.value else fallback
  }

  /** JavaScript `n || 0` on an optional number. */
  function OrZero(n: Option<int>): int
  {
    if n.Some? then n.value else 0
  }

  /** No string occurs twice. */
  predicate Distinct(s: seq<string>)
  {
    forall i, j :: 0 <= i < j < |s| ==> s[i] != s[j]
  }

  /** JavaScript `s.startsWith(prefix)`. */
  predicate StartsWith(s: string, prefix: string)
  {
    |prefix| <= |s| && s[..|prefix|] == prefix
  }
}
