/** Result type for calls that can revert, and the lookups with a default that Solidity mappings perform. */
module Wrappers {

  datatype Option<+T> = None | Some(value: T)

  /** Outcome of a contract call: a value, or a revert with its reason. A revert changes nothing. */
  datatype Result<+T, +E> = Ok(value: T) | Revert(error: E) {

    predicate IsFailure() {
      Revert?
    }

    function PropagateFailure<U>(): Result<U, E>
      requires Revert?
    {
      Revert(error)
    }

    function Extract(): T
      requires Ok?
    {
      value
    }
  }

  /** `require(condition, error)`. */
  function Require<E>(condition: bool, error: E): Result<(), E> {
    if condition then Ok(()) else Revert(error)
  }

  /** Reading a Solidity mapping: a key never written holds the default value. */
  function GetOr<K, V>(m: map<K, V>, k: K, default: V): V {
    if k in m then m[k] else default
  }
}
