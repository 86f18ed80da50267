/** The ledger host: addresses, fixed-width integers, results and checked arithmetic. */
module Host {

  type Address = nat
  type Symbol = string

  const U32_MAX: int := 0xFFFF_FFFF
  const U64_MAX: int := 0xFFFF_FFFF_FFFF_FFFF
  const I128_MAX: int := 0x7FFF_FFFF_FFFF_FFFF_FFFF_FFFF_FFFF_FFFF
  const I128_MIN: int := -I128_MAX - 1

  type U32 = x: int | 0 <= x <= U32_MAX
  type U64 = x: int | 0 <= x <= U64_MAX
  type I128 = x: int | I128_MIN <= x <= I128_MAX

  datatype Option<+T> = None | Some(value: T) {
    predicate IsFailure() { None? }
    function PropagateFailure<U>(): Option<U> requires None? { None }
    function Extract(): T requires Some? { value }

    /** The value, or the error an absent value stands for. */
    function OkOr<E>(error: E): Result<T, E> {
      if Some? then Ok(value) else Err(error)
    }
  }

  datatype Result<+T, +E> = Ok(value: T) | Err(error: E) {
    predicate IsFailure() { Err? }
    function PropagateFailure<U>(): Result<U, E> requires Err? { Err(error) }
    function Extract(): T requires Ok? { value }
  }

  /** Stops with an error unless a condition holds. */
  function Need<E>(condition: bool, error: E): Result<(), E> {
    if condition then Ok(()) else Err(error)
  }

  function Get<K, V>(m: map<K, V>, k: K): Option<V> {
    if k in m then Some(m[k]) else None
  }

  function GetOr<K, V>(m: map<K, V>, k: K, default: V): V {
    if k in m then m[k] else default
  }

  predicate IsI128(x: int) { I128_MIN <= x <= I128_MAX }

  function Max(a: int, b: int): int { if a >= b then a else b }
  function Min(a: int, b: int): int { if a <= b then a else b }

  /** Division that truncates towards zero, as the source language does. */
  function TruncDiv(a: int, b: int): int
    requires b != 0
  {
    if a >= 0 then a / b else -((-a) / b)
  }

  // Checked operations: None when the exact result does not fit the width.

  function CheckedAdd(a: int, b: int): Option<int> {
    if IsI128(a + b) then Some(a + b) else None
  }

  function CheckedSub(a: int, b: int): Option<int> {
    if IsI128(a - b) then Some(a - b) else None
  }

  function CheckedMul(a: int, b: int): Option<int> {
    if IsI128(a * b) then Some(a * b) else None
  }

  function CheckedDiv(a: int, b: int): Option<int> {
    if b == 0 || !IsI128(TruncDiv(a, b)) then None else Some(TruncDiv(a, b))
  }

  function CheckedAddU64(a: int, b: int): Option<int> {
    if a + b <= U64_MAX then Some(a + b) else None
  }

  /** An entry point against its specification: a failed call changes nothing. */
  ghost predicate Refines<S, E>(spec: Result<S, E>, before: S, result: Result<(), E>, after: S) {
    match spec
    case Ok(s) => result == Ok(()) && after == s
    case Err(e) => result == Err(e) && after == before
  }

  /** The same for an entry point that also returns a value. */
  ghost predicate RefinesWith<S, T, E>(spec: Result<(S, T), E>, before: S, result: Result<T, E>, after: S) {
    match spec
    case Ok((s, v)) => result == Ok(v) && after == s
    case Err(e) => result == Err(e) && after == before
  }

  /** The state a call leaves behind. */
  ghost function After<S, E>(before: S, outcome: Result<S, E>): S {
    if outcome.Ok? then outcome.value else before
  }
}
