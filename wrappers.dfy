/** Option, Result and Outcome: the nullable values and the thrown exceptions of the bridge. */
module Wrappers {

  /** A Kotlin nullable value: `None` stands for `null`. */
  datatype Option<+T> = None | Some(value: T)

  /** The result of a call that either returns a value or throws. */
  datatype Result<+R, +E> = Success(value: R) | Failure(error: E)

  /** The result of a call that returns nothing or throws. */
  datatype Outcome<+E> = Pass | Fail(error: E)

  /** `m + m'` when `r` is `Success(m')`: entries written before the rest of a map was built. */
  function MergeUnder<K, V, E>(m: map<K, V>, r: Result<map<K, V>, E>): Result<map<K, V>, E>
  {
    match r
    case Success(rest) => Success(m + rest)
    case Failure(e) => Failure(e)
  }

  /** `s + s'` when `r` is `Success(s')`: elements produced before the rest of a list was built. */
  function PrependTo<T, E>(s: seq<T>, r: Result<seq<T>, E>): Result<seq<T>, E>
  {
    match r
    case Success(rest) => Success(s + rest)
    case Failure(e) => Failure(e)
  }
}
