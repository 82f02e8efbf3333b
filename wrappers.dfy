/** Optional values and the outcome of an operation that may raise. */
module Wrappers {

  datatype Option<T> = None | Some(value: T)

  /** The Python exceptions the modelled code can raise. */
  datatype Error =
    | KeyError           // `d[k]` on a dict that has no key `k`
    | IndexError         // a list or numpy index out of range
    | TypeError          // `None` stored into an integer numpy array
    | ZeroDivisionError  // an average over zero iterations

  datatype Result<T> = Success(value: T) | Failure(error: Error)

  /** `d.get(k, default)` */
  function GetOr<K, V>(d: map<K, V>, k: K, default: V): V
  {
    if k in d then d[k] else default
  }
}
