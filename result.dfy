/**
 * Turning a raw status into an outcome. The crate defines this conversion
 * in its status module; the model fixes it as: SUCCESS becomes `Ok`, any
 * other status becomes an `Err` holding a payload-free error with that
 * status. Warnings are therefore errors until a caller handles them.
 */
module Results {
  import opened StatusCodes
  import opened Errors

  datatype Option<T> = None | Some(value: T)

  datatype Result<T, D> = Ok(value: T) | Err(error: Error<D>)

  /** The status an outcome stands for. */
  function StatusOfResult<T, D>(r: Result<T, D>): Status {
    match r
    case Ok(_) => SUCCESS
    case Err(e) => e.status
  }

  /** `status.into_with_val(|| val)`. */
  function IntoWithVal<T>(status: Status, val: T): (r: Result<T, ()>)
    ensures r.Ok? <==> status == SUCCESS
    ensures r.Ok? ==> r.value == val
    ensures r.Err? ==> r.error.Valid() && r.error == FromStatus(status)
  {
    if status == SUCCESS then Ok(val) else Err(FromStatus(status))
  }

  /** `status.into()`, the outcome without a value. */
  function Into(status: Status): (r: Result<(), ()>)
    ensures r.Ok? <==> status == SUCCESS
    ensures r.Err? ==> r.error == FromStatus(status)
  {
    IntoWithVal(status, ())
  }

  /** `result.handle_warning(op)`: `op` sees only errors whose status is a warning. */
  function HandleWarning<T, D>(r: Result<T, D>, op: Error<D> -> Result<T, D>): (r': Result<T, D>)
    ensures r.Err? && IsWarning(r.error.status) ==> r' == op(r.error)
    ensures !(r.Err? && IsWarning(r.error.status)) ==> r' == r
  {
    match r
    case Ok(_) => r
    case Err(e) => if IsWarning(e.status) then op(e) else r
  }

  /** Converting a status and reading the status back gives the same status. */
  lemma IntoIsLossless<T>(status: Status, val: T)
    ensures StatusOfResult(IntoWithVal(status, val)) == status
  {
  }
}
