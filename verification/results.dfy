/**
 Failure-carrying datatypes used by the metrics model.
 - `Option` stands for a pandas value that may be NaN (`None` is NaN).
 - `Result` stands for a computation that may raise (`Err` is the exception).
 */
module Results {

  datatype Option<+T> = None | Some(value: T)

  datatype Result<+T, +E> = Ok(value: T) | Err(error: E)
}
