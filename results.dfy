/** Optional values and error returns, used wherever the source returns
    `None`/`null` or raises an exception that a caller catches. */
module Results {

  datatype Option<T> = None | Some(value: T)

  datatype Result<T, E> = Ok(value: T) | Err(error: E)

  /** An HTTP error as FastAPI's `HTTPException(status_code, detail)`. */
  datatype HttpError = HttpError(status: nat, detail: string)
}
