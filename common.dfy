/** Small value types shared by every module: optional values, results, Go's
    error values and bytes. */
module Common {

  datatype Option<+T> = None | Some(value: T)

  datatype Result<+R, +E> = Success(value: R) | Failure(error: E)

  /** A Go `error` value, seen only through the text its Error() method returns. */
  datatype Error = Error(text: string)

  /** One octet of a response body. */
  type byte = b: int | 0 <= b < 256
}
