/** Types shared by every module of the recompiler model. */
module Common {

  /** One byte of the mapped Mach-O file. */
  newtype byte = x: int | 0 <= x < 256

  datatype Option<T> = None | Some(value: T)

  /** Why an operation gave up. Each one is, in the program, either an `Err` that a
      caller unwraps (and so a panic) or an `unwrap` on an absent value. */
  datatype Error =
    | UnexpectedEof      // `read_exact` ran past the end of the mapped file
    | MalformedXml       // the event reader has no further event to hand out
    | NoCurrentModule    // a `cmd` payload arrived before any `name` payload

  datatype Result<T> = Ok(value: T) | Err(error: Error)
}
