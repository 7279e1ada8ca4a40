/** Optional values and fallible results. An `Err` carries the message of the
    exception the renderer would throw at that point; every such exception is
    fatal to the process. */
module Wrappers {

  datatype Option<+T> = None | Some(value: T)

  datatype Result<+T> = Ok(value: T) | Err(error: string)
}
