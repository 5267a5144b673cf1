/** Failure-carrying result types shared by every module of the model. */
module Wrappers {

  /** A value that may be absent; Java's `null` is `None`. */
  datatype Option<T> = None | Some(value: T)

  /** Either a value or the exception the Java code would throw instead. */
  datatype Result<T> = Ok(value: T) | Err(error: Exception)

  /** The Java and Lua exceptions the modelled code can raise. */
  datatype Exception =
    | IllegalArgument(message: string)
    | IllegalState(message: string)
    | NullPointer
    | BufferUnderflow
    | BufferOverflow
    | IndexOutOfBounds
    | LuaRuntime(message: string)
    /** A JNLua `check*` call rejected the argument at this stack position. */
    | BadArgument(position: int)
}
