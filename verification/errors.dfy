/** Optional values, and results that carry the exception `LKHZ` raises
    when an operation fails. */
module Errors {

  datatype Option<+T> = None | Some(value: T)

  /** The exceptions the modelled code can raise on its own inputs. */
  datatype Error =
    | ValueError          // int() given text that is not a decimal integer
    | IndexError          // a split field that does not exist
    | ZeroDivisionError   // a division by zero elapsed seconds or a zero CONFIG_HZ
    | AttributeError      // an attribute read before any step assigned it
    | UnboundLocalError   // `btime` read although no line assigned it
    | TypeError           // arithmetic on a CONFIG_HZ that was never found

  datatype Result<+T> = Ok(value: T) | Err(error: Error)
}
