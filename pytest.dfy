/**
 The pieces of Python and pytest that the suite's test bodies touch:
 optional values, the exceptions a test can raise, the verdict of one test
 function, an attribute slot that may never have been assigned, and the
 mutable docstring of a test function.
 */
module Pytest {

  datatype Option<+T> = None | Some(value: T)

  /** The Python exceptions the modelled code can raise. */
  datatype PyError =
    | IndexError      // `mail[0]` on an empty mail list
    | AttributeError  // reading an attribute never assigned, `.lower()`/`.append` on the wrong type
    | TypeError       // `rule in None`, `None['violations']`

  datatype Result<+T> = Ok(value: T) | Err(error: PyError)

  /** What happens to one test function: it passes, an `assert` fails (with
      the assertion's message when it has one), or an exception escapes. */
  datatype Verdict<+M> = Pass | Fail(message: Option<M>) | Raised(error: PyError)

  /** An attribute that test code assigns on a shared object: never
      assigned, or assigned a value that may be `None`. */
  datatype Slot<+T> = Unset | Stored(content: Option<T>)

  /** A test function object; its `__doc__` may be reassigned by test code. */
  class TestFunction {
    var doc: Option<string>

    constructor (doc: Option<string>)
      ensures this.doc == doc
    {
      this.doc := doc;
    }
  }
}
