/** Small datatypes shared by the whole model. */
module Wrappers {

  /** Python's None / JavaScript's undefined next to a present value. */
  datatype Option<+T> = None | Some(value: T)

  /** What a call produced: a value, or an exception carrying its message. */
  datatype Outcome<+T> = Return(value: T) | Throw(message: string)

  /** An argument of a dynamically typed parameter that the code tests with
      `is None`, `isinstance(_, str)` or `typeof _ === 'string'`. */
  datatype Dynamic = Missing | Text(s: string) | OtherType
}
