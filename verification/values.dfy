/** Python values, optional values, results and the exceptions the template
    parser and binder raise. */
module Values {

  datatype Option<T> = None | Some(value: T)

  /** The Python values that element attributes can hold: `None`, a `bool`,
      a `str`, or the module's `MISSING` sentinel (an ordinary object, hence
      truthy). */
  datatype Value = NoneValue | BoolValue(b: bool) | StrValue(s: string) | MissingValue
  {
    /** Python truthiness. */
    predicate Truthy() {
      match this
      case NoneValue => false
      case BoolValue(b) => b
      case StrValue(s) => s != ""
      case MissingValue => true
    }
  }

  /** Python's `a or b`. */
  function Or(a: Value, b: Value): Value {
    if a.Truthy() then a else b
  }

  /** Why a TypeError was raised: an empty handler sequence, a handler that
      is not callable, an attribute name that is not a string, or a
      dictionary key that cannot be hashed. */
  datatype TypeErrorReason = EmptyHandler | NotCallable | NonStringName | Unhashable

  /** The exceptions of the core. The two RuntimeErrors of
      `Template.from_element_tree` are told apart by their constructor. */
  datatype Error =
    | KeyError(key: Value)
    | AttributeError(name: string)
    | UnresolvedGType(typeName: string)
    | NoPythonType(typeName: string)
    | TypeError(reason: TypeErrorReason)
    | ValueError(className: string)
    | NotImplementedError

  datatype Result<T> = Ok(value: T) | Err(error: Error)
}
