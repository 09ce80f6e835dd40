/** The dynamic values, errors and error-carrying results that flow through
    a mapping. Go's `interface{}` payload becomes the closed type `Value`;
    Go's `(value, error)` pairs become `Result`, and a bare `error` that may
    be nil becomes `Outcome`. */
module Values {

  /** A payload read from a source, produced by a transform or written to a
      target. `VNil` is Go's untyped nil. */
  datatype Value =
    | VNil
    | VStr(s: string)
    | VInt(i: int)
    | VBool(b: bool)

  /** Error kinds. Message texts are not modelled; each kind keeps the data
      its message is built from. */
  datatype Error =
    // delimited-field resolution
    | MissingFieldIdentifier(recordLength: nat)
    | UnknownFieldName(name: string)
    | FieldOutOfRange(column: nat, recordLength: nat)
    // a value of the wrong dynamic type reached `operation`
    | TypeMismatch(operation: string, actual: string)
    // the tree library: a path that does not exist, a path it will not set
    | PathNotExist
    | PathNotSettable(path: string)
    // tree accessors without an error handler wrap the library's error
    | ReadFailure(path: string, cause: Error)
    | WriteFailure(path: string, cause: Error)
    // lookup tables
    | InvalidTable(table: int)
    | HeaderUnreadable(cause: Error)
    | EndOfInput
    // strconv.Atoi
    | NumberSyntax(text: string)
    | NumberRange(text: string)
    // anything a caller-supplied function chooses to return
    | Opaque(message: string)

  datatype Option<T> = None | Some(value: T)

  /** Go's `(T, error)`: exactly one of the two is meaningful. */
  datatype Result<T> = Ok(value: T) | Err(error: Error)

  /** Go's `error` result: nil or an error. */
  datatype Outcome = Pass | Fail(error: Error)

  /** The name `%T` prints for a value's dynamic type. */
  function TypeName(v: Value): string
  {
    match v
    case VNil => "<nil>"
    case VStr(_) => "string"
    case VInt(_) => "int"
    case VBool(_) => "bool"
  }
}
