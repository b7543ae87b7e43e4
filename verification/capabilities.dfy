/** The capabilities a column consumes from outside: sanitizers and
    validators. Their behaviour belongs to external libraries, so each one
    carries an uninterpreted function. */
module Capabilities {

  /** A JavaScript value handed to a pipeline. The core never looks inside it;
      numbers are written as reals. */
  datatype Value =
    | UndefinedValue
    | NullValue
    | BooleanValue(b: bool)
    | NumberValue(x: real)
    | StringValue(s: string)
    | ArrayValue(elements: seq<Value>)
    | ObjectValue(properties: map<string, Value>)

  /** An externally supplied pipeline stage. `name` identifies the stage and
      `tag` is its logical type (the property the libraries call `type`);
      `apply` is what the stage does to a value. */
  datatype Capability<F> = Capability(name: string, tag: string, apply: F)

  /** A sanitizer maps a value to a cleaned value. */
  type Sanitizer = Capability<Value -> Value>

  /** A validator maps a value to its error messages; none means valid. */
  type Validator = Capability<Value -> seq<string>>
}
