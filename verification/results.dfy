/** Optional values, the error kinds the core raises, and a failure-compatible
    result type: every `throw` of the JavaScript code becomes an `Err`. */
module Results {

  /** A value that may be absent. For option records, `None` means the key is
      not an own property of the object (as opposed to a key holding undefined). */
  datatype Option<+T> = None | Some(value: T) {

    /** The held value, or `default` when absent. */
    function GetOr(default: T): T {
      if Some? then value else default
    }
  }

  /** One of the two pipelines of a column: the sanitizers or the validators. */
  datatype Pipeline = Sanitizing | Validating

  /** The parameter whose shape check failed. */
  datatype Parameter =
    | NameParam          // ColumnType constructor `name`, registry `add` name
    | DescriptionParam   // ColumnType constructor `description`
    | SanitizersParam    // ColumnType constructor `sanitizers`
    | ValidatorsParam    // ColumnType constructor `validators`
    | TypeParam          // registry `add` type
    | OptionsTypeParam   // `options.type` of the Column constructor and of populate

  /** The error kinds. Message templating is not modelled. */
  datatype Error =
    | ArgumentType(parameter: Parameter)
    | AbstractInstantiation
    | NotFound
    | InvalidCapability(pipeline: Pipeline)
    | DuplicateCapability(pipeline: Pipeline, subject: string)
    | NotIterable(pipeline: Pipeline)
  {
    /** The error was raised while building or extending pipeline `s`. */
    predicate Concerns(s: Pipeline) {
      (NotIterable? || InvalidCapability? || DuplicateCapability?) && pipeline == s
    }
  }

  datatype Result<+T> = Ok(value: T) | Err(error: Error) {

    predicate IsFailure() {
      Err?
    }

    function PropagateFailure<U>(): Result<U>
      requires Err?
    {
      Err(error)
    }

    function Extract(): T
      requires Ok?
    {
      value
    }
  }
}
