/** The three built-in column types. Each wires one sanitizer and one
    validator obtained from the external libraries by tag; those lookups are
    foreign, so the capabilities they return are parameters here. */
module BuiltInTypes {
  import opened Capabilities
  import opened ColumnTypes

  /** A subclass constructor passing a fixed name, description and one-stage
      pipelines to the base constructor. */
  function Variant(className: string, name: string, description: string, s: Sanitizer, v: Validator)
    : (t: ColumnType)
    ensures t.name == name && t.description == description
    ensures t.sanitizers == [SanitizerObj(s)] && t.validators == [ValidatorObj(v)]
  {
    NewColumnType(Subclass(className), Str(name), Str(description),
                  Array([SanitizerObj(s)]), Array([ValidatorObj(v)])).value
  }

  function BooleanType(s: Sanitizer, v: Validator): (t: ColumnType)
    ensures t.name == "boolean"
    ensures t.sanitizers == [SanitizerObj(s)] && t.validators == [ValidatorObj(v)]
  {
    Variant("BooleanType", "boolean", "Can only be a true or false value.", s, v)
  }

  function NumberType(s: Sanitizer, v: Validator): (t: ColumnType)
    ensures t.name == "number"
    ensures t.sanitizers == [SanitizerObj(s)] && t.validators == [ValidatorObj(v)]
  {
    Variant("NumberType", "number", "Only contains numeric digits (1-9).", s, v)
  }

  function StringType(s: Sanitizer, v: Validator): (t: ColumnType)
    ensures t.name == "string"
    ensures t.sanitizers == [SanitizerObj(s)] && t.validators == [ValidatorObj(v)]
  {
    Variant("StringType", "string", "Contains any text value.", s, v)
  }
}
