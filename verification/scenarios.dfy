/** The behaviours the repository's tests exercise, stated over the
    model. Library sanitizers and validators are parameters. */
module Scenarios {
  import opened Results
  import opened Capabilities
  import opened Attachment
  import opened Pipelines
  import opened ColumnTypes
  import opened BuiltInTypes
  import opened Columns

  /** The column tests' setup: chained `add` of a number type instance and a
      string type instance adds exactly those two names. */
  function RegisterNumberAndString(reg: Registry, n: (Sanitizer, Validator), s: (Sanitizer, Validator))
    : (r: Registry)
    ensures r.Keys == reg.Keys + {"number", "string"}
    ensures r["number"] == NumberType(n.0, n.1)
    ensures r["string"] == StringType(s.0, s.1)
  {
    var r1 := Add(reg, Str("number"), TypeObj(NumberType(n.0, n.1))).value;
    Add(r1, Str("string"), TypeObj(StringType(s.0, s.1))).value
  }

  /** Passing a class itself rather than an instance of it, as the package's
      entry module does for all three built-ins, is refused: a class object
      is not an instance of ColumnType. The class object is written as a
      plain object here. */
  lemma ClassObjectRefused(reg: Registry)
    ensures Add(reg, Str("boolean"), Object(map[])) == Err(ArgumentType(TypeParam))
  {
  }

  /** Adding the string type to an empty registry makes exactly one entry,
      and `has('string')` holds. */
  lemma AddStringToEmpty(s: Sanitizer, v: Validator)
    ensures Add(map[], Str("string"), TypeObj(StringType(s, v))).Ok?
    ensures |Types(Add(map[], Str("string"), TypeObj(StringType(s, v))).value)| == 1
    ensures Has(Add(map[], Str("string"), TypeObj(StringType(s, v))).value, Str("string"))
  {
  }

  /** Constructing the abstract base directly fails whatever the arguments. */
  lemma BaseClassRefused(name: Any, description: Any, sanitizers: Any, validators: Any)
    ensures NewColumnType(BaseClass, name, description, sanitizers, validators) == Err(AbstractInstantiation)
  {
  }

  /** `add` refuses a non-string name and a look-alike plain object, and the
      registry it was given is the one that stays in use. */
  lemma AddRefusesBadArguments(reg: Registry, t: ColumnType)
    ensures Add(reg, Bool(true), TypeObj(t)) == Err(ArgumentType(NameParam))
    ensures var lookalike := Object(map["name" := Str("range"),
                                        "description" := Str("Must fall within the specified range."),
                                        "sanitizers" := Array([]),
                                        "validators" := Array([])]);
            Add(reg, Str("range"), lookalike) == Err(ArgumentType(TypeParam))
  {
  }

  /** A `null` in the sanitizers list is refused as not being a sanitizer,
      not as a duplicate and not as a missing forEach. */
  lemma NullSanitizerRefused(t: string)
    ensures New(NoOptions.(typeName := Some(Str(t)), sanitizers := Some(Array([Null]))))
            == Err(InvalidCapability(Sanitizing))
  {
  }

  /** Removing the names the test setup clears leaves neither registered. */
  lemma RemoveChained(reg: Registry)
    ensures !Has(Remove(Remove(reg, Str("boolean")), Str("string")), Str("boolean"))
    ensures !Has(Remove(Remove(reg, Str("boolean")), Str("string")), Str("string"))
  {
  }

  /** A registry holding the string type, as the column tests set it up. */
  ghost predicate HasStringType(reg: Registry, s: Sanitizer, v: Validator) {
    "string" in reg && reg["string"] == StringType(s, v)
  }

  /** `populate({type: 'string'})` has the string type's one sanitizer and
      one validator, and default metadata. */
  lemma PopulateString(reg: Registry, s: Sanitizer, v: Validator)
    requires HasStringType(reg, s, v)
    ensures Populate(reg, NoOptions.(typeName := Some(Str("string"))))
            == Ok(Column(Null, "string", Null, Bool(false), Null, [s], [v]))
  {
    var o := NoOptions.(typeName := Some(Str("string")));
    var t := reg["string"];
    assert t.sanitizers == [SanitizerObj(s)] && t.validators == [ValidatorObj(v)];
    assert Present(SanitizerCandidates(t.sanitizers)) == [s];
    assert Present(ValidatorCandidates(t.validators)) == [v];
    assert SanitizersAccepted([], Array(t.sanitizers)) && ValidatorsAccepted([], Array(t.validators));
    var r := Populate(reg, o);
    assert |r.value.sanitizers| == 1 && r.value.sanitizers[0] == s;
    assert |r.value.validators| == 1 && r.value.validators[0] == v;
  }

  /** The metadata given to populate ends up on the column. */
  lemma PopulateCopiesMetadata(reg: Registry, s: Sanitizer, v: Validator)
    requires HasStringType(reg, s, v)
    ensures var o := Options(Some(Str("string")), Some(Str("first_name")), Some(Str("First Name")),
                             Some(Bool(false)), Some(Str("First name of the user.")), None, None);
            var r := Populate(reg, o);
            && r.Ok? && r.value.typeName == "string" && r.value.name == Str("first_name")
            && r.value.displayLabel == Str("First Name") && r.value.required == Bool(false)
            && r.value.description == Str("First name of the user.")
  {
    PopulateString(reg, s, v);
  }

  /** Populate and the constructor both refuse options without a type. */
  lemma TypeRequired(reg: Registry)
    ensures Populate(reg, NoOptions.(name := Some(Str("first_name")))) == Err(ArgumentType(OptionsTypeParam))
    ensures New(NoOptions) == Err(ArgumentType(OptionsTypeParam))
  {
  }

  /** Once the string type is removed, populating it fails. */
  lemma RemovedTypeNotFound(reg: Registry)
    ensures Populate(Remove(reg, Str("string")), NoOptions.(typeName := Some(Str("string")))) == Err(NotFound)
  {
  }

  /** A second validator on a populated string column: accepted unless its
      name is the first validator's tag; then both run on the same value. */
  lemma SecondValidator(reg: Registry, s: Sanitizer, v: Validator, w: Validator, x: Value)
    requires HasStringType(reg, s, v) && w.name != v.tag
    ensures var c := Populate(reg, NoOptions.(typeName := Some(Str("string")))).value;
            && AddValidator(c, ValidatorObj(w)).Ok?
            && |AddValidator(c, ValidatorObj(w)).value.validators| == |c.validators| + 1
            && Gather(AddValidator(c, ValidatorObj(w)).value.validators, x) == v.apply(x) + w.apply(x)
  {
    PopulateString(reg, s, v);
    var c := Populate(reg, NoOptions.(typeName := Some(Str("string")))).value;
    ValidateAfterAdd(c, ValidatorObj(w), x);
  }
}
