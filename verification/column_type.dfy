/** Column types and the process-wide registry of them. The registry is an
    explicit map value: `add` and `remove` return the registry the next call
    works on, which is how their chaining is expressed here. */
module ColumnTypes {
  import opened Results
  import opened Capabilities

  /** Anything a JavaScript caller can pass to the API: plain data, an
      instance of the sanitizer, validator or ColumnType class, an array or
      some other object. */
  datatype Any =
    | Undefined
    | Null
    | Bool(b: bool)
    | Number(x: real)
    | Str(s: string)
    | Array(items: seq<Any>)
    | Object(properties: map<string, Any>)
    | SanitizerObj(sanitizer: Sanitizer)
    | ValidatorObj(validator: Validator)
    | TypeObj(columnType: ColumnType)

  /** A named template: a description and the default pipelines. The
      default lists are stored as given, and their elements are not checked
      to be sanitizers or validators. */
  datatype ColumnType = ColumnType(
    name: string,
    description: string,
    sanitizers: seq<Any>,
    validators: seq<Any>)

  /** The class whose constructor is running: the abstract base itself or a
      subclass of it. */
  datatype Constructor = BaseClass | Subclass(className: string)

  /** A parameter's default `[]` applies when the argument is undefined. */
  function OrEmpty(a: Any): (r: Any)
    ensures a.Undefined? ==> r == Array([])
    ensures !a.Undefined? ==> r == a
  {
    if a.Undefined? then Array([]) else a
  }

  /** The ColumnType constructor. */
  function NewColumnType(ctor: Constructor, name: Any, description: Any, sanitizers: Any, validators: Any)
    : (r: Result<ColumnType>)
    ensures ctor == BaseClass ==> r == Err(AbstractInstantiation)
    ensures ctor.Subclass? && !name.Str? ==> r == Err(ArgumentType(NameParam))
    ensures ctor.Subclass? && name.Str? && !description.Str? ==> r == Err(ArgumentType(DescriptionParam))
    ensures ctor.Subclass? && name.Str? && description.Str? && !OrEmpty(sanitizers).Array? ==>
              r == Err(ArgumentType(SanitizersParam))
    ensures (ctor.Subclass? && name.Str? && description.Str? && OrEmpty(sanitizers).Array?
             && !OrEmpty(validators).Array?) ==> r == Err(ArgumentType(ValidatorsParam))
    ensures r.Ok? <==> ctor.Subclass? && name.Str? && description.Str?
                       && OrEmpty(sanitizers).Array? && OrEmpty(validators).Array?
    ensures r.Ok? ==> && r.value.name == name.s && r.value.description == description.s
                      && r.value.sanitizers == OrEmpty(sanitizers).items
                      && r.value.validators == OrEmpty(validators).items
  {
    if ctor == BaseClass then Err(AbstractInstantiation)
    else if !name.Str? then Err(ArgumentType(NameParam))
    else if !description.Str? then Err(ArgumentType(DescriptionParam))
    else
      var s := OrEmpty(sanitizers);
      var v := OrEmpty(validators);
      if !s.Array? then Err(ArgumentType(SanitizersParam))
      else if !v.Array? then Err(ArgumentType(ValidatorsParam))
      else Ok(ColumnType(name.s, description.s, s.items, v.items))
  }

  /** The registered column types by name. */
  type Registry = map<string, ColumnType>

  /** Map lookup with an arbitrary key. Only string keys are ever stored, so
      any other key is absent. */
  predicate Has(reg: Registry, name: Any)
    ensures Has(reg, name) <==> exists k :: k in reg && name == Str(k)
  {
    name.Str? && name.s in reg
  }

  /** Registering `t` under `name`, replacing an existing entry. */
  function Add(reg: Registry, name: Any, t: Any): (r: Result<Registry>)
    ensures !name.Str? ==> r == Err(ArgumentType(NameParam))
    ensures name.Str? && !t.TypeObj? ==> r == Err(ArgumentType(TypeParam))
    ensures r.Ok? <==> name.Str? && t.TypeObj?
    ensures r.Ok? ==> Has(r.value, name) && r.value[name.s] == t.columnType
    ensures r.Ok? ==> forall k :: k != name.s ==> (k in r.value <==> k in reg)
    ensures r.Ok? ==> forall k :: k in reg && k != name.s ==> r.value[k] == reg[k]
    ensures r.Ok? ==> |r.value| == if name.s in reg then |reg| else |reg| + 1
  {
    if !name.Str? then Err(ArgumentType(NameParam))
    else if !t.TypeObj? then Err(ArgumentType(TypeParam))
    else Ok(reg[name.s := t.columnType])
  }

  /** Looking a column type up; a missing name is an error. */
  function Get(reg: Registry, name: Any): (r: Result<ColumnType>)
    ensures r.Err? <==> !Has(reg, name)
    ensures r.Err? ==> r.error == NotFound
    ensures r.Ok? ==> name.Str? && name.s in reg && r.value == reg[name.s]
  {
    if !Has(reg, name) then Err(NotFound) else Ok(reg[name.s])
  }

  /** Deleting an entry; a missing name leaves the registry as it is. */
  function Remove(reg: Registry, name: Any): (r: Registry)
    ensures !Has(r, name)
    ensures !Has(reg, name) ==> r == reg
    ensures forall k :: !(name.Str? && k == name.s) ==> (k in r <==> k in reg)
    ensures forall k :: k in r ==> k in reg && r[k] == reg[k]
    ensures |r| == if Has(reg, name) then |reg| - 1 else |reg|
  {
    if !Has(reg, name) then reg
    else
      assert reg.Keys == (reg - {name.s}).Keys + {name.s};
      reg - {name.s}
  }

  /** All registered entries. */
  function Types(reg: Registry): (r: map<string, ColumnType>)
    ensures forall k :: k in r <==> Has(reg, Str(k))
    ensures forall k :: k in r ==> Get(reg, Str(k)) == Ok(r[k])
  {
    reg
  }

  /** After a successful add, lookup finds the added template. */
  lemma AddThenGet(reg: Registry, name: Any, t: Any)
    requires Add(reg, name, t).Ok?
    ensures Get(Add(reg, name, t).value, name) == Ok(t.columnType)
  {
  }

  /** Adding under a registered name overwrites: the earlier template leaves
      no trace. */
  lemma AddOverwrites(reg: Registry, name: Any, first: Any, second: Any)
    requires Add(reg, name, first).Ok?
    ensures Add(Add(reg, name, first).value, name, second) == Add(reg, name, second)
  {
    if second.TypeObj? {
      var once := Add(reg, name, second).value;
      var twice := Add(Add(reg, name, first).value, name, second).value;
      assert once.Keys == twice.Keys;
      assert forall k :: k in once ==> once[k] == twice[k];
      assert once == twice;
    }
  }

  /** Removing a freshly added name restores the registry. */
  lemma RemoveUndoesAdd(reg: Registry, name: Any, t: Any)
    requires Add(reg, name, t).Ok? && !Has(reg, name)
    ensures Remove(Add(reg, name, t).value, name) == reg
  {
  }

  /** After a remove, lookup fails. */
  lemma RemoveThenGet(reg: Registry, name: Any)
    ensures Get(Remove(reg, name), name) == Err(NotFound)
  {
  }
}
