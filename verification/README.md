# data-columns in Dafny

A model of the column-type registry and the column pipeline engine of
data-columns. A *column type* is a named template: a description plus an
ordered list of default sanitizers and an ordered list of default validators.
Column types live in a process-wide registry keyed by name. A *column* is a
field descriptor (name, type, label, required flag, description) with its own
sanitizer pipeline and validator pipeline. `populate` builds a column from a
registered type. `sanitize` threads a value through the sanitizers. `validate`
applies every validator to the value and concatenates their messages.

Modules:

- `Results` (results.dfy): `Option`, the error kinds, and `Result`. Every
  `throw` becomes an `Err`.
- `Capabilities` (capabilities.dfy): the pipeline data `Value`, and
  `Capability(name, tag, apply)`. `Sanitizer` and `Validator` are instances
  of it. `tag` is the property the libraries call `type`. `apply` is
  uninterpreted.
- `Attachment` (attachment.dfy): the filter behind `hasSanitizer` and
  `hasValidator`, the checks of `addSanitizer` and `addValidator`, and the
  constructor's `forEach` over them. The sanitizer and validator paths have
  the same shape, so they are written once.
- `Pipelines` (pipelines.dfy): reference definitions of what the two
  pipelines compute. `Chain` is the left fold of the sanitizers. `Gather`
  concatenates the validators' messages.
- `ColumnTypes` (column_type.dfy): `Any` (whatever a JavaScript caller can
  pass), `ColumnType`, its constructor, and the registry operations.
- `BuiltInTypes` (builtin_types.dfy): the boolean, number and string types.
- `Columns` (column.dfy): options, columns, the constructor, attachment,
  `populate`, `sanitize` and `validate`.
- `Scenarios` (scenarios.dfy): the cases the repository's tests exercise.

Modelling choices:

- The registry is an explicit `map<string, ColumnType>` value. `Add` and
  `Remove` return the registry that the next call receives; that is how
  chaining (`add(..).add(..)`, `remove(..).remove(..)`) is expressed. A
  failed `Add` returns an error and no registry, so the caller keeps the one
  it had.
- `instanceof` checks become constructor tests on `Any` (`SanitizerObj?`,
  `ValidatorObj?`, `TypeObj?`). `typeof x === 'string'` becomes `Str?`, and
  `Array.isArray` becomes `Array?`. The base-class guard of the ColumnType
  constructor becomes a `Constructor` argument (`BaseClass` or `Subclass`).
- An options object is a record of `Option<Any>`. `None` means the key is
  absent. `Some(Undefined)` means the key is present and holds undefined.
  `Object.assign` copies present keys even when they hold undefined, so the
  two cases differ.
- The constructor calls `forEach` on the sanitizer and validator lists
  (src/column.js:30, :34). Among the values `Any` can represent, only arrays
  have `forEach`. Calling it on any other value is a runtime `TypeError`,
  modelled as `NotIterable`.
- Values are immutable, so the aliasing concerns of the source vanish. A
  column never shares its pipelines with its column type or with another
  column.

Behaviour of the code worth knowing:

- **Duplicate check.** `addSanitizer` passes the new stage's *name* to
  `hasSanitizer`, and `hasSanitizer` compares that string against the
  *tags* of the attached stages (src/column.js:68, :88). The validator path
  does the same (src/column.js:130, :150). So a stage is refused exactly
  when its name equals the tag of an attached stage. Two stages can share a
  tag: the second is accepted when its name is not the first's tag and not
  any other attached tag (`Attachment.SharedTagAccepted`,
  `Columns.SameTagTwiceAccepted`). A stage with a fresh tag is refused when
  its name equals an attached tag (`Attachment.FreshTagRefused`). When every
  stage is named after its own tag, the check is exactly a duplicate-tag
  check (`Attachment.SelfNamedAppendAll`, `Columns.SelfNamedAddedTwice`).
- **Names may be empty.** The ColumnType constructor checks only
  `typeof name` and `typeof description` (src/column-type.js:20-26), so
  empty strings are accepted.
- **Failures of a registered type.** Constructing a column of a registered
  type can still fail. The template's default lists are not checked when the
  template is built. They may hold non-sanitizers, or stages whose names
  collide with earlier tags. `Columns.Populate` states the exact condition
  for success.

## Model

| member | source | states |
|---|---|---|
| ColumnTypes.NewColumnType | src/column-type.js:15-40 | The base class always fails with AbstractInstantiation. Otherwise the first of the four checks to fail (name and description strings, sanitizers and validators arrays, undefined lists defaulting to empty) picks the error. Success happens exactly when all pass, and then all four arguments are stored unchanged and in order |
| ColumnTypes.OrEmpty | src/column-type.js:15 | The `= []` parameter default: undefined becomes the empty array, and every other argument, null included, passes through unchanged |
| ColumnTypes.Has | src/column-type.js:49-51 | True exactly when the argument is identical to a registered key; a non-string is never registered |
| ColumnTypes.Add | src/column-type.js:59-71 | Fails on a non-string name or a non-ColumnType, and exactly then. On success the name maps to the template, every other key and value is unchanged, and the size grows by one only for a new name (upsert) |
| ColumnTypes.Get | src/column-type.js:80-88 | Fails with NotFound exactly when the key is not registered; otherwise returns the stored template |
| ColumnTypes.Remove | src/column-type.js:97-105 | Afterwards the name is absent. An absent name leaves the registry identical. No other key or value changes, and the size drops by one exactly when the name was present |
| ColumnTypes.Types | src/column-type.js:112-114 | Its keys are exactly the names `has` accepts, and each entry is what `get` returns |
| ColumnTypes.AddThenGet | src/column-type.js:68 | After a successful add, get returns the added template |
| ColumnTypes.AddOverwrites | src/column-type.js:68 | After a successful `add`, a second `add` under the same name, with any argument, equals that second `add` alone: a template overwrites, and a refused argument is refused the same way |
| ColumnTypes.RemoveUndoesAdd | src/column-type.js:97-105 | Removing a name that was just added fresh restores the original registry |
| ColumnTypes.RemoveThenGet | src/column-type.js:97-105 | After remove, get fails with NotFound |
| BuiltInTypes.Variant | src/types/string-type.js:5-14 | A built-in subclass constructor never fails, and yields its fixed name and description with one-stage sanitizer and validator lists |
| BuiltInTypes.BooleanType | src/types/boolean-type.js:5-14 | The boolean type is named `boolean`, with the boolean sanitizer and validator as its only defaults |
| BuiltInTypes.NumberType | src/types/number-type.js:5-14 | The number type is named `number`, with the number sanitizer and validator as its only defaults |
| BuiltInTypes.StringType | src/types/string-type.js:5-14 | The string type is named `string`, with the string sanitizer and validator as its only defaults |
| Attachment.OfTag | src/column.js:87-89 | The filtered list holds only stages of the tag, is no longer than the input, and is empty exactly when no stage has the tag |
| Attachment.OfTagIsFilter | src/column.js:87-89 | The filter keeps one stage exactly when it has the tag, and filtering a concatenation concatenates the filtered parts; together these fix the result, order included |
| Attachment.HasTag | src/column.js:86-92 | True exactly when some stage carries the tag |
| Attachment.Append | src/column.js:63-77 | A non-instance fails with InvalidCapability. An instance is accepted exactly when no attached tag equals its name, and is then appended at the end. Otherwise it fails with DuplicateCapability naming it |
| Attachment.AppendAll | src/column.js:30-36 | Attaching a list one by one succeeds exactly when every element is an instance and no element's name is the tag of any earlier stage. The result is the old list followed by the elements in order. On failure the error is the one `addSanitizer`/`addValidator` raises for the first refused element, after every earlier element was accepted |
| Attachment.SharedTagAccepted | src/column.js:68-74 | A concrete pair of sanitizers sharing one tag is accepted, leaving tags not unique |
| Attachment.FreshTagRefused | src/column.js:130-134 | A concrete validator whose tag is new is refused because its name equals an attached tag |
| Attachment.RefusedLater | src/column.js:30-36 | A refusal in the rest of the list, once the first element was accepted, is a refusal one position later in the whole list, so `forEach` stops at the first refused element |
| Attachment.SelfNamedAppendAll | src/column.js:30-36 | When every stage is named after its tag, attaching a list succeeds exactly when the tags stay unique |
| Pipelines.ChainAppend | src/column.js:110-116 | Sanitizing with a concatenated pipeline equals sanitizing with the first part and then the second |
| Pipelines.ChainSnoc | src/column.js:110-116 | The last sanitizer receives the output of all earlier ones |
| Pipelines.GatherAppend | src/column.js:172-180 | The messages of a concatenated validator list are the concatenation of the parts' messages |
| Pipelines.GatherMessages | src/column.js:172-180 | A message is reported exactly when some validator reports it for the original value, so validators are not chained |
| Pipelines.GatherEmpty | src/column.js:172-180 | Validation yields no messages exactly when every validator yields none |
| Columns.Defaults | src/column.js:44-54 | Overlaying any options on the defaults yields every key: the options' own value where present, otherwise null for name, type, label and description, false for `required`, and empty lists |
| Columns.Assign | src/column.js:20 | `Object.assign` on options: for every key, the second object's value wins when it has the key, and the first's is kept otherwise |
| Columns.HasSanitizer | src/column.js:86-92 | True exactly when some attached sanitizer has the given tag |
| Columns.HasValidator | src/column.js:148-154 | True exactly when some attached validator has the given tag |
| Columns.AddSanitizer | src/column.js:63-77 | A non-sanitizer fails with InvalidCapability. A sanitizer is accepted exactly when HasSanitizer of its name is false; otherwise it fails with DuplicateCapability. On success only the pipeline changes, gaining the sanitizer at the end |
| Columns.AddValidator | src/column.js:125-139 | The validator counterpart of AddSanitizer: the same argument check, the same name-against-tag duplicate check, and the same append at the end |
| Columns.AttachSanitizers | src/column.js:30-32 | A non-array fails with NotIterable. Otherwise it succeeds exactly when the list is acceptable, and fails with the error of the first refused element (a non-sanitizer, or a duplicate named by that element), never NotIterable. On success it keeps the earlier stages as a prefix, appends the listed sanitizers in order, and changes nothing else |
| Columns.AttachValidators | src/column.js:34-36 | The validator counterpart of AttachSanitizers |
| Columns.New | src/column.js:15-37 | Fails with ArgumentType exactly when `options.type` is not a string, and otherwise exactly when a supplied list is not acceptable. A sanitizer error takes precedence over a validator error; a non-array list fails with NotIterable and an array list with the error of its first refused element. On success the metadata are the options overlaid on the defaults, and the pipelines are exactly the supplied lists in order |
| Columns.NewAppliesDefaults | src/column.js:44-54 | With only a type given, the column has null name, label and description, `required` false, and empty pipelines |
| Columns.Populate | src/column.js:189-213 | A non-string type fails with ArgumentType, and an unregistered one with NotFound. Otherwise success happens exactly when the effective lists are acceptable, and a sanitizer error takes precedence over a validator error; a non-array effective list fails with NotIterable and an array with the error of its first refused element. The effective lists are the options' own where present, else the type's defaults. On success the metadata come from the options and the pipelines are the effective lists in order |
| Columns.AssignAssociative | src/column.js:202-205 | Successive `Object.assign` calls compose, so populate's seeding followed by the constructor's defaults is one overlay of defaults, type lists and caller options |
| Columns.PopulateEffectiveOptions | src/column.js:20 | The options the constructor sees from populate take each key from the caller when present, the lists from the type otherwise, and the other keys from the defaults |
| Columns.PopulateSeedsDefaults | src/column.js:202-207 | Without lists of its own, a column populated from an acceptable type gets exactly the type's default pipelines |
| Columns.PopulateOverridesDefaults | src/column.js:202-205 | Explicit empty lists replace the defaults instead of merging with them |
| Columns.Sanitize | src/column.js:110-116 | The loop's result is the left fold of the sanitizers over the value, in attachment order |
| Columns.Validate | src/column.js:172-180 | The loop's result is the concatenation of every validator's messages on the original value, in attachment order |
| Columns.SanitizeAfterAdd | src/column.js:74 | After a sanitizer is attached, sanitizing equals the attached sanitizer applied to the previous result |
| Columns.ValidateAfterAdd | src/column.js:136 | After a validator is attached, validating equals the previous messages followed by the new validator's messages |
| Columns.SelfNamedAddedTwice | src/column.js:68-72 | A sanitizer named after its own tag cannot be attached twice; the second call fails with DuplicateCapability |
| Columns.SameTagTwiceAccepted | src/column.js:63-92 | Two sanitizers sharing a tag are both accepted, leaving that tag twice in the pipeline, when neither name is an attached tag and the second's name is not the first's tag |
| Scenarios.RegisterNumberAndString | test/column.js:9-13 | Chained `add` of a number type instance and a string type instance adds exactly those two names and maps each to its template |
| Scenarios.ClassObjectRefused | main.js:7 | Registering a class itself, as the entry module does, rather than an instance, fails with the type-argument error of src/column-type.js:64-66 |
| Scenarios.AddStringToEmpty | test/column-types.js:27-34 | Adding the string type to an empty registry succeeds, gives exactly one entry, and `has('string')` holds |
| Scenarios.BaseClassRefused | test/column-types.js:14-23 | Direct construction of the base fails whatever the arguments |
| Scenarios.AddRefusesBadArguments | test/column-types.js:36-51 | `add` refuses a boolean name, and a plain object with the name, description and lists of a template |
| Scenarios.NullSanitizerRefused | src/column.js:64-66 | A column whose sanitizers list holds `null` fails with the not-a-sanitizer error of its sanitizer pipeline |
| Scenarios.RemoveChained | test/column-types.js:7-11 | Two chained removes leave neither name registered |
| Scenarios.PopulateString | test/column.js:50-64 | Populating `string` gives exactly the string type's one sanitizer and one validator, with default metadata |
| Scenarios.PopulateCopiesMetadata | test/column.js:32-48 | Type, name, label, description and `required` given to populate appear on the column |
| Scenarios.TypeRequired | test/column.js:66-72 | Populate and the constructor both fail with ArgumentType when no type is given |
| Scenarios.RemovedTypeNotFound | src/column.js:194-198 | Populating a removed type fails with NotFound |
| Scenarios.SecondValidator | src/column.js:125-139 | A second validator whose name is not the first's tag is attached, grows the list by one, and its messages follow the first's |

## Left out

- Sanitizer and validator behaviour belongs to external libraries, as do `Sanitizer.get` and `Validator.get`. `apply` is uninterpreted. The built-in types take the looked-up sanitizer and validator as parameters.
- Exceptions thrown by a sanitizer's or validator's own code are not modelled; `apply` is total.
- Error message templating is not modelled. Errors are variants that record the failing parameter or pipeline, and the duplicate's name.
- Numbers are modelled as reals: floating point is not modelled, and neither pipeline interprets values.
- `getSanitizers` and `getValidators` return live arrays in the source. Here they are the `sanitizers` and `validators` fields of an immutable `Column`.
- `types()` returns the live map in the source; here it returns the map value. Iteration order is not modelled.
- Columns.HasSanitizer: takes a string tag. Stage names and tags are assumed to be strings; the data-sanitizers and data-validators libraries are not modelled, and a non-string argument is not modelled.
- Columns.HasValidator: takes a string tag, under the same assumption as HasSanitizer.
- Sanitizers and validators whose `name` or `type` property is not a string are not modelled: a capability carries both as strings, so the comparisons at src/column.js:86-89 and 148-151 are string comparisons here.
- Subclasses of Column are not modelled. They could override `defaults()`, and the always-true `instanceof Column` check in populate is dropped.
- Options arguments that are `null` or not objects are not modelled, and neither are keys other than the seven the code reads.
- ColumnType instances that bypass the constructor (for example, built with `Object.create`) are not modelled. Every `ColumnType` value has string name and description and list defaults.
- Values with a `forEach` method other than arrays (a `Set`, a `Map`, a typed array, an object with its own `forEach`) cannot be represented by `Any`. The source iterates them as sanitizer or validator lists without error; the model has no such case.
- Scenarios.ClassObjectRefused: main.js:7-9 registers classes, not instances; the model states that the first such call is refused and does not model the module export that follows.
- Concurrency: the code is single-threaded and synchronous.
