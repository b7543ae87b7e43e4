/** Columns: field descriptors owning a sanitizer pipeline and a validator
    pipeline, built directly or from a registered column type. */
module Columns {
  import opened Results
  import opened Capabilities
  import opened Attachment
  import opened Pipelines
  import opened ColumnTypes

  /** An options object. Each field is None when the key is not an own
      property; a key holding undefined is `Some(Undefined)`. */
  datatype Options = Options(
    typeName: Option<Any>,
    name: Option<Any>,
    displayLabel: Option<Any>,
    required: Option<Any>,
    description: Option<Any>,
    sanitizers: Option<Any>,
    validators: Option<Any>)

  /** The empty options object `{}`. */
  const NoOptions := Options(None, None, None, None, None, None, None)

  /** A column. The metadata fields hold whatever the options held. */
  datatype Column = Column(
    name: Any,
    typeName: string,
    displayLabel: Any,
    required: Any,
    description: Any,
    sanitizers: seq<Sanitizer>,
    validators: seq<Validator>)

  /** The standard default values of a column. Overlaying any options on
      them gives an object in which every key is present: the options' own
      value where they have the key, the default otherwise. */
  function Defaults(): (d: Options)
    ensures forall o :: Assign(d, o) == Options(
              Some(o.typeName.GetOr(Null)), Some(o.name.GetOr(Null)),
              Some(o.displayLabel.GetOr(Null)), Some(o.required.GetOr(Bool(false))),
              Some(o.description.GetOr(Null)), Some(o.sanitizers.GetOr(Array([]))),
              Some(o.validators.GetOr(Array([]))))
  {
    Options(Some(Null), Some(Null), Some(Null), Some(Bool(false)), Some(Null),
            Some(Array([])), Some(Array([])))
  }

  /** One key of `Object.assign(base, top)`: the value of `top` when it has
      the key. */
  function Overlay<T>(base: Option<T>, top: Option<T>): Option<T> {
    if top.Some? then top else base
  }

  /** `Object.assign(base, top)` on options objects: a key is present when
      either object has it, and `top`'s value wins. */
  function Assign(base: Options, top: Options): (r: Options)
    ensures top.typeName.Some? ==> r.typeName == top.typeName
    ensures top.typeName.None? ==> r.typeName == base.typeName
    ensures top.name.Some? ==> r.name == top.name
    ensures top.name.None? ==> r.name == base.name
    ensures top.displayLabel.Some? ==> r.displayLabel == top.displayLabel
    ensures top.displayLabel.None? ==> r.displayLabel == base.displayLabel
    ensures top.required.Some? ==> r.required == top.required
    ensures top.required.None? ==> r.required == base.required
    ensures top.description.Some? ==> r.description == top.description
    ensures top.description.None? ==> r.description == base.description
    ensures top.sanitizers.Some? ==> r.sanitizers == top.sanitizers
    ensures top.sanitizers.None? ==> r.sanitizers == base.sanitizers
    ensures top.validators.Some? ==> r.validators == top.validators
    ensures top.validators.None? ==> r.validators == base.validators
  {
    Options(
      Overlay(base.typeName, top.typeName),
      Overlay(base.name, top.name),
      Overlay(base.displayLabel, top.displayLabel),
      Overlay(base.required, top.required),
      Overlay(base.description, top.description),
      Overlay(base.sanitizers, top.sanitizers),
      Overlay(base.validators, top.validators))
  }

  /** `typeof option === 'string'`; an absent key reads as undefined. */
  predicate IsString(option: Option<Any>) {
    option.Some? && option.value.Str?
  }

  /** The sanitizer an argument is, if it is an instance of the class. */
  function SanitizerCandidates(items: seq<Any>): (cs: seq<Option<Sanitizer>>)
    ensures |cs| == |items|
    ensures forall i :: 0 <= i < |items| ==> (cs[i].Some? <==> items[i].SanitizerObj?)
    ensures forall i :: 0 <= i < |items| && items[i].SanitizerObj? ==> cs[i].value == items[i].sanitizer
  {
    seq(|items|, i requires 0 <= i < |items| =>
      if items[i].SanitizerObj? then Some(items[i].sanitizer) else None)
  }

  /** The validator an argument is, if it is an instance of the class. */
  function ValidatorCandidates(items: seq<Any>): (cs: seq<Option<Validator>>)
    ensures |cs| == |items|
    ensures forall i :: 0 <= i < |items| ==> (cs[i].Some? <==> items[i].ValidatorObj?)
    ensures forall i :: 0 <= i < |items| && items[i].ValidatorObj? ==> cs[i].value == items[i].validator
  {
    seq(|items|, i requires 0 <= i < |items| =>
      if items[i].ValidatorObj? then Some(items[i].validator) else None)
  }

  /** `list` is an array holding exactly the sanitizers `s`, in order. */
  ghost predicate ListsSanitizers(list: Any, s: seq<Sanitizer>) {
    list.Array? && |list.items| == |s| && forall i :: 0 <= i < |s| ==> list.items[i] == SanitizerObj(s[i])
  }

  /** `list` is an array holding exactly the validators `s`, in order. */
  ghost predicate ListsValidators(list: Any, s: seq<Validator>) {
    list.Array? && |list.items| == |s| && forall i :: 0 <= i < |s| ==> list.items[i] == ValidatorObj(s[i])
  }

  /** Attaching every element of `list` after `attached` succeeds: `list` is
      an array of sanitizers, and none of their names is the tag of a
      sanitizer before it. */
  ghost predicate SanitizersAccepted(attached: seq<Sanitizer>, list: Any) {
    && list.Array?
    && AllPresent(SanitizerCandidates(list.items))
    && NamesClearFrom(attached + Present(SanitizerCandidates(list.items)), |attached|)
  }

  /** The validator counterpart of SanitizersAccepted. */
  ghost predicate ValidatorsAccepted(attached: seq<Validator>, list: Any) {
    && list.Array?
    && AllPresent(ValidatorCandidates(list.items))
    && NamesClearFrom(attached + Present(ValidatorCandidates(list.items)), |attached|)
  }

  /** How attaching every element of `list` after `attached` fails: a
      non-array has no forEach, and otherwise the first element refused
      raises its error, which names that element when it is a duplicate. */
  ghost predicate SanitizersRefused(attached: seq<Sanitizer>, list: Any, e: Error) {
    if list.Array? then exists k :: RefusedAt(attached, SanitizerCandidates(list.items), Sanitizing, k, e)
    else e == NotIterable(Sanitizing)
  }

  /** The validator counterpart of SanitizersRefused. */
  ghost predicate ValidatorsRefused(attached: seq<Validator>, list: Any, e: Error) {
    if list.Array? then exists k :: RefusedAt(attached, ValidatorCandidates(list.items), Validating, k, e)
    else e == NotIterable(Validating)
  }

  /** The metadata of `c` comes from `o`, with the standard defaults for the
      keys `o` lacks. */
  ghost predicate MetadataFrom(c: Column, o: Options) {
    && IsString(o.typeName)
    && c.typeName == o.typeName.value.s
    && c.name == o.name.GetOr(Null)
    && c.displayLabel == o.displayLabel.GetOr(Null)
    && c.required == o.required.GetOr(Bool(false))
    && c.description == o.description.GetOr(Null)
  }

  /** Whether some attached sanitizer has tag `t`. */
  function HasSanitizer(c: Column, t: string): (b: bool)
    ensures b <==> exists i :: 0 <= i < |c.sanitizers| && c.sanitizers[i].tag == t
  {
    HasTag(c.sanitizers, t)
  }

  /** Whether some attached validator has tag `t`. */
  function HasValidator(c: Column, t: string): (b: bool)
    ensures b <==> exists i :: 0 <= i < |c.validators| && c.validators[i].tag == t
  {
    HasTag(c.validators, t)
  }

  /** Attaching a sanitizer at the end of the pipeline. The duplicate check
      passes the sanitizer's name to HasSanitizer, which compares tags. */
  function AddSanitizer(c: Column, item: Any): (r: Result<Column>)
    ensures !item.SanitizerObj? ==> r == Err(InvalidCapability(Sanitizing))
    ensures item.SanitizerObj? ==> (r.Ok? <==> !HasSanitizer(c, item.sanitizer.name))
    ensures item.SanitizerObj? && r.Err? ==> r.error == DuplicateCapability(Sanitizing, item.sanitizer.name)
    ensures r.Ok? ==> item.SanitizerObj? && r.value == c.(sanitizers := c.sanitizers + [item.sanitizer])
  {
    var s :- Append(c.sanitizers, if item.SanitizerObj? then Some(item.sanitizer) else None, Sanitizing);
    Ok(c.(sanitizers := s))
  }

  /** Attaching a validator at the end of the pipeline. The duplicate check
      passes the validator's name to HasValidator, which compares tags. */
  function AddValidator(c: Column, item: Any): (r: Result<Column>)
    ensures !item.ValidatorObj? ==> r == Err(InvalidCapability(Validating))
    ensures item.ValidatorObj? ==> (r.Ok? <==> !HasValidator(c, item.validator.name))
    ensures item.ValidatorObj? && r.Err? ==> r.error == DuplicateCapability(Validating, item.validator.name)
    ensures r.Ok? ==> item.ValidatorObj? && r.value == c.(validators := c.validators + [item.validator])
  {
    var s :- Append(c.validators, if item.ValidatorObj? then Some(item.validator) else None, Validating);
    Ok(c.(validators := s))
  }

  /** `list.forEach(addSanitizer)`: a non-array has no forEach. */
  function AttachSanitizers(c: Column, list: Any): (r: Result<Column>)
    ensures !list.Array? ==> r == Err(NotIterable(Sanitizing))
    ensures r.Ok? <==> SanitizersAccepted(c.sanitizers, list)
    ensures r.Err? ==> r.error.Concerns(Sanitizing)
    ensures r.Err? ==> SanitizersRefused(c.sanitizers, list, r.error)
    ensures r.Ok? ==> && r.value == c.(sanitizers := r.value.sanitizers)
                      && |r.value.sanitizers| >= |c.sanitizers|
                      && r.value.sanitizers[..|c.sanitizers|] == c.sanitizers
                      && ListsSanitizers(list, r.value.sanitizers[|c.sanitizers|..])
  {
    if !list.Array? then Err(NotIterable(Sanitizing))
    else
      var s :- AppendAll(c.sanitizers, SanitizerCandidates(list.items), Sanitizing);
      assert s[|c.sanitizers|..] == Present(SanitizerCandidates(list.items));
      Ok(c.(sanitizers := s))
  }

  /** `list.forEach(addValidator)`: a non-array has no forEach. */
  function AttachValidators(c: Column, list: Any): (r: Result<Column>)
    ensures !list.Array? ==> r == Err(NotIterable(Validating))
    ensures r.Ok? <==> ValidatorsAccepted(c.validators, list)
    ensures r.Err? ==> r.error.Concerns(Validating)
    ensures r.Err? ==> ValidatorsRefused(c.validators, list, r.error)
    ensures r.Ok? ==> && r.value == c.(validators := r.value.validators)
                      && |r.value.validators| >= |c.validators|
                      && r.value.validators[..|c.validators|] == c.validators
                      && ListsValidators(list, r.value.validators[|c.validators|..])
  {
    if !list.Array? then Err(NotIterable(Validating))
    else
      var s :- AppendAll(c.validators, ValidatorCandidates(list.items), Validating);
      assert s[|c.validators|..] == Present(ValidatorCandidates(list.items));
      Ok(c.(validators := s))
  }

  /** The Column constructor: the options overlaid on the defaults, then
      every listed sanitizer and every listed validator attached in order. */
  function New(options: Options): (r: Result<Column>)
    ensures !IsString(options.typeName) ==> r == Err(ArgumentType(OptionsTypeParam))
    ensures IsString(options.typeName) ==>
              (r.Ok? <==> && SanitizersAccepted([], options.sanitizers.GetOr(Array([])))
                          && ValidatorsAccepted([], options.validators.GetOr(Array([]))))
    ensures IsString(options.typeName) && r.Err? ==>
              r.error.Concerns(if SanitizersAccepted([], options.sanitizers.GetOr(Array([])))
                               then Validating else Sanitizing)
    ensures IsString(options.typeName) && r.Err? ==>
              if SanitizersAccepted([], options.sanitizers.GetOr(Array([])))
              then ValidatorsRefused([], options.validators.GetOr(Array([])), r.error)
              else SanitizersRefused([], options.sanitizers.GetOr(Array([])), r.error)
    ensures r.Ok? ==> && MetadataFrom(r.value, options)
                      && ListsSanitizers(options.sanitizers.GetOr(Array([])), r.value.sanitizers)
                      && ListsValidators(options.validators.GetOr(Array([])), r.value.validators)
  {
    if !IsString(options.typeName) then Err(ArgumentType(OptionsTypeParam))
    else
      var o := Assign(Defaults(), options);
      var bare := Column(o.name.value, options.typeName.value.s, o.displayLabel.value, o.required.value,
                         o.description.value, [], []);
      var withSanitizers :- AttachSanitizers(bare, o.sanitizers.value);
      AttachValidators(withSanitizers, o.validators.value)
  }

  /** The factory: resolves `options.type` in the registry and seeds the
      pipelines from the column type, unless the options list their own. */
  function Populate(reg: Registry, options: Options): (r: Result<Column>)
    ensures !IsString(options.typeName) ==> r == Err(ArgumentType(OptionsTypeParam))
    ensures IsString(options.typeName) && !Has(reg, options.typeName.value) ==> r == Err(NotFound)
    ensures IsString(options.typeName) && Has(reg, options.typeName.value) ==>
              var t := reg[options.typeName.value.s];
              r.Ok? <==> && SanitizersAccepted([], options.sanitizers.GetOr(Array(t.sanitizers)))
                         && ValidatorsAccepted([], options.validators.GetOr(Array(t.validators)))
    ensures IsString(options.typeName) && Has(reg, options.typeName.value) && r.Err? ==>
              var t := reg[options.typeName.value.s];
              r.error.Concerns(if SanitizersAccepted([], options.sanitizers.GetOr(Array(t.sanitizers)))
                               then Validating else Sanitizing)
    ensures IsString(options.typeName) && Has(reg, options.typeName.value) && r.Err? ==>
              var t := reg[options.typeName.value.s];
              if SanitizersAccepted([], options.sanitizers.GetOr(Array(t.sanitizers)))
              then ValidatorsRefused([], options.validators.GetOr(Array(t.validators)), r.error)
              else SanitizersRefused([], options.sanitizers.GetOr(Array(t.sanitizers)), r.error)
    ensures r.Ok? ==> && IsString(options.typeName) && Has(reg, options.typeName.value)
                      && MetadataFrom(r.value, options)
                      && var t := reg[options.typeName.value.s];
                         && ListsSanitizers(options.sanitizers.GetOr(Array(t.sanitizers)), r.value.sanitizers)
                         && ListsValidators(options.validators.GetOr(Array(t.validators)), r.value.validators)
  {
    if !IsString(options.typeName) then Err(ArgumentType(OptionsTypeParam))
    else if !Has(reg, options.typeName.value) then Err(NotFound)
    else
      var t := Get(reg, options.typeName.value).value;
      var seeded := Options(None, None, None, None, None, Some(Array(t.sanitizers)), Some(Array(t.validators)));
      New(Assign(seeded, options))
  }

  /** Threads the value through every sanitizer in attachment order. */
  method Sanitize(c: Column, value: Value) returns (r: Value)
    ensures r == Chain(c.sanitizers, value)
  {
    r := value;
    for i := 0 to |c.sanitizers|
      invariant Chain(c.sanitizers[i..], r) == Chain(c.sanitizers, value)
    {
      assert c.sanitizers[i..][1..] == c.sanitizers[i + 1..];
      r := c.sanitizers[i].apply(r);
    }
  }

  /** Applies every validator to the value and collects their messages in
      attachment order. */
  method Validate(c: Column, value: Value) returns (errors: seq<string>)
    ensures errors == Gather(c.validators, value)
  {
    errors := [];
    for i := 0 to |c.validators|
      invariant errors + Gather(c.validators[i..], value) == Gather(c.validators, value)
    {
      assert c.validators[i..][1..] == c.validators[i + 1..];
      errors := errors + c.validators[i].apply(value);
    }
  }

  /** Successive `Object.assign` calls compose: overlaying `b` then `c` on
      `a` equals overlaying on `a` the result of overlaying `c` on `b`. So
      populate's two calls give the defaults, then the type's lists, then
      the caller's options. */
  lemma AssignAssociative(a: Options, b: Options, c: Options)
    ensures Assign(Assign(a, b), c) == Assign(a, Assign(b, c))
  {
  }

  /** The options the constructor sees when called from populate: every key
      is the caller's where present; otherwise the lists are the type's
      defaults and the other keys the column defaults. */
  lemma PopulateEffectiveOptions(options: Options, t: ColumnType)
    ensures var seeded := Options(None, None, None, None, None, Some(Array(t.sanitizers)), Some(Array(t.validators)));
            var effective := Assign(Defaults(), Assign(seeded, options));
            && effective == Assign(Assign(Defaults(), seeded), options)
            && effective.sanitizers == Some(options.sanitizers.GetOr(Array(t.sanitizers)))
            && effective.validators == Some(options.validators.GetOr(Array(t.validators)))
            && effective.name == Some(options.name.GetOr(Null))
  {
  }

  /** Options given nothing but a type yield the standard defaults and empty
      pipelines: the constructor never fails once `options.type` is a string
      and no lists are supplied. */
  lemma NewAppliesDefaults(t: string)
    ensures New(NoOptions.(typeName := Some(Str(t)))) == Ok(Column(Null, t, Null, Bool(false), Null, [], []))
  {
  }

  /** Without lists of its own, a populated column starts with exactly the
      column type's default pipelines. */
  lemma PopulateSeedsDefaults(reg: Registry, options: Options, t: string)
    requires options.typeName == Some(Str(t)) && t in reg
    requires options.sanitizers.None? && options.validators.None?
    requires SanitizersAccepted([], Array(reg[t].sanitizers)) && ValidatorsAccepted([], Array(reg[t].validators))
    ensures Populate(reg, options).Ok?
    ensures ListsSanitizers(Array(reg[t].sanitizers), Populate(reg, options).value.sanitizers)
    ensures ListsValidators(Array(reg[t].validators), Populate(reg, options).value.validators)
  {
  }

  /** Lists supplied in the options replace the column type's defaults rather
      than extending them: an explicit empty list discards them. */
  lemma PopulateOverridesDefaults(reg: Registry, options: Options)
    requires Populate(reg, options).Ok?
    requires options.sanitizers == Some(Array([])) && options.validators == Some(Array([]))
    ensures Populate(reg, options).value.sanitizers == []
    ensures Populate(reg, options).value.validators == []
  {
  }

  /** A sanitizer attached last post-processes what the column produced
      before. */
  lemma {:induction false} SanitizeAfterAdd(c: Column, item: Any, v: Value)
    requires AddSanitizer(c, item).Ok?
    ensures Chain(AddSanitizer(c, item).value.sanitizers, v) == item.sanitizer.apply(Chain(c.sanitizers, v))
  {
    ChainSnoc(c.sanitizers, item.sanitizer, v);
  }

  /** A validator attached last appends its messages, computed on the same
      value, after those of the earlier validators. */
  lemma {:induction false} ValidateAfterAdd(c: Column, item: Any, v: Value)
    requires AddValidator(c, item).Ok?
    ensures Gather(AddValidator(c, item).value.validators, v) == Gather(c.validators, v) + item.validator.apply(v)
  {
    GatherAppend(c.validators, [item.validator], v);
    assert Gather([item.validator], v) == item.validator.apply(v) + Gather([], v);
  }

  /** A stage whose name is its own tag cannot be attached twice, and the
      refused call leaves the pipeline as it was. */
  lemma SelfNamedAddedTwice(c: Column, s: Sanitizer)
    requires s.name == s.tag && AddSanitizer(c, SanitizerObj(s)).Ok?
    ensures AddSanitizer(AddSanitizer(c, SanitizerObj(s)).value, SanitizerObj(s))
            == Err(DuplicateCapability(Sanitizing, s.name))
  {
    var once := AddSanitizer(c, SanitizerObj(s)).value;
    assert once.sanitizers[|c.sanitizers|].tag == s.name;
  }

  /** Two sanitizers of the same tag are both attached when neither name is
      an attached tag and the second's name is not the first's tag: the
      duplicate check does not enforce one stage per tag. */
  lemma SameTagTwiceAccepted(c: Column, s1: Sanitizer, s2: Sanitizer)
    requires s1.tag == s2.tag && s2.name != s1.tag
    requires !HasSanitizer(c, s1.name) && !HasSanitizer(c, s2.name)
    ensures AddSanitizer(c, SanitizerObj(s1)).Ok?
    ensures AddSanitizer(AddSanitizer(c, SanitizerObj(s1)).value, SanitizerObj(s2)).Ok?
    ensures var twice := AddSanitizer(AddSanitizer(c, SanitizerObj(s1)).value, SanitizerObj(s2)).value;
            twice.sanitizers[|c.sanitizers|].tag == twice.sanitizers[|c.sanitizers| + 1].tag
  {
  }

}
