/**
 * The builder classes of the base layer: `BaseType`, which owns field options and a validation
 * list, and the `NullableModifier` and `OptionalModifier` wrappers. A wrapper holds its parent
 * as a `SchemaRef`, so that one base type may be wrapped by several modifiers and still be
 * changed afterwards through its own reference, as in the source. Each compile and clone method
 * is proved to agree with the pure description in `Compilation`.
 */
module Schema {
  import opened Wrappers
  import opened Types
  import opened Conditions
  import opened RefStore
  import opened CompilerNodes
  import opened Compilation

  /** A reference to any schema builder that can be compiled and cloned. */
  datatype SchemaRef =
    | Base(base: BaseType)
    | Union(union: UnionType)
    | Nullable(nullable: NullableModifier)
    | Optional(optional: OptionalModifier)

  /** How many wrappers deep a schema is; a wrapper is always deeper than its parent. */
  ghost function Depth(s: SchemaRef): nat {
    match s
    case Nullable(n) => n.depth
    case Optional(o) => o.depth
    case _ => 0
  }

  /**
   * The wrapper chain is finite: each parent is shallower than its wrapper, and no wrapper is
   * one of its parent's objects.
   */
  ghost predicate Valid(s: SchemaRef)
    decreases Depth(s)
  {
    match s
    case Nullable(n) => Depth(n.parent) < n.depth && Valid(n.parent) && n !in Repr(n.parent)
    case Optional(o) => Depth(o.parent) < o.depth && Valid(o.parent) && o !in Repr(o.parent)
    case _ => true
  }

  /** The builder objects a schema consists of. */
  ghost function Repr(s: SchemaRef): set<object>
    decreases Depth(s)
  {
    match s
    case Base(b) => {b}
    case Union(u) => {u}
    case Nullable(n) => {n} + (if Depth(n.parent) < n.depth then Repr(n.parent) else {})
    case Optional(o) => {o} + (if Depth(o.parent) < o.depth then Repr(o.parent) else {})
  }

  /** Every object of a schema is allocated, so a newly allocated object is not one of them. */
  lemma {:induction false} ReprAllocated(s: SchemaRef)
    requires Valid(s)
    ensures forall o :: o in Repr(s) ==> allocated(o)
    decreases Depth(s)
  {
    match s
    case Nullable(n) => ReprAllocated(n.parent);
    case Optional(o) => ReprAllocated(o.parent);
    case _ =>
  }

  /** The current builder state of a schema, as a value. */
  ghost function Snapshot(s: SchemaRef): SchemaValue
    requires Valid(s)
    reads Repr(s)
    decreases Depth(s)
  {
    match s
    case Base(b) => BaseV(b.fieldType, b.options, b.validations)
    case Union(u) => UnionV(u.otherwise)
    case Nullable(n) => NullableV(Snapshot(n.parent))
    case Optional(o) => OptionalV(Snapshot(o.parent), o.validations)
  }

  /**
   * `compileValidations`: tracks each validation's validator and options, in list order, and
   * returns the compiled entries.
   */
  method CompileValidationList(vs: seq<Validation>, refs: Refs) returns (r: seq<CompiledValidation>)
    modifies refs
    ensures r == CompiledValidations(vs, |old(refs.entries)|)
    ensures refs.entries == old(refs.entries) + RulePayloads(vs)
  {
    ghost var start := refs.entries;
    r := [];
    var i := 0;
    while i < |vs|
      invariant 0 <= i <= |vs|
      invariant |r| == i
      invariant forall k :: 0 <= k < i ==>
        r[k] == CompiledValidation(RefId(|start| + k + 1), vs[k].rule.implicit, vs[k].rule.isAsync)
      invariant |refs.entries| == |start| + i && refs.entries[..|start|] == start
      invariant forall k :: 0 <= k < i ==>
        refs.entries[|start| + k] == RulePayload(vs[k].rule.validator, vs[k].options)
    {
      var id := refs.Track(RulePayload(vs[i].rule.validator, vs[i].options));
      r := r + [CompiledValidation(id, vs[i].rule.implicit, vs[i].rule.isAsync)];
      i := i + 1;
    }
    assert refs.entries == start + RulePayloads(vs);
  }

  /**
   * The shared plumbing of every schema type. The node kind stands for the concrete type that
   * extends it; `Compile` produces the node a literal-kind type produces.
   */
  class BaseType {
    const fieldType: FieldType
    var options: FieldOptions
    var validations: seq<Validation>

    /** Options and validations default to `DefaultFieldOptions` and the empty list. */
    constructor (fieldType: FieldType, options: Option<FieldOptions>, validations: Option<seq<Validation>>)
      ensures this.fieldType == fieldType
      ensures this.options == options.GetOr(DefaultFieldOptions)
      ensures this.validations == validations.GetOr([])
    {
      this.fieldType := fieldType;
      this.options := options.GetOr(DefaultFieldOptions);
      this.validations := validations.GetOr([]);
    }

    /** A copy of the list made entry by entry; rule and options are shared. */
    function CloneValidations(): (r: seq<Validation>)
      reads this
      ensures r == validations
    {
      seq(|validations|, i requires 0 <= i < |validations| reads this =>
        Validation(validations[i].options, validations[i].rule))
    }

    /** A field-by-field copy of the options. */
    function CloneOptions(): (r: FieldOptions)
      reads this
      ensures r == options
    {
      FieldOptions(options.allowNull, options.bail, options.isOptional, options.parse)
    }

    method CompileValidations(refs: Refs) returns (r: seq<CompiledValidation>)
      modifies refs
      ensures r == CompiledValidations(validations, |old(refs.entries)|)
      ensures refs.entries == old(refs.entries) + RulePayloads(validations)
    {
      r := CompileValidationList(validations, refs);
    }

    /** Sets the parse callback; nothing else changes. */
    method Parse(callback: nat)
      modifies this
      ensures options == old(options).(parse := Some(callback))
      ensures validations == old(validations)
    {
      options := options.(parse := Some(callback));
    }

    /** Appends one validation (the builder's result for a rule builder) at the end. */
    method Use(arg: UseArg)
      modifies this
      ensures validations == old(validations) + [arg.Resolve()]
      ensures options == old(options)
    {
      validations := validations + [arg.Resolve()];
    }

    /** Sets the bail mode; nothing else changes. */
    method Bail(state: bool)
      modifies this
      ensures options == old(options).(bail := state)
      ensures validations == old(validations)
    {
      options := options.(bail := state);
    }

    method Compile(fieldName: string, refs: Refs, parserOptions: ParserOptions) returns (node: CompilerNode)
      modifies refs
      ensures Compiled(node, refs.entries) ==
        CompileValue(BaseV(fieldType, options, validations), fieldName, old(refs.entries))
    {
      var parseFnId: Option<RefId> := None;
      if options.parse.Some? {
        var id := refs.Track(ParserPayload(options.parse.value));
        parseFnId := Some(id);
      }
      var compiled := CompileValidations(refs);
      node := FieldNode(fieldType, fieldName, fieldName, options.allowNull, options.isOptional,
                        options.bail, parseFnId, compiled);
    }

    /** A new instance built from copies of the options and the validation list. */
    method Clone() returns (c: BaseType)
      ensures fresh(c)
      ensures c.fieldType == fieldType && c.options == options && c.validations == validations
    {
      c := new BaseType(fieldType, Some(CloneOptions()), Some(CloneValidations()));
    }
  }

  /** A union schema, reduced to the callback its else branch tracks. */
  class UnionType {
    const otherwise: nat

    constructor (otherwise: nat)
      ensures this.otherwise == otherwise
    {
      this.otherwise := otherwise;
    }

    method Compile(fieldName: string, refs: Refs, parserOptions: ParserOptions) returns (node: CompilerNode)
      modifies refs
      ensures Compiled(node, refs.entries) == CompileValue(UnionV(otherwise), fieldName, old(refs.entries))
    {
      var id := refs.Track(ConditionalPayload(otherwise));
      node := UnionNode(fieldName, fieldName, id);
    }

    method Clone() returns (c: UnionType)
      ensures fresh(c) && c.otherwise == otherwise
    {
      c := new UnionType(otherwise);
    }
  }

  /** Marks the wrapped schema as accepting `null`. */
  class NullableModifier {
    const parent: SchemaRef
    ghost const depth: nat

    constructor (parent: SchemaRef)
      requires Valid(parent)
      ensures this.parent == parent && Valid(Nullable(this))
    {
      ReprAllocated(parent);
      this.parent := parent;
      this.depth := Depth(parent) + 1;
    }

    /** A new modifier around a clone of the parent. */
    method Clone() returns (c: NullableModifier)
      requires Valid(Nullable(this))
      ensures Valid(Nullable(c)) && fresh(Repr(Nullable(c)))
      ensures Snapshot(Nullable(c)) == Snapshot(Nullable(this))
      decreases depth, 0
    {
      var p := CloneSchema(parent);
      ReprAllocated(p);
      ReprAllocated(parent);
      c := new NullableModifier(p);
    }

    /** Compiles the parent, then sets `allowNull` unless the node is a union. */
    method Compile(fieldName: string, refs: Refs, parserOptions: ParserOptions) returns (node: CompilerNode)
      requires Valid(Nullable(this))
      modifies refs
      ensures Compiled(node, refs.entries) ==
        CompileValue(old(Snapshot(Nullable(this))), fieldName, old(refs.entries))
      decreases depth, 0
    {
      var output := CompileSchema(parent, fieldName, refs, parserOptions);
      if output.Tag() != UnionType {
        output := output.(allowNull := true);
      }
      node := output;
    }
  }

  /**
   * Marks the wrapped schema as optional and keeps a validation list of its own for the
   * conditional-requiredness rules.
   */
  class OptionalModifier {
    const parent: SchemaRef
    ghost const depth: nat
    var validations: seq<Validation>

    constructor (parent: SchemaRef, validations: Option<seq<Validation>>)
      requires Valid(parent)
      ensures this.parent == parent && Valid(Optional(this))
      ensures this.validations == validations.GetOr([])
    {
      ReprAllocated(parent);
      this.parent := parent;
      this.depth := Depth(parent) + 1;
      this.validations := validations.GetOr([]);
    }

    /** A copy of the modifier's own list made entry by entry. */
    function CloneValidations(): (r: seq<Validation>)
      reads this
      ensures r == validations
    {
      seq(|validations|, i requires 0 <= i < |validations| reads this =>
        Validation(validations[i].options, validations[i].rule))
    }

    method CompileValidations(refs: Refs) returns (r: seq<CompiledValidation>)
      modifies refs
      ensures r == CompiledValidations(validations, |old(refs.entries)|)
      ensures refs.entries == old(refs.entries) + RulePayloads(validations)
    {
      r := CompileValidationList(validations, refs);
    }

    /** Appends one validation to the modifier's own list. */
    method Use(arg: UseArg)
      modifies this
      ensures validations == old(validations) + [arg.Resolve()]
    {
      validations := validations + [arg.Resolve()];
    }

    /** `requiredWhen(callback)`: the field is required when the callback returns true. */
    method RequiredWhenCallback(callback: nat)
      modifies this
      ensures validations == old(validations) + [RequiredWhenValidation(UserCallback(callback))]
    {
      Use(PlainValidation(RequiredWhenValidation(UserCallback(callback))));
    }

    /** `requiredWhen(otherField, operator, expected)`: required when the comparison holds. */
    method RequiredWhen(otherField: string, op: ComparisonOperator, expected: Expected)
      requires Fits(op, expected)
      modifies this
      ensures validations == old(validations) + [RequiredWhenValidation(Comparison(otherField, op, expected))]
    {
      Use(PlainValidation(RequiredWhenValidation(Comparison(otherField, op, expected))));
    }

    /** Required when every one of the fields exists. */
    method RequiredIfExists(fields: FieldsArg)
      modifies this
      ensures validations == old(validations) +
        [RequiredWhenValidation(Presence(FieldList(fields), MustExist, Every))]
    {
      var fieldsToExist := FieldList(fields);
      Use(PlainValidation(RequiredWhenValidation(Presence(fieldsToExist, MustExist, Every))));
    }

    /** Required when at least one of the fields exists. */
    method RequiredIfAnyExists(fields: seq<string>)
      modifies this
      ensures validations == old(validations) + [RequiredWhenValidation(Presence(fields, MustExist, Any))]
    {
      Use(PlainValidation(RequiredWhenValidation(Presence(fields, MustExist, Any))));
    }

    /** Required when every one of the fields is missing. */
    method RequiredIfMissing(fields: FieldsArg)
      modifies this
      ensures validations == old(validations) +
        [RequiredWhenValidation(Presence(FieldList(fields), MustBeMissing, Every))]
    {
      var fieldsToExist := FieldList(fields);
      Use(PlainValidation(RequiredWhenValidation(Presence(fieldsToExist, MustBeMissing, Every))));
    }

    /** Required when at least one of the fields is missing. */
    method RequiredIfAnyMissing(fields: seq<string>)
      modifies this
      ensures validations == old(validations) + [RequiredWhenValidation(Presence(fields, MustBeMissing, Any))]
    {
      Use(PlainValidation(RequiredWhenValidation(Presence(fields, MustBeMissing, Any))));
    }

    /** A new modifier around a clone of the parent, with a copy of the own list. */
    method Clone() returns (c: OptionalModifier)
      requires Valid(Optional(this))
      ensures Valid(Optional(c)) && fresh(Repr(Optional(c)))
      ensures Snapshot(Optional(c)) == Snapshot(Optional(this))
      decreases depth, 0
    {
      var p := CloneSchema(parent);
      ReprAllocated(p);
      ReprAllocated(parent);
      c := new OptionalModifier(p, Some(CloneValidations()));
    }

    /**
     * Compiles the parent; unless the node is a union, sets `isOptional` and appends the
     * modifier's own compiled validations.
     */
    method Compile(fieldName: string, refs: Refs, parserOptions: ParserOptions) returns (node: CompilerNode)
      requires Valid(Optional(this))
      modifies refs
      ensures Compiled(node, refs.entries) ==
        CompileValue(old(Snapshot(Optional(this))), fieldName, old(refs.entries))
      decreases depth, 0
    {
      var output := CompileSchema(parent, fieldName, refs, parserOptions);
      if output.Tag() != UnionType {
        var own := CompileValidations(refs);
        output := output.(isOptional := true, validations := output.validations + own);
      }
      node := output;
    }
  }

  /** Compiles whichever schema `s` refers to. */
  method CompileSchema(s: SchemaRef, fieldName: string, refs: Refs, parserOptions: ParserOptions)
    returns (node: CompilerNode)
    requires Valid(s)
    modifies refs
    ensures Compiled(node, refs.entries) == CompileValue(old(Snapshot(s)), fieldName, old(refs.entries))
    decreases Depth(s), 1
  {
    match s
    case Base(b) => node := b.Compile(fieldName, refs, parserOptions);
    case Union(u) => node := u.Compile(fieldName, refs, parserOptions);
    case Nullable(n) => node := n.Compile(fieldName, refs, parserOptions);
    case Optional(o) => node := o.Compile(fieldName, refs, parserOptions);
  }

  /** Clones whichever schema `s` refers to: new objects throughout, with the same state. */
  method CloneSchema(s: SchemaRef) returns (c: SchemaRef)
    requires Valid(s)
    ensures Valid(c) && fresh(Repr(c))
    ensures Snapshot(c) == Snapshot(s)
    decreases Depth(s), 1
  {
    match s
    case Base(b) =>
      var cb := b.Clone();
      c := Base(cb);
    case Union(u) =>
      var cu := u.Clone();
      c := Union(cu);
    case Nullable(n) =>
      var cn := n.Clone();
      c := Nullable(cn);
    case Optional(o) =>
      var co := o.Clone();
      c := Optional(co);
  }

  /** Cloning, then disabling bail on the clone, leaves the original as it was. */
  method CloneAndBail(b: BaseType, state: bool) returns (c: BaseType)
    ensures fresh(c)
    ensures c.options == b.options.(bail := state) && c.validations == b.validations
    ensures b.options == old(b.options) && b.validations == old(b.validations)
  {
    c := b.Clone();
    c.Bail(state);
  }

  /**
   * Cloning any schema and then pushing a validation onto the clone's optional modifier leaves
   * the original schema's state as it was.
   */
  method CloneAndUse(o: OptionalModifier, arg: UseArg) returns (c: OptionalModifier)
    requires Valid(Optional(o))
    ensures Valid(Optional(c)) && fresh(Repr(Optional(c)))
    ensures Snapshot(Optional(c)) == OptionalV(Snapshot(o.parent), o.validations + [arg.Resolve()])
    ensures Snapshot(Optional(o)) == old(Snapshot(Optional(o)))
  {
    ReprAllocated(Optional(o));
    c := o.Clone();
    ReprAllocated(c.parent);
    assert c !in Repr(Optional(o));
    c.Use(arg);
  }
}
