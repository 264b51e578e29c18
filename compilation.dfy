/**
 * What compiling a schema produces, as pure functions of a snapshot of the builder state
 * (`SchemaValue`) and of the reference store's entries before the call. The methods of the
 * schema classes are proved to produce exactly this; the lemmas here state what it means.
 */
module Compilation {
  import opened Wrappers
  import opened Types
  import opened RefStore
  import opened CompilerNodes

  /**
   * A snapshot of a builder tree: a base type (its node kind, options and validations), a union
   * (the identity of its otherwise callback), or a modifier around a parent.
   */
  datatype SchemaValue =
    | BaseV(fieldType: FieldType, options: FieldOptions, validations: seq<Validation>)
    | UnionV(otherwise: nat)
    | NullableV(parent: SchemaValue)
    | OptionalV(parent: SchemaValue, validations: seq<Validation>)

  /** A compiled node together with the store's entries after compiling it. */
  datatype Compiled = Compiled(node: CompilerNode, store: seq<Payload>)

  /**
   * The `map` of `compileValidations` when the store already holds `start` entries: entry i gets
   * the id of the i-th `track` call and the i-th rule's flags.
   */
  function CompiledValidations(vs: seq<Validation>, start: nat): seq<CompiledValidation> {
    seq(|vs|, i requires 0 <= i < |vs| =>
      CompiledValidation(RefId(start + i + 1), vs[i].rule.implicit, vs[i].rule.isAsync))
  }

  /** What `compileValidations` registers, in order: each rule's validator with its options. */
  function RulePayloads(vs: seq<Validation>): seq<Payload> {
    seq(|vs|, i requires 0 <= i < |vs| => RulePayload(vs[i].rule.validator, vs[i].options))
  }

  /**
   * A base type's node: the parse callback is tracked first (when there is one), then every
   * validation in list order.
   */
  function CompileBase(t: FieldType, o: FieldOptions, vs: seq<Validation>, fieldName: string,
                       store: seq<Payload>): Compiled
  {
    var parseFnId := if o.parse.Some? then Some(NextId(store)) else None;
    var afterParse := if o.parse.Some? then store + [ParserPayload(o.parse.value)] else store;
    Compiled(FieldNode(t, fieldName, fieldName, o.allowNull, o.isOptional, o.bail, parseFnId,
                       CompiledValidations(vs, |afterParse|)),
             afterParse + RulePayloads(vs))
  }

  /** Compiling the schema `v` under `fieldName` against a store holding `store`. */
  function CompileValue(v: SchemaValue, fieldName: string, store: seq<Payload>): Compiled
  {
    match v
    case BaseV(t, o, vs) => CompileBase(t, o, vs, fieldName, store)
    case UnionV(cb) =>
      Compiled(UnionNode(fieldName, fieldName, NextId(store)), store + [ConditionalPayload(cb)])
    case NullableV(p) => WithNullable(CompileValue(p, fieldName, store))
    case OptionalV(p, vs) => WithOptional(CompileValue(p, fieldName, store), vs)
  }

  /** What `nullable()` does to its parent's output: set `allowNull` unless it is a union. */
  function WithNullable(output: Compiled): (r: Compiled)
    ensures r.store == output.store
    ensures output.node.Tag() == UnionType ==> r.node == output.node
    ensures output.node.Tag() != UnionType ==>
      r.node.FieldNode? && r.node.allowNull && r.node == output.node.(allowNull := r.node.allowNull)
  {
    if output.node.Tag() != UnionType then Compiled(output.node.(allowNull := true), output.store)
    else output
  }

  /**
   * What `optional()` does to its parent's output: unless it is a union, set `isOptional` and
   * append the modifier's own validations, tracked after everything the parent tracked.
   */
  function WithOptional(output: Compiled, vs: seq<Validation>): (r: Compiled)
    ensures output.node.Tag() == UnionType ==> r == output
    ensures output.node.Tag() != UnionType ==>
      r.node.FieldNode? && r.node.isOptional &&
      r.node == output.node.(isOptional := true, validations := r.node.validations) &&
      |r.node.validations| == |output.node.validations| + |vs| &&
      r.node.validations[..|output.node.validations|] == output.node.validations &&
      (forall i :: 0 <= i < |vs| ==>
         r.node.validations[|output.node.validations| + i] ==
         CompiledValidation(RefId(|output.store| + i + 1), vs[i].rule.implicit, vs[i].rule.isAsync)) &&
      r.store == output.store + RulePayloads(vs)
  {
    if output.node.Tag() != UnionType then
      var pv := output.node.validations;
      var own := CompiledValidations(vs, |output.store|);
      assert (pv + own)[..|pv|] == pv;
      assert forall i :: 0 <= i < |vs| ==> (pv + own)[|pv| + i] == own[i];
      Compiled(output.node.(isOptional := true, validations := pv + own), output.store + RulePayloads(vs))
    else output
  }

  // ---------------------------------------------------------------------------------------
  // An independent description of the result: the schema under all its modifiers, the
  // validations along the chain, and which modifiers occur.

  /** The base type or union that all the modifiers wrap. */
  function Inner(v: SchemaValue): (r: SchemaValue)
    ensures r.BaseV? || r.UnionV?
  {
    match v
    case NullableV(p) => Inner(p)
    case OptionalV(p, _) => Inner(p)
    case _ => v
  }

  /** The base type's validations followed by each optional modifier's own, innermost first. */
  function Chain(v: SchemaValue): seq<Validation> {
    match v
    case BaseV(_, _, vs) => vs
    case UnionV(_) => []
    case NullableV(p) => Chain(p)
    case OptionalV(p, vs) => Chain(p) + vs
  }

  predicate HasNullable(v: SchemaValue) {
    match v
    case NullableV(_) => true
    case OptionalV(p, _) => HasNullable(p)
    case _ => false
  }

  predicate HasOptional(v: SchemaValue) {
    match v
    case OptionalV(_, _) => true
    case NullableV(p) => HasOptional(p)
    case _ => false
  }

  /**
   * The reference result for a schema whose inner type is a base type: compile the base type as
   * if it owned every validation of the chain, then set `allowNull`/`isOptional` when a modifier
   * of that kind occurs.
   */
  function FlatCompile(v: SchemaValue, fieldName: string, store: seq<Payload>): Compiled
    requires Inner(v).BaseV?
  {
    var b := Inner(v);
    var base := CompileBase(b.fieldType, b.options, Chain(v), fieldName, store);
    Compiled(base.node.(allowNull := b.options.allowNull || HasNullable(v),
                        isOptional := b.options.isOptional || HasOptional(v)),
             base.store)
  }

  lemma {:induction false} CompiledValidationsAppend(a: seq<Validation>, b: seq<Validation>, start: nat)
    ensures CompiledValidations(a + b, start) == CompiledValidations(a, start) + CompiledValidations(b, start + |a|)
  {
    var l, r := CompiledValidations(a + b, start), CompiledValidations(a, start) + CompiledValidations(b, start + |a|);
    assert |l| == |r|;
    forall i | 0 <= i < |l| ensures l[i] == r[i] {
      if i >= |a| {
        assert (a + b)[i] == b[i - |a|];
      }
    }
  }

  lemma {:induction false} RulePayloadsAppend(a: seq<Validation>, b: seq<Validation>)
    ensures RulePayloads(a + b) == RulePayloads(a) + RulePayloads(b)
  {
    var l, r := RulePayloads(a + b), RulePayloads(a) + RulePayloads(b);
    assert |l| == |r|;
    forall i | 0 <= i < |l| ensures l[i] == r[i] {
      if i >= |a| {
        assert (a + b)[i] == b[i - |a|];
      }
    }
  }

  /** The statement of `CompileFlattens` for one schema. */
  predicate FlattensAt(v: SchemaValue, fieldName: string, store: seq<Payload>) {
    (Inner(v).UnionV? ==>
       CompileValue(v, fieldName, store) ==
       Compiled(UnionNode(fieldName, fieldName, NextId(store)), store + [ConditionalPayload(Inner(v).otherwise)])) &&
    (Inner(v).BaseV? ==> CompileValue(v, fieldName, store) == FlatCompile(v, fieldName, store))
  }

  lemma {:induction false} FlattensNullable(p: SchemaValue, fieldName: string, store: seq<Payload>)
    requires FlattensAt(p, fieldName, store)
    ensures FlattensAt(NullableV(p), fieldName, store)
  {
  }

  /** Compiling a base type with `b` appended to its validations appends `b`'s compiled entries. */
  lemma {:induction false} CompileBaseAppend(t: FieldType, o: FieldOptions, a: seq<Validation>, b: seq<Validation>,
                          fieldName: string, store: seq<Payload>)
    ensures var base := CompileBase(t, o, a, fieldName, store);
      CompileBase(t, o, a + b, fieldName, store) ==
      Compiled(base.node.(validations := base.node.validations + CompiledValidations(b, |base.store|)),
               base.store + RulePayloads(b))
  {
    var afterParse := if o.parse.Some? then store + [ParserPayload(o.parse.value)] else store;
    CompiledValidationsAppend(a, b, |afterParse|);
    RulePayloadsAppend(a, b);
    assert afterParse + (RulePayloads(a) + RulePayloads(b)) == afterParse + RulePayloads(a) + RulePayloads(b);
  }

  lemma {:induction false} FlattensOptional(p: SchemaValue, vs: seq<Validation>, fieldName: string, store: seq<Payload>)
    requires FlattensAt(p, fieldName, store)
    ensures FlattensAt(OptionalV(p, vs), fieldName, store)
  {
    if Inner(p).BaseV? {
      var b := Inner(p);
      CompileBaseAppend(b.fieldType, b.options, Chain(p), vs, fieldName, store);
    }
  }

  /**
   * Compiling through any stack of modifiers: a union stays the union node its own compile
   * produced, with only its otherwise callback tracked; anything else is `FlatCompile`.
   */
  lemma {:induction false} CompileFlattens(v: SchemaValue, fieldName: string, store: seq<Payload>)
    ensures Inner(v).UnionV? ==>
      CompileValue(v, fieldName, store) ==
      Compiled(UnionNode(fieldName, fieldName, NextId(store)), store + [ConditionalPayload(Inner(v).otherwise)])
    ensures Inner(v).BaseV? ==> CompileValue(v, fieldName, store) == FlatCompile(v, fieldName, store)
  {
    match v
    case BaseV(_, _, _) =>
    case UnionV(_) =>
    case NullableV(p) =>
      CompileFlattens(p, fieldName, store);
      FlattensNullable(p, fieldName, store);
    case OptionalV(p, vs) =>
      CompileFlattens(p, fieldName, store);
      FlattensOptional(p, vs, fieldName, store);
  }

  /** The compiled node is a union node exactly when the innermost schema is a union. */
  lemma TypeDiscriminantPreserved(v: SchemaValue, fieldName: string, store: seq<Payload>)
    ensures CompileValue(v, fieldName, store).node.Tag() == UnionType <==> Inner(v).UnionV?
  {
    CompileFlattens(v, fieldName, store);
  }

  /**
   * Compiling only appends to the store: the entries already there are kept, and the new
   * ones are the parse callback (if any) and the chain's validators in order (or the union's
   * otherwise callback).
   */
  lemma StoreGrowsByPayloads(v: SchemaValue, fieldName: string, store: seq<Payload>)
    ensures var out := CompileValue(v, fieldName, store);
      |out.store| >= |store| && out.store[..|store|] == store
    ensures Inner(v).BaseV? && Inner(v).options.parse.None? ==>
      CompileValue(v, fieldName, store).store == store + RulePayloads(Chain(v))
    ensures Inner(v).BaseV? && Inner(v).options.parse.Some? ==>
      CompileValue(v, fieldName, store).store ==
      store + [ParserPayload(Inner(v).options.parse.value)] + RulePayloads(Chain(v))
  {
    CompileFlattens(v, fieldName, store);
    var out := CompileValue(v, fieldName, store);
    assert out.store[..|store|] == store;
  }

  /**
   * Determinism: the node depends on the store only through its size, so two stores of the same
   * size give the same node and gain the same entries.
   */
  lemma CompileDeterministic(v: SchemaValue, fieldName: string, s1: seq<Payload>, s2: seq<Payload>)
    requires |s1| == |s2|
    ensures CompileValue(v, fieldName, s1).node == CompileValue(v, fieldName, s2).node
    ensures |CompileValue(v, fieldName, s1).store| >= |s1| && |CompileValue(v, fieldName, s2).store| >= |s2|
    ensures CompileValue(v, fieldName, s1).store[|s1|..] == CompileValue(v, fieldName, s2).store[|s2|..]
  {
    CompileFlattens(v, fieldName, s1);
    CompileFlattens(v, fieldName, s2);
    if Inner(v).BaseV? {
      var b := Inner(v);
      CompileBaseDeterministic(b.fieldType, b.options, Chain(v), fieldName, s1, s2);
    } else {
      assert (s1 + [ConditionalPayload(Inner(v).otherwise)])[|s1|..] == [ConditionalPayload(Inner(v).otherwise)];
      assert (s2 + [ConditionalPayload(Inner(v).otherwise)])[|s2|..] == [ConditionalPayload(Inner(v).otherwise)];
    }
  }

  lemma {:induction false} CompileBaseDeterministic(t: FieldType, o: FieldOptions, vs: seq<Validation>, fieldName: string,
                                 s1: seq<Payload>, s2: seq<Payload>)
    requires |s1| == |s2|
    ensures CompileBase(t, o, vs, fieldName, s1).node == CompileBase(t, o, vs, fieldName, s2).node
    ensures |CompileBase(t, o, vs, fieldName, s1).store| >= |s1| && |CompileBase(t, o, vs, fieldName, s2).store| >= |s2|
    ensures CompileBase(t, o, vs, fieldName, s1).store[|s1|..] == CompileBase(t, o, vs, fieldName, s2).store[|s2|..]
  {
    var added := (if o.parse.Some? then [ParserPayload(o.parse.value)] else []) + RulePayloads(vs);
    CompileBaseAdds(t, o, vs, fieldName, s1);
    CompileBaseAdds(t, o, vs, fieldName, s2);
    assert (s1 + added)[|s1|..] == added;
    assert (s2 + added)[|s2|..] == added;
  }

  lemma {:induction false} CompileBaseAdds(t: FieldType, o: FieldOptions, vs: seq<Validation>, fieldName: string, store: seq<Payload>)
    ensures CompileBase(t, o, vs, fieldName, store).store ==
      store + ((if o.parse.Some? then [ParserPayload(o.parse.value)] else []) + RulePayloads(vs))
  {
    var rp := RulePayloads(vs);
    if o.parse.Some? {
      var parsed := [ParserPayload(o.parse.value)];
      assert (store + parsed) + rp == store + (parsed + rp);
    } else {
      assert [] + rp == rp;
    }
  }

  /**
   * The ids of a compiled node resolve in the store after compiling: the i-th compiled
   * validation's id is new and names the validator and options of `vs[i]`, and a `parseFnId`
   * is the first new id and names the parse callback `parse`.
   */
  predicate IdsResolve(validations: seq<CompiledValidation>, parseFnId: Option<RefId>,
                       vs: seq<Validation>, parse: Option<nat>, store: seq<Payload>, newStore: seq<Payload>)
  {
    |validations| == |vs| &&
    (forall i :: 0 <= i < |vs| ==>
       |store| < validations[i].ruleFnId.n <= |newStore| &&
       newStore[validations[i].ruleFnId.n - 1] == RulePayload(vs[i].rule.validator, vs[i].options)) &&
    (parseFnId.Some? ==>
       parseFnId.value == NextId(store) && |newStore| > |store| &&
       parse.Some? && newStore[|store|] == ParserPayload(parse.value))
  }

  /**
   * Every id in a compiled node resolves, in the store after compiling, to what it names: the
   * parse callback for `parseFnId`, and for the i-th compiled validation the validator and
   * options of the i-th validation of the chain; each id is fresh with respect to the old store.
   */
  lemma {:induction false} CompiledIdsResolve(v: SchemaValue, fieldName: string, store: seq<Payload>)
    requires Inner(v).BaseV?
    ensures var out := CompileValue(v, fieldName, store);
      out.node.FieldNode? &&
      IdsResolve(out.node.validations, out.node.parseFnId, Chain(v), Inner(v).options.parse, store, out.store)
  {
    CompileFlattens(v, fieldName, store);
    var b := Inner(v);
    var base := CompileBase(b.fieldType, b.options, Chain(v), fieldName, store);
    BaseIdsResolve(b.fieldType, b.options, Chain(v), fieldName, store);
    var out := CompileValue(v, fieldName, store);
    assert out.node.validations == base.node.validations;
    assert out.node.parseFnId == base.node.parseFnId;
    assert out.store == base.store;
  }

  /**
   * What the store's `toJSON()` shows after compiling: under the id of the i-th compiled
   * validation, the validator and options of the i-th validation of the chain; under
   * `parseFnId`, which is set exactly when a parse callback is, that callback.
   */
  lemma {:induction false} CompiledIdsLookup(v: SchemaValue, fieldName: string, store: seq<Payload>)
    requires Inner(v).BaseV?
    ensures var out := CompileValue(v, fieldName, store);
      out.node.FieldNode? && |out.node.validations| == |Chain(v)| &&
      (forall i :: 0 <= i < |Chain(v)| ==>
         Resolve(out.store, out.node.validations[i].ruleFnId) ==
         Some(RulePayload(Chain(v)[i].rule.validator, Chain(v)[i].options))) &&
      (out.node.parseFnId.Some? <==> Inner(v).options.parse.Some?) &&
      (out.node.parseFnId.Some? ==>
         Resolve(out.store, out.node.parseFnId.value) == Some(ParserPayload(Inner(v).options.parse.value)))
  {
    CompiledIdsResolve(v, fieldName, store);
    CompileFlattens(v, fieldName, store);
    var out := CompileValue(v, fieldName, store);
    var vs := Chain(v);
    assert out.node.FieldNode? &&
      IdsResolve(out.node.validations, out.node.parseFnId, vs, Inner(v).options.parse, store, out.store);
    forall i | 0 <= i < |vs|
      ensures Resolve(out.store, out.node.validations[i].ruleFnId) ==
              Some(RulePayload(vs[i].rule.validator, vs[i].options))
    {
      var n := out.node.validations[i].ruleFnId.n;
      assert 1 <= n <= |out.store|;
      assert out.store[n - 1] == RulePayload(vs[i].rule.validator, vs[i].options);
    }
  }

  lemma {:induction false} BaseIdsResolve(t: FieldType, o: FieldOptions, vs: seq<Validation>, fieldName: string, store: seq<Payload>)
    ensures var out := CompileBase(t, o, vs, fieldName, store);
      IdsResolve(out.node.validations, out.node.parseFnId, vs, o.parse, store, out.store)
  {
    var afterParse := if o.parse.Some? then store + [ParserPayload(o.parse.value)] else store;
    var out := CompileBase(t, o, vs, fieldName, store);
    assert out.node.validations == CompiledValidations(vs, |afterParse|);
    assert out.store == afterParse + RulePayloads(vs);
    RulesResolve(vs, afterParse);
    if o.parse.Some? {
      assert out.store[|store|] == afterParse[|store|];
    }
  }

  /** Validations tracked after `prefix` resolve, in `prefix + RulePayloads(vs)`, to their rules. */
  lemma {:induction false} RulesResolve(vs: seq<Validation>, prefix: seq<Payload>)
    ensures forall i :: 0 <= i < |vs| ==>
      |prefix| < CompiledValidations(vs, |prefix|)[i].ruleFnId.n <= |prefix + RulePayloads(vs)| &&
      (prefix + RulePayloads(vs))[CompiledValidations(vs, |prefix|)[i].ruleFnId.n - 1] ==
        RulePayload(vs[i].rule.validator, vs[i].options)
  {
    forall i | 0 <= i < |vs|
      ensures |prefix| < CompiledValidations(vs, |prefix|)[i].ruleFnId.n <= |prefix + RulePayloads(vs)|
      ensures (prefix + RulePayloads(vs))[CompiledValidations(vs, |prefix|)[i].ruleFnId.n - 1] ==
        RulePayload(vs[i].rule.validator, vs[i].options)
    {
      var k := CompiledValidations(vs, |prefix|)[i].ruleFnId.n - 1;
      assert k == |prefix| + i;
      RulePayloadAt(vs, prefix, i);
    }
  }

  lemma {:induction false} RulePayloadAt(vs: seq<Validation>, prefix: seq<Payload>, i: nat)
    requires i < |vs|
    ensures (prefix + RulePayloads(vs))[|prefix| + i] == RulePayload(vs[i].rule.validator, vs[i].options)
  {
  }

  /** A base type built with no options and no validations compiles to the default node. */
  lemma DefaultNode(t: FieldType, fieldName: string, store: seq<Payload>)
    ensures CompileValue(BaseV(t, DefaultFieldOptions, []), fieldName, store) ==
      Compiled(FieldNode(t, fieldName, fieldName, false, false, true, None, []), store)
  {
    assert CompiledValidations([], |store|) == [];
    assert store + RulePayloads([]) == store;
  }

  /**
   * `nullable()`: on a non-union result the parent's node with `allowNull` set and nothing else
   * changed; on a union result the parent's node untouched. The store is the parent's either way.
   */
  lemma NullableCompile(p: SchemaValue, fieldName: string, store: seq<Payload>)
    ensures var parent := CompileValue(p, fieldName, store);
      var out := CompileValue(NullableV(p), fieldName, store);
      out.store == parent.store &&
      (Inner(p).BaseV? ==> out.node.FieldNode? && out.node.allowNull && out.node == parent.node.(allowNull := true)) &&
      (Inner(p).UnionV? ==> out.node == parent.node)
  {
    TypeDiscriminantPreserved(p, fieldName, store);
  }

  /**
   * `optional()`: on a non-union result `isOptional` is set and the validations are the parent's
   * followed by the modifier's own, with consecutive ids after every id the parent used; on a
   * union result node and store are the parent's.
   */
  lemma {:induction false} OptionalCompile(p: SchemaValue, vs: seq<Validation>, fieldName: string, store: seq<Payload>)
    ensures var parent := CompileValue(p, fieldName, store);
      var out := CompileValue(OptionalV(p, vs), fieldName, store);
      (Inner(p).BaseV? ==>
         out.node.FieldNode? && out.node.isOptional &&
         out.node == parent.node.(isOptional := true, validations := out.node.validations) &&
         |out.node.validations| == |parent.node.validations| + |vs| &&
         out.node.validations[..|parent.node.validations|] == parent.node.validations &&
         (forall i :: 0 <= i < |vs| ==>
            out.node.validations[|parent.node.validations| + i] ==
            CompiledValidation(RefId(|parent.store| + i + 1), vs[i].rule.implicit, vs[i].rule.isAsync)) &&
         out.store == parent.store + RulePayloads(vs)) &&
      (Inner(p).UnionV? ==> out == parent)
  {
    TypeDiscriminantPreserved(p, fieldName, store);
    var parent := CompileValue(p, fieldName, store);
    assert CompileValue(OptionalV(p, vs), fieldName, store) == WithOptional(parent, vs);
  }

  /** Applying `nullable()` twice compiles as applying it once. */
  lemma NullableIdempotent(p: SchemaValue, fieldName: string, store: seq<Payload>)
    ensures CompileValue(NullableV(NullableV(p)), fieldName, store) == CompileValue(NullableV(p), fieldName, store)
  {
    TypeDiscriminantPreserved(p, fieldName, store);
  }

  /** `nullable().optional()` and `optional().nullable()` compile alike. */
  lemma ModifiersCommute(p: SchemaValue, vs: seq<Validation>, fieldName: string, store: seq<Payload>)
    ensures CompileValue(NullableV(OptionalV(p, vs)), fieldName, store) ==
            CompileValue(OptionalV(NullableV(p), vs), fieldName, store)
  {
    TypeDiscriminantPreserved(p, fieldName, store);
  }

  /**
   * With neither modifier the flags are the base type's own (`false` by default); a modifier
   * sets its flag on any non-union schema, whatever else wraps it.
   */
  lemma FlagsFromModifiers(v: SchemaValue, fieldName: string, store: seq<Payload>)
    requires Inner(v).BaseV?
    ensures var node := CompileValue(v, fieldName, store).node;
      node.FieldNode? &&
      node.allowNull == (Inner(v).options.allowNull || HasNullable(v)) &&
      node.isOptional == (Inner(v).options.isOptional || HasOptional(v)) &&
      node.bail == Inner(v).options.bail
  {
    CompileFlattens(v, fieldName, store);
  }

  /**
   * A nullable enum with its one built-in validation, compiled against a new store: the node
   * carries `allowNull` and the validation's id is `ref://1`.
   */
  lemma NullableEnumExample(membership: ValidationRule, choices: nat)
    requires !membership.isAsync && !membership.implicit
    ensures var v := Validation(Opaque(choices), membership);
      var out := CompileValue(NullableV(BaseV(Literal("enum"), DefaultFieldOptions, [v])), "*", []);
      out.node == FieldNode(Literal("enum"), "*", "*", true, false, true, None,
                            [CompiledValidation(RefId(1), false, false)]) &&
      out.store == [RulePayload(membership.validator, Opaque(choices))] &&
      RefText(out.node.validations[0].ruleFnId) == "ref://1"
  {
  }
}
