# The modifier and base-type layer of the VineJS schema builder, in Dafny

VineJS builds validation schemas as trees of builder objects and compiles them into plain
"compiler nodes" for a separate validation engine. This project models the layer every schema
type shares (`src/schema/base/main.ts`):

- `BaseType` owns field options (`bail`, `allowNull`, `isOptional`, an optional `parse`
  callback) and a validation list. `Use`, `Parse` and `Bail` change that state in place.
  `CloneOptions` and `CloneValidations` copy it. `CompileValidations` registers every rule's
  validator and options with the reference store, in list order.
- `NullableModifier` and `OptionalModifier` wrap a parent schema. Compiling runs the parent's
  compile and then sets `allowNull` / `isOptional` on the resulting node, unless that node is a
  union. The optional modifier also appends its own compiled validations. It offers
  `requiredWhen` with its operator table, and `requiredIfExists`, `requiredIfAnyExists`,
  `requiredIfMissing` and `requiredIfAnyMissing`.
- The reference store is modelled as a class `RefStore.Refs`, an append-only list whose
  `Track` returns `ref://1`, `ref://2`, … in call order.

Layout:

| file | module | contents |
|---|---|---|
| `wrappers.dfy` | `Wrappers` | `Option` |
| `conditions.dfy` | `Conditions` | values, the `requiredWhen` operator table, presence tests, `Holds` |
| `types.dfy` | `Types` | `ValidationRule`, `Validation`, `FieldOptions`, `ParserOptions`, what `use` accepts |
| `refs.dfy` | `RefStore` | ids, their `ref://n` text, the `Refs` class |
| `nodes.dfy` | `CompilerNodes` | the compiled node datatype |
| `compilation.dfy` | `Compilation` | snapshots of builder trees, `CompileValue`, and the lemmas about it |
| `schema.dfy` | `Schema` | the builder classes and their methods |

The builder classes are real Dafny classes. Their fields are updated in place, and a wrapper
references its parent through a `SchemaRef`. So one base type can sit under several modifiers
and still be changed through its own reference later, as in the source. Each compile method is
proved to produce exactly `Compilation.CompileValue` of a snapshot of the builder state
(`Schema.Snapshot`), applied to the store's entries before the call. Each clone method is proved
to produce new objects with an equal snapshot.

The lemmas in `Compilation` say what compiling means:

- `CompileFlattens` compares the result with an independent reference, `FlatCompile`. Compiling
  a base type under any stack of modifiers works like this: compile the base type as if it owned
  the base validations followed by every optional modifier's own, innermost first. Then the flag
  of each modifier that occurs is set.
- A union under modifiers stays the union's own node.

Concrete schema types are not part of this model, so two stubs stand in for them. A `BaseType`
compiles as the literal types do in the tests. A `UnionType` tracks only its otherwise callback.

## Model

| member | source | states |
|---|---|---|
| `Schema.BaseType.constructor` | src/schema/base/main.ts:350-359 | with no arguments: `bail` true, `allowNull` and `isOptional` false, no parse callback, empty validation list; given arguments are taken as they are |
| `Compilation.DefaultNode` | src/schema/base/main.ts:350-359 | a base type with default options and no validations compiles to a node with `bail` true, both flags false, no `parseFnId`, no validations, and registers nothing |
| `Schema.BaseType.CloneValidations` | src/schema/base/main.ts:365-372 | the entry-by-entry copy equals the list |
| `Schema.BaseType.CloneOptions` | src/schema/base/main.ts:377-379 | the field-by-field copy equals the options |
| `Schema.BaseType.CompileValidations` | src/schema/base/main.ts:384-395 | returns one entry per validation, in list order: entry i has the id of the i-th `track` call (the old store size plus i plus 1) and the i-th rule's `implicit` and `isAsync`; the store gains exactly the rules' validator/options pairs, in the same order |
| `Schema.CompileValidationList` | src/schema/base/main.ts:384-395 | the loop behind both `compileValidations`: the result and the new store as above, proved with loop invariants |
| `Compilation.CompiledValidationsAppend` | src/schema/base/main.ts:324 | compiling `a + b` gives `a`'s entries followed by `b`'s, and `b`'s ids continue after `a`'s |
| `Compilation.RulePayloadsAppend` | src/schema/base/main.ts:324 | the payloads of `a + b` are `a`'s followed by `b`'s |
| `Compilation.StoreGrowsByPayloads` | src/schema/base/main.ts:384-395 | compiling keeps the old entries and appends the parse callback (when set) and then every validator of the chain, in order |
| `Compilation.CompiledIdsResolve` | src/schema/base/main.ts:384-395 | each id in a compiled node is new, and in the new store it names the parse callback or the i-th validation's validator and options |
| `Schema.BaseType.Parse` | src/schema/base/main.ts:403-406 | sets `options.parse`; every other option and the validation list are unchanged |
| `Schema.BaseType.Use` | src/schema/base/main.ts:411-414 | appends exactly one entry at the end: a plain validation as given, or a rule builder's result; options unchanged |
| `Schema.BaseType.Bail` | src/schema/base/main.ts:420-423 | sets `options.bail` to the given state; nothing else changes |
| `Schema.BaseType.Compile` | tests/unit/schema/enum.spec.ts:18-38 | the stub compile equals `CompileValue`: parse callback tracked first, then the validations; flags copied from the options |
| `Schema.BaseType.Clone` | tests/unit/schema/enum.spec.ts:271-309 | a new instance with equal options and validations |
| `Schema.CloneAndBail` | tests/unit/schema/enum.spec.ts:271-309 | `clone().bail(false)` changes the clone only; the original's options and list are as before |
| `Schema.UnionType.Compile` | tests/unit/schema/union.spec.ts:199-204 | a union node whose `elseConditionalFnRefId` is the next id, with the otherwise callback tracked |
| `Schema.NullableModifier.constructor` | src/schema/base/main.ts:89-93 | wraps the given parent; the wrapper chain stays well founded |
| `Schema.NullableModifier.Clone` | src/schema/base/main.ts:99-101 | new objects throughout, with the same snapshot |
| `Schema.NullableModifier.Compile` | src/schema/base/main.ts:106-113 | equals `CompileValue` of the nullable snapshot against the old store |
| `Compilation.WithNullable` | src/schema/base/main.ts:108-110 | on a non-union output only `allowNull` changes, to true; a union output is untouched; the store is unchanged |
| `Compilation.NullableCompile` | src/schema/base/main.ts:106-113 | on a non-union result: the parent's node with `allowNull` true and every other field unchanged; on a union: the parent's node; the store is the parent's |
| `Compilation.NullableIdempotent` | src/schema/base/main.ts:106-113 | nullable twice compiles as nullable once |
| `Compilation.TypeDiscriminantPreserved` | src/schema/base/main.ts:106-113 | the compiled node is a union node exactly when the innermost schema is a union |
| `Schema.OptionalModifier.constructor` | src/schema/base/main.ts:133-137 | wraps the parent; the own list is the given one or empty |
| `Schema.OptionalModifier.CloneValidations` | src/schema/base/main.ts:143-150 | the entry-by-entry copy equals the own list |
| `Schema.OptionalModifier.CompileValidations` | src/schema/base/main.ts:155-166 | as for the base type, over the modifier's own list |
| `Schema.OptionalModifier.Use` | src/schema/base/main.ts:171-174 | appends exactly one entry to the modifier's own list |
| `Schema.OptionalModifier.RequiredWhenCallback` | src/schema/base/main.ts:202-204 | appends one `requiredWhen` validation carrying the user callback |
| `Schema.OptionalModifier.RequiredWhen` | src/schema/base/main.ts:194-246 | appends one `requiredWhen` validation comparing the other field with the expected value, using the given operator |
| `Conditions.Check` | src/schema/base/main.ts:211-235 | the checker of each operator: `=` holds exactly on the expected value and `!=` exactly off it; `in` holds exactly when the value occurs in the expected list and `notIn` exactly when it does not; on a number `>`, `<`, `>=` and `<=` hold exactly when it is above, below, at least or at most the expected number; a relational operator holds only on a value that gives a number |
| `Conditions.Holds` | src/schema/base/main.ts:240-244 | the closure a `requiredWhen`-family call attaches: a user callback returns what the callback returns; a comparison applies the operator's checker to the other field's value; a presence condition holds when every (or some) listed field passes its test |
| `Conditions.NegatedOperators` | src/schema/base/main.ts:212-223 | on the condition `requiredWhen` attaches, `!=` holds exactly when `=` does not, and `notIn` exactly when `in` does not |
| `Conditions.EqualityAndMembership` | src/schema/base/main.ts:212-220 | on the condition `requiredWhen` attaches, `=` holds exactly when the other field's value is the expected one; `in` exactly when some entry of the expected list equals that value |
| `Conditions.RelationalOperators` | src/schema/base/main.ts:224-234 | against an expected number n: a number m satisfies `>`, `<`, `>=`, `<=` exactly when `m > n`, `m < n`, `m >= n`, `m <= n`; `null` compares as 0 and `false`/`true` as 0/1; `undefined` and strings satisfy none of the four |
| `Conditions.NumericOperators` | src/schema/base/main.ts:224-234 | how the four relate: `>=` is `>` or equal, `<=` is `<` or equal; on a value that gives a number, `<` is not `>=` and `>` is not `<=`; a value that gives no number fails all four |
| `Schema.OptionalModifier.RequiredIfExists` | src/schema/base/main.ts:253-262 | appends one validation requiring every listed field to exist; a single name becomes a one-element list |
| `Schema.OptionalModifier.RequiredIfAnyExists` | src/schema/base/main.ts:269-277 | appends one validation requiring some listed field to exist |
| `Schema.OptionalModifier.RequiredIfMissing` | src/schema/base/main.ts:284-293 | appends one validation requiring every listed field to be missing |
| `Schema.OptionalModifier.RequiredIfAnyMissing` | src/schema/base/main.ts:299-307 | appends one validation requiring some listed field to be missing |
| `Conditions.EveryPasses` | src/schema/base/main.ts:257-259 | `every`: true exactly when the test passes for all fields |
| `Conditions.SomePasses` | src/schema/base/main.ts:272-274 | `some`: true exactly when the test passes for at least one field |
| `Conditions.PresenceMeaning` | src/schema/base/main.ts:248-307 | the four conditions are every/some over "not null and not undefined" and its negation |
| `Conditions.SingleFieldMeaning` | src/schema/base/main.ts:254 | a single field name is the one-element list holding it; a list is taken as it is |
| `Conditions.PresenceDuality` | src/schema/base/main.ts:279-307 | "every field missing" is "no field exists", and "some field missing" is "not every field exists" |
| `Schema.OptionalModifier.Clone` | src/schema/base/main.ts:313-315 | new objects throughout, with the same snapshot, including a copy of the own list |
| `Schema.CloneAndUse` | src/schema/base/main.ts:143-150 | pushing onto a clone's list leaves the original schema's snapshot unchanged |
| `Schema.OptionalModifier.Compile` | src/schema/base/main.ts:320-328 | equals `CompileValue` of the optional snapshot against the old store |
| `Compilation.WithOptional` | src/schema/base/main.ts:322-325 | on a non-union output: `isOptional` true, the old validations come first and unchanged, then one entry per own validation with consecutive ids after the output's store; nothing else in the node changes, and the store gains exactly the own payloads. A union output is untouched |
| `Compilation.OptionalCompile` | src/schema/base/main.ts:320-328 | on a non-union result: `isOptional` true; the parent's validations come first, unchanged, then the modifier's own, with consecutive ids after the parent's; the store gains exactly the own rules. On a union: the parent's node and store |
| `Compilation.CompileFlattens` | src/schema/base/main.ts:106-328 | through any stack of modifiers, the result is `FlatCompile`, or for a union the union's own node and store |
| `Compilation.FlagsFromModifiers` | src/schema/base/main.ts:63-76 | `allowNull` is the base option or a nullable modifier in the chain; `isOptional` likewise; `bail` is the base option |
| `Compilation.ModifiersCommute` | src/schema/base/main.ts:63-76 | `nullable().optional()` and `optional().nullable()` compile alike |
| `Schema.CompileSchema` | src/schema/base/main.ts:40 | compiling any schema reference equals `CompileValue` of its snapshot |
| `Schema.CloneSchema` | src/schema/base/main.ts:45 | cloning any schema reference gives new objects with an equal snapshot |
| `Compilation.CompileDeterministic` | tests/unit/schema/record.spec.ts:1229-1272 | the node depends on the store only through its size; stores of equal size gain the same entries |
| `Compilation.NullableEnumExample` | tests/unit/schema/enum.spec.ts:40-60 | a nullable enum compiled against a new store has `allowNull` true and validation id `ref://1` |
| `RefStore.Refs.constructor` | tests/unit/schema/enum.spec.ts:21 | `refsBuilder()`: a new store holds nothing under any id, and its next id is `ref://1` |
| `RefStore.Refs.Track` | tests/unit/schema/record.spec.ts:1229-1272 | returns the next id (`ref://` followed by the new size) and appends the value; earlier entries are unchanged |
| `Compilation.CompiledIdsLookup` | tests/unit/schema/record.spec.ts:1266-1270 | after compiling, the store's entry under the i-th compiled validation's id is the i-th chain validation's validator with its options; `parseFnId` is set exactly when a parse callback is, and its entry is that callback |
| `RefStore.Digits` | tests/unit/schema/record.spec.ts:1236-1243 | the id text uses decimal digits, with more than one digit exactly from 10 on |
| `RefStore.DecimalRoundTrip` | tests/unit/schema/record.spec.ts:1236-1243 | reading back the digits of n gives n |
| `RefStore.RefTextInjective` | tests/unit/schema/record.spec.ts:1236-1243 | distinct ids have distinct `ref://n` texts |

## Left out

- The `[PARSE]` of objects, records, unions, groups, enums and other concrete types is not part of this model. `BaseType.Compile` and `UnionType` are stubs shaped after the tests.
- The camelCase transform: `ParserOptions` is passed down unchanged, and the stubs always use `propertyName = fieldName`.
- The validator, predicate and callback closures are never invoked. Each is modelled by an identity (`nat`). A `requiredWhen`-family closure is modelled by the `Condition` it evaluates, and `Conditions.Holds` gives its meaning for a given context.
- `helpers.getNestedValue` is a `lookup` parameter. `helpers.exists` and `helpers.isMissing` are "neither null nor undefined" and its negation. Their code is not part of this model.
- The `requiredWhen` rule factory in `./rules.js` is not part of this model. `Types.RequiredWhenRule` assumes it yields one implicit, synchronous rule.
- Conditions.Check: JavaScript's loose comparison across types is not modelled. Numbers are integers. For `>`, `<`, `>=` and `<=`, `null` counts as 0 and booleans as 0 and 1. `undefined` and strings never compare, so numeric strings are not converted as JavaScript would convert them.
- `use` with an argument that is neither a validation nor a rule builder cannot be written. In the source it is a type error, and `in` throws on a primitive.
- Aliasing of arrays and objects the caller passes in is not captured; the model takes each as a value fixed at the call. In the source these stay shared with the caller, so a later change through the caller's reference changes what is compiled or checked:
  - the options object given to the `BaseType` constructor (src/schema/base/main.ts:352-357);
  - the validation arrays given to the `BaseType` and `OptionalModifier` constructors, stored as `validations || []` (src/schema/base/main.ts:358 and 136);
  - the `fields` arrays that the `requiredIfExists`, `requiredIfAnyExists`, `requiredIfMissing` and `requiredIfAnyMissing` closures capture (src/schema/base/main.ts:254-258, 269-274, 285-289, 299-304);
  - the `expectedValue` array that the `in` and `notIn` checkers capture (src/schema/base/main.ts:219 and 222).
- The `optional()` and `nullable()` builder methods (src/schema/base/main.ts:63-76) return a new modifier; in the model that is the modifier's constructor applied to a `SchemaRef`.
- The `this` that `use`, `parse`, `bail`, `requiredWhen` and the `requiredIf*` methods return for chaining (src/schema/base/main.ts:173, 405, 413, 422, 203, 240, 255, 270, 286, 300) is not modelled; the methods return nothing and the caller keeps its own reference.
- Floating-point numbers, `Macroable`, and the type-level markers `ITYPE`, `OTYPE` and `COTYPE` have no behaviour to model.
- The union stub has no conditions and no branch schemas.
