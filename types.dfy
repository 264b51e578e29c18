/**
 * The shapes of the builder state: validation rules and the validations that pair a rule with
 * its options, the field options every type owns, and the options threaded through compilation.
 * Validator functions, parse callbacks and user callbacks are opaque, so each is modelled by
 * its identity, a `nat`.
 */
module Types {
  import opened Wrappers
  import opened Conditions

  /** A validator function plus the metadata the compiler needs about it. */
  datatype ValidationRule = ValidationRule(validator: nat, isAsync: bool, implicit: bool)

  /**
   * The per-use options of a validation: none, an opaque options value, or (for the
   * `requiredWhen` rule) the condition the checker closure evaluates.
   */
  datatype RuleOptions = NoOptions | Opaque(id: nat) | Checker(condition: Condition)

  /** A rule plus the options to hand its validator. */
  datatype Validation = Validation(options: RuleOptions, rule: ValidationRule)

  /**
   * What `use` accepts: a validation as it is, or a rule builder, modelled by the validation its
   * builder method returns.
   */
  datatype UseArg = PlainValidation(validation: Validation) | RuleBuilder(builds: Validation)
  {
    /** `VALIDATION in arg ? arg[VALIDATION]() : arg`. */
    function Resolve(): Validation {
      match this
      case PlainValidation(v) => v
      case RuleBuilder(v) => v
    }
  }

  /** The options every base type owns; `parse` is the identity of the parse callback, if any. */
  datatype FieldOptions = FieldOptions(allowNull: bool, bail: bool, isOptional: bool, parse: Option<nat>)

  /** The options a base type starts with when none are given. */
  const DefaultFieldOptions := FieldOptions(false, true, false, None)

  /** Options threaded through every compile call. */
  datatype ParserOptions = ParserOptions(toCamelCase: bool)

  /**
   * The rule returned by the `requiredWhen` rule factory: one validator (identity 0), implicit so
   * that it runs on missing values, and synchronous.
   */
  const RequiredWhenRule := ValidationRule(0, false, true)

  /** The validation a `requiredWhen`-family call hands to `use`. */
  function RequiredWhenValidation(c: Condition): Validation {
    Validation(Checker(c), RequiredWhenRule)
  }
}
