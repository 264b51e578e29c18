/** The compiled output: plain nodes consumed by the validation engine. */
module CompilerNodes {
  import opened Wrappers
  import opened RefStore

  /** The node kinds; only the `union` kind matters to the modifiers. */
  datatype NodeType = LiteralType | ObjectType | ArrayType | RecordType | TupleType | UnionType

  /** The `type` (and for literals the `subtype`) of a node that carries field flags. */
  datatype FieldType = Literal(subtype: string) | ObjectField | ArrayField | RecordField | TupleField

  /** One compiled validation: the id of the tracked validator and options, and the rule's flags. */
  datatype CompiledValidation = CompiledValidation(ruleFnId: RefId, implicit: bool, isAsync: bool)

  /**
   * A compiler node. Every kind but `union` carries the field flags and the compiled validations;
   * a union node carries only its names and the id of its else/otherwise callback.
   */
  datatype CompilerNode =
    | FieldNode(fieldType: FieldType, fieldName: string, propertyName: string,
                allowNull: bool, isOptional: bool, bail: bool,
                parseFnId: Option<RefId>, validations: seq<CompiledValidation>)
    | UnionNode(fieldName: string, propertyName: string, elseConditionalFnRefId: RefId)
  {
    /** The node's `type` discriminant. */
    function Tag(): (t: NodeType)
      ensures t == UnionType <==> UnionNode?
    {
      match this
      case UnionNode(_, _, _) => UnionType
      case FieldNode(ft, _, _, _, _, _, _, _) =>
        match ft
        case Literal(_) => LiteralType
        case ObjectField => ObjectType
        case ArrayField => ArrayType
        case RecordField => RecordType
        case TupleField => TupleType
    }
  }
}
