/** Compiled schema nodes: the part of `CompiledSchema` that validation reads. */
module Schema {
  import opened Values

  /** The address of a compiled node; child pointers are addresses. */
  type Address = nat

  /** `validation_function` of a node. */
  datatype Validation = NoOp | AlwaysFalse | ByKeywords | ByRef

  /** `type_validation_function` of a node. */
  datatype TypeCheck =
    | ByDataType | ByTypeList
    | IsNull | IsBool | IsString | IsInteger | IsNumber | IsArray | IsObject
    | NoTypeCheck

  /** One bit of `type_flags`. */
  datatype TypeFlag = NullBit | BoolBit | StringBit | IntegerBit | NumberBit | ArrayBit | ObjectBit

  /** A numeric limit keyword; `Fraction` is a Ruby Float, kept as the long it truncates to. */
  datatype Limit = Whole(n: int) | Fraction(truncated: int)

  const ULONG_RANGE := 0x1_0000_0000_0000_0000

  function AsLong(limit: Limit): int {
    if limit.Whole? then limit.n else limit.truncated
  }

  /** NUM2ULONG wraps a negative number around. */
  function AsULong(limit: Limit): int {
    if AsLong(limit) < 0 then AsLong(limit) + ULONG_RANGE else AsLong(limit)
  }

  /** Checks whose inner working (regex, floating point, Ruby `==`, format callables) is given. */
  datatype LeafCheck =
    | Const | Enum | Unique | Pattern | Format
    | IntegerKeyword(kw: NumericKeyword)
    | NumberKeyword(kw: NumericKeyword)

  datatype NumericKeyword = MultipleOf | Maximum | ExclusiveMaximum | Minimum | ExclusiveMinimum

  /** A leaf check passes, fails, or lets a Ruby exception escape. An absent keyword passes. */
  datatype Verdict = Pass | Fail | Raises(message: string)

  datatype Node = Node(
    validation: Validation,
    refSchema: Address,
    typeCheck: TypeCheck,
    typeFlags: set<TypeFlag>,
    ifSchema: Option<Address>,
    thenSchema: Option<Address>,
    elseSchema: Option<Address>,
    notSchema: Option<Address>,
    allOf: Option<seq<Address>>,
    anyOf: Option<seq<Address>>,
    oneOf: Option<seq<Address>>,
    formatKey: string,
    maxLength: Option<Limit>,
    minLength: Option<Limit>,
    itemsSchema: Option<Address>,
    items: Option<seq<Address>>,
    additionalItems: Option<Address>,
    contains: Option<Address>,
    maxItems: Option<Limit>,
    minItems: Option<Limit>,
    maxContains: Option<Limit>,
    minContains: Option<Limit>,
    properties: Option<map<string, Address>>,
    patternProperties: Option<seq<(string, Address)>>,
    propertyNames: Option<Address>,
    additionalProperties: Option<Address>,
    maxProperties: Option<Limit>,
    minProperties: Option<Limit>,
    required: Option<seq<Key>>,
    dependencies: Option<seq<(Key, Address)>>)

  /** Everything a run reads but never writes: the node graph and the given checks. */
  datatype World = World(
    nodes: Address -> Node,
    leaf: (Address, LeafCheck, Data) -> Verdict,
    matches: (string, string) -> bool)
}
