/**
 * The operands an expression tree is built from: document paths, plain
 * values, function calls such as `size(path)` and `+`/`-` arithmetic.
 */
module Operands {
  import opened AttributePaths

  /** A plain value, before it is marshalled into an attribute value. */
  datatype Value =
    | Str(text: string)
    | Num(number: int)
    | Bool(flag: bool)
    | Null
    | List(items: seq<Value>)
    | SetOf(members: seq<Value>)
    | Marshalled(tag: string, body: string)   // an attribute value given already marshalled

  /** What a function argument or comparison operand can be. */
  datatype Operand =
    | OPath(path: AttributePath)
    | OFunction(call: FunctionExpression)
    | ONumeric(arithmetic: NumericExpression)
    | OValue(value: Value)

  /** `name(arguments...)`, e.g. `attribute_exists(path)` or `if_not_exists(path, value)`. */
  datatype FunctionExpression = FunctionExpression(name: string, arguments: seq<Operand>)

  datatype NumericOperator = Plus | Minus

  /** `left + right` or `left - right`. */
  datatype NumericExpression = NumericExpression(left: Operand, operator: NumericOperator, right: Operand)

  function OperatorText(op: NumericOperator): string {
    match op
    case Plus => "+"
    case Minus => "-"
  }

  /** Why serializing an expression can fail. */
  datatype ExpressionError =
    | PathSyntax(error: PathError)   // a path given as text does not scan
    | UnknownConditionType           // a condition of a kind the serializer does not know
    | MissingCondition               // a negation whose builder added no condition
}
