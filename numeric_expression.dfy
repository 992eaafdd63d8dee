/**
 * Serializing `left + right` / `left - right`. In this position a plain
 * string is an attribute path (so `"count"` is a name), a call is
 * serialized in place and anything else is a value.
 */
module NumericExpressions {
  import opened Results
  import opened AttributePaths
  import opened Operands
  import opened Attributes
  import opened FunctionExpressions

  /** The path an operand names, when it is one: a path object, or a string scanned as a path. */
  function OperandPath(o: Operand): Option<Result<seq<PathElement>, PathError>> {
    match o
    case OPath(p) => Some(Ok(p.elements))
    case OValue(Str(s)) => Some(ParsePath(s))
    case _ => None
  }

  /** The error serializing an operand throws: a string that does not scan as a path. */
  function OperandError(o: Operand): Option<ExpressionError> {
    match OperandPath(o)
    case Some(Err(e)) => Some(PathSyntax(e))
    case _ => None
  }

  /** The error serializing `left op right` throws, the left operand's first. */
  function NumericError(e: NumericExpression): Option<ExpressionError> {
    if OperandError(e.left).Some? then OperandError(e.left) else OperandError(e.right)
  }

  /** One operand; the only failure is a string that does not scan as a path. */
  function SerializeNumericOperand(o: Operand, c: Context): (r: (Result<string, ExpressionError>, Context))
    ensures c.Valid() ==> r.1.Valid() && Extends(c, r.1)
    ensures r.0.Err? <==> (OperandPath(o).Some? && OperandPath(o).value.Err?)
    ensures r.0.Err? ==> r.0.error == PathSyntax(OperandPath(o).value.error) && r.1 == c
    ensures OperandPath(o).Some? && OperandPath(o).value.Ok? ==>
      r == (Ok(c.AddName(OperandPath(o).value.value).0), c.AddName(OperandPath(o).value.value).1)
    ensures OperandPath(o).None? && !o.OFunction? ==> r == (Ok(c.AddValue(o).0), c.AddValue(o).1)
  {
    match o
    case OFunction(g) =>
      var (text, next) := SerializeFunction(g, c);
      (Ok(text), next)
    case OPath(p) =>
      var (text, next) := c.AddName(p.elements);
      (Ok(text), next)
    case OValue(Str(s)) =>
      (match ParsePath(s)
       case Err(e) => (Err(PathSyntax(e)), c)
       case Ok(elements) =>
         var (text, next) := c.AddName(elements);
         (Ok(text), next))
    case _ =>
      var (text, next) := c.AddValue(o);
      (Ok(text), next)
  }

  /** `left op right`; the left operand is serialized first, and a failure there leaves the right one untouched. */
  function SerializeNumeric(e: NumericExpression, c: Context): (r: (Result<string, ExpressionError>, Context))
    ensures c.Valid() ==> r.1.Valid() && Extends(c, r.1)
    ensures r.0.Ok? <==> SerializeNumericOperand(e.left, c).0.Ok?
                         && SerializeNumericOperand(e.right, SerializeNumericOperand(e.left, c).1).0.Ok?
    ensures SerializeNumericOperand(e.left, c).0.Err? ==> r == SerializeNumericOperand(e.left, c)
    ensures r.0.Err? <==> NumericError(e).Some?
    ensures r.0.Err? ==> r.0.error == NumericError(e).value
  {
    var (left, c1) := SerializeNumericOperand(e.left, c);
    if left.Err? then (Err(left.error), c1)
    else
      var (right, c2) := SerializeNumericOperand(e.right, c1);
      ExtendsChain(c, c1, c2);
      if right.Err? then (Err(right.error), c2)
      else (Ok(left.value + " " + OperatorText(e.operator) + " " + right.value), c2)
  }

  /** Without an error, the text is `left op right`, the right operand written over the table the left one left. */
  lemma NumericText(e: NumericExpression, c: Context)
    requires NumericError(e).None?
    ensures var (left, c1) := SerializeNumericOperand(e.left, c);
      var (right, c2) := SerializeNumericOperand(e.right, c1);
      left.Ok? && right.Ok?
      && SerializeNumeric(e, c) == (Ok(left.value + " " + OperatorText(e.operator) + " " + right.value), c2)
  {
  }

  /** `serialize` on the object form of the table. */
  method Serialize(e: NumericExpression, attributes: ExpressionAttributes) returns (r: Result<string, ExpressionError>)
    requires attributes.Valid()
    modifies attributes
    ensures attributes.Valid()
    ensures (r, attributes.State()) == SerializeNumeric(e, old(attributes.State()))
  {
    var left := SerializeOperand(e.left, attributes);
    if left.Err? {
      return Err(left.error);
    }
    var right := SerializeOperand(e.right, attributes);
    if right.Err? {
      return Err(right.error);
    }
    return Ok(left.value + " " + OperatorText(e.operator) + " " + right.value);
  }

  method SerializeOperand(o: Operand, attributes: ExpressionAttributes) returns (r: Result<string, ExpressionError>)
    requires attributes.Valid()
    modifies attributes
    ensures attributes.Valid()
    ensures (r, attributes.State()) == SerializeNumericOperand(o, old(attributes.State()))
  {
    match o
    case OFunction(g) =>
      var text := FunctionExpressions.Serialize(g, attributes);
      return Ok(text);
    case OPath(p) =>
      var named := attributes.AddName(Ref(p));
      return Ok(named.value);
    case OValue(Str(s)) =>
      var named := attributes.AddName(Literal(s));
      if named.Err? {
        return Err(PathSyntax(named.error));
      }
      return Ok(named.value);
    case _ =>
      var text := attributes.AddValue(o);
      return Ok(text);
  }
}
