/**
 * Condition expressions (`#name0 = :value1`, `attribute_exists(#name0)`,
 * `NOT (...)`, `(...) AND (...)`): the condition tree, the builder that
 * collects conditions, and the serializer.
 */
module ConditionExpressions {
  import opened Results
  import opened Text
  import opened AttributePaths
  import opened Operands
  import opened Attributes
  import opened FunctionExpressions

  datatype ComparisonOperator = Equal | NotEqual | Less | LessOrEqual | Greater | GreaterOrEqual

  function ComparisonText(op: ComparisonOperator): string {
    match op
    case Equal => "="
    case NotEqual => "<>"
    case Less => "<"
    case LessOrEqual => "<="
    case Greater => ">"
    case GreaterOrEqual => ">="
  }

  /** One condition. `Unknown` stands for an object of a kind the serializer does not know. */
  datatype Condition =
    | Binary(subject: PathInput, operator: ComparisonOperator, value: Operand)
    | Between(subject: PathInput, lowerBound: Operand, upperBound: Operand)
    | Membership(subject: PathInput, values: seq<Operand>)
    | Exists(subject: PathInput)
    | NotExists(subject: PathInput)
    | AttributeType(subject: PathInput, expected: string)
    | Contains(subject: PathInput, expected: string)
    | BeginsWith(subject: PathInput, expected: string)
    | Function(call: FunctionExpression)
    | Not(negated: Option<Condition>)
    | And(conditions: seq<Condition>)
    | Or(conditions: seq<Condition>)
    | Unknown(kind: string)

  /** The function a predicate condition is written as. */
  function PredicateFunctionName(cond: Condition): string
    requires cond.Exists? || cond.NotExists? || cond.AttributeType? || cond.Contains? || cond.BeginsWith?
  {
    match cond
    case Exists(_) => "attribute_exists"
    case NotExists(_) => "attribute_not_exists"
    case AttributeType(_, _) => "attribute_type"
    case Contains(_, _) => "contains"
    case BeginsWith(_, _) => "begins_with"
  }

  /** The expected argument of a predicate condition; an empty one is left out. */
  function PredicateExpected(cond: Condition): string
    requires cond.Exists? || cond.NotExists? || cond.AttributeType? || cond.Contains? || cond.BeginsWith?
  {
    if cond.Exists? || cond.NotExists? then "" else cond.expected
  }

  /**
   * The error the serializer stops with, found without serializing: the
   * first subject text that does not scan, condition of unknown kind, or
   * negation of nothing, in left-to-right order.
   */
  function FirstError(cond: Condition): Option<ExpressionError>
    decreases cond, 1
  {
    match cond
    case Binary(s, _, _) => PathInputError(s)
    case Between(s, _, _) => PathInputError(s)
    case Membership(s, _) => PathInputError(s)
    case Exists(s) => PathInputError(s)
    case NotExists(s) => PathInputError(s)
    case AttributeType(s, _) => PathInputError(s)
    case Contains(s, _) => PathInputError(s)
    case BeginsWith(s, _) => PathInputError(s)
    case Function(_) => None
    case Not(negated) => if negated.None? then Some(MissingCondition) else FirstError(negated.value)
    case And(cs) => FirstErrorIn(cond, |cs|)
    case Or(cs) => FirstErrorIn(cond, |cs|)
    case Unknown(_) => Some(UnknownConditionType)
  }

  function FirstErrorIn(junction: Condition, n: nat): Option<ExpressionError>
    requires (junction.And? || junction.Or?) && n <= |junction.conditions|
    decreases junction, 0, n
  {
    if n == 0 then None
    else
      var before := FirstErrorIn(junction, n - 1);
      if before.Some? then before else FirstError(junction.conditions[n - 1])
  }

  // ---------------------------------------------------------------------
  // The serializer.
  // ---------------------------------------------------------------------

  /** A comparison operand: a call in place, a path as names, anything else as a value; never fails. */
  function SerializeOperand(o: Operand, c: Context): (r: (string, Context))
    ensures c.Valid() ==> r.1.Valid() && Extends(c, r.1)
    ensures o.OFunction? ==> r == SerializeFunction(o.call, c)
    ensures o.OPath? ==> r == c.AddName(o.path.elements)
    ensures o.ONumeric? || o.OValue? ==> r == c.AddValue(o)
  {
    match o
    case OFunction(g) => SerializeFunction(g, c)
    case OPath(p) => c.AddName(p.elements)
    case _ => c.AddValue(o)
  }

  /** `name(subject)` or `name(subject, expected)`, with `expected` as a value. */
  function SerializePredicate(name: string, subject: PathInput, expected: string, c: Context)
    : (r: (Result<string, ExpressionError>, Context))
    ensures c.Valid() ==> r.1.Valid() && Extends(c, r.1)
    ensures r.0.Err? <==> PathInputError(subject).Some?
    ensures r.0.Err? ==> r.0.error == PathInputError(subject).value
  {
    var (s, c1) := SerializePath(subject, c);
    if s.Err? then (Err(s.error), c1)
    else if expected == "" then (Ok(name + "(" + s.value + ")"), c1)
    else
      var (v, c2) := c1.AddValue(OValue(Str(expected)));
      ExtendsChain(c, c1, c2);
      (Ok(name + "(" + s.value + ", " + v + ")"), c2)
  }

  /** The values of a membership test, serialized left to right. */
  function SerializeOperands(values: seq<Operand>, c: Context): (r: (seq<string>, Context))
    ensures |r.0| == |values|
    ensures c.Valid() ==> r.1.Valid() && Extends(c, r.1)
  {
    if values == [] then ([], c)
    else
      var (parts, c1) := SerializeOperands(values[..|values| - 1], c);
      var (part, c2) := SerializeOperand(values[|values| - 1], c1);
      ExtendsChain(c, c1, c2);
      (parts + [part], c2)
  }

  /** One more operand of a prefix appends its text and continues from the table the prefix left. */
  lemma OperandsStep(values: seq<Operand>, i: nat, c: Context)
    requires i < |values|
    ensures var (parts, mid) := SerializeOperands(values[..i], c);
      var (part, next) := SerializeOperand(values[i], mid);
      SerializeOperands(values[..i + 1], c) == (parts + [part], next)
  {
    assert values[..i + 1][..i] == values[..i];
  }

  /** The text of a condition and the table after it; an error exactly when `FirstError` finds one. */
  function SerializeCondition(cond: Condition, c: Context): (r: (Result<string, ExpressionError>, Context))
    ensures c.Valid() ==> r.1.Valid() && Extends(c, r.1)
    ensures r.0.Err? <==> FirstError(cond).Some?
    ensures r.0.Err? ==> r.0.error == FirstError(cond).value
    decreases cond, 1
  {
    match cond
    case Function(g) =>
      var (text, next) := SerializeFunction(g, c);
      (Ok(text), next)
    case Binary(subject, op, value) =>
      var (s, c1) := SerializePath(subject, c);
      if s.Err? then (Err(s.error), c1)
      else
        var (v, c2) := SerializeOperand(value, c1);
        ExtendsChain(c, c1, c2);
        (Ok(s.value + " " + ComparisonText(op) + " " + v), c2)
    case Between(subject, lower, upper) =>
      var (s, c1) := SerializePath(subject, c);
      if s.Err? then (Err(s.error), c1)
      else
        var (lo, c2) := SerializeOperand(lower, c1);
        var (hi, c3) := SerializeOperand(upper, c2);
        ExtendsChain(c, c1, c2);
        ExtendsChain(c, c2, c3);
        (Ok(s.value + " BETWEEN " + lo + " AND " + hi), c3)
    case Membership(subject, values) =>
      var (s, c1) := SerializePath(subject, c);
      if s.Err? then (Err(s.error), c1)
      else
        var (parts, c2) := SerializeOperands(values, c1);
        ExtendsChain(c, c1, c2);
        (Ok(s.value + " IN (" + Join(", ", parts) + ")"), c2)
    case Exists(s) => SerializePredicate(PredicateFunctionName(cond), s, PredicateExpected(cond), c)
    case NotExists(s) => SerializePredicate(PredicateFunctionName(cond), s, PredicateExpected(cond), c)
    case AttributeType(s, _) => SerializePredicate(PredicateFunctionName(cond), s, PredicateExpected(cond), c)
    case Contains(s, _) => SerializePredicate(PredicateFunctionName(cond), s, PredicateExpected(cond), c)
    case BeginsWith(s, _) => SerializePredicate(PredicateFunctionName(cond), s, PredicateExpected(cond), c)
    case Not(negated) =>
      if negated.None? then (Err(MissingCondition), c)
      else
        var (inner, next) := SerializeCondition(negated.value, c);
        (if inner.Err? then Err(inner.error) else Ok("NOT (" + inner.value + ")"), next)
    case And(cs) => SerializeJunction(cond, c)
    case Or(cs) => SerializeJunction(cond, c)
    case Unknown(_) => (Err(UnknownConditionType), c)
  }

  /** A comparison whose subject serializes is `subject op value`, the subject's placeholder taken first. */
  lemma BinaryText(subject: PathInput, op: ComparisonOperator, value: Operand, c: Context)
    requires PathInputError(subject).None?
    ensures var (s, c1) := SerializePath(subject, c);
      var (v, c2) := SerializeOperand(value, c1);
      s.Ok? && SerializeCondition(Binary(subject, op, value), c) == (Ok(s.value + " " + ComparisonText(op) + " " + v), c2)
  {
  }

  /** A range test whose subject serializes is `subject BETWEEN lower AND upper`, in that order. */
  lemma BetweenText(subject: PathInput, lower: Operand, upper: Operand, c: Context)
    requires PathInputError(subject).None?
    ensures var (s, c1) := SerializePath(subject, c);
      var (lo, c2) := SerializeOperand(lower, c1);
      var (hi, c3) := SerializeOperand(upper, c2);
      s.Ok? && SerializeCondition(Between(subject, lower, upper), c) == (Ok(s.value + " BETWEEN " + lo + " AND " + hi), c3)
  {
  }

  /**
   * A membership test whose subject serializes is `subject IN (v1, v2, ...)`,
   * one part per value, each written over the table the values before it left.
   */
  lemma MembershipText(subject: PathInput, values: seq<Operand>, c: Context)
    requires PathInputError(subject).None?
    ensures var (s, c1) := SerializePath(subject, c);
      var (parts, c2) := SerializeOperands(values, c1);
      s.Ok? && |parts| == |values|
      && (forall k :: 0 <= k < |values| ==> parts[k] == SerializeOperand(values[k], SerializeOperands(values[..k], c1).1).0)
      && SerializeCondition(Membership(subject, values), c) == (Ok(s.value + " IN (" + Join(", ", parts) + ")"), c2)
  {
    var (s, c1) := SerializePath(subject, c);
    OperandParts(values, c1);
  }

  /** Part `k` of a value list is value `k`'s, written over the table the `k` before it left. */
  lemma {:induction false} OperandParts(values: seq<Operand>, c: Context)
    ensures PartsAgree(values, c)
    decreases |values|
  {
    if values != [] {
      OperandParts(values[..|values| - 1], c);
      OperandPartsExtend(values, c);
    }
  }

  /** Each part of the serialized list is its value's, written over the table the values before it left. */
  ghost predicate PartsAgree(values: seq<Operand>, c: Context) {
    forall k :: 0 <= k < |values| ==>
      SerializeOperands(values, c).0[k] == SerializeOperand(values[k], SerializeOperands(values[..k], c).1).0
  }

  /** If the parts agree for all values but the last, they agree for all. */
  lemma OperandPartsExtend(values: seq<Operand>, c: Context)
    requires values != [] && PartsAgree(values[..|values| - 1], c)
    ensures PartsAgree(values, c)
  {
    var n := |values|;
    var init := values[..n - 1];
    var (parts, mid) := SerializeOperands(init, c);
    var (part, next) := SerializeOperand(values[n - 1], mid);
    assert SerializeOperands(values, c).0 == parts + [part];
    forall k | 0 <= k < n
      ensures SerializeOperands(values, c).0[k] == SerializeOperand(values[k], SerializeOperands(values[..k], c).1).0
    {
      if k < n - 1 {
        assert init[..k] == values[..k];
      } else {
        assert values[..k] == init;
      }
    }
  }

  /** A negation of a condition without an error is `NOT (inner)`. */
  lemma NotText(negated: Condition, c: Context)
    requires FirstError(negated).None?
    ensures var (inner, next) := SerializeCondition(negated, c);
      inner.Ok? && SerializeCondition(Not(Some(negated)), c) == (Ok("NOT (" + inner.value + ")"), next)
  {
  }

  /** `AND` / `OR`: one operand is written bare; otherwise each is parenthesized and joined. */
  function SerializeJunction(junction: Condition, c: Context): (r: (Result<string, ExpressionError>, Context))
    requires junction.And? || junction.Or?
    ensures c.Valid() ==> r.1.Valid() && Extends(c, r.1)
    ensures r.0.Err? <==> FirstErrorIn(junction, |junction.conditions|).Some?
    ensures r.0.Err? ==> r.0.error == FirstErrorIn(junction, |junction.conditions|).value
    decreases junction, 0, |junction.conditions| + 1
  {
    var cs := junction.conditions;
    if |cs| == 1 then
      SerializeCondition(cs[0], c)
    else
      var (parts, next) := SerializeJunctionParts(junction, |cs|, c);
      (if parts.Err? then Err(parts.error)
       else Ok(Join(if junction.And? then " AND " else " OR ", parts.value)), next)
  }

  /** The parenthesized parts of the first `n` operands, or the first error among them. */
  function SerializeJunctionParts(junction: Condition, n: nat, c: Context)
    : (r: (Result<seq<string>, ExpressionError>, Context))
    requires (junction.And? || junction.Or?) && n <= |junction.conditions|
    ensures c.Valid() ==> r.1.Valid() && Extends(c, r.1)
    ensures r.0.Err? <==> FirstErrorIn(junction, n).Some?
    ensures r.0.Err? ==> r.0.error == FirstErrorIn(junction, n).value
    ensures r.0.Ok? ==> |r.0.value| == n
    decreases junction, 0, n
  {
    if n == 0 then (Ok([]), c)
    else
      var (parts, c1) := SerializeJunctionParts(junction, n - 1, c);
      if parts.Err? then (Err(parts.error), c1)
      else
        var operand := junction.conditions[n - 1];
        var (part, c2) := SerializeCondition(operand, c1);
        assert FirstErrorIn(junction, n) == FirstError(operand);
        ExtendsChain(c, c1, c2);
        if part.Err? then (Err(part.error), c2)
        else (Ok(parts.value + ["(" + part.value + ")"]), c2)
  }

  /** The arguments a predicate condition is serialized with: the subject path, then a non-empty expected value. */
  function PredicateArguments(p: AttributePath, expected: string): seq<Operand> {
    [OPath(p)] + if expected == "" then [] else [OValue(Str(expected))]
  }

  lemma JunctionPartsStep(junction: Condition, n: nat, c: Context, parts: seq<string>, mid: Context,
                          part: Result<string, ExpressionError>, next: Context)
    requires (junction.And? || junction.Or?) && 0 < n <= |junction.conditions|
    requires (Ok(parts), mid) == SerializeJunctionParts(junction, n - 1, c)
    requires (part, next) == SerializeCondition(junction.conditions[n - 1], mid)
    ensures part.Err? ==> SerializeJunctionParts(junction, n, c) == (Err(part.error), next)
    ensures part.Err? && |junction.conditions| != 1 ==> SerializeJunction(junction, c) == (Err(part.error), next)
    ensures part.Ok? ==> SerializeJunctionParts(junction, n, c) == (Ok(parts + ["(" + part.value + ")"]), next)
  {
    if part.Err? && |junction.conditions| != 1 {
      JunctionPartsErrorPersists(junction, n, |junction.conditions|, c);
    }
  }

  /** Once the parts fail, every longer prefix fails with the same error and table. */
  lemma JunctionPartsErrorPersists(junction: Condition, n: nat, m: nat, c: Context)
    requires (junction.And? || junction.Or?) && n <= m <= |junction.conditions|
    requires SerializeJunctionParts(junction, n, c).0.Err?
    ensures SerializeJunctionParts(junction, m, c) == SerializeJunctionParts(junction, n, c)
  {
    var j := n;
    while j < m
      invariant n <= j <= m
      invariant SerializeJunctionParts(junction, j, c) == SerializeJunctionParts(junction, n, c)
    {
      JunctionPartsErrorStep(junction, j, c);
      j := j + 1;
    }
  }

  /** A failed prefix stays failed one operand further. */
  lemma JunctionPartsErrorStep(junction: Condition, j: nat, c: Context)
    requires (junction.And? || junction.Or?) && j < |junction.conditions|
    requires SerializeJunctionParts(junction, j, c).0.Err?
    ensures SerializeJunctionParts(junction, j + 1, c) == SerializeJunctionParts(junction, j, c)
  {
  }

  /** An `AND`/`OR` of one condition is written as that condition alone, without parentheses. */
  lemma JunctionSingle(junction: Condition, c: Context)
    requires (junction.And? || junction.Or?) && |junction.conditions| == 1
    ensures SerializeCondition(junction, c) == SerializeCondition(junction.conditions[0], c)
  {
  }

  /** An `AND`/`OR` of no conditions is the empty text and adds nothing to the table. */
  lemma JunctionEmpty(junction: Condition, c: Context)
    requires (junction.And? || junction.Or?) && junction.conditions == []
    ensures SerializeCondition(junction, c) == (Ok(""), c)
  {
  }

  /** A single top-level condition is written bare: `serialize` wraps the conditions in an `And`. */
  lemma SingleConditionBare(cond: Condition, c: Context)
    ensures SerializeCondition(Condition.And([cond]), c) == SerializeCondition(cond, c)
  {
    JunctionSingle(Condition.And([cond]), c);
  }

  /** Two or more operands: the parts, one per operand, joined by ` AND ` or ` OR `. */
  lemma JunctionJoined(junction: Condition, c: Context)
    requires (junction.And? || junction.Or?) && |junction.conditions| != 1
    requires SerializeCondition(junction, c).0.Ok?
    ensures var parts := SerializeJunctionParts(junction, |junction.conditions|, c).0;
      parts.Ok? && |parts.value| == |junction.conditions|
      && SerializeCondition(junction, c).0.value == Join(if junction.And? then " AND " else " OR ", parts.value)
  {
  }

  /** A predicate condition serializes exactly as the call `name(subject[, expected])` would. */
  lemma PredicateIsCall(name: string, subject: PathInput, p: AttributePath, expected: string, c: Context)
    requires Elements(subject) == Ok(p.elements)
    ensures var (text, next) := SerializeFunction(FunctionExpression(name, PredicateArguments(p, expected)), c);
      SerializePredicate(name, subject, expected, c) == (Ok(text), next)
  {
    var f := FunctionExpression(name, PredicateArguments(p, expected));
    FirstArgument(f, p, c);
    if expected != "" {
      SecondArgument(f, p, c, expected);
      CallWithValue(name, subject, p, expected, c);
    } else {
      CallWithoutValue(name, subject, p, c);
    }
  }

  lemma CallWithoutValue(name: string, subject: PathInput, p: AttributePath, c: Context)
    requires Elements(subject) == Ok(p.elements)
    requires SerializeArguments(FunctionExpression(name, [OPath(p)]), 1, c) == ([c.AddName(p.elements).0], c.AddName(p.elements).1)
    ensures var (text, next) := SerializeFunction(FunctionExpression(name, [OPath(p)]), c);
      SerializePredicate(name, subject, "", c) == (Ok(text), next)
  {
    var named := c.AddName(p.elements);
    assert SerializePath(subject, c) == (Ok(named.0), named.1);
    assert Join(", ", [named.0]) == named.0;
  }

  lemma CallWithValue(name: string, subject: PathInput, p: AttributePath, expected: string, c: Context)
    requires Elements(subject) == Ok(p.elements) && expected != ""
    requires SerializeArguments(FunctionExpression(name, [OPath(p), OValue(Str(expected))]), 2, c)
          == ([c.AddName(p.elements).0, c.AddName(p.elements).1.AddValue(OValue(Str(expected))).0],
              c.AddName(p.elements).1.AddValue(OValue(Str(expected))).1)
    ensures SerializePredicate(name, subject, expected, c)
         == (Ok(SerializeFunction(FunctionExpression(name, [OPath(p), OValue(Str(expected))]), c).0),
             SerializeFunction(FunctionExpression(name, [OPath(p), OValue(Str(expected))]), c).1)
  {
    var named := c.AddName(p.elements);
    var valued := named.1.AddValue(OValue(Str(expected)));
    PredicateWithValue(name, subject, p, expected, c);
    PairCall(FunctionExpression(name, [OPath(p), OValue(Str(expected))]), c, named.0, valued.0, valued.1);
  }

  lemma PredicateWithValue(name: string, subject: PathInput, p: AttributePath, expected: string, c: Context)
    requires Elements(subject) == Ok(p.elements) && expected != ""
    ensures SerializePredicate(name, subject, expected, c)
         == (Ok(name + "(" + c.AddName(p.elements).0 + ", " + c.AddName(p.elements).1.AddValue(OValue(Str(expected))).0 + ")"),
             c.AddName(p.elements).1.AddValue(OValue(Str(expected))).1)
  {
    assert SerializePath(subject, c) == (Ok(c.AddName(p.elements).0), c.AddName(p.elements).1);
  }

  lemma PairCall(f: FunctionExpression, c: Context, s: string, v: string, next: Context)
    requires |f.arguments| == 2
    requires SerializeArguments(f, 2, c) == ([s, v], next)
    ensures SerializeFunction(f, c) == (f.name + "(" + s + ", " + v + ")", next)
  {
    assert SerializeFunction(f, c) == (f.name + "(" + Join(", ", [s, v]) + ")", next);
    PairText(f.name, s, v);
  }

  lemma PairText(name: string, s: string, v: string)
    ensures name + "(" + Join(", ", [s, v]) + ")" == name + "(" + s + ", " + v + ")"
  {
    assert [s, v][..1] == [s];
    assert Join(", ", [s, v]) == Join(", ", [s]) + ", " + v;
  }

  lemma FirstArgument(f: FunctionExpression, p: AttributePath, c: Context)
    requires |f.arguments| > 0 && f.arguments[0] == OPath(p)
    ensures SerializeArguments(f, 1, c) == ([c.AddName(p.elements).0], c.AddName(p.elements).1)
  {
    var (s, c1) := c.AddName(p.elements);
    assert SerializeArgument(f, 1, c) == (s, c1);
    assert SerializeArguments(f, 0, c) == ([], c);
    assert [] + [s] == [s];
  }

  lemma SecondArgument(f: FunctionExpression, p: AttributePath, c: Context, expected: string)
    requires f.arguments == [OPath(p), OValue(Str(expected))]
    requires SerializeArguments(f, 1, c) == ([c.AddName(p.elements).0], c.AddName(p.elements).1)
    ensures var (s, c1) := c.AddName(p.elements);
      var (v, c2) := c1.AddValue(OValue(Str(expected)));
      SerializeArguments(f, 2, c) == ([s, v], c2) && Join(", ", [s, v]) == s + ", " + v
  {
    var (s, c1) := c.AddName(p.elements);
    var (v, c2) := c1.AddValue(OValue(Str(expected)));
    assert SerializeArgument(f, 2, c1) == (v, c2);
    assert [s] + [v] == [s, v];
    assert [s, v][..1] == [s];
  }

  /** The condition builder: each method appends one condition. */
  class ConditionExpression {
    var conditions: seq<Condition>

    constructor (conditions: seq<Condition>)
      ensures this.conditions == conditions
    {
      this.conditions := conditions;
    }

    /** `subject operator value`. */
    method Where(subject: PathInput, operator: ComparisonOperator, value: Operand)
      modifies this
      ensures conditions == old(conditions) + [Binary(subject, operator, value)]
    {
      conditions := conditions + [Binary(subject, operator, value)];
    }

    /** `subject BETWEEN lower AND upper`. */
    method Between(subject: PathInput, lowerBound: Operand, upperBound: Operand)
      modifies this
      ensures conditions == old(conditions) + [Condition.Between(subject, lowerBound, upperBound)]
    {
      conditions := conditions + [Condition.Between(subject, lowerBound, upperBound)];
    }

    /** `subject IN (values...)`. */
    method Includes(subject: PathInput, values: seq<Operand>)
      modifies this
      ensures conditions == old(conditions) + [Membership(subject, values)]
    {
      conditions := conditions + [Membership(subject, values)];
    }

    method Exists(subject: PathInput)
      modifies this
      ensures conditions == old(conditions) + [Condition.Exists(subject)]
    {
      conditions := conditions + [Condition.Exists(subject)];
    }

    method NotExists(subject: PathInput)
      modifies this
      ensures conditions == old(conditions) + [Condition.NotExists(subject)]
    {
      conditions := conditions + [Condition.NotExists(subject)];
    }

    method Type(subject: PathInput, expected: string)
      modifies this
      ensures conditions == old(conditions) + [AttributeType(subject, expected)]
    {
      conditions := conditions + [AttributeType(subject, expected)];
    }

    method Contains(subject: PathInput, expected: string)
      modifies this
      ensures conditions == old(conditions) + [Condition.Contains(subject, expected)]
    {
      conditions := conditions + [Condition.Contains(subject, expected)];
    }

    method BeginsWith(subject: PathInput, expected: string)
      modifies this
      ensures conditions == old(conditions) + [Condition.BeginsWith(subject, expected)]
    {
      conditions := conditions + [Condition.BeginsWith(subject, expected)];
    }

    method Func(expression: FunctionExpression)
      modifies this
      ensures conditions == old(conditions) + [Function(expression)]
    {
      conditions := conditions + [Function(expression)];
    }

    /** The negation of the first condition the builder added to `inner` (of nothing, when it added none). */
    method Not(inner: ConditionExpression)
      requires inner != this
      modifies this
      ensures conditions == old(conditions) + [Condition.Not(if |inner.conditions| > 0 then Some(inner.conditions[0]) else None)]
    {
      var first := if |inner.conditions| > 0 then Some(inner.conditions[0]) else None;
      conditions := conditions + [Condition.Not(first)];
    }

    /** The conjunction of every condition the builder added to `inner`. */
    method And(inner: ConditionExpression)
      requires inner != this
      modifies this
      ensures conditions == old(conditions) + [Condition.And(inner.conditions)]
    {
      conditions := conditions + [Condition.And(inner.conditions)];
    }

    /** The disjunction of every condition the builder added to `inner`. */
    method Or(inner: ConditionExpression)
      requires inner != this
      modifies this
      ensures conditions == old(conditions) + [Condition.Or(inner.conditions)]
    {
      conditions := conditions + [Condition.Or(inner.conditions)];
    }

    /** The conditions, serialized as their conjunction. */
    method Serialize(attributes: ExpressionAttributes) returns (r: Result<string, ExpressionError>)
      requires attributes.Valid()
      modifies attributes
      ensures attributes.Valid()
      ensures (r, attributes.State()) == SerializeCondition(Condition.And(conditions), old(attributes.State()))
    {
      r := SerializeConditionExpression(Condition.And(conditions), attributes);
    }

    static method SerializeConditionExpression(cond: Condition, attributes: ExpressionAttributes)
      returns (r: Result<string, ExpressionError>)
      requires attributes.Valid()
      modifies attributes
      ensures attributes.Valid()
      ensures (r, attributes.State()) == SerializeCondition(cond, old(attributes.State()))
      decreases cond, 1
    {
      if cond.Function? || cond.Binary? || cond.Between? || cond.Membership? {
        r := SerializeComparison(cond, attributes);
      } else if cond.Exists? || cond.NotExists? || cond.AttributeType? || cond.Contains? || cond.BeginsWith? {
        r := SerializePredicateExpression(cond, attributes);
      } else if cond.Not? {
        r := SerializeNotExpression(cond, attributes);
      } else if cond.And? || cond.Or? {
        r := SerializeJunctionExpression(cond, attributes);
      } else {
        r := Err(UnknownConditionType);
      }
    }

    static method SerializeComparison(cond: Condition, attributes: ExpressionAttributes)
      returns (r: Result<string, ExpressionError>)
      requires cond.Function? || cond.Binary? || cond.Between? || cond.Membership?
      requires attributes.Valid()
      modifies attributes
      ensures attributes.Valid()
      ensures (r, attributes.State()) == SerializeCondition(cond, old(attributes.State()))
    {
      if cond.Function? {
        r := SerializeCallExpression(cond, attributes);
      } else if cond.Binary? {
        r := SerializeBinaryExpression(cond, attributes);
      } else if cond.Between? {
        r := SerializeBetweenExpression(cond, attributes);
      } else {
        r := SerializeMembershipExpression(cond, attributes);
      }
    }

    static method SerializeCallExpression(cond: Condition, attributes: ExpressionAttributes)
      returns (r: Result<string, ExpressionError>)
      requires cond.Function? && attributes.Valid()
      modifies attributes
      ensures attributes.Valid()
      ensures (r, attributes.State()) == SerializeCondition(cond, old(attributes.State()))
    {
      var text := FunctionExpressions.Serialize(cond.call, attributes);
      return Ok(text);
    }

    static method SerializePredicateExpression(cond: Condition, attributes: ExpressionAttributes)
      returns (r: Result<string, ExpressionError>)
      requires cond.Exists? || cond.NotExists? || cond.AttributeType? || cond.Contains? || cond.BeginsWith?
      requires attributes.Valid()
      modifies attributes
      ensures attributes.Valid()
      ensures (r, attributes.State()) == SerializeCondition(cond, old(attributes.State()))
    {
      r := SerializeFunctionExpression(PredicateFunctionName(cond), cond.subject, PredicateExpected(cond), attributes);
    }

    static method SerializeNotExpression(cond: Condition, attributes: ExpressionAttributes)
      returns (r: Result<string, ExpressionError>)
      requires cond.Not? && attributes.Valid()
      modifies attributes
      ensures attributes.Valid()
      ensures (r, attributes.State()) == SerializeCondition(cond, old(attributes.State()))
      decreases cond, 0
    {
      if cond.negated.None? {
        return Err(MissingCondition);
      }
      var inner := SerializeConditionExpression(cond.negated.value, attributes);
      if inner.Err? {
        return Err(inner.error);
      }
      return Ok("NOT (" + inner.value + ")");
    }

    static method SerializeBetweenExpression(cond: Condition, attributes: ExpressionAttributes)
      returns (r: Result<string, ExpressionError>)
      requires cond.Between? && attributes.Valid()
      modifies attributes
      ensures attributes.Valid()
      ensures (r, attributes.State()) == SerializeCondition(cond, old(attributes.State()))
    {
      var s := attributes.AddName(cond.subject);
      if s.Err? {
        return Err(PathSyntax(s.error));
      }
      var lo := SerializeComparisonOperand(cond.lowerBound, attributes);
      var hi := SerializeComparisonOperand(cond.upperBound, attributes);
      return Ok(s.value + " BETWEEN " + lo + " AND " + hi);
    }

    static method SerializeMembershipExpression(cond: Condition, attributes: ExpressionAttributes)
      returns (r: Result<string, ExpressionError>)
      requires cond.Membership? && attributes.Valid()
      modifies attributes
      ensures attributes.Valid()
      ensures (r, attributes.State()) == SerializeCondition(cond, old(attributes.State()))
    {
      var s := attributes.AddName(cond.subject);
      if s.Err? {
        return Err(PathSyntax(s.error));
      }
      var parts := SerializeMembers(cond.values, attributes);
      return Ok(s.value + " IN (" + Join(", ", parts) + ")");
    }

    static method SerializeBinaryExpression(cond: Condition, attributes: ExpressionAttributes)
      returns (r: Result<string, ExpressionError>)
      requires cond.Binary? && attributes.Valid()
      modifies attributes
      ensures attributes.Valid()
      ensures (r, attributes.State()) == SerializeCondition(cond, old(attributes.State()))
    {
      var s := attributes.AddName(cond.subject);
      if s.Err? {
        return Err(PathSyntax(s.error));
      }
      var operand := SerializeComparisonOperand(cond.value, attributes);
      return Ok(s.value + " " + ComparisonText(cond.operator) + " " + operand);
    }

    /** A predicate condition as the call `name(subject[, expected])`. */
    static method SerializeFunctionExpression(name: string, subject: PathInput, expected: string,
                                              attributes: ExpressionAttributes)
      returns (r: Result<string, ExpressionError>)
      requires attributes.Valid()
      modifies attributes
      ensures attributes.Valid()
      ensures (r, attributes.State()) == SerializePredicate(name, subject, expected, old(attributes.State()))
    {
      var wrapped := AttributePath.Wrap(subject);
      if wrapped.Err? {
        return Err(PathSyntax(wrapped.error));
      }
      PredicateIsCall(name, subject, wrapped.value, expected, attributes.State());
      var call := FunctionExpression(name, PredicateArguments(wrapped.value, expected));
      var text := FunctionExpressions.Serialize(call, attributes);
      return Ok(text);
    }

    static method SerializeComparisonOperand(o: Operand, attributes: ExpressionAttributes) returns (text: string)
      requires attributes.Valid()
      modifies attributes
      ensures attributes.Valid()
      ensures (text, attributes.State()) == SerializeOperand(o, old(attributes.State()))
    {
      match o
      case OFunction(g) =>
        text := FunctionExpressions.Serialize(g, attributes);
      case OPath(p) =>
        var named := attributes.AddName(Ref(p));
        text := named.value;
      case _ =>
        text := attributes.AddValue(o);
    }

    static method SerializeMembers(values: seq<Operand>, attributes: ExpressionAttributes) returns (parts: seq<string>)
      requires attributes.Valid()
      modifies attributes
      ensures attributes.Valid()
      ensures (parts, attributes.State()) == SerializeOperands(values, old(attributes.State()))
    {
      parts := [];
      for i := 0 to |values|
        invariant attributes.Valid()
        invariant (parts, attributes.State()) == SerializeOperands(values[..i], old(attributes.State()))
      {
        OperandsStep(values, i, old(attributes.State()));
        var part := SerializeComparisonOperand(values[i], attributes);
        parts := parts + [part];
      }
      assert values[..|values|] == values;
    }

    static method SerializeJunctionExpression(junction: Condition, attributes: ExpressionAttributes)
      returns (r: Result<string, ExpressionError>)
      requires (junction.And? || junction.Or?) && attributes.Valid()
      modifies attributes
      ensures attributes.Valid()
      ensures (r, attributes.State()) == SerializeJunction(junction, old(attributes.State()))
      decreases junction, 0, |junction.conditions| + 1
    {
      var cs := junction.conditions;
      if |cs| == 1 {
        r := SerializeConditionExpression(cs[0], attributes);
        return;
      }
      var parts: seq<string> := [];
      for i := 0 to |cs|
        invariant attributes.Valid()
        invariant (Ok(parts), attributes.State()) == SerializeJunctionParts(junction, i, old(attributes.State()))
      {
        ghost var before := attributes.State();
        var part := SerializeConditionExpression(cs[i], attributes);
        JunctionPartsStep(junction, i + 1, old(attributes.State()), parts, before, part, attributes.State());
        if part.Err? {
          return Err(part.error);
        }
        parts := parts + ["(" + part.value + ")"];
      }
      return Ok(Join(if junction.And? then " AND " else " OR ", parts));
    }
  }
}
