/**
 * Serializing `name(arg, ...)`: a nested call is serialized in place, a
 * path becomes its name placeholders, anything else becomes a value
 * placeholder; the parts are joined with `, `.
 */
module FunctionExpressions {
  import opened Text
  import opened AttributePaths
  import opened Operands
  import opened Attributes

  /** The number of value placeholders the call takes: one per argument that is neither a path nor a call. */
  function ValueCount(f: FunctionExpression): nat
    decreases f, 1
  {
    ArgumentsValueCount(f, |f.arguments|)
  }

  function ArgumentsValueCount(f: FunctionExpression, n: nat): nat
    requires n <= |f.arguments|
    decreases f, 0, n
  {
    if n == 0 then 0 else ArgumentsValueCount(f, n - 1) + ArgumentValueCount(f, n)
  }

  /** The value placeholders argument `n - 1` takes. */
  function ArgumentValueCount(f: FunctionExpression, n: nat): nat
    requires 0 < n <= |f.arguments|
    decreases f, 0, n, 0
  {
    match f.arguments[n - 1]
    case OFunction(g) => ValueCount(g)
    case OPath(_) => 0
    case _ => 1
  }

  /** The attribute names the call's paths mention, nested calls included. */
  function PathNames(f: FunctionExpression): set<string>
    decreases f, 1
  {
    ArgumentsPathNames(f, |f.arguments|)
  }

  function ArgumentsPathNames(f: FunctionExpression, n: nat): set<string>
    requires n <= |f.arguments|
    decreases f, 0, n
  {
    if n == 0 then {} else ArgumentsPathNames(f, n - 1) + ArgumentPathNames(f, n)
  }

  function ArgumentPathNames(f: FunctionExpression, n: nat): set<string>
    requires 0 < n <= |f.arguments|
    decreases f, 0, n, 0
  {
    match f.arguments[n - 1]
    case OFunction(g) => PathNames(g)
    case OPath(p) => NamesOf(p.elements)
    case _ => {}
  }

  /**
   * The text of the call and the table after it. On a valid table each
   * value argument gets a placeholder of its own, and the only names
   * added are those of the call's paths.
   */
  function SerializeFunction(f: FunctionExpression, c: Context): (r: (string, Context))
    ensures c.Valid() ==> r.1.Valid() && Extends(c, r.1)
    ensures c.Valid() ==> |r.1.values| == |c.values| + ValueCount(f)
    ensures r.1.substitutions.Keys == c.substitutions.Keys + PathNames(f)
    decreases f, 1
  {
    var (parts, next) := SerializeArguments(f, |f.arguments|, c);
    (f.name + "(" + Join(", ", parts) + ")", next)
  }

  /** The parts written for the first `n` arguments. */
  function SerializeArguments(f: FunctionExpression, n: nat, c: Context): (r: (seq<string>, Context))
    requires n <= |f.arguments|
    ensures |r.0| == n
    ensures c.Valid() ==> r.1.Valid() && Extends(c, r.1)
    ensures c.Valid() ==> |r.1.values| == |c.values| + ArgumentsValueCount(f, n)
    ensures r.1.substitutions.Keys == c.substitutions.Keys + ArgumentsPathNames(f, n)
    decreases f, 0, n
  {
    if n == 0 then ([], c)
    else
      var (parts, c1) := SerializeArguments(f, n - 1, c);
      var (part, c2) := SerializeArgument(f, n, c1);
      ExtendsChain(c, c1, c2);
      (parts + [part], c2)
  }

  /** The part written for argument `n - 1`. */
  function SerializeArgument(f: FunctionExpression, n: nat, c: Context): (r: (string, Context))
    requires 0 < n <= |f.arguments|
    ensures c.Valid() ==> r.1.Valid() && Extends(c, r.1)
    ensures c.Valid() ==> |r.1.values| == |c.values| + ArgumentValueCount(f, n)
    ensures r.1.substitutions.Keys == c.substitutions.Keys + ArgumentPathNames(f, n)
    decreases f, 0, n, 0
  {
    var arg := f.arguments[n - 1];
    match arg
    case OFunction(g) => SerializeFunction(g, c)
    case OPath(p) => c.AddName(p.elements)
    case _ => c.AddValue(arg)
  }

  lemma ArgumentsStep(f: FunctionExpression, n: nat, c: Context, parts: seq<string>, mid: Context,
                      part: string, next: Context)
    requires 0 < n <= |f.arguments|
    requires (parts, mid) == SerializeArguments(f, n - 1, c)
    requires (part, next) == SerializeArgument(f, n, mid)
    ensures (parts + [part], next) == SerializeArguments(f, n, c)
  {
  }

  /** `serialize` on the object form of the table. */
  method Serialize(f: FunctionExpression, attributes: ExpressionAttributes) returns (text: string)
    requires attributes.Valid()
    modifies attributes
    ensures attributes.Valid()
    ensures (text, attributes.State()) == SerializeFunction(f, old(attributes.State()))
    decreases f, 1
  {
    var output: seq<string> := [];
    for i := 0 to |f.arguments|
      invariant attributes.Valid()
      invariant (output, attributes.State()) == SerializeArguments(f, i, old(attributes.State()))
    {
      ghost var before := attributes.State();
      var part := SerializeItem(f, i + 1, attributes);
      ArgumentsStep(f, i + 1, old(attributes.State()), output, before, part, attributes.State());
      output := output + [part];
    }
    text := f.name + "(" + Join(", ", output) + ")";
  }

  /** One argument: a nested call, a path or a value. */
  method SerializeItem(f: FunctionExpression, n: nat, attributes: ExpressionAttributes) returns (part: string)
    requires 0 < n <= |f.arguments|
    requires attributes.Valid()
    modifies attributes
    ensures attributes.Valid()
    ensures (part, attributes.State()) == SerializeArgument(f, n, old(attributes.State()))
    decreases f, 0
  {
    var item := f.arguments[n - 1];
    match item
    case OFunction(g) =>
      part := Serialize(g, attributes);
    case OPath(p) =>
      var named := attributes.AddName(Ref(p));
      part := named.value;
    case _ =>
      part := attributes.AddValue(item);
  }
}
