# A verified model of the onia toolkit core

This project models, in Dafny, the core of a TypeScript toolkit for AWS
serverless applications:

- **dino** compiles document expressions for DynamoDB. It parses attribute
  paths such as `a.b[3].c`, hands out `#nameN`/`:valueN` placeholders, and
  serializes function, arithmetic, condition, update and projection
  expressions. `compile` and the expression builder combine them into a
  request.
- **gate** wraps a lambda handler. It partitions the route's scopes and
  authorizes the caller's scopes. It picks the payload parser from the
  `content-type` header and copies the authorizer output into the event.
  Its toolkit builds the lambda result.
- **wire** connects an API Gateway HTTP API (payload 2.0) to an injected
  web-server request. It translates the event into a request and the
  response back into a lambda result, decoding chunked bodies and
  choosing base64 or text.
- **duck**'s batch writer queues put and delete requests. Each round cuts
  the queue into batches of at most 25 grouped by table, and queues again
  what the service reports unprocessed.
- **test**'s system store turns parameter names into environment keys.
  It merges them into the environment without overwriting.
- **drum**'s `toPascalCase` helper.

Each source object whose fields change becomes a Dafny `class`. Its
methods are proved against specification functions over datatypes:
`ExpressionAttributes` and `Context`, `UpdateExpression` and
`Directives`, `GateToolkit` and `Draft`. Pure code becomes functions with
their properties as lemmas. The ordered JavaScript `Map`, `Set` and plain
records are association lists. `set` keeps a known key in place and
appends a new one (module `OrderedCollections`). Foreign and asynchronous
calls are inputs:
- the AWS clients;
- the marshaller;
- a batch's response;
- the fetched parameters.

The straight-line `if` statements of `compile` (five in the compiler,
three in the builder) are modelled as the turns of one `for` loop whose
body dispatches on the turn to the statement the source has there. The
order, the shared table and the stop at the first error are the source's.

## Model

| member | source | states |
|---|---|---|
| AttributePaths.AttributePath.Parse | packages/dino/src/attribute-path.ts:31-122 | The scanning loop returns exactly the specification scanner's result: the elements, or the first error it meets. |
| AttributePaths.Step | packages/dino/src/attribute-path.ts:44-114 | Each iteration consumes at least one character. The scan position never passes the end. |
| AttributePaths.StepBackslash | packages/dino/src/attribute-path.ts:57-67 | In a name, a backslash before `.`, `[` or a backslash consumes two characters and collects the second. Before anything else, or last in the text, it is collected itself. |
| AttributePaths.AttributePath.Create | packages/dino/src/attribute-path.ts:138-140 | The constructor succeeds exactly when the text scans. The new path's elements are the scanned ones; otherwise it raises the scan's error. |
| AttributePaths.AttributePath.FromElements | packages/dino/src/attribute-path.ts:26 | A path object holds the elements it is given and never changes them. |
| AttributePaths.AttributePath.Wrap | packages/dino/src/attribute-path.ts:127-133 | An existing path object is returned unchanged (same reference). Text is scanned into a new path, or its scan error is raised. |
| AttributePaths.ParseUnparse | packages/dino/src/attribute-path.ts:31-122 | Valid elements printed with escapes, `.` separators and `[k]` indices scan back to the same elements. |
| AttributePaths.ParsedElementsValid | packages/dino/src/attribute-path.ts:49-119 | Every accepted path starts with a name and contains no empty name. |
| AttributePaths.RunValid | packages/dino/src/attribute-path.ts:37-119 | From any reachable scanner state, an accepted remainder yields valid elements. |
| AttributePaths.StepWellFormed | packages/dino/src/attribute-path.ts:44-114 | One iteration keeps the scanner's reachable-state invariant. |
| AttributePaths.PlainNameParses | packages/dino/src/attribute-path.ts:66-119 | Text with no delimiter, no bracket and no escaping backslash is one name, taken verbatim. The empty text gives no elements. |
| AttributePaths.RunPlain | packages/dino/src/attribute-path.ts:57-67 | Plain characters, including a backslash not before `.`, `[` or `\`, are collected literally. |
| AttributePaths.RunEscapedName | packages/dino/src/attribute-path.ts:57-67 | A backslash followed by `.`, `[` or `\` adds that next character literally and skips it. |
| AttributePaths.LeadingControlCharacterRejected | packages/dino/src/attribute-path.ts:46-53 | A path starting with `[` or `.` is rejected as an invalid control character. |
| AttributePaths.EmptyNameRejected | packages/dino/src/attribute-path.ts:48-53 | A `.` followed by another `.` or `[` is an invalid control character (as in `a..b`). |
| AttributePaths.EmptyIndexRejected | packages/dino/src/attribute-path.ts:71-78 | Empty brackets `[]` raise the invalid array index error. |
| AttributePaths.IndexCharacterRejected | packages/dino/src/attribute-path.ts:96-99 | A non-digit inside brackets raises the invalid index character error, naming that character. |
| AttributePaths.BareIdentifierRejected | packages/dino/src/attribute-path.ts:101-113 | After `]`, any character other than `[` or `.` raises the bare identifier error. |
| AttributePaths.RunDigits | packages/dino/src/attribute-path.ts:84-95 | Digits inside brackets are collected in order. |
| AttributePaths.RunIndexClosed | packages/dino/src/attribute-path.ts:71-83 | Digits closed by `]` emit one index holding their decimal value. |
| AttributePaths.RunIndexBadCharacter | packages/dino/src/attribute-path.ts:96-99 | Digits followed by neither a digit nor `]` are rejected at that character. |
| AttributePaths.UnterminatedIndexIsName | packages/dino/src/attribute-path.ts:84-119 | An index left open at the end keeps its digits and emits them as a final name. |
| Attributes.NameNumberOf | packages/dino/src/expression-attributes.ts:44 | The name placeholder for counter `k` is `#name` followed by the decimal digits of `k`, which read back as `k`. |
| Attributes.ValueNumberOf | packages/dino/src/expression-attributes.ts:68 | The value placeholder for counter `k` is `:value` followed by the digits of `k`. |
| Attributes.Context.Intern | packages/dino/src/expression-attributes.ts:43-51 | A known name keeps its placeholder and leaves the context unchanged. A new name gets `#name` + counter, and the counter advances. Afterwards the name and its placeholder map to each other. |
| Attributes.Context.AddElements | packages/dino/src/expression-attributes.ts:41-57 | Walking a path registers exactly the path's names and leaves the values alone. It keeps the context's invariants. |
| Attributes.Context.AddValue | packages/dino/src/expression-attributes.ts:65-73 | A value always gets a fresh `:value` + counter placeholder that was not in use. It is stored under that placeholder, and the value count grows by one. |
| Attributes.EmptyValid | packages/dino/src/expression-attributes.ts:16-31 | A fresh context satisfies the invariants: names and substitutions are inverse tables, and each counter number was issued once. |
| Attributes.ExtendsChain | packages/dino/src/expression-attributes.ts:36-73 | Growth of a context is transitive: nothing registered is ever dropped or rebound. |
| Attributes.FreshName | packages/dino/src/expression-attributes.ts:44 | The next name placeholder is not yet in use. |
| Attributes.FreshValue | packages/dino/src/expression-attributes.ts:68 | The next value placeholder is not yet in use. |
| Attributes.CachedNameKeepsContext | packages/dino/src/expression-attributes.ts:47-51 | Re-recording a cached name under its own placeholder changes nothing. |
| Attributes.NewNameValid | packages/dino/src/expression-attributes.ts:43-51 | Registering a new name keeps the context's invariants. |
| Attributes.NewNameSubstitutions | packages/dino/src/expression-attributes.ts:43-51 | After a new name is registered, every substitution still points to a placeholder that names it back. |
| Attributes.NewNameNames | packages/dino/src/expression-attributes.ts:43-51 | After a new name is registered, every placeholder still points to a name that substitutes back to it. |
| Attributes.AddElementsRender | packages/dino/src/expression-attributes.ts:41-59 | The text built is `.placeholder` per name and `[k]` per index, using the final substitution table. |
| Attributes.RenderStable | packages/dino/src/expression-attributes.ts:53 | The rendering depends only on the substitutions of the path's own names. |
| Attributes.AddElementsKnown | packages/dino/src/expression-attributes.ts:43-51 | A path whose names are all known leaves a valid context unchanged. |
| Attributes.AddNameIdempotent | packages/dino/src/expression-attributes.ts:36-60 | Adding the same path twice gives the same text and the same context as adding it once. |
| Attributes.AddNameShared | packages/dino/src/expression-attributes.ts:36-60 | Once a path is added, adding it again in any later context returns the same text and changes nothing. |
| Attributes.AddNameCounter | packages/dino/src/expression-attributes.ts:44 | The counter advances by exactly the number of the path's names not yet known. |
| Attributes.PlaceholderUnescaped | packages/dino/src/expression-attributes.ts:44-53 | A name placeholder contains nothing the path syntax would escape. |
| Attributes.EscapeIdentity | packages/dino/src/expression-attributes.ts:53 | Text without `.`, `[` or `\` is printed unescaped. |
| Attributes.SubstituteValid | packages/dino/src/expression-attributes.ts:41-57 | Replacing the names of valid elements by their placeholders gives valid elements. |
| Attributes.SubstituteAt | packages/dino/src/expression-attributes.ts:41-57 | Each element of the substituted path is the original's placeholder, or the original index. |
| Attributes.RenderUnparse | packages/dino/src/expression-attributes.ts:53-59 | The built text is a `.` followed by the printed path of substituted elements. |
| Attributes.AddNameParses | packages/dino/src/expression-attributes.ts:36-60 | The text `addName` returns, read back as a path, gives the original elements with each name replaced by its placeholder; the inverse table restores the names. |
| Attributes.SerializePath | packages/dino/src/expression-attributes.ts:36-37 | Adding a path input fails exactly when its text does not scan, and then the context is unchanged. Otherwise it keeps the invariants. |
| Attributes.SerializePathList | packages/dino/src/projection-expression.ts:55-57 | Adding a list of paths yields one text per path and fails at the first path that does not scan. |
| Attributes.SerializePathName | packages/dino/src/expression-attributes.ts:36-60 | The object method equals the specification for one path input. |
| Attributes.SerializePathNames | packages/dino/src/projection-expression.ts:52-60 | The loop over a path list equals the specification. |
| Attributes.ExpressionAttributes.constructor | packages/dino/src/expression-attributes.ts:16-31 | A new context has no names, no values, no substitutions and counter 0. |
| Attributes.ExpressionAttributes.AddName | packages/dino/src/expression-attributes.ts:36-60 | The method is the specification's `AddName`: on a scan error it raises the error and leaves the context unchanged. Otherwise it returns the built text without its leading `.`. |
| Attributes.ExpressionAttributes.AddElements | packages/dino/src/expression-attributes.ts:41-57 | The element loop equals the specification walk and keeps the invariants. |
| Attributes.ExpressionAttributes.Intern | packages/dino/src/expression-attributes.ts:43-51 | One name's registration equals the specification. |
| Attributes.ExpressionAttributes.AddValue | packages/dino/src/expression-attributes.ts:65-73 | The method equals the specification's `AddValue`. |
| Attributes.ExpressionAttributes.Names | packages/dino/src/expression-attributes.ts:78-80 | The names getter is absent exactly when no name was registered, and otherwise gives the table. |
| Attributes.ExpressionAttributes.Values | packages/dino/src/expression-attributes.ts:85-87 | The values getter is absent exactly when no value was registered, and otherwise gives the table. |
| FunctionExpressions.SerializeFunction | packages/dino/src/function-expression.ts:41-55 | Serializing `name(args)` keeps the context valid and registers exactly one value per value argument. It registers every name of the path arguments, nested calls included. |
| FunctionExpressions.SerializeArguments | packages/dino/src/function-expression.ts:44-52 | The first `n` arguments give `n` texts, with names and value counts accumulated argument by argument. |
| FunctionExpressions.SerializeArgument | packages/dino/src/function-expression.ts:45-51 | A nested call serializes recursively, a path becomes a name, and anything else becomes a value. |
| FunctionExpressions.Serialize | packages/dino/src/function-expression.ts:41-55 | The loop over the arguments, writing into the shared context, equals the specification. |
| FunctionExpressions.SerializeItem | packages/dino/src/function-expression.ts:45-51 | One argument's serialization into the shared context equals the specification. |
| NumericExpressions.SerializeNumericOperand | packages/dino/src/numeric-expression.ts:45-56 | A call serializes itself. A path or a string becomes a name, failing exactly when its text does not scan. Any other operand becomes a value. |
| NumericExpressions.SerializeNumeric | packages/dino/src/numeric-expression.ts:61-66 | `left op right` serializes left first. It fails with the left operand's error, or else the right one's, and keeps the context valid. |
| NumericExpressions.NumericText | packages/dino/src/numeric-expression.ts:61-66 | Without an error, the text is `left op right`. The right operand is serialized over the table the left one left. |
| NumericExpressions.Serialize | packages/dino/src/numeric-expression.ts:61-66 | The method equals the specification. |
| NumericExpressions.SerializeOperand | packages/dino/src/numeric-expression.ts:45-56 | The operand method equals the specification. |
| ConditionExpressions.SerializeOperand | packages/dino/src/condition-expression.ts:391-402 | A call operand is written in place as the call. A path operand is registered as names. A number or a value gets a value placeholder. It never fails, and the context stays valid. |
| ConditionExpressions.SerializePredicate | packages/dino/src/condition-expression.ts:372-386 | A predicate condition fails exactly when its subject does not scan. |
| ConditionExpressions.SerializeOperands | packages/dino/src/condition-expression.ts:289-291 | A membership list gives one text per value. |
| ConditionExpressions.SerializeCondition | packages/dino/src/condition-expression.ts:261-350 | Serializing a condition tree fails exactly when it holds a bad subject, an unknown kind or an empty negation. The error is the first one, left to right. The context stays valid. |
| ConditionExpressions.BinaryText | packages/dino/src/condition-expression.ts:355-368 | A comparison whose subject serializes is `subject op operand`. The subject is registered before the operand. |
| ConditionExpressions.BetweenText | packages/dino/src/condition-expression.ts:272-287 | A range test whose subject serializes is `subject BETWEEN lower AND upper`. Subject, lower and upper bound are registered in that order. |
| ConditionExpressions.MembershipText | packages/dino/src/condition-expression.ts:288-292 | A membership test whose subject serializes is `subject IN (v1, v2, ...)`. It has one part per value, and each value is registered after the ones before it. |
| ConditionExpressions.OperandParts | packages/dino/src/condition-expression.ts:289-291 | Part `k` of a value list is value `k` serialized over the table the earlier values left. |
| ConditionExpressions.NotText | packages/dino/src/condition-expression.ts:328-333 | The negation of a condition without an error is `NOT (inner)`. |
| ConditionExpressions.SerializeJunction | packages/dino/src/condition-expression.ts:334-346 | An `AND`/`OR` fails exactly when one of its operands fails, with the first operand's error, left to right. The context stays valid. |
| ConditionExpressions.JunctionSingle | packages/dino/src/condition-expression.ts:336-341 | An `AND`/`OR` of one condition serializes exactly as that condition, without parentheses. |
| ConditionExpressions.JunctionEmpty | packages/dino/src/condition-expression.ts:343-345 | An `AND`/`OR` of no conditions is the empty text and registers nothing. |
| ConditionExpressions.JunctionJoined | packages/dino/src/condition-expression.ts:343-345 | Otherwise a successful junction is its parts, one per operand, joined by ` AND ` or ` OR `. |
| ConditionExpressions.SingleConditionBare | packages/dino/src/condition-expression.ts:407-411 | A builder holding a single condition writes it bare, as `serialize` wraps the conditions in one `And`. |
| ConditionExpressions.SerializeJunctionParts | packages/dino/src/condition-expression.ts:343-345 | The first `n` parts give `n` parenthesized texts, or the first error among them. |
| ConditionExpressions.JunctionPartsStep | packages/dino/src/condition-expression.ts:343-345 | Each operand's part is `(` + its text + `)`, the operand serialized over the table the earlier parts left. A failing operand stops the whole junction with its error and table. |
| ConditionExpressions.JunctionPartsErrorPersists | packages/dino/src/condition-expression.ts:343-345 | Once a part fails, the junction's result no longer changes. |
| ConditionExpressions.PredicateIsCall | packages/dino/src/condition-expression.ts:372-386 | A predicate is serialized as the function call on its wrapped subject, plus its expected value when one is present. |
| ConditionExpressions.CallWithoutValue | packages/dino/src/condition-expression.ts:293-306 | `attribute_exists` and `attribute_not_exists` give `name(#path)` with no value. |
| ConditionExpressions.CallWithValue | packages/dino/src/condition-expression.ts:381-385 | A non-empty expected value becomes the call's second argument and is registered as a value. |
| ConditionExpressions.PredicateWithValue | packages/dino/src/condition-expression.ts:307-327 | `attribute_type`, `contains` and `begins_with` with a non-empty expected value give `name(#path, :value)`. |
| ConditionExpressions.PairCall | packages/dino/src/function-expression.ts:54 | A two-argument call prints as `name(a, b)`. |
| ConditionExpressions.FirstArgument | packages/dino/src/condition-expression.ts:379 | The wrapped subject is the call's first argument and is added as a name. |
| ConditionExpressions.SecondArgument | packages/dino/src/condition-expression.ts:381-383 | The expected value is added after the subject. |
| ConditionExpressions.ConditionExpression.constructor | packages/dino/src/condition-expression.ts:101-105 | A new expression holds the given conditions, or none. |
| ConditionExpressions.ConditionExpression.Where | packages/dino/src/condition-expression.ts:110-118 | Appends one binary comparison and changes nothing else. |
| ConditionExpressions.ConditionExpression.Between | packages/dino/src/condition-expression.ts:123-138 | Appends one `BETWEEN` condition with both bounds. |
| ConditionExpressions.ConditionExpression.Includes | packages/dino/src/condition-expression.ts:143-150 | Appends one membership condition. |
| ConditionExpressions.ConditionExpression.Exists | packages/dino/src/condition-expression.ts:155-159 | Appends one `attribute_exists` condition. |
| ConditionExpressions.ConditionExpression.NotExists | packages/dino/src/condition-expression.ts:164-170 | Appends one `attribute_not_exists` condition. |
| ConditionExpressions.ConditionExpression.Type | packages/dino/src/condition-expression.ts:175-182 | Appends one `attribute_type` condition. |
| ConditionExpressions.ConditionExpression.Contains | packages/dino/src/condition-expression.ts:187-194 | Appends one `contains` condition. |
| ConditionExpressions.ConditionExpression.BeginsWith | packages/dino/src/condition-expression.ts:199-206 | Appends one `begins_with` condition. |
| ConditionExpressions.ConditionExpression.Func | packages/dino/src/condition-expression.ts:211-215 | Appends a function call as a condition. |
| ConditionExpressions.ConditionExpression.Not | packages/dino/src/condition-expression.ts:220-230 | Appends the negation of the first condition the inner builder collected. When it collected none, the negation is of nothing. |
| ConditionExpressions.ConditionExpression.And | packages/dino/src/condition-expression.ts:235-243 | Appends the conjunction of everything the inner builder collected. |
| ConditionExpressions.ConditionExpression.Or | packages/dino/src/condition-expression.ts:248-256 | Appends the disjunction of everything the inner builder collected. |
| ConditionExpressions.ConditionExpression.Serialize | packages/dino/src/condition-expression.ts:407-411 | The expression serializes as the conjunction of its conditions. |
| ConditionExpressions.ConditionExpression.SerializeConditionExpression | packages/dino/src/condition-expression.ts:261-350 | The recursive dispatch over a condition equals the specification serializer. |
| ConditionExpressions.ConditionExpression.SerializeComparison | packages/dino/src/condition-expression.ts:270-292 | The binary, between and membership cases equal the specification. |
| ConditionExpressions.ConditionExpression.SerializeCallExpression | packages/dino/src/condition-expression.ts:265-267 | A function condition serializes as the call itself. |
| ConditionExpressions.ConditionExpression.SerializePredicateExpression | packages/dino/src/condition-expression.ts:293-327 | The five predicate cases equal the specification. |
| ConditionExpressions.ConditionExpression.SerializeNotExpression | packages/dino/src/condition-expression.ts:328-333 | A negation serializes as `NOT (inner)`. |
| ConditionExpressions.ConditionExpression.SerializeBetweenExpression | packages/dino/src/condition-expression.ts:273-287 | The subject is added first, then the lower and upper bounds: `s BETWEEN a AND b`. |
| ConditionExpressions.ConditionExpression.SerializeMembershipExpression | packages/dino/src/condition-expression.ts:288-292 | `s IN (v1, v2, ...)`, with the subject added before the values. |
| ConditionExpressions.ConditionExpression.SerializeBinaryExpression | packages/dino/src/condition-expression.ts:355-367 | `subject operator operand`, with the subject added first. |
| ConditionExpressions.ConditionExpression.SerializeFunctionExpression | packages/dino/src/condition-expression.ts:372-386 | The predicate-as-call helper equals the specification. |
| ConditionExpressions.ConditionExpression.SerializeComparisonOperand | packages/dino/src/condition-expression.ts:391-402 | The operand helper equals the specification. |
| ConditionExpressions.ConditionExpression.SerializeMembers | packages/dino/src/condition-expression.ts:289-291 | The loop over the membership values equals the specification. |
| ConditionExpressions.ConditionExpression.SerializeJunctionExpression | packages/dino/src/condition-expression.ts:334-346 | The junction loop equals the specification. |
| UpdateExpressions.SerializeAssigned | packages/dino/src/update-expression.ts:150-155 | A call or an arithmetic expression serializes itself. Any other value becomes a placeholder. |
| UpdateExpressions.SerializePhrase | packages/dino/src/update-expression.ts:149-171 | A phrase fails exactly when its path, or for `SET` its value, does not serialize, with the path's error first. The context stays valid. |
| UpdateExpressions.SetPhraseText | packages/dino/src/update-expression.ts:148-155 | A `SET` phrase that serializes is `path = value`, the path registered before the value. |
| UpdateExpressions.KeyedPhraseText | packages/dino/src/update-expression.ts:168-170 | An `ADD`/`DELETE` phrase that serializes is `path value`, the path registered before the value placeholder. |
| UpdateExpressions.SerializePhrases | packages/dino/src/update-expression.ts:148-172 | A directive map gives one phrase per entry, in insertion order, or the first error. |
| UpdateExpressions.Clause | packages/dino/src/update-expression.ts:159-187 | A clause is emitted exactly when it has phrases. |
| UpdateExpressions.SerializeUpdate | packages/dino/src/update-expression.ts:144-190 | The whole update fails exactly when some directive fails, with the error of the first, in the order `SET`, `ADD`, `DELETE`, `REMOVE`. The context stays valid. |
| UpdateExpressions.UpdateClauses | packages/dino/src/update-expression.ts:143-190 | Without an error, the update is its `SET`, `ADD`, `DELETE` and `REMOVE` clauses in that order, joined by spaces, each collection serialized over the table the earlier ones left. |
| UpdateExpressions.JoinNonEmpty | packages/dino/src/update-expression.ts:160 | Joining at least one non-empty phrase gives non-empty text. |
| UpdateExpressions.ClauseNonEmpty | packages/dino/src/update-expression.ts:159-162 | Every emitted clause is non-empty. |
| UpdateExpressions.NoDirectivesSerializeEmpty | packages/dino/src/update-expression.ts:144-190 | An update with no directives serializes to the empty text and registers nothing. |
| UpdateExpressions.SerializedEmptyIff | packages/dino/src/update-expression.ts:144-190 | The serialized update is empty exactly when it has no directives. |
| UpdateExpressions.UpdateExpression.constructor | packages/dino/src/update-expression.ts:12-36 | A new update has empty `SET`, `ADD` and `DELETE` maps and an empty `REMOVE` set. |
| UpdateExpressions.UpdateExpression.Set | packages/dino/src/update-expression.ts:41-60 | An undefined value changes nothing. With overwrite, the path's `SET` entry becomes the value. Without it, the entry becomes `if_not_exists(path, value)`, which fails when the path text does not scan. |
| UpdateExpressions.UpdateExpression.Append | packages/dino/src/update-expression.ts:65-78 | The path's `SET` entry becomes `list_append(path, values)`. A path text that does not scan raises its error and leaves the update unchanged. |
| UpdateExpressions.UpdateExpression.Increment | packages/dino/src/update-expression.ts:83-90 | The path's `SET` entry becomes `path + value`, and the value defaults to 1. |
| UpdateExpressions.UpdateExpression.Decrement | packages/dino/src/update-expression.ts:95-102 | The path's `SET` entry becomes `path - value`, and the value defaults to 1. |
| UpdateExpressions.UpdateExpression.Add | packages/dino/src/update-expression.ts:107-116 | An undefined value changes nothing. Otherwise the path's `ADD` entry is set in place. |
| UpdateExpressions.UpdateExpression.Delete | packages/dino/src/update-expression.ts:121-130 | An undefined value changes nothing. Otherwise the path's `DELETE` entry is set in place. |
| UpdateExpressions.UpdateExpression.Remove | packages/dino/src/update-expression.ts:135-139 | The path joins the `REMOVE` set unless it is already there. |
| UpdateExpressions.UpdateExpression.Serialize | packages/dino/src/update-expression.ts:144-190 | The clause loops equal the specification serializer. |
| UpdateExpressions.UpdateExpression.SerializeEntries | packages/dino/src/update-expression.ts:148-172 | The loop over one directive map equals the specification. |
| UpdateExpressions.UpdateExpression.SerializeEntry | packages/dino/src/update-expression.ts:149-171 | One phrase equals the specification. |
| UpdateExpressions.UpdateExpression.SerializeValue | packages/dino/src/update-expression.ts:150-155 | One assigned value equals the specification. |
| ProjectionExpressions.InsertAll | packages/dino/src/projection-expression.ts:21-27 | Adding paths keeps the existing ones in front in their order. |
| ProjectionExpressions.InsertAllMembers | packages/dino/src/projection-expression.ts:21-27 | After adding, a path is present exactly when it was present before or was added. |
| ProjectionExpressions.InsertAllDistinct | packages/dino/src/projection-expression.ts:21-27 | Adding never duplicates a path. |
| ProjectionExpressions.Without | packages/dino/src/projection-expression.ts:34 | Deleting a path never lengthens the set. |
| ProjectionExpressions.WithoutMembers | packages/dino/src/projection-expression.ts:34 | After a delete, exactly the other paths remain. |
| ProjectionExpressions.WithoutDistinct | packages/dino/src/projection-expression.ts:34 | A delete keeps the set duplicate-free. It removes one member when the path was present and changes nothing otherwise. |
| ProjectionExpressions.WithoutAll | packages/dino/src/projection-expression.ts:32-38 | Deleting paths never lengthens the set. |
| ProjectionExpressions.WithoutAllMembers | packages/dino/src/projection-expression.ts:32-38 | After deleting, a path is present exactly when it was present and was not deleted. |
| ProjectionExpressions.WithoutAllDistinct | packages/dino/src/projection-expression.ts:32-38 | Deleting keeps the set duplicate-free. |
| ProjectionExpressions.SerializeProjection | packages/dino/src/projection-expression.ts:52-60 | A projection serializes its paths in order. It fails exactly when one of them does not scan. |
| ProjectionExpressions.ClearedSerializesEmpty | packages/dino/src/projection-expression.ts:43-60 | A projection without paths, as `clear` leaves it, is the empty text and registers nothing. |
| ProjectionExpressions.ProjectionExpression.constructor | packages/dino/src/projection-expression.ts:14-16 | A new projection holds the given paths without duplicates, in first-seen order. |
| ProjectionExpressions.ProjectionExpression.Add | packages/dino/src/projection-expression.ts:21-27 | The loop adds each path to the set in turn. |
| ProjectionExpressions.ProjectionExpression.Delete | packages/dino/src/projection-expression.ts:32-38 | The loop removes each path from the set in turn. |
| ProjectionExpressions.ProjectionExpression.Clear | packages/dino/src/projection-expression.ts:43-47 | Clearing leaves no path. |
| ProjectionExpressions.ProjectionExpression.Serialize | packages/dino/src/projection-expression.ts:52-60 | The loop equals the specification. |
| ExpressionCompilers.SerializePart | packages/dino/src/expression-compiler.ts:8-12 | Serializing any of the five expression kinds keeps the shared context valid. |
| ExpressionCompilers.SerializeSlot | packages/dino/src/expression-compiler.ts:39-60 | An absent expression produces no text and changes nothing. A present one produces a text. |
| ExpressionCompilers.SerializeSlots | packages/dino/src/expression-compiler.ts:39-60 | The five slots are serialized in order into one context. Each output text is present exactly when its slot is. |
| ExpressionCompilers.Slots | packages/dino/src/expression-compiler.ts:39-60 | The slots are update, filter, condition, projection and key condition, in that order. |
| ExpressionCompilers.Compile | packages/dino/src/expression-compiler.ts:32-76 | The request's other fields pass through. Each expression field is present exactly when the input had it. |
| ExpressionCompilers.CompileRequest | packages/dino/src/expression-compiler.ts:32-76 | Run against a fresh table, `compile` returns exactly `Compile` of the request's expressions as they were passed in: the texts in order, the first error, the tables only when non-empty. |
| ExpressionCompilers.SerializeRequestSlot | packages/dino/src/expression-compiler.ts:39-60 | Statement `k` of `compile` gives exactly what slot `k` gives on the table as the earlier statements left it. |
| ExpressionCompilers.SlotsExtend | packages/dino/src/expression-compiler.ts:39-60 | Serializing the slots from a well-formed table only adds entries to it and leaves it well-formed. |
| ExpressionCompilers.SerializeUpdateSlot | packages/dino/src/expression-compiler.ts:39-41 | An absent update gives no text and leaves the table; a present one gives its serialization and the table it leaves, as `SerializeSlot` says. |
| ExpressionCompilers.SerializeConditionSlot | packages/dino/src/expression-compiler.ts:43-60 | The filter, condition and key condition steps give what `SerializeSlot` gives for the condition held, on the table before the step. |
| ExpressionCompilers.SerializeProjectionSlot | packages/dino/src/expression-compiler.ts:52-55 | The projection step gives what `SerializeSlot` gives for the projection held, on the table before the step. |
| ExpressionCompilers.SlotsAbsent | packages/dino/src/expression-compiler.ts:39-60 | Absent slots serialize to absent texts and leave the context alone. |
| ExpressionCompilers.CompileNothing | packages/dino/src/expression-compiler.ts:62-75 | A request with no expressions compiles to itself, with no names and no values. |
| ExpressionCompilers.SlotText | packages/dino/src/expression-compiler.ts:39-60 | The text in output position `i` is the serialization of slot `i`. |
| ExpressionCompilers.UpdateSerializedFirst | packages/dino/src/expression-compiler.ts:39-41 | The update is serialized first, into a fresh context, so its placeholders start at 0. |
| ExpressionCompilers.CompiledNamesInvertible | packages/dino/src/expression-compiler.ts:62-64 | In the compiled names table, distinct placeholders stand for distinct attribute names. |
| ExpressionBuilders.Build | packages/dino/src/expression-builder.ts:80-100 | Each compiled expression is present exactly when the builder held it. The names and values are absent exactly when none were registered. |
| ExpressionBuilders.BuildNothing | packages/dino/src/expression-builder.ts:80-100 | An empty builder compiles to nothing at all. |
| ExpressionBuilders.ExpressionBuilder.constructor | packages/dino/src/expression-builder.ts:7-21 | A new builder holds no update, no condition and no projection. |
| ExpressionBuilders.ExpressionBuilder.Slots | packages/dino/src/expression-builder.ts:84-94 | The builder's slots are update, condition and projection. |
| ExpressionBuilders.ExpressionBuilder.WithUpdate | packages/dino/src/expression-builder.ts:26-30 | Sets the update and leaves the other two. |
| ExpressionBuilders.ExpressionBuilder.ClearUpdate | packages/dino/src/expression-builder.ts:35-39 | Clears the update and leaves the other two. |
| ExpressionBuilders.ExpressionBuilder.WithCondition | packages/dino/src/expression-builder.ts:44-48 | Sets the condition and leaves the other two. |
| ExpressionBuilders.ExpressionBuilder.ClearCondition | packages/dino/src/expression-builder.ts:53-57 | Clears the condition and leaves the other two. |
| ExpressionBuilders.ExpressionBuilder.WithProjection | packages/dino/src/expression-builder.ts:62-66 | Sets the projection and leaves the other two. |
| ExpressionBuilders.ExpressionBuilder.ClearProjection | packages/dino/src/expression-builder.ts:71-75 | Clears the projection and leaves the other two. |
| ExpressionBuilders.ExpressionBuilder.Compile | packages/dino/src/expression-builder.ts:80-100 | Run against a fresh table, `compile` returns exactly `Build` of the held expressions: the texts in order, the first error, and both tables, each absent when empty. |
| ExpressionBuilders.ExpressionBuilder.SerializeHeld | packages/dino/src/expression-builder.ts:84-94 | Statement `k` of `compile` gives exactly what held slot `k` gives on the table as the earlier statements left it. |
| Gates.StatusCode | packages/gate/src/gate.ts:65-83 | Every gate failure is a 4xx answer. 403 means forbidden, and 415 means the media type is unsupported. |
| Gates.RequiredMembers | packages/gate/src/gate.ts:148-152 | `x` is required exactly when the route lists `+x`. |
| Gates.ForbiddenMembers | packages/gate/src/gate.ts:148-154 | `x` is forbidden exactly when the route lists `!x`. |
| Gates.SelectionMembers | packages/gate/src/gate.ts:148-157 | `x` is a selection scope exactly when the route lists `x` and `x` starts with neither `+` nor `!`. |
| Gates.PartitionSizes | packages/gate/src/gate.ts:148-158 | Every route scope lands in exactly one of the three lists. |
| Gates.EventScopes | packages/gate/src/gate.ts:184 | The caller's scopes, or none when the event has none. |
| Gates.RouteAdmits | packages/gate/src/gate.ts:146-205 | A caller is admitted when it holds every `+x`, holds no `!x`, and shares a scope with the plain route scopes when there are any. |
| Gates.EmptyRouteAdmitsAll | packages/gate/src/gate.ts:183-205 | A route without scopes admits every caller. |
| Gates.Gate.constructor | packages/gate/src/gate.ts:146-160 | The loop leaves exactly the three partition lists, in route order. There are no lists without route scopes. |
| Gates.Gate.Authorize | packages/gate/src/gate.ts:183-205 | Authorization passes exactly when the caller is admitted. Any refusal is forbidden. |
| Gates.Intersect | packages/gate/src/gate.ts:199 | The intersection holds exactly the scopes in both lists, each once. |
| Gates.ParseAuth | packages/gate/src/gate.ts:39-58 | With no authorizer the auth is empty. A JWT authorizer gives claims and scopes, and a lambda authorizer gives the context. Both may be present. |
| Gates.UnauthenticatedAdmitted | packages/gate/src/gate.ts:183-205 | Without a JWT, a caller is admitted exactly when the route has no required and no plain scopes. |
| Gates.CleanValues | packages/gate/src/gate.ts:96-108 | The loop keeps exactly the defined entries, in order. |
| Gates.TypeEnd | packages/gate/src/gate.ts:68 | The type part of the match is the longest run of non-space characters other than `/`. |
| Gates.SubtypeEnd | packages/gate/src/gate.ts:68 | The subtype part is the longest run of non-space characters other than `;`. |
| Gates.MediaTypeMatches | packages/gate/src/gate.ts:68 | The header has a media type exactly when the regular expression matches. The capture is the longest match, and the rest contains no line terminator. |
| Gates.MimeKindsDisjoint | packages/gate/src/gate.ts:21-34 | No media type is both text and JSON, and neither is the form type. |
| Gates.ParserFor | packages/gate/src/gate.ts:21-34 | `text/...` selects the text parser. `application/json` and `application/...+json` select JSON. `application/x-www-form-urlencoded` selects the form parser. |
| Gates.PayloadParserFor | packages/gate/src/gate.ts:63-84 | A missing or empty content type is a missing-header error. One that does not match is an invalid-header error. Otherwise the lowercased media type chooses the parser, or the media type is unsupported. |
| Gates.EventPayloadParser | packages/gate/src/gate.ts:165-173 | The event's parser is chosen by its defined `content-type` header. |
| Gates.TypeEndIs | packages/gate/src/gate.ts:68 | A run of type characters ending at `/` or at the end is where the type stops. |
| Gates.SubtypeEndIs | packages/gate/src/gate.ts:68 | A run of subtype characters ending at `;` or at the end is where the subtype stops. |
| Gates.NoSlashInvalid | packages/gate/src/gate.ts:68-72 | A non-empty header with no `/` is invalid. |
| Gates.MediaTypeOfParts | packages/gate/src/gate.ts:68-74 | `type/subtype` followed by `;...` or nothing captures `type/subtype`. |
| Gates.ParametersIgnored | packages/gate/src/gate.ts:68-80 | Parameters after `;` do not change the parser. |
| Gates.ParserExamples | packages/gate/src/gate.ts:21-34 | `application/json` and `application/vnd.api+json` are JSON. `text/plain` is text. `multipart/form-data` has no parser. |
| GateToolkits.LengthText | packages/gate/src/gate-toolkit.ts:64-68 | The content length is written in decimal digits that read back as the length. |
| GateToolkits.LowerIdempotent | packages/gate/src/gate-toolkit.ts:41 | Lowercasing a header name twice is lowercasing it once. |
| GateToolkits.Values | packages/gate/src/gate-toolkit.ts:44 | A header's stored values, or none. |
| GateToolkits.WithHeader | packages/gate/src/gate-toolkit.ts:40-50 | The lowercased name keeps its place, or goes last when it is new. It holds its earlier values plus the new one when appending, else the new one alone. |
| GateToolkits.WithHeaderOther | packages/gate/src/gate-toolkit.ts:40-50 | Setting a header leaves every other header's values unchanged. |
| GateToolkits.ReplaceDiscards | packages/gate/src/gate-toolkit.ts:46 | Setting a header without appending discards what any earlier call stored under the same name. |
| GateToolkits.AppendAccumulates | packages/gate/src/gate-toolkit.ts:43-44 | Appended values accumulate in call order after the values already there. |
| GateToolkits.WithHeaderWellFormed | packages/gate/src/gate-toolkit.ts:40-50 | Header names stay lowercase and distinct. |
| GateToolkits.Joined | packages/gate/src/gate-toolkit.ts:114-116 | Building keeps the header names in order. |
| GateToolkits.JoinedLookup | packages/gate/src/gate-toolkit.ts:114-116 | A built header is exactly its values joined with `,`. |
| GateToolkits.JoinedLookupAll | packages/gate/src/gate-toolkit.ts:114-116 | The same, for every header at once. |
| GateToolkits.Built | packages/gate/src/gate-toolkit.ts:109-119 | The built result carries the body, the code and the same header names. |
| GateToolkits.BuiltAppended | packages/gate/src/gate-toolkit.ts:40-119 | Values appended under one new name build to their comma-joined list. |
| GateToolkits.GateToolkit.constructor | packages/gate/src/gate-toolkit.ts:7-17 | A new toolkit has an empty body, code 200 and no headers. |
| GateToolkits.GateToolkit.Body | packages/gate/src/gate-toolkit.ts:22-26 | Sets the body from a string and changes nothing else. |
| GateToolkits.GateToolkit.Code | packages/gate/src/gate-toolkit.ts:31-35 | Sets the code and changes nothing else. |
| GateToolkits.GateToolkit.Header | packages/gate/src/gate-toolkit.ts:40-50 | The headers become the specified update, and names stay lowercase and distinct. |
| GateToolkits.GateToolkit.Type | packages/gate/src/gate-toolkit.ts:55-59 | Replaces `content-type` with the given type. |
| GateToolkits.GateToolkit.Bytes | packages/gate/src/gate-toolkit.ts:64-68 | Replaces `content-length` with the decimal length. |
| GateToolkits.GateToolkit.Location | packages/gate/src/gate-toolkit.ts:73-77 | Replaces `location` with the given URI. |
| GateToolkits.GateToolkit.Created | packages/gate/src/gate-toolkit.ts:82-86 | Code 201 with the location set, and the body kept. |
| GateToolkits.GateToolkit.Empty | packages/gate/src/gate-toolkit.ts:91-95 | Code 204 with an empty body, and the headers kept. |
| GateToolkits.GateToolkit.Redirect | packages/gate/src/gate-toolkit.ts:100-104 | Code 302 with the location set, and the body kept. |
| GateToolkits.GateToolkit.Build | packages/gate/src/gate-toolkit.ts:109-119 | The result has the toolkit's body and code. Every header appears under its name with its values comma-joined, and no other header appears. |
| WireRequests.FirstFrom | packages/wire/src/wire-request.ts:42 | Finds the first occurrence of the pattern at or after a position, or reports that there is none. |
| WireRequests.IndexOf | packages/wire/src/wire-request.ts:42 | The first occurrence of the pattern, or none anywhere. |
| WireRequests.ReplaceFirst | packages/wire/src/wire-request.ts:42 | Only the first occurrence is replaced. The text before it is kept and the text after it follows the replacement. With no occurrence the text is unchanged. |
| WireRequests.ProxyParameter | packages/wire/src/wire-request.ts:37 | The proxy path parameter counts only when it is set and non-empty. |
| WireRequests.Path | packages/wire/src/wire-request.ts:34-46 | A proxy parameter gives `/proxy`. Otherwise a stage removes the first `/stage` from the raw path: the result is never longer, and it is the raw path when `/stage` does not occur. Without a stage the raw path is used. |
| WireRequests.StagePrefixStripped | packages/wire/src/wire-request.ts:41-43 | A raw path starting with `/stage` loses exactly that prefix. |
| WireRequests.Url | packages/wire/src/wire-request.ts:21-29 | The URL starts with the path. It is the path alone exactly when the query string is empty. |
| WireRequests.UrlSplits | packages/wire/src/wire-request.ts:21-29 | For a path without `?`, the URL's first `?` separates the path from the raw query string. |
| WireRequests.HeaderRecordLookup | packages/wire/src/wire-request.ts:65-79 | Each header holds its defined event value. When cookies are present, `cookie` holds them joined with `; `. |
| WireRequests.RequestHeaders | packages/wire/src/wire-request.ts:65-79 | The header loop equals the specification record. |
| WireRequests.PayloadOf | packages/wire/src/wire-request.ts:84-92 | There is no payload exactly when the body is missing or empty. Otherwise the payload is the body, as base64 when the event says so. |
| WireRequests.JwtCredentials | packages/wire/src/wire-request.ts:105-110 | The credentials are the claims plus `scope`, which holds the scope list unless a claim is named `scope`. |
| WireRequests.AuthOf | packages/wire/src/wire-request.ts:97-121 | No auth without an authorizer. A JWT authorizer takes precedence over a lambda one, and an authorizer with neither gives no auth. |
| WireRequests.Decode | packages/wire/src/wire-request.ts:126-135 | The injected request carries the URL, auth, method, headers, payload and remote address defined above. |
| WireResponses.SplitCrlf | packages/wire/src/wire-response.ts:32 | Splitting on CRLF gives at least one piece. |
| WireResponses.SplitJoin | packages/wire/src/wire-response.ts:32 | Joining the pieces with CRLF restores the payload. |
| WireResponses.SplitAfter | packages/wire/src/wire-response.ts:32 | A CRLF-free prefix followed by CRLF is the first piece. |
| WireResponses.HexDigitValue | packages/wire/src/wire-response.ts:41 | A hex digit's value is below 16. |
| WireResponses.SpaceEnd | packages/wire/src/wire-response.ts:41 | `parseInt` skips leading white space. |
| WireResponses.HexEnd | packages/wire/src/wire-response.ts:41 | `parseInt` reads the longest run of hex digits. |
| WireResponses.ChunkSize | packages/wire/src/wire-response.ts:41 | The chunk size is the parsed hex value, clamped at 0. A size that does not parse counts as 0. |
| WireResponses.ChunkText | packages/wire/src/wire-response.ts:41 | A chunk keeps the first `size` characters of its data, or all of them when the data is shorter. |
| WireResponses.ChunkedBody | packages/wire/src/wire-response.ts:31-46 | The loop over size/data pairs equals the specification decoder. Empty or missing data is skipped. |
| WireResponses.PushedChunk | packages/wire/src/wire-response.ts:39-43 | A pair with data appends its truncated chunk. |
| WireResponses.SkippedChunk | packages/wire/src/wire-response.ts:39 | A pair without data appends nothing. |
| WireResponses.HexDigit | packages/wire/src/wire-response.ts:41 | The printed hex digit of `d` reads back as `d`. |
| WireResponses.HexDigits | packages/wire/src/wire-response.ts:41 | A size printed in hex is a non-empty run of hex digits. |
| WireResponses.HexRoundTrip | packages/wire/src/wire-response.ts:41 | A printed hex size reads back as the size. |
| WireResponses.ParseHexDigits | packages/wire/src/wire-response.ts:41 | `parseInt` of a printed size followed by a non-hex tail is the size. |
| WireResponses.DigitlessChunkEmpty | packages/wire/src/wire-response.ts:41 | A size line with no hex digits keeps nothing of its chunk. |
| WireResponses.NoCrlfInHex | packages/wire/src/wire-response.ts:32 | A printed size contains no CRLF. |
| WireResponses.DecodeEncodeChunks | packages/wire/src/wire-response.ts:31-46 | Decoding a chunked encoding of non-empty, CRLF-free chunks gives their concatenation. |
| WireResponses.StrippedHeaders | packages/wire/src/wire-response.ts:55-63 | A chunked response loses only its `transfer-encoding` header. Any other response keeps all its headers. |
| WireResponses.StrippedOther | packages/wire/src/wire-response.ts:58-60 | Every header other than `transfer-encoding` keeps its value. |
| WireResponses.BareTypeIsBase64 | packages/wire/src/wire-response.ts:75-83 | A content type without `; charset=` makes the body base64. |
| WireResponses.CharsetIsText | packages/wire/src/wire-response.ts:75-83 | A content type with `;`, spaces and `charset=`, with no or identity encoding, makes the body text. |
| WireResponses.EncodingIsBase64 | packages/wire/src/wire-response.ts:81 | A content encoding other than `identity` makes the body base64. |
| WireResponses.BodyOf | packages/wire/src/wire-response.ts:28-50 | A chunked body is decoded. Any other body is passed along, tagged base64 or text. |
| WireResponses.WireResponse.constructor | packages/wire/src/wire-response.ts:14-16 | The response keeps the given headers, payload and status. |
| WireResponses.WireResponse.Body | packages/wire/src/wire-response.ts:28-50 | The body getter equals the specification. |
| WireResponses.WireResponse.Headers | packages/wire/src/wire-response.ts:55-63 | The getter deletes `transfer-encoding` in place for chunked responses and returns the headers. |
| WireResponses.WireResponse.Encode | packages/wire/src/wire-response.ts:88-95 | The body is read before the headers are stripped. The result carries the stripped headers, the status and the encoding flag. |
| BatchWrites.BatchWrite.constructor | packages/duck/src/batch-write.ts:31 | A new batch write has an empty queue. |
| BatchWrites.BatchWrite.Put | packages/duck/src/batch-write.ts:36-40 | Appends one put request for the table. |
| BatchWrites.BatchWrite.Delete | packages/duck/src/batch-write.ts:45-49 | Appends one delete request for the table. |
| BatchWrites.BatchWrite.FirstRound | packages/duck/src/batch-write.ts:55-78 | The first round sends ceil(n/25) batches of the queue. |
| BatchWrites.PartitionCount | packages/duck/src/batch-write.ts:61-65 | A queue of `n` requests is cut into ceil(n/25) batches. An empty queue sends nothing. |
| BatchWrites.PartitionSizes | packages/duck/src/batch-write.ts:61-68 | Every batch holds between 1 and 25 requests. |
| BatchWrites.PartitionFlatten | packages/duck/src/batch-write.ts:61-68 | The batches, read in order, are the queue: every request is sent exactly once per round. |
| BatchWrites.GroupKeys | packages/duck/src/batch-write.ts:66-76 | A batch's tables come in the order they first appear in the slice. |
| BatchWrites.GroupLookup | packages/duck/src/batch-write.ts:70-75 | Each table of a batch holds exactly the slice's requests for it, in their relative order. An absent table has none. |
| BatchWrites.TablesDistinct | packages/duck/src/batch-write.ts:71-73 | A table appears once per batch. |
| BatchWrites.GroupSize | packages/duck/src/batch-write.ts:70-75 | Grouping loses and duplicates nothing: a batch holds as many requests as its slice. |
| BatchWrites.SizePut | packages/duck/src/batch-write.ts:71-75 | Storing a table's list changes a batch's size by that list's change. |
| BatchWrites.GroupBatch | packages/duck/src/batch-write.ts:66-76 | The grouping loop equals the specification grouping. |
| BatchWrites.Groups | packages/duck/src/batch-write.ts:61-78 | One batch per slice, in order. |
| BatchWrites.Batches | packages/duck/src/batch-write.ts:61-79 | The `index += 25` loop groups each slice of the queue into a batch, in order. |
| BatchWrites.BatchesBounded | packages/duck/src/batch-write.ts:61-78 | Every batch carries between 1 and 25 requests, spread over distinct tables. |
| BatchWrites.Requeue | packages/duck/src/batch-write.ts:89-99 | The next queue holds every reported unprocessed request, tagged with its table. Outputs come in call order, then tables, then requests. |
| BatchWrites.EntriesSize | packages/duck/src/batch-write.ts:90-97 | Re-queueing a response adds exactly as many requests as it reports. |
| BatchWrites.TaggedSize | packages/duck/src/batch-write.ts:94-96 | Each reported request of a table is queued once. |
| BatchWrites.TaggedAt | packages/duck/src/batch-write.ts:94-96 | The requeued entry at each position is the table with its reported request. |
| BatchWrites.NothingUnprocessed | packages/duck/src/batch-write.ts:58-99 | When no output reports anything unprocessed, the next queue is empty and the loop ends. |
| SystemStores.Drop | packages/test/src/system-store.ts:94 | `slice(n)`: the name past the path, or nothing once `n` passes the end. |
| SystemStores.Split | packages/test/src/system-store.ts:96 | Splitting on `/` and `-` gives one more piece than there are separators. No piece holds a separator. |
| SystemStores.NonEmpty | packages/test/src/system-store.ts:96 | `filter(Boolean)` keeps only non-empty pieces, in order. |
| SystemStores.Words | packages/test/src/system-store.ts:96 | A name's words are non-empty and separator-free. |
| SystemStores.SplitConcat | packages/test/src/system-store.ts:96 | Splitting at a separator splits the two sides independently. |
| SystemStores.SplitWord | packages/test/src/system-store.ts:96 | A separator-free text is one piece. |
| SystemStores.NonEmptyConcat | packages/test/src/system-store.ts:96 | Filtering distributes over concatenation. |
| SystemStores.WordsConcat | packages/test/src/system-store.ts:96 | The words on either side of a separator are the whole text's words, in order. |
| SystemStores.DerivedKeyWords | packages/test/src/system-store.ts:92-96 | A derived key is the prefix's words followed by the words of the name past the path, joined with `_` and uppercased. |
| SystemStores.WordsOfJoin | packages/test/src/system-store.ts:96 | Words joined by one separator are read back as those words. |
| SystemStores.NestedNameKey | packages/test/src/system-store.ts:92-96 | `path/w1/.../wn` derives the prefix's words then `W1_..._WN`, as in `/dev/api/url` becoming `API_URL`. |
| SystemStores.JoinNoSeparator | packages/test/src/system-store.ts:96 | Joining separator-free words with `_` adds no separator. |
| SystemStores.KeyAlphabet | packages/test/src/system-store.ts:96 | A key contains no `/`, no `-` and no lowercase letter. |
| SystemStores.LastValue | packages/test/src/system-store.ts:87-99 | A key has a value exactly when some kept parameter derives it. |
| SystemStores.OutputLookup | packages/test/src/system-store.ts:87-99 | Every key of the record holds the value of the last kept parameter that derives it. |
| SystemStores.SkipsUndefined | packages/test/src/system-store.ts:88-90 | A parameter missing its name or value, or with an empty one, leaves the record unchanged. |
| SystemStores.OutputDistinct | packages/test/src/system-store.ts:98 | Each key appears once in the record. |
| SystemStores.Merged | packages/test/src/system-store.ts:101-105 | After the merge, the environment holds its old keys plus the record's keys. Existing variables are never overwritten. |
| SystemStores.MergedAdds | packages/test/src/system-store.ts:102-104 | A key the environment lacked takes the record's value. |
| SystemStores.Environment.constructor | packages/test/src/system-store.ts:102-103 | The environment starts with the given variables. |
| SystemStores.SystemStore.constructor | packages/test/src/system-store.ts:21 | A store keeps its path and its decryption flag. |
| SystemStores.SystemStore.Filters | packages/test/src/system-store.ts:27-35 | There is one `BeginsWith` filter on the path exactly when the path is non-empty, and none otherwise. |
| SystemStores.SystemStore.Config | packages/test/src/system-store.ts:85-107 | The returned record is every kept parameter under its derived key. The environment becomes the non-overwriting merge of that record. |
| PascalCase.ToPascalCase | packages/drum/src/helpers.ts:4-8 | The left-to-right, non-overlapping regular-expression replace equals the position-by-position definition. |
| PascalCase.ScanPositional | packages/drum/src/helpers.ts:5-7 | From every point where the replace resumes, it agrees with the positional definition. |
| PascalCase.PositionalLength | packages/drum/src/helpers.ts:5-7 | Each removed `-` shortens the text by one. No other character is removed or added. |
| PascalCase.Length | packages/drum/src/helpers.ts:4-8 | The output length is the input length minus the number of removed hyphens. |
| PascalCase.FirstRaised | packages/drum/src/helpers.ts:5 | A leading word character is uppercased. |
| PascalCase.NoRemovedHyphen | packages/drum/src/helpers.ts:5 | Without a `-` before a word character, every character is kept, including a `-` not followed by a word character; only a leading word character can change. |
| PascalCase.HyphenWords | packages/drum/src/helpers.ts:5-7 | In `word-rest`, the `-` disappears and the first character of `rest` is uppercased. |
| PascalCase.PositionalSplit | packages/drum/src/helpers.ts:5-7 | The part before a removed hyphen is converted independently of the part after it. |
| PascalCase.HyphenAt | packages/drum/src/helpers.ts:5-7 | At a `-` before a word character, the hyphen is dropped and the character is uppercased. |
| OrderedCollections.Put | packages/dino/src/update-expression.ts:49 | `map.set`: a known key keeps its position and takes the new value; a new key goes last. |
| OrderedCollections.PutOther | packages/dino/src/update-expression.ts:49 | `map.set` leaves every other key's value unchanged. |
| OrderedCollections.PutOverwrites | packages/dino/src/update-expression.ts:49 | A second `map.set` of the same key replaces the first. |
| OrderedCollections.PutDistinct | packages/dino/src/update-expression.ts:49 | `map.set` keeps keys distinct. |
| OrderedCollections.Insert | packages/dino/src/update-expression.ts:136 | `set.add` appends a new member and ignores a known one. |
| OrderedCollections.InsertDistinct | packages/dino/src/update-expression.ts:136 | `set.add` keeps members distinct. |
| OrderedCollections.Remove | packages/dino/src/projection-expression.ts:34 | `set.delete` removes the member. |
| OrderedCollections.RemoveOther | packages/dino/src/projection-expression.ts:34 | `set.delete` leaves other members alone. |
| OrderedCollections.RemoveAbsent | packages/dino/src/projection-expression.ts:34 | Deleting an absent member changes nothing. |
| OrderedCollections.CleanedLookup | packages/gate/src/gate.ts:96-108 | With distinct keys, the cleaned record holds exactly the defined values. |
| Text.DecimalRoundTrip | packages/dino/src/expression-attributes.ts:44-55 | A number printed in decimal reads back as itself. |
| Text.DecimalDigitsInjective | packages/dino/src/expression-attributes.ts:44 | Distinct counters print as distinct digits. |
| Text.Lower | packages/gate/src/gate-toolkit.ts:41 | ASCII `toLowerCase` maps each character in place. |
| Text.Upper | packages/test/src/system-store.ts:96 | ASCII `toUpperCase` maps each character in place. |

## Left out

- The AWS SDK clients and every network call are not modelled. This covers the parameter listing and its `NextToken` pagination, the chunked `GetParameters` calls of 10 names, and `BatchWriteItem`. They are I/O. Their responses are inputs: the fetched parameters, and the responses of one batch round.
- The `BatchWrite` back-off `sleep`, the `Promise.all` fan-out and the `exec` loop across rounds are not modelled. They are timing and concurrency. One round's partition and re-queue are modelled. The loop ends only when the service stops reporting unprocessed items, which no model of the service's answers could promise.
- The marshaller (`marshall`/`unmarshall`, `AttributeValue.wrap` with its lazy evaluation) is a foreign library. A value is an opaque `Value`, and the values table stores what the marshaller would be handed. `AttributePath.is`, `FunctionExpression.is` and `NumericExpression.is` are tags of the closed `Operand` type.
- `Number.parseInt` on very long index digit runs is not modelled. Beyond float range an index becomes Infinity and the scan throws. The model keeps indices as unbounded naturals.
- `JSON.parse`, `Querystring.parse` and the "Invalid request body" error are not modelled. They parse the payload, and only the choice of parser is modelled. Joi validation (`Gate.validate`), Boom error formatting (`formatError`, `formatResult`) and the handler wrapper are not modelled either. `GateError` and `StatusCode` stand for the Boom errors the gate throws.
- GateToolkits.GateToolkit.Body: only string bodies are modelled. An object body is `JSON.stringify`, a foreign call.
- GateToolkits.GateToolkit.Bytes: only natural numbers are modelled. A string length or a non-integer number is formatted by `String(...)`.
- The toolkit's chaining return values (`return this`) are not modelled. The methods change the object, and callers chain by calling the next method.
- Buffer base64 encoding and decoding are not modelled. A base64 payload or body is tagged `Base64Payload`/`Base64Body` and carries the text it was given.
- JWT claims and lambda authorizer contexts are abstracted to string maps. Header values that are arrays or numbers are not modelled, so `single` is the identity on strings.
- Plain records are ordered by insertion. JavaScript lists integer-like keys first, which the model does not reproduce.
- BatchWrites.Group, BatchWrites.GroupBatch and BatchWrites.GroupLookup: a table named like an `Object.prototype` member (`constructor`, `toString`, `__proto__`, …) is grouped like any other table. In the source the plain-object lookup finds the inherited member, and the `push` onto it throws a `TypeError`. The model does not capture that failure.
- Gates.CleanValues, WireRequests.HeaderRecordLookup and WireRequests.RequestHeaders: an own entry named `__proto__` with a defined string value is kept. In the source, `output[key] = value` on a plain object calls the inherited `__proto__` setter, which ignores a string, so that entry is lost. WireRequests.HeaderRecord and OrderedCollections.CleanedLookup share this reading.
- ConditionExpressions.ConditionExpression.constructor, And and Or: the condition arrays are copied, not shared. In the source the constructor keeps the caller's array, and `and`/`or` push a junction holding the inner builder's own live array. A later push through either reference then changes what both serialize. The model holds values, so it does not capture that aliasing.
- GateToolkits.WithHeader and GateToolkits.GateToolkit.Header: a header named like an `Object.prototype` member is stored like any other header. In the source, `constructor` with append throws because the inherited function is not iterable, and `__proto__` replaces the object's prototype, so `build` leaves the header out. The model does not capture either.
- WireResponses.ChunkText: sizes count Unicode scalar values, where `slice` counts UTF-16 code units. A chunk holding characters outside the Basic Multilingual Plane keeps more text in the model than in the source, and the source can cut a surrogate pair in half, which a model string cannot hold. WireResponses.DecodeEncodeChunks holds in this reading, with sizes counted in scalars.
- WireResponses.ChunkSize: sizes are unbounded integers. `parseInt` loses precision past 2^53, and a size line with no hex digits is `NaN`, which counts as 0.
- `toLowerCase`/`toUpperCase` are modelled on ASCII letters only.
- ConditionExpressions.ConditionExpression.Not: a negation whose builder added no condition would crash the source when serialized. The model serializes it to a `MissingCondition` error instead.
- The error paths of the serializers follow the source's exceptions. A failure mid-way leaves the names and values registered before it, as in the source.
- `AttributePath.wrap` on a path object is reference identity in the model too: `Ref` keeps the object.
