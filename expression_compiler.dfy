/**
 * Compiling the expressions of one request: every expression present is
 * serialized against one shared placeholder table, in the fixed order
 * update, filter, condition, projection, key condition; the tables are
 * attached only when something was added to them, and every other field of
 * the request is passed through.
 */
module ExpressionCompilers {
  import opened Results
  import opened AttributePaths
  import opened Operands
  import opened Attributes
  import opened ConditionExpressions
  import opened UpdateExpressions
  import opened ProjectionExpressions

  /** The value an expression object holds, as far as serializing it goes. */
  datatype Part =
    | UpdatePart(directives: Directives)
    | ConditionPart(conditions: seq<Condition>)
    | ProjectionPart(paths: seq<PathInput>)

  function SerializePart(p: Part, c: Context): (r: (Result<string, ExpressionError>, Context))
    ensures c.Valid() ==> r.1.Valid() && Extends(c, r.1)
  {
    match p
    case UpdatePart(d) => SerializeUpdate(d, c)
    case ConditionPart(cs) => SerializeCondition(Condition.And(cs), c)
    case ProjectionPart(ps) => SerializeProjection(ps, c)
  }

  /** One slot of a request: no text for an absent expression, else its serialization. */
  function SerializeSlot(slot: Option<Part>, c: Context): (r: (Result<Option<string>, ExpressionError>, Context))
    ensures c.Valid() ==> r.1.Valid() && Extends(c, r.1)
    ensures slot.None? ==> r == (Ok(None), c)
    ensures r.0.Ok? && slot.Some? ==> r.0.value.Some?
  {
    match slot
    case None => (Ok(None), c)
    case Some(p) =>
      var (text, next) := SerializePart(p, c);
      if text.Err? then (Err(text.error), next) else (Ok(Some(text.value)), next)
  }

  /** The slots from position `i` on, after the texts of the ones before; the first error stops. */
  function SerializeSlots(slots: seq<Option<Part>>, i: nat, texts: seq<Option<string>>, c: Context)
    : (r: (Result<seq<Option<string>>, ExpressionError>, Context))
    requires i <= |slots|
    ensures r.0.Ok? ==> |r.0.value| == |texts| + |slots| - i && r.0.value[..|texts|] == texts
    ensures r.0.Ok? ==> SlotsShaped(r.0.value, |texts|, slots, i)
    decreases |slots| - i, 1
  {
    if i == |slots| then (Ok(texts), c) else SlotThenRest(slots, i, texts, c)
  }

  /** The slot at `i`, then the ones after it on the table it leaves. */
  function SlotThenRest(slots: seq<Option<Part>>, i: nat, texts: seq<Option<string>>, c: Context)
    : (r: (Result<seq<Option<string>>, ExpressionError>, Context))
    requires i < |slots|
    ensures r.0.Ok? ==> |r.0.value| == |texts| + |slots| - i && r.0.value[..|texts|] == texts
    ensures r.0.Ok? ==> SlotsShaped(r.0.value, |texts|, slots, i)
    decreases |slots| - i, 0
  {
    var step := SerializeSlot(slots[i], c);
    if step.0.Err? then (Err(step.0.error), step.1)
    else
      var r := SerializeSlots(slots, i + 1, texts + [step.0.value], step.1);
      SlotsSnoc(slots, i, texts, step.0.value, r);
      r
  }

  /** One slot further: an error there is the whole result, otherwise the rest follows from the table it leaves. */
  lemma SlotsUnfold(slots: seq<Option<Part>>, i: nat, texts: seq<Option<string>>, c: Context)
    requires i < |slots|
    ensures var step := SerializeSlot(slots[i], c);
      SerializeSlots(slots, i, texts, c)
      == if step.0.Err? then (Err(step.0.error), step.1) else SerializeSlots(slots, i + 1, texts + [step.0.value], step.1)
  {
    assert SerializeSlots(slots, i, texts, c) == SlotThenRest(slots, i, texts, c);
  }

  /** Serializing the slots only adds entries to a well-formed table. */
  lemma {:induction false} SlotsExtend(slots: seq<Option<Part>>, i: nat, texts: seq<Option<string>>, c: Context)
    requires i <= |slots| && c.Valid()
    ensures var r := SerializeSlots(slots, i, texts, c); r.1.Valid() && Extends(c, r.1)
    decreases |slots| - i
  {
    if i < |slots| {
      var step := SerializeSlot(slots[i], c);
      SlotsUnfold(slots, i, texts, c);
      if step.0.Ok? {
        SlotsExtend(slots, i + 1, texts + [step.0.value], step.1);
        ExtendsChain(c, step.1, SerializeSlots(slots, i + 1, texts + [step.0.value], step.1).1);
      }
    }
  }

  /** The contract of the slots from `i` on, from the one of the slots after `i`. */
  lemma SlotsSnoc(slots: seq<Option<Part>>, i: nat, texts: seq<Option<string>>, x: Option<string>,
                  r: (Result<seq<Option<string>>, ExpressionError>, Context))
    requires i < |slots| && (x.Some? <==> slots[i].Some?)
    requires r.0.Ok? ==> |r.0.value| == |texts| + |slots| - i && r.0.value[..|texts| + 1] == texts + [x]
    requires r.0.Ok? ==> SlotsShaped(r.0.value, |texts| + 1, slots, i + 1)
    ensures r.0.Ok? ==> r.0.value[..|texts|] == texts && SlotsShaped(r.0.value, |texts|, slots, i)
  {
    if r.0.Ok? {
      PrefixSnoc(r.0.value, texts, x);
      ShapedSnoc(r.0.value, |texts|, slots, i);
    }
  }

  /** From position `from` on, the texts are present exactly where the slots from `i` on are. */
  predicate SlotsShaped(v: seq<Option<string>>, from: nat, slots: seq<Option<Part>>, i: nat)
    requires from <= |v| && i <= |slots| && |v| - from == |slots| - i
  {
    forall k :: from <= k < |v| ==> (v[k].Some? <==> slots[k - from + i].Some?)
  }

  lemma ShapedSnoc(v: seq<Option<string>>, from: nat, slots: seq<Option<Part>>, i: nat)
    requires from < |v| && i < |slots| && |v| - from == |slots| - i
    requires v[from].Some? <==> slots[i].Some?
    requires SlotsShaped(v, from + 1, slots, i + 1)
    ensures SlotsShaped(v, from, slots, i)
  {
    forall k | from <= k < |v|
      ensures v[k].Some? <==> slots[k - from + i].Some?
    {
      if k > from {
        assert k - (from + 1) + (i + 1) == k - from + i;
      }
    }
  }

  lemma PrefixSnoc<T>(v: seq<T>, prefix: seq<T>, x: T)
    requires |prefix| < |v| && v[..|prefix| + 1] == prefix + [x]
    ensures v[..|prefix|] == prefix && v[|prefix|] == x
  {
    assert v[..|prefix|] == v[..|prefix| + 1][..|prefix|];
    assert v[|prefix|] == v[..|prefix| + 1][|prefix|];
  }

  /** A request as given: the five expression objects and every other field. */
  datatype Request = Request(
    update: Option<UpdateExpression>,
    filter: Option<ConditionExpression>,
    condition: Option<ConditionExpression>,
    projection: Option<ProjectionExpression>,
    keyCondition: Option<ConditionExpression>,
    names: Option<map<string, string>>,      // ExpressionAttributeNames given by the caller
    values: Option<map<string, Operand>>,    // ExpressionAttributeValues given by the caller
    fields: map<string, string>)             // TableName, Key and the rest, passed through

  /** A compiled request: the expression texts and the tables. */
  datatype Compiled = Compiled(
    update: Option<string>,
    filter: Option<string>,
    condition: Option<string>,
    projection: Option<string>,
    keyCondition: Option<string>,
    names: Option<map<string, string>>,
    values: Option<map<string, Operand>>,
    fields: map<string, string>)

  ghost function Objects(request: Request): set<object> {
    (if request.update.Some? then {request.update.value} else {})
    + (if request.filter.Some? then {request.filter.value} else {})
    + (if request.condition.Some? then {request.condition.value} else {})
    + (if request.projection.Some? then {request.projection.value} else {})
    + (if request.keyCondition.Some? then {request.keyCondition.value} else {})
  }

  /** The part an update expression object holds, if there is one. */
  ghost function UpdateSlot(e: Option<UpdateExpression>): Option<Part>
    reads if e.Some? then {e.value} else {}
  {
    if e.Some? then Some(UpdatePart(e.value.State())) else None
  }

  /** The part a condition expression object holds, if there is one. */
  ghost function ConditionSlot(e: Option<ConditionExpression>): Option<Part>
    reads if e.Some? then {e.value} else {}
  {
    if e.Some? then Some(ConditionPart(e.value.conditions)) else None
  }

  /** The part a projection expression object holds, if there is one. */
  ghost function ProjectionSlot(e: Option<ProjectionExpression>): Option<Part>
    reads if e.Some? then {e.value} else {}
  {
    if e.Some? then Some(ProjectionPart(e.value.paths)) else None
  }

  /** The request's expressions in serialization order. */
  ghost function Slots(request: Request): (r: seq<Option<Part>>)
    reads Objects(request)
    ensures |r| == 5
  {
    [UpdateSlot(request.update), ConditionSlot(request.filter), ConditionSlot(request.condition),
     ProjectionSlot(request.projection), ConditionSlot(request.keyCondition)]
  }

  /**
   * The request with its expressions replaced by their texts. A table that
   * stayed empty is not attached, so whatever the caller gave under that
   * name survives.
   */
  function Compile(slots: seq<Option<Part>>, request: Request): (r: Result<Compiled, ExpressionError>)
    requires |slots| == 5
    ensures r.Ok? ==> r.value.fields == request.fields
    ensures r.Ok? ==> (r.value.update.Some? <==> slots[0].Some?) && (r.value.filter.Some? <==> slots[1].Some?)
                      && (r.value.condition.Some? <==> slots[2].Some?) && (r.value.projection.Some? <==> slots[3].Some?)
                      && (r.value.keyCondition.Some? <==> slots[4].Some?)
  {
    var (texts, c) := SerializeSlots(slots, 0, [], Empty);
    if texts.Err? then Err(texts.error)
    else
      var t := texts.value;
      Ok(Compiled(t[0], t[1], t[2], t[3], t[4],
                  if |c.names| > 0 then Some(c.names) else request.names,
                  if |c.values| > 0 then Some(c.values) else request.values,
                  request.fields))
  }

  /**
   * `compile(input)`: the five expressions in order against one fresh table,
   * the first error stops. The five statements of the source are the five
   * turns of the loop, each handled by `SerializeRequestSlot`.
   */
  method CompileRequest(request: Request) returns (r: Result<Compiled, ExpressionError>)
    ensures r == Compile(old(Slots(request)), request)
  {
    ghost var slots := Slots(request);
    var attributes := new ExpressionAttributes();
    var texts: seq<Option<string>> := [];
    for k := 0 to 5
      invariant attributes.Valid() && fresh(attributes)
      invariant |texts| == k
      invariant SerializeSlots(slots, k, texts, attributes.State()) == SerializeSlots(slots, 0, [], Empty)
    {
      ghost var before := attributes.State();
      SlotsUnfold(slots, k, texts, before);
      var text := SerializeRequestSlot(request, attributes, k, slots);
      if text.Err? {
        CompileError(slots, request, text.error);
        return Err(text.error);
      }
      texts := texts + [text.value];
    }
    var names := attributes.Names();
    var values := attributes.Values();
    r := Ok(Compiled(texts[0], texts[1], texts[2], texts[3], texts[4],
                     if names.Some? then names else request.names,
                     if values.Some? then values else request.values,
                     request.fields));
    CompiledFrom(slots, request, texts, attributes.State(), r);
  }

  /** Statement `k` of `compile`: the `k`-th expression of the request, if present, serialized on the shared table. */
  method SerializeRequestSlot(request: Request, attributes: ExpressionAttributes, k: nat, ghost slots: seq<Option<Part>>)
    returns (r: Result<Option<string>, ExpressionError>)
    requires attributes.Valid() && k < 5 && slots == Slots(request)
    modifies attributes
    ensures attributes.Valid()
    ensures (r, attributes.State()) == SerializeSlot(slots[k], old(attributes.State()))
  {
    if k == 0 {
      assert slots[0] == UpdateSlot(request.update);
      r := SerializeUpdateSlot(request.update, attributes);
    } else if k == 1 {
      assert slots[1] == ConditionSlot(request.filter);
      r := SerializeConditionSlot(request.filter, attributes);
    } else if k == 2 {
      assert slots[2] == ConditionSlot(request.condition);
      r := SerializeConditionSlot(request.condition, attributes);
    } else if k == 3 {
      assert slots[3] == ProjectionSlot(request.projection);
      r := SerializeProjectionSlot(request.projection, attributes);
    } else {
      assert slots[4] == ConditionSlot(request.keyCondition);
      r := SerializeConditionSlot(request.keyCondition, attributes);
    }
  }

  lemma CompileError(slots: seq<Option<Part>>, request: Request, e: ExpressionError)
    requires |slots| == 5 && SerializeSlots(slots, 0, [], Empty).0 == Err(e)
    ensures Compile(slots, request) == Err(e)
  {
  }

  lemma CompiledFrom(slots: seq<Option<Part>>, request: Request, texts: seq<Option<string>>, c: Context,
                     r: Result<Compiled, ExpressionError>)
    requires |slots| == 5 && |texts| == 5 && SerializeSlots(slots, 5, texts, c) == SerializeSlots(slots, 0, [], Empty)
    requires r == Ok(Compiled(texts[0], texts[1], texts[2], texts[3], texts[4],
                              if |c.names| > 0 then Some(c.names) else request.names,
                              if |c.values| > 0 then Some(c.values) else request.values,
                              request.fields))
    ensures r == Compile(slots, request)
  {
  }

  /** The update step of `compile`: an absent update gives no text, a present one its serialization on the shared table. */
  method SerializeUpdateSlot(update: Option<UpdateExpression>, attributes: ExpressionAttributes)
    returns (r: Result<Option<string>, ExpressionError>)
    requires attributes.Valid()
    modifies attributes
    ensures attributes.Valid()
    ensures (r, attributes.State()) == old(SerializeSlot(UpdateSlot(update), attributes.State()))
  {
    if update.None? {
      return Ok(None);
    }
    ghost var held := update.value.State();
    assert UpdateSlot(update) == Some(UpdatePart(held));
    ghost var before := attributes.State();
    var text := update.value.Serialize(attributes);
    assert (text, attributes.State()) == SerializePart(UpdatePart(held), before);
    r := if text.Err? then Err(text.error) else Ok(Some(text.value));
  }

  /** The filter, condition and key condition steps of `compile`. */
  method SerializeConditionSlot(condition: Option<ConditionExpression>, attributes: ExpressionAttributes)
    returns (r: Result<Option<string>, ExpressionError>)
    requires attributes.Valid()
    modifies attributes
    ensures attributes.Valid()
    ensures (r, attributes.State()) == old(SerializeSlot(ConditionSlot(condition), attributes.State()))
  {
    if condition.None? {
      return Ok(None);
    }
    ghost var held := condition.value.conditions;
    assert ConditionSlot(condition) == Some(ConditionPart(held));
    ghost var before := attributes.State();
    var text := condition.value.Serialize(attributes);
    assert (text, attributes.State()) == SerializePart(ConditionPart(held), before);
    r := if text.Err? then Err(text.error) else Ok(Some(text.value));
  }

  /** The projection step of `compile`. */
  method SerializeProjectionSlot(projection: Option<ProjectionExpression>, attributes: ExpressionAttributes)
    returns (r: Result<Option<string>, ExpressionError>)
    requires attributes.Valid()
    modifies attributes
    ensures attributes.Valid()
    ensures (r, attributes.State()) == old(SerializeSlot(ProjectionSlot(projection), attributes.State()))
  {
    if projection.None? {
      return Ok(None);
    }
    ghost var held := projection.value.paths;
    assert ProjectionSlot(projection) == Some(ProjectionPart(held));
    ghost var before := attributes.State();
    var text := projection.value.Serialize(attributes);
    assert (text, attributes.State()) == SerializePart(ProjectionPart(held), before);
    r := if text.Err? then Err(text.error) else Ok(Some(text.value));
  }

  // ---------------------------------------------------------------------
  // Properties
  // ---------------------------------------------------------------------

  /** Absent expressions give no text and leave the table as it is. */
  lemma {:induction false} SlotsAbsent(slots: seq<Option<Part>>, i: nat, texts: seq<Option<string>>, c: Context)
    requires i <= |slots|
    requires forall k :: i <= k < |slots| ==> slots[k].None?
    ensures SerializeSlots(slots, i, texts, c) == (Ok(texts + seq(|slots| - i, _ => None)), c)
    decreases |slots| - i
  {
    if i < |slots| {
      SlotsAbsent(slots, i + 1, texts + [None], c);
      assert (texts + [None]) + seq(|slots| - i - 1, _ => None) == texts + seq(|slots| - i, _ => None);
    } else {
      assert texts + seq(0, _ => None) == texts;
    }
  }

  /** A request without expressions comes back with the caller's own tables and fields. */
  lemma CompileNothing(request: Request)
    ensures Compile([None, None, None, None, None], request)
         == Ok(Compiled(None, None, None, None, None, request.names, request.values, request.fields))
  {
    SlotsAbsent([None, None, None, None, None], 0, [], Empty);
  }

  /** Each slot's text is what that slot gives on the table the slots before it left. */
  lemma SlotText(slots: seq<Option<Part>>, i: nat, texts: seq<Option<string>>, c: Context)
    requires i < |slots| && SerializeSlots(slots, i, texts, c).0.Ok?
    ensures SerializeSlot(slots[i], c).0.Ok?
    ensures SerializeSlots(slots, i, texts, c).0.value[|texts|] == SerializeSlot(slots[i], c).0.value
  {
    var step := SerializeSlot(slots[i], c);
    var rest := SerializeSlots(slots, i + 1, texts + [step.0.value], step.1);
    assert rest.0.value[..|texts| + 1] == texts + [step.0.value];
    assert rest.0.value[|texts|] == rest.0.value[..|texts| + 1][|texts|];
  }

  /** The update, when present, is serialized first: its text is the one the update alone gives on an empty table. */
  lemma UpdateSerializedFirst(slots: seq<Option<Part>>, request: Request, d: Directives)
    requires |slots| == 5 && slots[0] == Some(UpdatePart(d))
    requires Compile(slots, request).Ok?
    ensures SerializeUpdate(d, Empty).0.Ok?
    ensures Compile(slots, request).value.update == Some(SerializeUpdate(d, Empty).0.value)
  {
    SlotText(slots, 0, [], Empty);
  }

  /** Every placeholder in a compiled names table stands for exactly one attribute name, and back. */
  lemma CompiledNamesInvertible(slots: seq<Option<Part>>, request: Request)
    requires |slots| == 5
    requires Compile(slots, request).Ok?
    ensures var (_, c) := SerializeSlots(slots, 0, [], Empty);
      c.Valid() && (forall p, q :: p in c.names && q in c.names && c.names[p] == c.names[q] ==> p == q)
  {
    EmptyValid();
    SlotsExtend(slots, 0, [], Empty);
    var (_, c) := SerializeSlots(slots, 0, [], Empty);
    forall p, q | p in c.names && q in c.names && c.names[p] == c.names[q]
      ensures p == q
    {
      assert c.substitutions[c.names[p]] == p;
    }
  }
}
