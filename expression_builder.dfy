/**
 * The expression builder: an update, a condition and a projection expression
 * held until `compile`, which serializes those present in that order against
 * one fresh placeholder table and always reports both tables (absent when
 * empty).
 */
module ExpressionBuilders {
  import opened Results
  import opened Operands
  import opened Attributes
  import opened ConditionExpressions
  import opened UpdateExpressions
  import opened ProjectionExpressions
  import opened ExpressionCompilers

  /** What `compile` returns. */
  datatype Built = Built(
    update: Option<string>,
    condition: Option<string>,
    projection: Option<string>,
    names: Option<map<string, string>>,
    values: Option<map<string, Operand>>)

  /** The texts of the three slots, then the tables, each absent when empty. */
  function Build(slots: seq<Option<Part>>): (r: Result<Built, ExpressionError>)
    requires |slots| == 3
    ensures r.Ok? ==> (r.value.update.Some? <==> slots[0].Some?) && (r.value.condition.Some? <==> slots[1].Some?)
                      && (r.value.projection.Some? <==> slots[2].Some?)
    ensures r.Ok? ==> (r.value.names.None? <==> |SerializeSlots(slots, 0, [], Empty).1.names| == 0)
    ensures r.Ok? ==> (r.value.values.None? <==> |SerializeSlots(slots, 0, [], Empty).1.values| == 0)
  {
    var (texts, c) := SerializeSlots(slots, 0, [], Empty);
    if texts.Err? then Err(texts.error)
    else
      var t := texts.value;
      Ok(Built(t[0], t[1], t[2],
               if |c.names| > 0 then Some(c.names) else None,
               if |c.values| > 0 then Some(c.values) else None))
  }

  class ExpressionBuilder {
    var update: Option<UpdateExpression>
    var condition: Option<ConditionExpression>
    var projection: Option<ProjectionExpression>

    constructor ()
      ensures update.None? && condition.None? && projection.None?
    {
      update, condition, projection := None, None, None;
    }

    ghost function Objects(): set<object>
      reads this
    {
      (if update.Some? then {update.value} else {})
      + (if condition.Some? then {condition.value} else {})
      + (if projection.Some? then {projection.value} else {})
    }

    /** The held expressions in serialization order. */
    ghost function Slots(): (r: seq<Option<Part>>)
      reads this, Objects()
      ensures |r| == 3
    {
      [UpdateSlot(update), ConditionSlot(condition), ProjectionSlot(projection)]
    }

    method WithUpdate(expression: UpdateExpression)
      modifies this
      ensures update == Some(expression) && condition == old(condition) && projection == old(projection)
    {
      update := Some(expression);
    }

    method ClearUpdate()
      modifies this
      ensures update.None? && condition == old(condition) && projection == old(projection)
    {
      update := None;
    }

    method WithCondition(expression: ConditionExpression)
      modifies this
      ensures condition == Some(expression) && update == old(update) && projection == old(projection)
    {
      condition := Some(expression);
    }

    method ClearCondition()
      modifies this
      ensures condition.None? && update == old(update) && projection == old(projection)
    {
      condition := None;
    }

    method WithProjection(expression: ProjectionExpression)
      modifies this
      ensures projection == Some(expression) && update == old(update) && condition == old(condition)
    {
      projection := Some(expression);
    }

    method ClearProjection()
      modifies this
      ensures projection.None? && update == old(update) && condition == old(condition)
    {
      projection := None;
    }

    /**
     * `compile()`: the held expressions serialized against a fresh table, in
     * slot order; the first error stops. The three statements of the source
     * are the three turns of the loop, each handled by `SerializeHeld`.
     */
    method Compile() returns (r: Result<Built, ExpressionError>)
      ensures r == Build(old(Slots()))
    {
      ghost var slots := Slots();
      var attributes := new ExpressionAttributes();
      var texts: seq<Option<string>> := [];
      for k := 0 to 3
        invariant attributes.Valid() && fresh(attributes) && |texts| == k
        invariant SerializeSlots(slots, k, texts, attributes.State()) == SerializeSlots(slots, 0, [], Empty)
      {
        ghost var before := attributes.State();
        SlotsUnfold(slots, k, texts, before);
        var text := SerializeHeld(k, attributes, slots);
        if text.Err? {
          BuildError(slots, text.error);
          return Err(text.error);
        }
        texts := texts + [text.value];
      }
      var names := attributes.Names();
      var values := attributes.Values();
      r := Ok(Built(texts[0], texts[1], texts[2], names, values));
      BuiltFrom(slots, texts, attributes.State(), r);
    }

    /** Statement `k` of `compile`: the `k`-th held expression, if any, serialized on the shared table. */
    method SerializeHeld(k: nat, attributes: ExpressionAttributes, ghost slots: seq<Option<Part>>)
      returns (r: Result<Option<string>, ExpressionError>)
      requires attributes.Valid() && k < 3 && slots == Slots()
      modifies attributes
      ensures attributes.Valid()
      ensures (r, attributes.State()) == SerializeSlot(slots[k], old(attributes.State()))
    {
      if k == 0 {
        assert slots[0] == UpdateSlot(update);
        r := SerializeUpdateSlot(update, attributes);
      } else if k == 1 {
        assert slots[1] == ConditionSlot(condition);
        r := SerializeConditionSlot(condition, attributes);
      } else {
        assert slots[2] == ProjectionSlot(projection);
        r := SerializeProjectionSlot(projection, attributes);
      }
    }
  }

  lemma BuildError(slots: seq<Option<Part>>, e: ExpressionError)
    requires |slots| == 3 && SerializeSlots(slots, 0, [], Empty).0 == Err(e)
    ensures Build(slots) == Err(e)
  {
  }

  lemma BuiltFrom(slots: seq<Option<Part>>, texts: seq<Option<string>>, c: Context, r: Result<Built, ExpressionError>)
    requires |slots| == 3 && |texts| == 3 && SerializeSlots(slots, 3, texts, c) == SerializeSlots(slots, 0, [], Empty)
    requires r == Ok(Built(texts[0], texts[1], texts[2],
                           if |c.names| > 0 then Some(c.names) else None,
                           if |c.values| > 0 then Some(c.values) else None))
    ensures r == Build(slots)
  {
  }

  /** With nothing held, `compile` yields no texts and no tables. */
  lemma BuildNothing()
    ensures Build([None, None, None]) == Ok(Built(None, None, None, None, None))
  {
    SlotsAbsent([None, None, None], 0, [], Empty);
  }
}
