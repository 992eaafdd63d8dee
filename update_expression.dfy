/**
 * Update expressions (`SET #name0 = :value1 ADD #name2 :value3 REMOVE #name4`):
 * the four ordered directive collections the builder fills, and the
 * serializer that writes one clause per non-empty collection, always in
 * the order SET, ADD, DELETE, REMOVE.
 */
module UpdateExpressions {
  import opened Results
  import opened Text
  import opened AttributePaths
  import opened Operands
  import opened Attributes
  import opened FunctionExpressions
  import opened NumericExpressions
  import opened OrderedCollections

  /** The directives an update expression holds, each collection in insertion order. */
  datatype Directives = Directives(
    assignments: seq<(PathInput, Operand)>,   // SET path = value
    additions: seq<(PathInput, Operand)>,     // ADD path value
    deletions: seq<(PathInput, Operand)>,     // DELETE path value
    removals: seq<PathInput>)                 // REMOVE path

  const NoDirectives := Directives([], [], [], [])

  /** The step `increment` and `decrement` use when given none. */
  const DefaultStep: Operand := OValue(Num(1))

  /** `if_not_exists(path, value)`: the value only where the attribute is missing. */
  function IfNotExists(p: AttributePath, value: Operand): Operand {
    OFunction(FunctionExpression("if_not_exists", [OPath(p), value]))
  }

  /** `list_append(path, values)`: the list value appended to the attribute's list. */
  function ListAppend(p: AttributePath, values: seq<Value>): Operand {
    OFunction(FunctionExpression("list_append", [OPath(p), OValue(List(values))]))
  }

  /** The path as the left operand of `path + value`: a path object, or text scanned as a name. */
  function PathOperand(path: PathInput): Operand {
    match path
    case Literal(text) => OValue(Str(text))
    case Ref(p) => OPath(p)
  }

  // ---------------------------------------------------------------------
  // Serializing, as functions on the placeholder table
  // ---------------------------------------------------------------------

  datatype Verb = SetVerb | AddVerb | DeleteVerb

  function VerbText(verb: Verb): string {
    match verb
    case SetVerb => "SET"
    case AddVerb => "ADD"
    case DeleteVerb => "DELETE"
  }

  /** The error the right-hand side of an assignment throws: only arithmetic can fail. */
  function AssignedError(value: Operand): Option<ExpressionError> {
    if value.ONumeric? then NumericError(value.arithmetic) else None
  }

  /** The right-hand side of `path = value`: a call or arithmetic serialized in place, anything else a value. */
  function SerializeAssigned(value: Operand, c: Context): (r: (Result<string, ExpressionError>, Context))
    ensures c.Valid() ==> r.1.Valid() && Extends(c, r.1)
    ensures r.0.Err? <==> AssignedError(value).Some?
    ensures r.0.Err? ==> r.0.error == AssignedError(value).value
  {
    match value
    case OFunction(g) =>
      var (text, next) := SerializeFunction(g, c);
      (Ok(text), next)
    case ONumeric(e) => SerializeNumeric(e, c)
    case _ =>
      var (text, next) := c.AddValue(value);
      (Ok(text), next)
  }

  /** The error one directive throws: its path's text first, then its right-hand side. */
  function PhraseError(verb: Verb, entry: (PathInput, Operand)): Option<ExpressionError> {
    if PathInputError(entry.0).Some? then PathInputError(entry.0)
    else if verb == SetVerb then AssignedError(entry.1)
    else None
  }

  /** `path = value` for SET, `path value` for ADD and DELETE; the path's placeholder is taken first. */
  function SerializePhrase(verb: Verb, entry: (PathInput, Operand), c: Context)
    : (r: (Result<string, ExpressionError>, Context))
    ensures c.Valid() ==> r.1.Valid() && Extends(c, r.1)
    ensures r.0.Err? <==> PhraseError(verb, entry).Some?
    ensures r.0.Err? ==> r.0.error == PhraseError(verb, entry).value
  {
    var (name, c1) := SerializePath(entry.0, c);
    if name.Err? then (Err(name.error), c1)
    else if verb == SetVerb then
      var (value, c2) := SerializeAssigned(entry.1, c1);
      ExtendsChain(c, c1, c2);
      if value.Err? then (Err(value.error), c2) else (Ok(name.value + " = " + value.value), c2)
    else
      var (value, c2) := c1.AddValue(entry.1);
      ExtendsChain(c, c1, c2);
      (Ok(name.value + " " + value), c2)
  }

  /** The first error among the directives from position `i` on. */
  function PhrasesError(verb: Verb, entries: seq<(PathInput, Operand)>, i: nat): Option<ExpressionError>
    requires i <= |entries|
    decreases |entries| - i
  {
    if i == |entries| then None
    else if PhraseError(verb, entries[i]).Some? then PhraseError(verb, entries[i])
    else PhrasesError(verb, entries, i + 1)
  }

  /**
   * The walk over the directives from position `i` on, after the phrases
   * `parts` of the ones before: every phrase in order, or the first error,
   * which stops the walk.
   */
  function SerializePhrases(verb: Verb, entries: seq<(PathInput, Operand)>, i: nat, parts: seq<string>, c: Context)
    : (r: (Result<seq<string>, ExpressionError>, Context))
    requires i <= |entries|
    ensures c.Valid() ==> r.1.Valid() && Extends(c, r.1)
    ensures r.0.Ok? ==> |r.0.value| == |parts| + |entries| - i && r.0.value[..|parts|] == parts
    ensures r.0.Err? <==> PhrasesError(verb, entries, i).Some?
    ensures r.0.Err? ==> r.0.error == PhrasesError(verb, entries, i).value
    decreases |entries| - i
  {
    if i == |entries| then (Ok(parts), c)
    else
      var step := SerializePhrase(verb, entries[i], c);
      if step.0.Err? then (Err(step.0.error), step.1)
      else
        var r := SerializePhrases(verb, entries, i + 1, parts + [step.0.value], step.1);
        ExtendsChain(c, step.1, r.1);
        assert (parts + [step.0.value])[..|parts|] == parts;
        r
  }

  /** One step of the walk: the phrase at `i` either stops it with its error or is appended. */
  lemma PhrasesUnfold(verb: Verb, entries: seq<(PathInput, Operand)>, i: nat, parts: seq<string>, c: Context)
    requires i < |entries|
    ensures var step := SerializePhrase(verb, entries[i], c);
      SerializePhrases(verb, entries, i, parts, c)
      == if step.0.Err? then (Err(step.0.error), step.1)
         else SerializePhrases(verb, entries, i + 1, parts + [step.0.value], step.1)
  {
  }

  /** A clause keyword and its phrases, or no clause at all when there are none. */
  function Clause(keyword: string, phrases: seq<string>): (r: seq<string>)
    ensures |r| <= 1
    ensures r == [] <==> phrases == []
  {
    if |phrases| == 0 then [] else [keyword + " " + Join(", ", phrases)]
  }

  /** The error serializing the directives throws: SET first, then ADD, DELETE and REMOVE. */
  function UpdateError(d: Directives): Option<ExpressionError> {
    var setting := PhrasesError(SetVerb, d.assignments, 0);
    var added := PhrasesError(AddVerb, d.additions, 0);
    var deleted := PhrasesError(DeleteVerb, d.deletions, 0);
    if setting.Some? then setting
    else if added.Some? then added
    else if deleted.Some? then deleted
    else PathListError(d.removals, 0)
  }

  /** The clauses joined by spaces; the error of the first directive that throws otherwise. */
  function SerializeUpdate(d: Directives, c: Context): (r: (Result<string, ExpressionError>, Context))
    ensures c.Valid() ==> r.1.Valid() && Extends(c, r.1)
    ensures r.0.Err? <==> UpdateError(d).Some?
    ensures r.0.Err? ==> r.0.error == UpdateError(d).value
  {
    var (setting, c1) := SerializePhrases(SetVerb, d.assignments, 0, [], c);
    if setting.Err? then (Err(setting.error), c1)
    else
      var (added, c2) := SerializePhrases(AddVerb, d.additions, 0, [], c1);
      ExtendsChain(c, c1, c2);
      if added.Err? then (Err(added.error), c2)
      else
        var (deleted, c3) := SerializePhrases(DeleteVerb, d.deletions, 0, [], c2);
        ExtendsChain(c, c2, c3);
        if deleted.Err? then (Err(deleted.error), c3)
        else
          var (removed, c4) := SerializePathList(d.removals, 0, [], c3);
          ExtendsChain(c, c3, c4);
          if removed.Err? then (Err(removed.error), c4)
          else
            (Ok(Join(" ", Clause("SET", setting.value) + Clause("ADD", added.value)
                          + Clause("DELETE", deleted.value) + Clause("REMOVE", removed.value))), c4)
  }

  // ---------------------------------------------------------------------
  // Properties
  // ---------------------------------------------------------------------

  /** Non-empty parts joined are non-empty. */
  lemma {:induction false} JoinNonEmpty(separator: string, parts: seq<string>)
    requires parts != [] && parts[|parts| - 1] != ""
    ensures Join(separator, parts) != ""
  {
  }

  /** A clause is never the empty text. */
  lemma ClauseNonEmpty(keyword: string, phrases: seq<string>)
    requires keyword != ""
    ensures forall k :: 0 <= k < |Clause(keyword, phrases)| ==> Clause(keyword, phrases)[k] != ""
  {
  }

  /** A `SET` directive whose path and value both serialize is `path = value`, the path's placeholder taken first. */
  lemma SetPhraseText(path: PathInput, value: Operand, c: Context)
    requires PathInputError(path).None? && AssignedError(value).None?
    ensures var (name, mid) := SerializePath(path, c);
      var (text, next) := SerializeAssigned(value, mid);
      name.Ok? && text.Ok?
      && SerializePhrase(SetVerb, (path, value), c) == (Ok(name.value + " = " + text.value), next)
  {
  }

  /** An `ADD` or `DELETE` directive whose path serializes is `path value`, the value registered after the path. */
  lemma KeyedPhraseText(verb: Verb, path: PathInput, value: Operand, c: Context)
    requires verb != SetVerb && PathInputError(path).None?
    ensures var (name, mid) := SerializePath(path, c);
      var (placeholder, next) := mid.AddValue(value);
      name.Ok? && SerializePhrase(verb, (path, value), c) == (Ok(name.value + " " + placeholder), next)
  {
  }

  /**
   * Without an error, the update is its clauses in the order `SET`, `ADD`,
   * `DELETE`, `REMOVE`, joined by spaces; each collection is serialized over
   * the table the collections before it left.
   */
  lemma UpdateClauses(d: Directives, c: Context)
    requires UpdateError(d).None?
    ensures var (setting, c1) := SerializePhrases(SetVerb, d.assignments, 0, [], c);
      var (added, c2) := SerializePhrases(AddVerb, d.additions, 0, [], c1);
      var (deleted, c3) := SerializePhrases(DeleteVerb, d.deletions, 0, [], c2);
      var (removed, c4) := SerializePathList(d.removals, 0, [], c3);
      setting.Ok? && added.Ok? && deleted.Ok? && removed.Ok?
      && SerializeUpdate(d, c)
         == (Ok(Join(" ", Clause("SET", setting.value) + Clause("ADD", added.value)
                          + Clause("DELETE", deleted.value) + Clause("REMOVE", removed.value))), c4)
  {
  }

  /** An update with no directives at all serializes to the empty text and adds nothing to the table. */
  lemma NoDirectivesSerializeEmpty(c: Context)
    ensures SerializeUpdate(NoDirectives, c) == (Ok(""), c)
  {
    assert Clause("SET", []) + Clause("ADD", []) + Clause("DELETE", []) + Clause("REMOVE", []) == [];
  }

  /** A successful serialization is empty exactly when there are no directives. */
  lemma {:induction false} SerializedEmptyIff(d: Directives, c: Context)
    requires SerializeUpdate(d, c).0.Ok?
    ensures SerializeUpdate(d, c).0.value == "" <==> d == NoDirectives
  {
    var (setting, c1) := SerializePhrases(SetVerb, d.assignments, 0, [], c);
    var (added, c2) := SerializePhrases(AddVerb, d.additions, 0, [], c1);
    var (deleted, c3) := SerializePhrases(DeleteVerb, d.deletions, 0, [], c2);
    var (removed, c4) := SerializePathList(d.removals, 0, [], c3);
    var clauses := Clause("SET", setting.value) + Clause("ADD", added.value)
                   + Clause("DELETE", deleted.value) + Clause("REMOVE", removed.value);
    assert SerializeUpdate(d, c).0.value == Join(" ", clauses);
    if d == NoDirectives {
      NoDirectivesSerializeEmpty(c);
    } else {
      assert clauses != [];
      ClauseNonEmpty("SET", setting.value);
      ClauseNonEmpty("ADD", added.value);
      ClauseNonEmpty("DELETE", deleted.value);
      ClauseNonEmpty("REMOVE", removed.value);
      assert clauses[|clauses| - 1] != "";
      JoinNonEmpty(" ", clauses);
    }
  }

  // ---------------------------------------------------------------------
  // The builder and the serializer on the object form of the table
  // ---------------------------------------------------------------------

  class UpdateExpression {
    var assignments: seq<(PathInput, Operand)>
    var additions: seq<(PathInput, Operand)>
    var deletions: seq<(PathInput, Operand)>
    var removals: seq<PathInput>

    ghost function State(): Directives
      reads this
    {
      Directives(assignments, additions, deletions, removals)
    }

    /** Every collection keyed by distinct paths, as a map or set keeps them. */
    ghost predicate Valid()
      reads this
    {
      Distinct(Keys(assignments)) && Distinct(Keys(additions)) && Distinct(Keys(deletions)) && Distinct(removals)
    }

    constructor ()
      ensures State() == NoDirectives && Valid()
    {
      assignments, additions, deletions, removals := [], [], [], [];
    }

    /**
     * `set(path, value, overwrite)`: nothing for an undefined value; the value
     * itself when overwriting; otherwise `if_not_exists(path, value)`, whose
     * path object is made from text here, so text that does not scan fails now.
     */
    method Set(path: PathInput, value: Option<Operand>, overwrite: bool) returns (r: Outcome<PathError>)
      requires Valid()
      modifies this
      ensures Valid()
      ensures value.None? ==> r == Pass && State() == old(State())
      ensures value.Some? && overwrite ==>
        r == Pass && State() == old(State()).(assignments := Put(old(assignments), path, value.value))
      ensures value.Some? && !overwrite ==>
        (r.Fail? <==> Elements(path).Err?)
      ensures r.Fail? ==> r.error == Elements(path).error && State() == old(State())
      ensures value.Some? && !overwrite && r.Pass? ==>
        exists p: AttributePath :: p.elements == Elements(path).value
          && State() == old(State()).(assignments := Put(old(assignments), path, IfNotExists(p, value.value)))
    {
      if value.None? {
        return Pass;
      }
      if overwrite {
        PutDistinct(assignments, path, value.value);
        assignments := Put(assignments, path, value.value);
        return Pass;
      }
      var wrapped := AttributePath.Wrap(path);
      if wrapped.Err? {
        return Fail(wrapped.error);
      }
      PutDistinct(assignments, path, IfNotExists(wrapped.value, value.value));
      assignments := Put(assignments, path, IfNotExists(wrapped.value, value.value));
      return Pass;
    }

    /** `append(path, values)`: `list_append(path, values)`, the path object made from text here. */
    method Append(path: PathInput, values: seq<Value>) returns (r: Outcome<PathError>)
      requires Valid()
      modifies this
      ensures Valid()
      ensures r.Fail? <==> Elements(path).Err?
      ensures r.Fail? ==> r.error == Elements(path).error && State() == old(State())
      ensures r.Pass? ==>
        exists p: AttributePath :: p.elements == Elements(path).value
          && State() == old(State()).(assignments := Put(old(assignments), path, ListAppend(p, values)))
    {
      var wrapped := AttributePath.Wrap(path);
      if wrapped.Err? {
        return Fail(wrapped.error);
      }
      PutDistinct(assignments, path, ListAppend(wrapped.value, values));
      assignments := Put(assignments, path, ListAppend(wrapped.value, values));
      return Pass;
    }

    /** `increment(path, value)`: `path + value` (the caller passes `DefaultStep` for the default). */
    method Increment(path: PathInput, value: Operand)
      requires Valid()
      modifies this
      ensures Valid()
      ensures State() == old(State()).(assignments :=
        Put(old(assignments), path, ONumeric(NumericExpression(PathOperand(path), Plus, value))))
    {
      PutDistinct(assignments, path, ONumeric(NumericExpression(PathOperand(path), Plus, value)));
      assignments := Put(assignments, path, ONumeric(NumericExpression(PathOperand(path), Plus, value)));
    }

    /** `decrement(path, value)`: `path - value`. */
    method Decrement(path: PathInput, value: Operand)
      requires Valid()
      modifies this
      ensures Valid()
      ensures State() == old(State()).(assignments :=
        Put(old(assignments), path, ONumeric(NumericExpression(PathOperand(path), Minus, value))))
    {
      PutDistinct(assignments, path, ONumeric(NumericExpression(PathOperand(path), Minus, value)));
      assignments := Put(assignments, path, ONumeric(NumericExpression(PathOperand(path), Minus, value)));
    }

    /** `add(path, value)`: nothing for an undefined value. */
    method Add(path: PathInput, value: Option<Operand>)
      requires Valid()
      modifies this
      ensures Valid()
      ensures value.None? ==> State() == old(State())
      ensures value.Some? ==> State() == old(State()).(additions := Put(old(additions), path, value.value))
    {
      if value.Some? {
        PutDistinct(additions, path, value.value);
        additions := Put(additions, path, value.value);
      }
    }

    /** `delete(path, value)`: nothing for an undefined value. */
    method Delete(path: PathInput, value: Option<Operand>)
      requires Valid()
      modifies this
      ensures Valid()
      ensures value.None? ==> State() == old(State())
      ensures value.Some? ==> State() == old(State()).(deletions := Put(old(deletions), path, value.value))
    {
      if value.Some? {
        PutDistinct(deletions, path, value.value);
        deletions := Put(deletions, path, value.value);
      }
    }

    /** `remove(path)`: a path removed twice is listed once. */
    method Remove(path: PathInput)
      requires Valid()
      modifies this
      ensures Valid()
      ensures State() == old(State()).(removals := Insert(old(removals), path))
    {
      InsertDistinct(removals, path);
      removals := Insert(removals, path);
    }

    /** `serialize(attributes)`: the clauses, each collection walked in insertion order. */
    method Serialize(attributes: ExpressionAttributes) returns (r: Result<string, ExpressionError>)
      requires attributes.Valid()
      modifies attributes
      ensures attributes.Valid()
      ensures (r, attributes.State()) == SerializeUpdate(State(), old(attributes.State()))
    {
      var setting := SerializeEntries(SetVerb, assignments, attributes);
      if setting.Err? {
        return Err(setting.error);
      }
      var added := SerializeEntries(AddVerb, additions, attributes);
      if added.Err? {
        return Err(added.error);
      }
      var deleted := SerializeEntries(DeleteVerb, deletions, attributes);
      if deleted.Err? {
        return Err(deleted.error);
      }
      var removed := SerializePathNames(removals, attributes);
      if removed.Err? {
        return Err(removed.error);
      }
      var clauses := Clause("SET", setting.value) + Clause("ADD", added.value)
                     + Clause("DELETE", deleted.value) + Clause("REMOVE", removed.value);
      return Ok(Join(" ", clauses));
    }

    /** The phrases of one collection, stopping at the first that throws. */
    static method SerializeEntries(verb: Verb, entries: seq<(PathInput, Operand)>, attributes: ExpressionAttributes)
      returns (r: Result<seq<string>, ExpressionError>)
      requires attributes.Valid()
      modifies attributes
      ensures attributes.Valid()
      ensures (r, attributes.State()) == SerializePhrases(verb, entries, 0, [], old(attributes.State()))
    {
      var phrases: seq<string> := [];
      for i := 0 to |entries|
        invariant attributes.Valid()
        invariant SerializePhrases(verb, entries, i, phrases, attributes.State())
               == SerializePhrases(verb, entries, 0, [], old(attributes.State()))
      {
        PhrasesUnfold(verb, entries, i, phrases, attributes.State());
        var phrase := SerializeEntry(verb, entries[i], attributes);
        if phrase.Err? {
          return Err(phrase.error);
        }
        phrases := phrases + [phrase.value];
      }
      return Ok(phrases);
    }

    /** One directive's phrase. */
    static method SerializeEntry(verb: Verb, entry: (PathInput, Operand), attributes: ExpressionAttributes)
      returns (r: Result<string, ExpressionError>)
      requires attributes.Valid()
      modifies attributes
      ensures attributes.Valid()
      ensures (r, attributes.State()) == SerializePhrase(verb, entry, old(attributes.State()))
    {
      var name := SerializePathName(entry.0, attributes);
      if name.Err? {
        return Err(name.error);
      }
      if verb == SetVerb {
        var value := SerializeValue(entry.1, attributes);
        if value.Err? {
          return Err(value.error);
        }
        return Ok(name.value + " = " + value.value);
      }
      var value := attributes.AddValue(entry.1);
      return Ok(name.value + " " + value);
    }

    /** An assignment's right-hand side. */
    static method SerializeValue(value: Operand, attributes: ExpressionAttributes)
      returns (r: Result<string, ExpressionError>)
      requires attributes.Valid()
      modifies attributes
      ensures attributes.Valid()
      ensures (r, attributes.State()) == SerializeAssigned(value, old(attributes.State()))
    {
      if value.OFunction? {
        var text := FunctionExpressions.Serialize(value.call, attributes);
        return Ok(text);
      } else if value.ONumeric? {
        r := NumericExpressions.Serialize(value.arithmetic, attributes);
      } else {
        var text := attributes.AddValue(value);
        return Ok(text);
      }
    }
  }
}
