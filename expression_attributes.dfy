/**
 * The placeholder table shared by all expressions of one request: every
 * attribute name is replaced by `#nameN` and every value by `:valueN`,
 * with one counter numbering both, and a name seen before reusing its
 * placeholder.
 */
module Attributes {
  import opened Results
  import opened Text
  import opened AttributePaths
  import opened Operands

  function NamePlaceholder(k: nat): string { "#name" + DecimalDigits(k) }

  function ValuePlaceholder(k: nat): string { ":value" + DecimalDigits(k) }

  /** The number a name placeholder carries (meaningless for other strings). */
  function NameNumber(p: string): nat { if |p| >= 5 then DecimalValue(p[5..]) else 0 }

  function ValueNumber(p: string): nat { if |p| >= 6 then DecimalValue(p[6..]) else 0 }

  lemma NameNumberOf(k: nat)
    ensures NameNumber(NamePlaceholder(k)) == k && StartsWith(NamePlaceholder(k), "#name")
    ensures IsDigits(NamePlaceholder(k)[5..])
  {
    assert NamePlaceholder(k)[..5] == "#name";
    assert NamePlaceholder(k)[5..] == DecimalDigits(k);
    DecimalRoundTrip(k);
  }

  lemma ValueNumberOf(k: nat)
    ensures ValueNumber(ValuePlaceholder(k)) == k && StartsWith(ValuePlaceholder(k), ":value")
  {
    assert ValuePlaceholder(k)[..6] == ":value";
    assert ValuePlaceholder(k)[6..] == DecimalDigits(k);
    DecimalRoundTrip(k);
  }

  /** `p` has the form of a name placeholder numbered below `bound`. */
  predicate NameIssuedBelow(p: string, bound: nat) {
    StartsWith(p, "#name") && IsDigits(p[5..]) && NameNumber(p) < bound
  }

  /** `p` has the form of a value placeholder numbered below `bound`. */
  predicate ValueIssuedBelow(p: string, bound: nat) {
    StartsWith(p, ":value") && ValueNumber(p) < bound
  }

  /** The path with every name replaced by its placeholder. */
  function Substitute(elements: seq<PathElement>, substitutions: map<string, string>): (r: seq<PathElement>)
    ensures |r| == |elements|
  {
    if elements == [] then []
    else
      var last := elements[|elements| - 1];
      Substitute(elements[..|elements| - 1], substitutions)
        + [if last.Name? && last.name in substitutions then Name(substitutions[last.name]) else last]
  }

  /** The names a path mentions. */
  function NamesOf(elements: seq<PathElement>): set<string> {
    set i | 0 <= i < |elements| && elements[i].Name? :: elements[i].name
  }

  /** The state of an `ExpressionAttributes` object. */
  datatype Context = Context(names: map<string, string>, values: map<string, Operand>,
                             substitutions: map<string, string>, counter: nat)
  {
    /**
     * Names and substitutions are inverse tables, every placeholder was
     * issued below the counter, and each issued number went to exactly
     * one name or one value.
     */
    ghost predicate Valid() {
      && (forall n :: n in substitutions ==> substitutions[n] in names && names[substitutions[n]] == n)
      && (forall p :: p in names ==> names[p] in substitutions && substitutions[names[p]] == p)
      && (forall p :: p in names ==> NameIssuedBelow(p, counter))
      && (forall p :: p in values ==> ValueIssuedBelow(p, counter))
      && |names| == |substitutions|
      && counter == |substitutions| + |values|
    }

    /** One name of a path: its cached placeholder, or a fresh one. */
    function Intern(name: string): (r: (string, Context))
      ensures Valid() ==> r.1.Valid()
      ensures name in r.1.substitutions && r.0 == r.1.substitutions[name] && r.0 in r.1.names && r.1.names[r.0] == name
      ensures Valid() && name in substitutions ==> r == (substitutions[name], this)
      ensures name !in substitutions ==>
        && r.0 == NamePlaceholder(counter) && r.1.counter == counter + 1
        && (Valid() ==> r.0 !in names)
      ensures Extends(this, r.1) && r.1.values == values
    {
      if name in substitutions then
        var p := substitutions[name];
        var next := this.(names := names[p := name]);
        CachedNameKeepsContext(this, name);
        (p, next)
      else
        var p := NamePlaceholder(counter);
        var next := this.(substitutions := substitutions[name := p], names := names[p := name], counter := counter + 1);
        FreshName(this, p);
        NewNameValid(this, name, p, next);
        (p, next)
    }

    /** The walk over a path's elements: `.placeholder` per name, `[k]` per index. */
    function AddElements(elements: seq<PathElement>): (r: (string, Context))
      ensures Valid() ==> r.1.Valid()
      ensures Extends(this, r.1) && r.1.values == values
      ensures NamesOf(elements) <= r.1.substitutions.Keys
      ensures r.1.substitutions.Keys == substitutions.Keys + NamesOf(elements)
    {
      if elements == [] then ("", this)
      else
        var init := elements[..|elements| - 1];
        var (output, c) := AddElements(init);
        NamesOfSnoc(elements);
        match elements[|elements| - 1]
        case Name(n) =>
          var (p, c2) := c.Intern(n);
          ExtendsChain(this, c, c2);
          (output + [PathDelimiter] + p, c2)
        case Index(k) => (output + [LeftBracket] + DecimalDigits(k) + [RightBracket], c)
    }

    /** `addName` on the elements of a path: the walk without its leading `.`. */
    function AddName(elements: seq<PathElement>): (string, Context) {
      var (output, c) := AddElements(elements);
      (DropFirst(output), c)
    }

    /** `addValue`: a fresh `:valueN` bound to the value. */
    function AddValue(value: Operand): (r: (string, Context))
      ensures r.0 == ValuePlaceholder(counter) && r.1.values == values[r.0 := value]
      ensures Valid() ==> r.0 !in values && r.1.Valid() && |r.1.values| == |values| + 1
      ensures Valid() ==> Extends(this, r.1)
      ensures r.1.counter == counter + 1 && r.1.names == names && r.1.substitutions == substitutions
    {
      var p := ValuePlaceholder(counter);
      var next := this.(values := values[p := value], counter := counter + 1);
      NewValueValid(this, p, value, next);
      (p, next)
    }
  }

  /** One step of the walk: a name gets its placeholder, an index is written as it is. */
  function WalkStep(acc: (string, Context), e: PathElement): (string, Context) {
    match e
    case Name(n) =>
      var (p, c2) := acc.1.Intern(n);
      (acc.0 + [PathDelimiter] + p, c2)
    case Index(k) => (acc.0 + [LeftBracket] + DecimalDigits(k) + [RightBracket], acc.1)
  }

  lemma AddElementsSnoc(c: Context, elements: seq<PathElement>, i: nat)
    requires i < |elements|
    ensures c.AddElements(elements[..i + 1]) == WalkStep(c.AddElements(elements[..i]), elements[i])
  {
    assert elements[..i + 1][..i] == elements[..i];
  }

  /** The empty table a serialization starts from. */
  const Empty: Context := Context(map[], map[], map[], 0)

  lemma EmptyValid()
    ensures Empty.Valid()
  {
  }

  /** Entries only ever get added, and the counter never goes back. */
  ghost predicate Extends(a: Context, b: Context) {
    && a.names.Keys <= b.names.Keys
    && (forall p :: p in a.substitutions ==> p in b.substitutions && b.substitutions[p] == a.substitutions[p])
    && (forall p :: p in a.values ==> p in b.values && b.values[p] == a.values[p])
    && a.counter <= b.counter
  }

  /** Two steps that each only add entries only add entries (in the form serializers chain their steps). */
  lemma ExtendsChain(a: Context, b: Context, c: Context)
    ensures Extends(a, b) && Extends(b, c) ==> Extends(a, c)
  {
  }

  lemma FreshName(c: Context, p: string)
    requires p == NamePlaceholder(c.counter)
    ensures NameNumber(p) == c.counter && StartsWith(p, "#name") && IsDigits(p[5..])
    ensures c.Valid() ==> p !in c.names
  {
    NameNumberOf(c.counter);
  }

  lemma FreshValue(c: Context, p: string)
    requires p == ValuePlaceholder(c.counter)
    ensures ValueNumber(p) == c.counter && StartsWith(p, ":value")
    ensures c.Valid() ==> p !in c.values
  {
    ValueNumberOf(c.counter);
  }

  lemma CachedNameKeepsContext(c: Context, name: string)
    requires name in c.substitutions
    ensures c.Valid() ==> c.(names := c.names[c.substitutions[name] := name]) == c
  {
    if c.Valid() {
      assert c.names[c.substitutions[name] := name] == c.names;
    }
  }

  lemma NewNameValid(c: Context, name: string, p: string, next: Context)
    requires name !in c.substitutions && p == NamePlaceholder(c.counter)
    requires next == c.(substitutions := c.substitutions[name := p], names := c.names[p := name], counter := c.counter + 1)
    ensures c.Valid() ==> next.Valid()
  {
    if c.Valid() {
      FreshName(c, p);
      NewNameSubstitutions(c, name, p, next);
      NewNameNames(c, name, p, next);
      NewNameIssued(c, name, p, next);
      assert |next.names| == |c.names| + 1;
      assert |next.substitutions| == |c.substitutions| + 1;
    }
  }

  lemma NewNameIssued(c: Context, name: string, p: string, next: Context)
    requires c.Valid() && p == NamePlaceholder(c.counter)
    requires next == c.(substitutions := c.substitutions[name := p], names := c.names[p := name], counter := c.counter + 1)
    ensures forall q :: q in next.names ==> NameIssuedBelow(q, next.counter)
    ensures forall q :: q in next.values ==> ValueIssuedBelow(q, next.counter)
  {
    FreshName(c, p);
    forall q | q in next.names ensures NameIssuedBelow(q, next.counter) {
      if q != p {
        assert NameIssuedBelow(q, c.counter);
      }
    }
    forall q | q in next.values ensures ValueIssuedBelow(q, next.counter) {
      assert ValueIssuedBelow(q, c.counter);
    }
  }

  lemma NewValueValid(c: Context, p: string, value: Operand, next: Context)
    requires p == ValuePlaceholder(c.counter)
    requires next == c.(values := c.values[p := value], counter := c.counter + 1)
    ensures c.Valid() ==> p !in c.values && next.Valid() && |next.values| == |c.values| + 1 && Extends(c, next)
  {
    FreshValue(c, p);
    if c.Valid() {
      forall q | q in next.names ensures NameIssuedBelow(q, next.counter) {
        assert NameIssuedBelow(q, c.counter);
      }
      forall q | q in next.values ensures ValueIssuedBelow(q, next.counter) {
        if q != p {
          assert ValueIssuedBelow(q, c.counter);
        }
      }
      assert |next.values| == |c.values| + 1;
    }
  }

  lemma NewNameSubstitutions(c: Context, name: string, p: string, next: Context)
    requires c.Valid() && name !in c.substitutions && p !in c.names
    requires next == c.(substitutions := c.substitutions[name := p], names := c.names[p := name], counter := c.counter + 1)
    ensures forall n :: n in next.substitutions ==> next.substitutions[n] in next.names && next.names[next.substitutions[n]] == n
  {
    forall n | n in next.substitutions
      ensures next.substitutions[n] in next.names && next.names[next.substitutions[n]] == n
    {
      if n != name {
        assert c.substitutions[n] in c.names;
      }
    }
  }

  lemma NewNameNames(c: Context, name: string, p: string, next: Context)
    requires c.Valid() && name !in c.substitutions && p !in c.names
    requires next == c.(substitutions := c.substitutions[name := p], names := c.names[p := name], counter := c.counter + 1)
    ensures forall q :: q in next.names ==> next.names[q] in next.substitutions && next.substitutions[next.names[q]] == q
  {
    forall q | q in next.names
      ensures next.names[q] in next.substitutions && next.substitutions[next.names[q]] == q
    {
      if q != p {
        assert c.names[q] in c.substitutions;
      }
    }
  }

  // ---------------------------------------------------------------------
  // What `addName` writes, and that asking twice changes nothing.
  // ---------------------------------------------------------------------

  /** The walk's text for a path under a fixed substitution table. */
  function Render(elements: seq<PathElement>, substitutions: map<string, string>): string {
    if elements == [] then ""
    else
      var prefix := Render(elements[..|elements| - 1], substitutions);
      match elements[|elements| - 1]
      case Name(n) => prefix + [PathDelimiter] + (if n in substitutions then substitutions[n] else "")
      case Index(k) => prefix + [LeftBracket] + DecimalDigits(k) + [RightBracket]
  }

  /** The names of a path are those of all but its last step, plus the last step's name. */
  lemma NamesOfSnoc(elements: seq<PathElement>)
    requires |elements| > 0
    ensures var last := elements[|elements| - 1];
      NamesOf(elements) == NamesOf(elements[..|elements| - 1]) + (if last.Name? then {last.name} else {})
  {
    var init := elements[..|elements| - 1];
    var last := elements[|elements| - 1];
    forall n | n in NamesOf(elements)
      ensures n in NamesOf(init) + (if last.Name? then {last.name} else {})
    {
      var i :| 0 <= i < |elements| && elements[i].Name? && elements[i].name == n;
      if i < |init| {
        assert init[i] == elements[i];
      }
    }
    NamesOfPrefix(elements);
  }

  lemma NamesOfPrefix(elements: seq<PathElement>)
    requires |elements| > 0
    ensures NamesOf(elements[..|elements| - 1]) <= NamesOf(elements)
  {
    var init := elements[..|elements| - 1];
    forall n | n in NamesOf(init) ensures n in NamesOf(elements) {
      var i :| 0 <= i < |init| && init[i].Name? && init[i].name == n;
      assert elements[i] == init[i];
    }
  }

  lemma {:induction false} RenderStable(elements: seq<PathElement>, small: map<string, string>,
                                        large: map<string, string>)
    requires NamesOf(elements) <= small.Keys
    requires forall n :: n in small ==> n in large && large[n] == small[n]
    ensures Render(elements, small) == Render(elements, large)
  {
    if elements != [] {
      NamesOfPrefix(elements);
      RenderStable(elements[..|elements| - 1], small, large);
      var last := elements[|elements| - 1];
      if last.Name? {
        assert last.name in NamesOf(elements);
      }
    }
  }

  /** The walk writes the path under the substitution table it ends with. */
  lemma {:induction false} AddElementsRender(c: Context, elements: seq<PathElement>)
    ensures c.AddElements(elements).0 == Render(elements, c.AddElements(elements).1.substitutions)
  {
    if elements != [] {
      var init := elements[..|elements| - 1];
      AddElementsRender(c, init);
      var (output, c1) := c.AddElements(init);
      match elements[|elements| - 1]
      case Name(n) =>
        var (p, c2) := c1.Intern(n);
        RenderStable(init, c1.substitutions, c2.substitutions);
      case Index(_) =>
    }
  }

  /** With every name of the path already known, the walk leaves the table as it is. */
  lemma {:induction false} AddElementsKnown(c: Context, elements: seq<PathElement>)
    requires c.Valid() && NamesOf(elements) <= c.substitutions.Keys
    ensures c.AddElements(elements).1 == c
  {
    if elements != [] {
      NamesOfPrefix(elements);
      AddElementsKnown(c, elements[..|elements| - 1]);
      var last := elements[|elements| - 1];
      if last.Name? {
        assert last.name in NamesOf(elements);
      }
    }
  }

  /** Adding the same path twice gives the same text and changes nothing the second time. */
  lemma AddNameIdempotent(c: Context, elements: seq<PathElement>)
    requires c.Valid()
    ensures c.AddName(elements).1.AddName(elements) == c.AddName(elements)
  {
    var c1 := c.AddElements(elements).1;
    AddElementsKnown(c1, elements);
    AddElementsRender(c, elements);
    AddElementsRender(c1, elements);
  }

  /**
   * A path named once keeps its placeholder text for the rest of the table's
   * life: naming it again after any further additions gives the same text
   * and adds nothing. This is what sharing one table across the expressions
   * of a request relies on.
   */
  lemma AddNameShared(c: Context, later: Context, elements: seq<PathElement>)
    requires c.Valid() && later.Valid() && Extends(c.AddName(elements).1, later)
    ensures later.AddName(elements) == (c.AddName(elements).0, later)
  {
    var c1 := c.AddElements(elements).1;
    AddElementsKnown(later, elements);
    AddElementsRender(c, elements);
    AddElementsRender(later, elements);
    RenderStable(elements, c1.substitutions, later.substitutions);
  }

  /** The counter moves by exactly the number of names not seen before. */
  lemma AddNameCounter(c: Context, elements: seq<PathElement>)
    requires c.Valid()
    ensures c.AddName(elements).1.counter == c.counter + |NamesOf(elements) - c.substitutions.Keys|
  {
    var c1 := c.AddElements(elements).1;
    var known := c.substitutions.Keys;
    var added := NamesOf(elements) - known;
    assert c1.substitutions.Keys == known + added;
    assert known !! added;
    assert |c1.substitutions.Keys| == |c1.substitutions|;
    assert |known| == |c.substitutions|;
  }

  /** A placeholder issued by a valid table is `#name` and digits: nothing a backslash escapes. */
  lemma PlaceholderUnescaped(c: Context, p: string)
    requires c.Valid() && p in c.names
    ensures EscapeName(p) == p && p != ""
  {
    assert NameIssuedBelow(p, c.counter);
    assert p == "#name" + p[5..];
    EscapeIdentity(p);
  }

  lemma {:induction false} EscapeIdentity(s: string)
    requires forall i :: 0 <= i < |s| ==> IsAlphanumeric(s[i]) || s[i] == '#'
    ensures EscapeName(s) == s
  {
    if s != "" {
      EscapeIdentity(s[1..]);
      assert [s[0]] + s[1..] == s;
    }
  }

  /** Substituting valid placeholders for the names keeps a path valid. */
  lemma SubstituteValid(c: Context, elements: seq<PathElement>)
    requires c.Valid() && ValidElements(elements)
    requires NamesOf(elements) <= c.substitutions.Keys
    ensures ValidElements(Substitute(elements, c.substitutions))
  {
    var s := Substitute(elements, c.substitutions);
    forall i | 0 <= i < |s| && s[i].Name? ensures s[i].name != "" {
      SubstituteAt(elements, c.substitutions, i);
      if elements[i].Name? {
        assert elements[i].name in NamesOf(elements);
        PlaceholderUnescaped(c, c.substitutions[elements[i].name]);
      }
    }
    if |s| > 0 {
      SubstituteAt(elements, c.substitutions, 0);
    }
  }

  lemma {:induction false} SubstituteAt(elements: seq<PathElement>, substitutions: map<string, string>, i: nat)
    requires i < |elements|
    ensures Substitute(elements, substitutions)[i]
         == if elements[i].Name? && elements[i].name in substitutions then Name(substitutions[elements[i].name]) else elements[i]
  {
    if i < |elements| - 1 {
      SubstituteAt(elements[..|elements| - 1], substitutions, i);
    }
  }

  /** What the last step of a path adds to its text, given the step's own text. */
  function StepText(last: PathElement, tail: string): string {
    if last.Name? then [PathDelimiter] + tail else [LeftBracket] + tail + [RightBracket]
  }

  /** The text of the last step: its placeholder (which needs no escape) or its index digits. */
  predicate LastStepText(subs: map<string, string>, last: PathElement, tail: string) {
    if last.Name? then last.name in subs && tail == subs[last.name] && EscapeName(tail) == tail
    else tail == DecimalDigits(last.index)
  }

  lemma RenderSnoc(subs: map<string, string>, elements: seq<PathElement>, tail: string)
    requires |elements| > 1 && LastStepText(subs, elements[|elements| - 1], tail)
    ensures Render(elements, subs) == Render(elements[..|elements| - 1], subs) + StepText(elements[|elements| - 1], tail)
  {
  }

  lemma SubstituteSnoc(subs: map<string, string>, elements: seq<PathElement>)
    requires |elements| > 0
    ensures var last := elements[|elements| - 1];
      Substitute(elements, subs)
        == Substitute(elements[..|elements| - 1], subs)
         + [if last.Name? && last.name in subs then Name(subs[last.name]) else last]
  {
  }

  lemma UnparseSubstituteSnoc(subs: map<string, string>, elements: seq<PathElement>, tail: string)
    requires |elements| > 1 && LastStepText(subs, elements[|elements| - 1], tail)
    ensures Unparse(Substitute(elements, subs))
         == Unparse(Substitute(elements[..|elements| - 1], subs)) + StepText(elements[|elements| - 1], tail)
  {
    var last := elements[|elements| - 1];
    var si := Substitute(elements[..|elements| - 1], subs);
    var sl := if last.Name? then Name(tail) else last;
    SubstituteSnoc(subs, elements);
    UnparseSnoc(si, sl);
  }

  lemma RenderUnparseStep(subs: map<string, string>, elements: seq<PathElement>, tail: string)
    requires |elements| > 1 && LastStepText(subs, elements[|elements| - 1], tail)
    requires Render(elements[..|elements| - 1], subs) == [PathDelimiter] + Unparse(Substitute(elements[..|elements| - 1], subs))
    ensures Render(elements, subs) == [PathDelimiter] + Unparse(Substitute(elements, subs))
  {
    var step := StepText(elements[|elements| - 1], tail);
    RenderSnoc(subs, elements, tail);
    UnparseSubstituteSnoc(subs, elements, tail);
    ConcatAssociative([PathDelimiter], Unparse(Substitute(elements[..|elements| - 1], subs)), step);
  }

  lemma {:induction false} RenderUnparse(c: Context, elements: seq<PathElement>)
    requires c.Valid() && ValidElements(elements) && |elements| > 0
    requires NamesOf(elements) <= c.substitutions.Keys
    ensures Render(elements, c.substitutions) == [PathDelimiter] + Unparse(Substitute(elements, c.substitutions))
  {
    var subs := c.substitutions;
    var init := elements[..|elements| - 1];
    var last := elements[|elements| - 1];
    var tail := if last.Name? then subs[last.name] else DecimalDigits(last.index);
    if last.Name? {
      assert last.name in NamesOf(elements);
      PlaceholderUnescaped(c, subs[last.name]);
    }
    assert LastStepText(subs, last, tail);
    if |elements| == 1 {
      RenderUnparseFirst(subs, elements, tail);
    } else {
      NamesOfPrefix(elements);
      assert ValidElements(init) by {
        assert forall i :: 0 <= i < |init| ==> init[i] == elements[i];
      }
      RenderUnparse(c, init);
      RenderUnparseStep(subs, elements, tail);
    }
  }

  lemma RenderUnparseFirst(subs: map<string, string>, elements: seq<PathElement>, tail: string)
    requires |elements| == 1 && elements[0].Name? && LastStepText(subs, elements[0], tail)
    ensures Render(elements, subs) == [PathDelimiter] + Unparse(Substitute(elements, subs))
  {
    var sub := Substitute(elements, subs);
    assert sub == [Name(tail)];
    assert Unparse(sub) == tail by {
      assert sub[..0] == [];
      assert Unparse(sub) == Unparse(sub[..0]) + "" + EscapeName(tail);
      assert "" + "" + tail == tail;
    }
    assert Render(elements, subs) == [PathDelimiter] + tail by {
      assert elements[..0] == [];
      assert Render(elements, subs) == Render(elements[..0], subs) + [PathDelimiter] + tail;
      assert "" + [PathDelimiter] + tail == [PathDelimiter] + tail;
    }
  }

  /** The text `addName` returns is a path: the given one with each name replaced by its placeholder. */
  lemma AddNameParses(c: Context, elements: seq<PathElement>)
    requires c.Valid() && ValidElements(elements)
    ensures var (text, next) := c.AddName(elements);
      ParsePath(text) == Ok(Substitute(elements, next.substitutions))
  {
    var (output, next) := c.AddElements(elements);
    AddElementsRender(c, elements);
    if elements != [] {
      RenderUnparse(next, elements);
      SubstituteValid(next, elements);
      ParseUnparse(Substitute(elements, next.substitutions));
    }
  }

  /** The error scanning a path given as text throws, if it does not scan. */
  function PathInputError(path: PathInput): Option<ExpressionError> {
    if Elements(path).Err? then Some(PathSyntax(Elements(path).error)) else None
  }

  /** `addName` on a path given as text or as a path object: its placeholder text, or the scanning error. */
  function SerializePath(path: PathInput, c: Context): (r: (Result<string, ExpressionError>, Context))
    ensures c.Valid() ==> r.1.Valid() && Extends(c, r.1)
    ensures r.0.Err? <==> PathInputError(path).Some?
    ensures r.0.Err? ==> r.0.error == PathInputError(path).value && r.1 == c
  {
    match Elements(path)
    case Err(e) => (Err(PathSyntax(e)), c)
    case Ok(elements) =>
      var (text, next) := c.AddName(elements);
      (Ok(text), next)
  }

  /** The first error among the paths from position `i` on. */
  function PathListError(paths: seq<PathInput>, i: nat): Option<ExpressionError>
    requires i <= |paths|
    decreases |paths| - i
  {
    if i == |paths| then None
    else if PathInputError(paths[i]).Some? then PathInputError(paths[i])
    else PathListError(paths, i + 1)
  }

  /** `addName` on each path from position `i` on, after the placeholders `parts`; the first error stops the walk. */
  function SerializePathList(paths: seq<PathInput>, i: nat, parts: seq<string>, c: Context)
    : (r: (Result<seq<string>, ExpressionError>, Context))
    requires i <= |paths|
    ensures c.Valid() ==> r.1.Valid() && Extends(c, r.1)
    ensures r.0.Ok? ==> |r.0.value| == |parts| + |paths| - i && r.0.value[..|parts|] == parts
    ensures r.0.Err? <==> PathListError(paths, i).Some?
    ensures r.0.Err? ==> r.0.error == PathListError(paths, i).value
    decreases |paths| - i
  {
    if i == |paths| then (Ok(parts), c)
    else
      var step := SerializePath(paths[i], c);
      if step.0.Err? then (Err(step.0.error), step.1)
      else
        var r := SerializePathList(paths, i + 1, parts + [step.0.value], step.1);
        ExtendsChain(c, step.1, r.1);
        assert (parts + [step.0.value])[..|parts|] == parts;
        r
  }

  /** The placeholders of a list of paths, in order; the first that does not scan stops the walk. */
  method SerializePathNames(paths: seq<PathInput>, attributes: ExpressionAttributes)
    returns (r: Result<seq<string>, ExpressionError>)
    requires attributes.Valid()
    modifies attributes
    ensures attributes.Valid()
    ensures (r, attributes.State()) == SerializePathList(paths, 0, [], old(attributes.State()))
  {
    var phrases: seq<string> := [];
    for i := 0 to |paths|
      invariant attributes.Valid()
      invariant SerializePathList(paths, i, phrases, attributes.State())
             == SerializePathList(paths, 0, [], old(attributes.State()))
    {
      var name := SerializePathName(paths[i], attributes);
      if name.Err? {
        return Err(name.error);
      }
      phrases := phrases + [name.value];
    }
    return Ok(phrases);
  }

  /** `addName(path)`, its scanning error as an expression error. */
  method SerializePathName(path: PathInput, attributes: ExpressionAttributes)
    returns (r: Result<string, ExpressionError>)
    requires attributes.Valid()
    modifies attributes
    ensures attributes.Valid()
    ensures (r, attributes.State()) == SerializePath(path, old(attributes.State()))
  {
    var name := attributes.AddName(path);
    if name.Err? {
      return Err(PathSyntax(name.error));
    }
    return Ok(name.value);
  }

  /** The object form of the table, updated in place by every serializer. */
  class ExpressionAttributes {
    var names: map<string, string>
    var values: map<string, Operand>
    var substitutions: map<string, string>
    var counter: nat

    ghost function State(): Context
      reads this
    {
      Context(names, values, substitutions, counter)
    }

    ghost predicate Valid()
      reads this
    {
      State().Valid()
    }

    constructor ()
      ensures State() == Empty && Valid()
    {
      names := map[];
      values := map[];
      substitutions := map[];
      counter := 0;
    }

    /** The placeholder text of a path, or the error scanning its text throws (then nothing changes). */
    method AddName(path: PathInput) returns (r: Result<string, PathError>)
      requires Valid()
      modifies this
      ensures Valid()
      ensures Elements(path).Err? ==> r == Err(Elements(path).error) && State() == old(State())
      ensures Elements(path).Ok? ==>
        var (text, next) := old(State()).AddName(Elements(path).value);
        r == Ok(text) && State() == next
    {
      var wrapped := AttributePath.Wrap(path);
      if wrapped.Err? {
        return Err(wrapped.error);
      }
      var output := AddElements(wrapped.value.elements);
      return Ok(DropFirst(output));
    }

    /** The loop of `addName`: each name replaced by its placeholder, each index kept. */
    method AddElements(elements: seq<PathElement>) returns (output: string)
      requires Valid()
      modifies this
      ensures Valid()
      ensures (output, State()) == old(State()).AddElements(elements)
    {
      output := "";
      ghost var start := State();
      for i := 0 to |elements|
        invariant (output, State()) == start.AddElements(elements[..i])
        invariant Valid()
      {
        ghost var before := (output, State());
        var element := elements[i];
        if element.Name? {
          var substitution := Intern(element.name);
          output := output + [PathDelimiter] + substitution;
        } else {
          output := output + [LeftBracket] + DecimalDigits(element.index) + [RightBracket];
        }
        assert (output, State()) == WalkStep(before, element);
        AddElementsSnoc(start, elements, i);
      }
      assert elements[..|elements|] == elements;
    }

    /** One name: its cached placeholder, or the next number. */
    method Intern(name: string) returns (substitution: string)
      requires Valid()
      modifies this
      ensures Valid()
      ensures (substitution, State()) == old(State()).Intern(name)
    {
      ghost var step := State().Intern(name);
      if name !in substitutions {
        substitutions := substitutions[name := NamePlaceholder(counter)];
        counter := counter + 1;
      }
      substitution := substitutions[name];
      names := names[substitution := name];
      assert State() == step.1;
    }

    /** A fresh `:valueN` placeholder bound to the value. */
    method AddValue(value: Operand) returns (placeholder: string)
      requires Valid()
      modifies this
      ensures Valid()
      ensures (placeholder, State()) == old(State()).AddValue(value)
    {
      ghost var next := State().AddValue(value);
      placeholder := ValuePlaceholder(counter);
      counter := counter + 1;
      values := values[placeholder := value];
      assert State() == next.1;
    }

    /** The names table, absent when no name was added. */
    function Names(): (r: Option<map<string, string>>)
      reads this
      ensures r.None? <==> |names| == 0
      ensures r.Some? ==> r.value == names
    {
      if |names| == 0 then None else Some(names)
    }

    /** The values table, absent when no value was added. */
    function Values(): (r: Option<map<string, Operand>>)
      reads this
      ensures r.None? <==> |values| == 0
      ensures r.Some? ==> r.value == values
    {
      if |values| == 0 then None else Some(values)
    }
  }
}
