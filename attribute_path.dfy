/**
 * Document paths such as `a.b[3].c`: the scanner that turns the text into
 * name and list-index elements, the path object holding them, and the
 * properties of the scanner (what it accepts, what it rejects, and that a
 * printed path scans back to its elements).
 */
module AttributePaths {
  import opened Results
  import opened Text

  const LeftBracket: char := '['
  const RightBracket: char := ']'
  const PathDelimiter: char := '.'
  const EscapeCharacter: char := '\\'

  /** One step of a document path: an attribute name or a list index. */
  datatype PathElement = Name(name: string) | Index(index: nat)

  /** The four ways the scanner rejects a path. */
  datatype PathError =
    | InvalidControlCharacter              // `[` or `.` with no name before it
    | InvalidArrayIndex                    // `[]`: nothing between the brackets
    | InvalidArrayIndexCharacter(c: char)  // a non-digit inside brackets
    | BareIdentifier                       // a name right after `]` without `.`

  /** Where the scanner is: inside a name, inside brackets, or just after `]`. */
  datatype ScanState = PathIdentifier | PathListIndex | ControlCharacter

  /** The scanner's variables: next position, state, characters collected, elements emitted. */
  datatype Scanner = Scanner(position: nat, state: ScanState, collected: string, elements: seq<PathElement>)

  /** The characters a backslash escapes inside a name. */
  predicate IsEscapable(c: char) {
    c == PathDelimiter || c == LeftBracket || c == EscapeCharacter
  }

  /** One iteration of the scanner: the character at `s.position` (and, after a backslash, the one after it). */
  function Step(path: string, s: Scanner): (r: Result<Scanner, PathError>)
    requires s.position < |path|
    ensures r.Ok? ==> s.position < r.value.position <= |path|
  {
    match s.state
    case PathIdentifier => StepName(path, s)
    case PathListIndex => StepIndex(path, s)
    case ControlCharacter => StepControl(path, s)
  }

  /** Inside a name: `.` or `[` ends it, a backslash escapes the next `.`, `[` or `\`, anything else is collected. */
  function StepName(path: string, s: Scanner): (r: Result<Scanner, PathError>)
    requires s.position < |path|
    ensures r.Ok? ==> s.position < r.value.position <= |path|
  {
    var i := s.position;
    var c := path[i];
    if c == LeftBracket || c == PathDelimiter then
      if s.collected == "" then Err(InvalidControlCharacter)
      else Ok(Scanner(i + 1, if c == LeftBracket then PathListIndex else PathIdentifier,
                      "", s.elements + [Name(s.collected)]))
    else if c == EscapeCharacter && i + 1 < |path| && IsEscapable(path[i + 1]) then
      Ok(s.(position := i + 2, collected := s.collected + [path[i + 1]]))
    else
      Ok(s.(position := i + 1, collected := s.collected + [c]))
  }
  /**
   * In a name, a backslash before `.`, `[` or another backslash consumes both
   * characters and collects the second; anywhere else it is collected itself.
   */
  lemma StepBackslash(path: string, s: Scanner)
    requires s.position < |path| && s.state.PathIdentifier? && path[s.position] == EscapeCharacter
    ensures var i := s.position;
      if i + 1 < |path| && IsEscapable(path[i + 1])
      then Step(path, s) == Ok(s.(position := i + 2, collected := s.collected + [path[i + 1]]))
      else Step(path, s) == Ok(s.(position := i + 1, collected := s.collected + [EscapeCharacter]))
  {
  }


  /** Inside brackets: digits are collected and `]` emits the index. */
  function StepIndex(path: string, s: Scanner): (r: Result<Scanner, PathError>)
    requires s.position < |path|
    ensures r.Ok? ==> s.position < r.value.position <= |path|
  {
    var i := s.position;
    var c := path[i];
    if c == RightBracket then
      if s.collected == "" then Err(InvalidArrayIndex)
      else Ok(Scanner(i + 1, ControlCharacter, "", s.elements + [Index(DecimalValue(s.collected))]))
    else if IsDigit(c) then
      Ok(s.(position := i + 1, collected := s.collected + [c]))
    else
      Err(InvalidArrayIndexCharacter(c))
  }

  /** Just after `]`: only `[` or `.` may follow. */
  function StepControl(path: string, s: Scanner): (r: Result<Scanner, PathError>)
    requires s.position < |path|
    ensures r.Ok? ==> s.position < r.value.position <= |path|
  {
    var i := s.position;
    var c := path[i];
    if c == LeftBracket then Ok(s.(position := i + 1, state := PathListIndex))
    else if c == PathDelimiter then Ok(s.(position := i + 1, state := PathIdentifier))
    else Err(BareIdentifier)
  }

  /** The end of the text: a name still being collected is emitted. */
  function Finish(s: Scanner): seq<PathElement> {
    if |s.collected| > 0 then s.elements + [Name(s.collected)] else s.elements
  }

  /** The scanner from `s` to the end of the text or the first error. */
  function Run(path: string, s: Scanner): Result<seq<PathElement>, PathError>
    requires s.position <= |path|
    decreases |path| - s.position
  {
    if s.position == |path| then Ok(Finish(s))
    else
      match Step(path, s)
      case Err(e) => Err(e)
      case Ok(next) => Run(path, next)
  }

  /** The elements of a path written as text, or the reason it is rejected. */
  function ParsePath(path: string): Result<seq<PathElement>, PathError> {
    Run(path, Scanner(0, PathIdentifier, "", []))
  }

  /** The element sequences the scanner can produce: no empty name, and a name first. */
  predicate ValidElements(elements: seq<PathElement>) {
    && (forall i :: 0 <= i < |elements| && elements[i].Name? ==> elements[i].name != "")
    && (|elements| > 0 ==> elements[0].Name?)
  }

  /** An immutable document path. */
  class AttributePath {
    const elements: seq<PathElement>

    constructor FromElements(elements: seq<PathElement>)
      ensures this.elements == elements
    {
      this.elements := elements;
    }

    /** The scanner, one character per iteration, with a backslash consuming the character after it. */
    static method Parse(path: string) returns (r: Result<seq<PathElement>, PathError>)
      ensures r == ParsePath(path)
    {
      var elements: seq<PathElement> := [];
      var state := PathIdentifier;
      var collected := "";
      var i := 0;
      while i < |path|
        invariant i <= |path|
        invariant Run(path, Scanner(i, state, collected, elements)) == ParsePath(path)
        decreases |path| - i
      {
        var current := path[i];
        var peek: Option<char> := if i + 1 < |path| then Some(path[i + 1]) else None;
        if state == PathIdentifier {
          if current == LeftBracket || current == PathDelimiter {
            if collected == "" {
              return Err(InvalidControlCharacter);
            }
            elements := elements + [Name(collected)];
            collected := "";
            if current == LeftBracket {
              state := PathListIndex;
            }
          } else {
            if current == EscapeCharacter && peek.Some? && IsEscapable(peek.value) {
              current := peek.value;
              i := i + 1;
            }
            collected := collected + [current];
          }
        } else if state == PathListIndex {
          if current == RightBracket {
            if collected == "" {
              return Err(InvalidArrayIndex);
            }
            elements := elements + [Index(DecimalValue(collected))];
            collected := "";
            state := ControlCharacter;
          } else if IsDigit(current) {
            collected := collected + [current];
          } else {
            return Err(InvalidArrayIndexCharacter(current));
          }
        } else {
          if current == LeftBracket {
            state := PathListIndex;
          } else if current == PathDelimiter {
            state := PathIdentifier;
          } else {
            return Err(BareIdentifier);
          }
        }
        i := i + 1;
      }
      if |collected| > 0 {
        elements := elements + [Name(collected)];
      }
      return Ok(elements);
    }

    /** `new AttributePath(text)`: the path of a string, or the error its scan throws. */
    static method Create(path: string) returns (r: Result<AttributePath, PathError>)
      ensures ParsePath(path).Ok? <==> r.Ok?
      ensures r.Ok? ==> fresh(r.value) && r.value.elements == ParsePath(path).value
      ensures r.Err? ==> r.error == ParsePath(path).error
    {
      var parsed := Parse(path);
      if parsed.Err? {
        return Err(parsed.error);
      }
      var p := new AttributePath.FromElements(parsed.value);
      return Ok(p);
    }

    /** A path object is returned as it is; a string is scanned into a new one. */
    static method Wrap(path: PathInput) returns (r: Result<AttributePath, PathError>)
      ensures r.Ok? <==> Elements(path).Ok?
      ensures r.Ok? ==> r.value.elements == Elements(path).value
      ensures r.Err? ==> r.error == Elements(path).error
      ensures path.Ref? ==> r == Ok(path.path)
    {
      if path.Ref? {
        return Ok(path.path);
      }
      r := Create(path.text);
    }
  }

  /** A path given either as text or as a path object. */
  datatype PathInput = Literal(text: string) | Ref(path: AttributePath)

  /** The elements a path input stands for (a path object's own, or the scan of the text). */
  function Elements(path: PathInput): Result<seq<PathElement>, PathError> {
    match path
    case Literal(text) => ParsePath(text)
    case Ref(p) => Ok(p.elements)
  }

  // ---------------------------------------------------------------------
  // A printer used as the scanner's reference: names escaped, `.` between
  // steps, `[k]` for indices.
  // ---------------------------------------------------------------------

  function EscapeName(name: string): string {
    if name == "" then ""
    else (if IsEscapable(name[0]) then [EscapeCharacter, name[0]] else [name[0]]) + EscapeName(name[1..])
  }

  function Unparse(elements: seq<PathElement>): string {
    if elements == [] then ""
    else
      var prefix := Unparse(elements[..|elements| - 1]);
      match elements[|elements| - 1]
      case Name(n) => prefix + (if |elements| == 1 then "" else [PathDelimiter]) + EscapeName(n)
      case Index(k) => prefix + [LeftBracket] + DecimalDigits(k) + [RightBracket]
  }

  /** The text a step adds after the first one. */
  function ElementText(x: PathElement): string {
    match x
    case Name(n) => [PathDelimiter] + EscapeName(n)
    case Index(k) => [LeftBracket] + DecimalDigits(k) + [RightBracket]
  }

  /** Printing one more step appends its text. */
  lemma UnparseSnoc(e: seq<PathElement>, x: PathElement)
    requires |e| > 0
    ensures Unparse(e + [x]) == Unparse(e) + ElementText(x)
  {
    var y := e + [x];
    assert y[..|y| - 1] == e;
    match x
    case Name(n) =>
      ConcatAssociative(Unparse(e), [PathDelimiter], EscapeName(n));
    case Index(k) =>
      ConcatAssociative(Unparse(e), [LeftBracket], DecimalDigits(k));
      ConcatAssociative(Unparse(e), [LeftBracket] + DecimalDigits(k), [RightBracket]);
  }

  /** Scanner variables after reading `Unparse(elements)`, when more input may follow. */
  function After(elements: seq<PathElement>): Scanner
    requires |elements| > 0
  {
    match elements[|elements| - 1]
    case Name(n) => Scanner(|Unparse(elements)|, PathIdentifier, n, elements[..|elements| - 1])
    case Index(_) => Scanner(|Unparse(elements)|, ControlCharacter, "", elements)
  }

  // ---------------------------------------------------------------------
  // Piecewise facts about the scanner.
  // ---------------------------------------------------------------------

  lemma {:induction false} RunEscapedName(path: string, i: nat, name: string, collected: string,
                                          elements: seq<PathElement>)
    requires i + |EscapeName(name)| <= |path|
    requires path[i..i + |EscapeName(name)|] == EscapeName(name)
    ensures Run(path, Scanner(i, PathIdentifier, collected, elements))
         == Run(path, Scanner(i + |EscapeName(name)|, PathIdentifier, collected + name, elements))
    decreases |name|
  {
    if name != "" {
      var head := if IsEscapable(name[0]) then [EscapeCharacter, name[0]] else [name[0]];
      var tail := EscapeName(name[1..]);
      assert EscapeName(name) == head + tail;
      assert path[i..i + |head|] == (head + tail)[..|head|];
      assert path[i + |head|..i + |head| + |tail|] == tail;
      assert collected + [name[0]] + name[1..] == collected + name;
      assert Step(path, Scanner(i, PathIdentifier, collected, elements))
          == Ok(Scanner(i + |head|, PathIdentifier, collected + [name[0]], elements));
      RunEscapedName(path, i + |head|, name[1..], collected + [name[0]], elements);
    } else {
      assert collected + name == collected;
    }
  }

  /** An escaped name read from the start of a name is collected verbatim. */
  lemma RunName(path: string, i: nat, name: string, elements: seq<PathElement>)
    requires i + |EscapeName(name)| <= |path|
    requires path[i..i + |EscapeName(name)|] == EscapeName(name)
    ensures Run(path, Scanner(i, PathIdentifier, "", elements))
         == Run(path, Scanner(i + |EscapeName(name)|, PathIdentifier, name, elements))
  {
    RunEscapedName(path, i, name, "", elements);
    var t := Scanner(i + |EscapeName(name)|, PathIdentifier, "" + name, elements);
    assert "" + name == name;
    assert t == Scanner(i + |EscapeName(name)|, PathIdentifier, name, elements);
  }

  lemma {:induction false} RunDigits(path: string, i: nat, digits: string, collected: string,
                                     elements: seq<PathElement>)
    requires IsDigits(digits)
    requires i + |digits| <= |path| && path[i..i + |digits|] == digits
    ensures Run(path, Scanner(i, PathListIndex, collected, elements))
         == Run(path, Scanner(i + |digits|, PathListIndex, collected + digits, elements))
    decreases |digits|
  {
    if digits != "" {
      assert path[i] == digits[0];
      assert path[i + 1..i + 1 + |digits[1..]|] == digits[1..];
      assert collected + [digits[0]] + digits[1..] == collected + digits;
      assert Step(path, Scanner(i, PathListIndex, collected, elements))
          == Ok(Scanner(i + 1, PathListIndex, collected + [digits[0]], elements));
      RunDigits(path, i + 1, digits[1..], collected + [digits[0]], elements);
    } else {
      assert collected + digits == collected;
    }
  }

  /** Digits then `]` close an index: the digits' value is emitted. */
  lemma RunIndexClosed(path: string, i: nat, digits: string, elements: seq<PathElement>)
    requires IsDigits(digits) && digits != ""
    requires i + |digits| < |path| && path[i..i + |digits|] == digits && path[i + |digits|] == RightBracket
    ensures Run(path, Scanner(i, PathListIndex, "", elements))
         == Run(path, Scanner(i + |digits| + 1, ControlCharacter, "", elements + [Index(DecimalValue(digits))]))
  {
    var j := i + |digits|;
    var t := Scanner(j, PathListIndex, digits, elements);
    var next := Scanner(j + 1, ControlCharacter, "", elements + [Index(DecimalValue(digits))]);
    assert Run(path, t) == Run(path, next) by {
      assert StepIndex(path, t) == Ok(next);
    }
    RunDigits(path, i, digits, "", elements);
    assert "" + digits == digits;
  }

  /** The printed index `k]` emits `k`. */
  lemma RunIndex(path: string, i: nat, k: nat, elements: seq<PathElement>)
    requires var digits := DecimalDigits(k);
      i + |digits| < |path| && path[i..i + |digits|] == digits && path[i + |digits|] == RightBracket
    ensures Run(path, Scanner(i, PathListIndex, "", elements))
         == Run(path, Scanner(i + |DecimalDigits(k)| + 1, ControlCharacter, "", elements + [Index(k)]))
  {
    var digits := DecimalDigits(k);
    DecimalRoundTrip(k);
    RunIndexClosed(path, i, digits, elements);
  }

  /** Digits running to the end of the text, inside brackets, are emitted as a name. */
  lemma RunOpenIndex(path: string, i: nat, digits: string, elements: seq<PathElement>)
    requires IsDigits(digits) && digits != ""
    requires i + |digits| == |path| && path[i..] == digits
    ensures Run(path, Scanner(i, PathListIndex, "", elements)) == Ok(elements + [Name(digits)])
  {
    var t := Scanner(|path|, PathListIndex, digits, elements);
    assert Run(path, t) == Ok(elements + [Name(digits)]);
    assert path[i..i + |digits|] == digits;
    RunDigits(path, i, digits, "", elements);
    assert "" + digits == digits;
  }

  /** Digits then a character that is neither a digit nor `]` are rejected. */
  lemma RunIndexBadCharacter(path: string, i: nat, digits: string, elements: seq<PathElement>)
    requires IsDigits(digits)
    requires i + |digits| < |path| && path[i..i + |digits|] == digits
    requires !IsDigit(path[i + |digits|]) && path[i + |digits|] != RightBracket
    ensures Run(path, Scanner(i, PathListIndex, "", elements)) == Err(InvalidArrayIndexCharacter(path[i + |digits|]))
  {
    var j := i + |digits|;
    var c := path[j];
    var t := Scanner(j, PathListIndex, digits, elements);
    assert Run(path, t) == Err(InvalidArrayIndexCharacter(c)) by {
      assert StepIndex(path, t) == Err(InvalidArrayIndexCharacter(c));
    }
    RunDigits(path, i, digits, "", elements);
    assert "" + digits == digits;
  }

  /** Where a prefix, one character and the rest sit in their concatenation. */
  lemma Layout(u: string, c: char, rest: string)
    ensures var path := u + [c] + rest;
      StartsWith(path, u) && path[|u|] == c && path[|u| + 1..] == rest
  {
    var path := u + [c] + rest;
    assert path[..|u|] == u;
    assert path[|u| + 1..] == rest;
  }

  lemma StartsWithPrefix(path: string, prefix: string, whole: string)
    requires StartsWith(path, whole) && StartsWith(whole, prefix)
    ensures StartsWith(path, prefix)
  {
    assert path[..|prefix|] == whole[..|whole|][..|prefix|];
  }

  /** After a printed non-empty prefix, a `.` or `[` starts an empty name or index. */
  lemma StepOverDelimiter(path: string, elements: seq<PathElement>, c: char)
    requires ValidElements(elements) && |elements| > 0
    requires c == PathDelimiter || c == LeftBracket
    requires |Unparse(elements)| < |path| && path[|Unparse(elements)|] == c
    ensures Run(path, After(elements))
         == Run(path, Scanner(|Unparse(elements)| + 1, if c == LeftBracket then PathListIndex else PathIdentifier,
                              "", elements))
  {
    var last := elements[|elements| - 1];
    if last.Name? {
      assert elements == elements[..|elements| - 1] + [last];
      assert last.name != "";
    }
  }

  /** The name case of `RunUnparsed`, given the scan of the elements before the name. */
  lemma RunUnparsedName(path: string, elements: seq<PathElement>)
    requires ValidElements(elements) && |elements| > 1 && elements[|elements| - 1].Name?
    requires StartsWith(path, Unparse(elements))
    ensures Run(path, After(elements[..|elements| - 1])) == Run(path, After(elements))
  {
    var init := elements[..|elements| - 1];
    var n := elements[|elements| - 1].name;
    var prefix := Unparse(init);
    var e := EscapeName(n);
    var u := Unparse(elements);
    var p := |prefix|;
    assert ValidElements(init) by {
      assert forall i :: 0 <= i < |init| ==> init[i] == elements[i];
    }
    assert u == prefix + [PathDelimiter] + e;
    NameLayout(path, prefix, e);
    StepOverDelimiter(path, init, PathDelimiter);
    RunName(path, p + 1, n, init);
    assert After(elements) == Scanner(p + 1 + |e|, PathIdentifier, n, init);
  }

  /** The index case of `RunUnparsed`, given the scan of the elements before the index. */
  lemma RunUnparsedIndex(path: string, elements: seq<PathElement>)
    requires ValidElements(elements) && |elements| > 1 && elements[|elements| - 1].Index?
    requires StartsWith(path, Unparse(elements))
    ensures Run(path, After(elements[..|elements| - 1])) == Run(path, After(elements))
  {
    var init := elements[..|elements| - 1];
    var k := elements[|elements| - 1].index;
    var prefix := Unparse(init);
    var digits := DecimalDigits(k);
    var p := |prefix|;
    assert ValidElements(init) by {
      assert forall i :: 0 <= i < |init| ==> init[i] == elements[i];
    }
    var whole := prefix + [LeftBracket] + digits + [RightBracket];
    assert Unparse(elements) == whole;
    IndexLayout(path, prefix, digits);
    StepOverDelimiter(path, init, LeftBracket);
    RunIndex(path, p + 1, k, init);
    assert init + [Index(k)] == elements;
    assert After(elements) == Scanner(p + 1 + |digits| + 1, ControlCharacter, "", elements);
  }

  lemma NameLayout(path: string, prefix: string, e: string)
    requires StartsWith(path, prefix + [PathDelimiter] + e)
    ensures var p := |prefix|; path[p] == PathDelimiter && path[p + 1..p + 1 + |e|] == e
  {
    var u := prefix + [PathDelimiter] + e;
    var p := |prefix|;
    assert path[..|u|] == u;
    assert path[p] == u[p];
    assert path[p + 1..p + 1 + |e|] == u[p + 1..];
  }

  lemma IndexLayout(path: string, prefix: string, digits: string)
    requires StartsWith(path, prefix + [LeftBracket] + digits + [RightBracket])
    ensures var p := |prefix|;
      && path[p] == LeftBracket && path[p + 1..p + 1 + |digits|] == digits
      && path[p + 1 + |digits|] == RightBracket
  {
    var whole := prefix + [LeftBracket] + digits + [RightBracket];
    var p := |prefix|;
    assert path[..|whole|] == whole;
    assert whole[p + 1..p + 1 + |digits|] == digits;
    assert path[p + 1..p + 1 + |digits|] == path[..|whole|][p + 1..p + 1 + |digits|];
  }

  /** Scanning a printed prefix of the text ends in `After` of its elements. */
  lemma {:induction false} RunUnparsed(path: string, elements: seq<PathElement>)
    requires ValidElements(elements) && |elements| > 0
    requires StartsWith(path, Unparse(elements))
    ensures ParsePath(path) == Run(path, After(elements))
    decreases |elements|
  {
    var init := elements[..|elements| - 1];
    if |elements| == 1 {
      var n := elements[0].name;
      assert Unparse(elements) == EscapeName(n);
      assert path[0..|EscapeName(n)|] == EscapeName(n);
      RunName(path, 0, n, []);
    } else {
      assert ValidElements(init) by {
        assert forall i :: 0 <= i < |init| ==> init[i] == elements[i];
      }
      assert StartsWith(Unparse(elements), Unparse(init));
      StartsWithPrefix(path, Unparse(init), Unparse(elements));
      RunUnparsed(path, init);
      if elements[|elements| - 1].Name? {
        RunUnparsedName(path, elements);
      } else {
        RunUnparsedIndex(path, elements);
      }
      assert Run(path, After(init)) == Run(path, After(elements));
    }
  }

  // ---------------------------------------------------------------------
  // Properties of the scanner.
  // ---------------------------------------------------------------------

  /** Printing valid elements and scanning the text gives the elements back. */
  lemma ParseUnparse(elements: seq<PathElement>)
    requires ValidElements(elements)
    ensures ParsePath(Unparse(elements)) == Ok(elements)
  {
    if |elements| > 0 {
      var path := Unparse(elements);
      assert StartsWith(path, path);
      RunUnparsed(path, elements);
      var last := elements[|elements| - 1];
      if last.Name? {
        assert elements == elements[..|elements| - 1] + [last];
      }
    }
  }

  /** The scanner variables reachable from the start: what keeps the output valid. */
  predicate WellFormed(s: Scanner) {
    && ValidElements(s.elements)
    && (s.elements == [] ==> s.state == PathIdentifier)
    && (s.state == ControlCharacter ==> s.collected == "")
  }

  lemma StepWellFormed(path: string, s: Scanner)
    requires s.position < |path| && WellFormed(s)
    ensures Step(path, s).Ok? ==> WellFormed(Step(path, s).value)
  {
  }

  lemma {:induction false} RunValid(path: string, s: Scanner)
    requires s.position <= |path| && WellFormed(s)
    ensures Run(path, s).Ok? ==> ValidElements(Run(path, s).value)
    decreases |path| - s.position
  {
    if s.position < |path| {
      StepWellFormed(path, s);
      if Step(path, s).Ok? {
        RunValid(path, Step(path, s).value);
      }
    }
  }

  /** Every accepted path has no empty name and starts with a name. */
  lemma ParsedElementsValid(path: string)
    ensures ParsePath(path).Ok? ==> ValidElements(ParsePath(path).value)
  {
    RunValid(path, Scanner(0, PathIdentifier, "", []));
  }

  /** Text with no `.`, no `[` and no backslash before `.`, `[` or `\` is a single name, unchanged. */
  predicate IsPlainName(s: string) {
    forall i :: 0 <= i < |s| ==>
      (s[i] != PathDelimiter && s[i] != LeftBracket
       && (s[i] == EscapeCharacter && i + 1 < |s| ==> !IsEscapable(s[i + 1])))
  }

  lemma {:induction false} RunPlain(path: string, i: nat, collected: string)
    requires i <= |path| && IsPlainName(path)
    ensures Run(path, Scanner(i, PathIdentifier, collected, []))
         == Ok(if collected + path[i..] == "" then [] else [Name(collected + path[i..])])
    decreases |path| - i
  {
    if i < |path| {
      assert collected + [path[i]] + path[i + 1..] == collected + path[i..];
      assert Step(path, Scanner(i, PathIdentifier, collected, []))
          == Ok(Scanner(i + 1, PathIdentifier, collected + [path[i]], []));
      RunPlain(path, i + 1, collected + [path[i]]);
    } else {
      assert collected + path[i..] == collected;
      assert [] + [Name(collected)] == [Name(collected)];
    }
  }

  lemma PlainNameParses(s: string)
    requires IsPlainName(s)
    ensures ParsePath(s) == Ok(if s == "" then [] else [Name(s)])
  {
    RunPlain(s, 0, "");
    assert "" + s[0..] == s;
  }

  // Each error case, reached after a valid printed prefix.

  lemma LeadingControlCharacterRejected(c: char, rest: string)
    requires c == PathDelimiter || c == LeftBracket
    ensures ParsePath([c] + rest) == Err(InvalidControlCharacter)
  {
  }

  lemma EmptyNameRejected(elements: seq<PathElement>, c: char, rest: string)
    requires ValidElements(elements) && |elements| > 0
    requires c == PathDelimiter || c == LeftBracket
    ensures ParsePath(Unparse(elements) + [PathDelimiter, c] + rest) == Err(InvalidControlCharacter)
  {
    var path := Unparse(elements) + [PathDelimiter, c] + rest;
    var n := |Unparse(elements)|;
    assert StartsWith(path, Unparse(elements));
    RunUnparsed(path, elements);
    assert path[n] == PathDelimiter && path[n + 1] == c;
    StepOverDelimiter(path, elements, PathDelimiter);
  }

  lemma EmptyIndexRejected(elements: seq<PathElement>, rest: string)
    requires ValidElements(elements) && |elements| > 0
    ensures ParsePath(Unparse(elements) + [LeftBracket, RightBracket] + rest) == Err(InvalidArrayIndex)
  {
    var path := Unparse(elements) + [LeftBracket, RightBracket] + rest;
    var n := |Unparse(elements)|;
    assert StartsWith(path, Unparse(elements));
    RunUnparsed(path, elements);
    assert path[n] == LeftBracket && path[n + 1] == RightBracket;
    StepOverDelimiter(path, elements, LeftBracket);
  }

  lemma IndexCharacterRejected(elements: seq<PathElement>, digits: string, c: char, rest: string)
    requires ValidElements(elements) && |elements| > 0
    requires IsDigits(digits) && !IsDigit(c) && c != RightBracket
    ensures ParsePath(Unparse(elements) + [LeftBracket] + digits + [c] + rest)
         == Err(InvalidArrayIndexCharacter(c))
  {
    var u := Unparse(elements);
    IndexLayoutOpen(u, digits, c, rest);
    IndexCharacterRejectedAt(u + [LeftBracket] + digits + [c] + rest, elements, digits);
  }

  lemma IndexLayoutOpen(u: string, digits: string, c: char, rest: string)
    ensures var path := u + [LeftBracket] + digits + [c] + rest; var n := |u|;
      && StartsWith(path, u) && n + 1 + |digits| < |path|
      && path[n] == LeftBracket && path[n + 1..n + 1 + |digits|] == digits && path[n + 1 + |digits|] == c
  {
    var n := |u|;
    var tail := digits + [c] + rest;
    var path := u + [LeftBracket] + digits + [c] + rest;
    assert path == u + [LeftBracket] + tail;
    Layout(u, LeftBracket, tail);
    assert path[n + 1..n + 1 + |digits|] == tail[..|digits|];
    assert path[n + 1 + |digits|] == tail[|digits|];
  }

  lemma IndexCharacterRejectedAt(path: string, elements: seq<PathElement>, digits: string)
    requires ValidElements(elements) && |elements| > 0 && IsDigits(digits)
    requires var n := |Unparse(elements)|;
      && StartsWith(path, Unparse(elements)) && n + 1 + |digits| < |path|
      && path[n] == LeftBracket && path[n + 1..n + 1 + |digits|] == digits
      && !IsDigit(path[n + 1 + |digits|]) && path[n + 1 + |digits|] != RightBracket
    ensures ParsePath(path) == Err(InvalidArrayIndexCharacter(path[|Unparse(elements)| + 1 + |digits|]))
  {
    RunIndexBadCharacter(path, |Unparse(elements)| + 1, digits, elements);
    StepOverDelimiter(path, elements, LeftBracket);
    RunUnparsed(path, elements);
  }

  lemma BareIdentifierRejected(elements: seq<PathElement>, c: char, rest: string)
    requires ValidElements(elements) && |elements| > 0 && elements[|elements| - 1].Index?
    requires c != PathDelimiter && c != LeftBracket
    ensures ParsePath(Unparse(elements) + [c] + rest) == Err(BareIdentifier)
  {
    var path := Unparse(elements) + [c] + rest;
    assert StartsWith(path, Unparse(elements));
    RunUnparsed(path, elements);
    assert path[|Unparse(elements)|] == c;
  }

  /** An index left open at the end of the text is kept as a name made of its digits. */
  lemma UnterminatedIndexIsName(elements: seq<PathElement>, digits: string)
    requires ValidElements(elements) && |elements| > 0
    requires IsDigits(digits) && digits != ""
    ensures ParsePath(Unparse(elements) + [LeftBracket] + digits) == Ok(elements + [Name(digits)])
  {
    var u := Unparse(elements);
    Layout(u, LeftBracket, digits);
    UnterminatedIndexAt(u + [LeftBracket] + digits, elements, digits);
  }

  lemma UnterminatedIndexAt(path: string, elements: seq<PathElement>, digits: string)
    requires ValidElements(elements) && |elements| > 0 && IsDigits(digits) && digits != ""
    requires var n := |Unparse(elements)|;
      && StartsWith(path, Unparse(elements)) && n + 1 + |digits| == |path|
      && path[n] == LeftBracket && path[n + 1..] == digits
    ensures ParsePath(path) == Ok(elements + [Name(digits)])
  {
    RunOpenIndex(path, |Unparse(elements)| + 1, digits, elements);
    StepOverDelimiter(path, elements, LeftBracket);
    RunUnparsed(path, elements);
  }
}
