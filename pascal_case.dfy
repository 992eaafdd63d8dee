/**
 * `toPascalCase`: a global `/(^\w|-\w)/` replace in which every match
 * loses its `-` and is uppercased, so `user-table` becomes `UserTable`.
 */
module PascalCase {
  import opened Text

  /** The replace as the regular expression engine runs it: matches are tried left to right and do not overlap. */
  function Scan(s: string, i: nat): string
    decreases |s| - i
  {
    if i >= |s| then ""
    else if i == 0 && IsWordChar(s[0]) then [UpperChar(s[0])] + Scan(s, 1)
    else if s[i] == '-' && i + 1 < |s| && IsWordChar(s[i + 1]) then [UpperChar(s[i + 1])] + Scan(s, i + 2)
    else [s[i]] + Scan(s, i + 1)
  }

  /** The `-` at `i` is dropped: it is followed by a word character. */
  predicate IsRemoved(s: string, i: nat) {
    i + 1 < |s| && s[i] == '-' && IsWordChar(s[i + 1])
  }

  /** The word character at `i` is uppercased: it starts the text or follows a `-`. */
  predicate IsRaised(s: string, i: nat) {
    i < |s| && IsWordChar(s[i]) && (i == 0 || s[i - 1] == '-')
  }

  /** What position `i` becomes on its own. */
  function Piece(s: string, i: nat): string
    requires i < |s|
  {
    if IsRemoved(s, i) then "" else if IsRaised(s, i) then [UpperChar(s[i])] else [s[i]]
  }

  /** The reference definition: every position replaced by its piece, in order. */
  function Positional(s: string, i: nat): string
    decreases |s| - i
  {
    if i >= |s| then "" else Piece(s, i) + Positional(s, i + 1)
  }

  /** The number of dropped `-` from position `i` on. */
  function Removed(s: string, i: nat): nat
    decreases |s| - i
  {
    if i >= |s| then 0 else (if IsRemoved(s, i) then 1 else 0) + Removed(s, i + 1)
  }

  /** From any point the scan resumes at, it agrees with the positional definition. */
  lemma {:induction false} ScanPositional(s: string, i: nat)
    requires i == 0 || !IsRemoved(s, i - 1)
    ensures Scan(s, i) == Positional(s, i)
    decreases |s| - i
  {
    if i < |s| {
      if i == 0 && IsWordChar(s[0]) {
        ScanPositional(s, 1);
      } else if s[i] == '-' && i + 1 < |s| && IsWordChar(s[i + 1]) {
        ScanPositional(s, i + 2);
        assert Piece(s, i + 1) == [UpperChar(s[i + 1])];
        assert Positional(s, i) == "" + (Piece(s, i + 1) + Positional(s, i + 2));
      } else {
        ScanPositional(s, i + 1);
        assert !IsRaised(s, i);
      }
    }
  }

  /** `toPascalCase(text)`. */
  function ToPascalCase(text: string): (r: string)
    ensures r == Positional(text, 0)
  {
    ScanPositional(text, 0);
    Scan(text, 0)
  }

  /** Each dropped `-` shortens the text by one; every other character stays. */
  lemma {:induction false} PositionalLength(s: string, i: nat)
    ensures |Positional(s, i)| == (if i <= |s| then |s| - i else 0) - Removed(s, i)
    decreases |s| - i
  {
    if i < |s| {
      PositionalLength(s, i + 1);
    }
  }

  lemma Length(text: string)
    ensures |ToPascalCase(text)| == |text| - Removed(text, 0)
  {
    PositionalLength(text, 0);
  }

  /** The first character is uppercased when it is a word character. */
  lemma FirstRaised(text: string)
    requires text != [] && IsWordChar(text[0])
    ensures ToPascalCase(text) != [] && ToPascalCase(text)[0] == UpperChar(text[0])
  {
  }

  /** Without a `-` before a word character, only the first character can change. */
  lemma {:induction false} NoRemovedHyphen(s: string, i: nat)
    requires i <= |s| && Removed(s, i) == 0
    ensures |Positional(s, i)| == |s| - i
    ensures forall k :: i <= k < |s| ==>
      Positional(s, i)[k - i] == if IsRaised(s, k) then UpperChar(s[k]) else s[k]
    decreases |s| - i
  {
    if i < |s| {
      NoRemovedHyphen(s, i + 1);
      assert Positional(s, i) == Piece(s, i) + Positional(s, i + 1);
      PositionalLength(s, i + 1);
    }
  }

  /** Hyphens followed by word characters disappear and the characters after them are uppercased. */
  lemma HyphenWords(a: string, b: string)
    requires b != [] && IsWordChar(b[0])
    requires forall k :: 0 <= k < |a| ==> IsWordChar(a[k])
    ensures ToPascalCase(a + "-" + b) == ToPascalCase(a) + [UpperChar(b[0])] + Positional(b, 1)
  {
    PositionalSplit(a, b, 0);
  }

  lemma {:induction false} PositionalSplit(a: string, b: string, i: nat)
    requires i <= |a| && b != [] && IsWordChar(b[0])
    requires forall k :: 0 <= k < |a| ==> IsWordChar(a[k])
    ensures Positional(a + "-" + b, i) == Positional(a, i) + ([UpperChar(b[0])] + Positional(b, 1))
    decreases |a| - i
  {
    var s := a + "-" + b;
    if i < |a| {
      PositionalSplit(a, b, i + 1);
      assert s[i] == a[i] && (i > 0 ==> s[i - 1] == a[i - 1]);
      assert !IsRemoved(s, i) && !IsRemoved(a, i);
      assert Piece(s, i) == Piece(a, i);
      var tail := [UpperChar(b[0])] + Positional(b, 1);
      calc {
        Positional(s, i);
        Piece(a, i) + (Positional(a, i + 1) + tail);
        (Piece(a, i) + Positional(a, i + 1)) + tail;
      }
    } else {
      HyphenAt(a, b);
    }
  }

  /** At the `-`: it is dropped and `b`'s first character is raised. */
  lemma HyphenAt(a: string, b: string)
    requires b != [] && IsWordChar(b[0])
    ensures Positional(a + "-" + b, |a|) == [UpperChar(b[0])] + Positional(b, 1)
  {
    var s := a + "-" + b;
    assert Piece(s, |a|) == "";
    assert Piece(s, |a| + 1) == [UpperChar(b[0])];
    assert s[|s| - |b|..] == b;
    ShiftFrom(s, b, |a| + 2, 1);
  }

  /** Past the `-`, positions of the joined text are positions of `b`; `b`'s first character is not raised again. */
  lemma {:induction false} ShiftFrom(s: string, b: string, j: nat, k: nat)
    requires |s| >= |b| && 1 <= k && j >= 1 && j == |s| - |b| + k && s[|s| - |b|..] == b
    ensures Positional(s, j) == Positional(b, k)
    decreases |s| - j
  {
    if j < |s| {
      ShiftFrom(s, b, j + 1, k + 1);
      assert s[j] == b[k] && s[j - 1] == b[k - 1];
      assert IsRemoved(s, j) == IsRemoved(b, k);
      assert Piece(s, j) == Piece(b, k);
    }
  }
}
