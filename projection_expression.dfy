/**
 * Projection expressions (`#name0, #name1.#name2`): an insertion-ordered
 * set of paths, written as their placeholders separated by commas.
 */
module ProjectionExpressions {
  import opened Results
  import opened Text
  import opened AttributePaths
  import opened Operands
  import opened Attributes
  import opened OrderedCollections

  /** `set.add` for each path in turn. */
  function InsertAll(s: seq<PathInput>, paths: seq<PathInput>): (r: seq<PathInput>)
    ensures |s| <= |r| && r[..|s|] == s
    decreases |paths|
  {
    if paths == [] then s
    else
      var r := InsertAll(Insert(s, paths[0]), paths[1..]);
      assert Insert(s, paths[0])[..|s|] == s;
      assert r[..|s|] == r[..|Insert(s, paths[0])|][..|s|];
      r
  }

  /** After adding, the members are the old ones and the added ones. */
  lemma {:induction false} InsertAllMembers(s: seq<PathInput>, paths: seq<PathInput>, x: PathInput)
    ensures x in InsertAll(s, paths) <==> x in s || x in paths
    decreases |paths|
  {
    if paths != [] {
      InsertAllMembers(Insert(s, paths[0]), paths[1..], x);
      assert x in paths <==> x == paths[0] || x in paths[1..] by {
        assert paths == [paths[0]] + paths[1..];
      }
    }
  }

  lemma {:induction false} InsertAllDistinct(s: seq<PathInput>, paths: seq<PathInput>)
    requires Distinct(s)
    ensures Distinct(InsertAll(s, paths))
    decreases |paths|
  {
    if paths != [] {
      InsertDistinct(s, paths[0]);
      InsertAllDistinct(Insert(s, paths[0]), paths[1..]);
    }
  }

  /** `set.delete(x)`: every other member stays, in order. */
  function Without(s: seq<PathInput>, x: PathInput): (r: seq<PathInput>)
    ensures |r| <= |s|
  {
    if s == [] then []
    else if s[0] == x then Without(s[1..], x)
    else [s[0]] + Without(s[1..], x)
  }

  /** Deleting keeps every member but the deleted one. */
  lemma {:induction false} WithoutMembers(s: seq<PathInput>, x: PathInput, y: PathInput)
    ensures y in Without(s, x) <==> y in s && y != x
  {
    if s != [] {
      WithoutMembers(s[1..], x, y);
      assert y in s <==> y == s[0] || y in s[1..] by {
        assert s == [s[0]] + s[1..];
      }
    }
  }

  /** In a set a member occurs once, so deleting it removes exactly one entry. */
  lemma {:induction false} WithoutDistinct(s: seq<PathInput>, x: PathInput)
    requires Distinct(s)
    ensures Distinct(Without(s, x))
    ensures x in s ==> |Without(s, x)| == |s| - 1
    ensures x !in s ==> Without(s, x) == s
  {
    if s != [] {
      assert Distinct(s[1..]) by {
        forall i, j | 0 <= i < j < |s[1..]| ensures s[1..][i] != s[1..][j] {
          assert s[1..][i] == s[i + 1] && s[1..][j] == s[j + 1];
        }
      }
      WithoutDistinct(s[1..], x);
      if s[0] == x {
        assert x !in s[1..] by {
          forall k | 0 <= k < |s[1..]| ensures s[1..][k] != x {
            assert s[1..][k] == s[k + 1];
          }
        }
      } else {
        var rest := Without(s[1..], x);
        assert s[0] !in s[1..] by {
          forall k | 0 <= k < |s[1..]| ensures s[1..][k] != s[0] {
            assert s[1..][k] == s[k + 1];
          }
        }
        WithoutMembers(s[1..], x, s[0]);
        forall i, j | 0 <= i < j < |[s[0]] + rest| ensures ([s[0]] + rest)[i] != ([s[0]] + rest)[j] {
          if i == 0 {
            assert ([s[0]] + rest)[j] == rest[j - 1];
            assert rest[j - 1] in rest;
          } else {
            assert ([s[0]] + rest)[i] == rest[i - 1] && ([s[0]] + rest)[j] == rest[j - 1];
          }
        }
        if x !in s {
          assert s == [s[0]] + s[1..];
        }
      }
    }
  }

  /** `delete` for each path in turn. */
  function WithoutAll(s: seq<PathInput>, paths: seq<PathInput>): (r: seq<PathInput>)
    ensures |r| <= |s|
    decreases |paths|
  {
    if paths == [] then s else WithoutAll(Without(s, paths[0]), paths[1..])
  }

  /** After deleting, the members are the old ones that were not deleted. */
  lemma {:induction false} WithoutAllMembers(s: seq<PathInput>, paths: seq<PathInput>, y: PathInput)
    ensures y in WithoutAll(s, paths) <==> y in s && y !in paths
    decreases |paths|
  {
    if paths != [] {
      WithoutMembers(s, paths[0], y);
      WithoutAllMembers(Without(s, paths[0]), paths[1..], y);
      assert y in paths <==> y == paths[0] || y in paths[1..] by {
        assert paths == [paths[0]] + paths[1..];
      }
    }
  }

  lemma {:induction false} WithoutAllDistinct(s: seq<PathInput>, paths: seq<PathInput>)
    requires Distinct(s)
    ensures Distinct(WithoutAll(s, paths))
    decreases |paths|
  {
    if paths != [] {
      WithoutDistinct(s, paths[0]);
      WithoutAllDistinct(Without(s, paths[0]), paths[1..]);
    }
  }

  /** The projection text: each path's placeholder, joined by `, `. */
  function SerializeProjection(paths: seq<PathInput>, c: Context): (r: (Result<string, ExpressionError>, Context))
    ensures c.Valid() ==> r.1.Valid() && Extends(c, r.1)
    ensures r.0.Err? <==> PathListError(paths, 0).Some?
    ensures r.0.Err? ==> r.0.error == PathListError(paths, 0).value
  {
    var (names, next) := SerializePathList(paths, 0, [], c);
    if names.Err? then (Err(names.error), next) else (Ok(Join(", ", names.value)), next)
  }

  /** A projection without paths, as `clear` leaves it, is the empty text and adds nothing to the table. */
  lemma ClearedSerializesEmpty(c: Context)
    ensures SerializeProjection([], c) == (Ok(""), c)
  {
  }

  class ProjectionExpression {
    var paths: seq<PathInput>

    ghost predicate Valid()
      reads this
    {
      Distinct(paths)
    }

    /** `new ProjectionExpression(...paths)`. */
    constructor (paths: seq<PathInput>)
      ensures Valid() && this.paths == InsertAll([], paths)
    {
      this.paths := [];
      new;
      Add(paths);
    }

    /** `add(...paths)`: each new path goes last, a known one keeps its place. */
    method Add(paths: seq<PathInput>)
      requires Valid()
      modifies this
      ensures Valid() && this.paths == InsertAll(old(this.paths), paths)
    {
      ghost var start := this.paths;
      for i := 0 to |paths|
        invariant Valid()
        invariant InsertAll(this.paths, paths[i..]) == InsertAll(start, paths)
      {
        assert paths[i..][1..] == paths[i + 1..];
        InsertDistinct(this.paths, paths[i]);
        this.paths := Insert(this.paths, paths[i]);
      }
    }

    /** `delete(...paths)`. */
    method Delete(paths: seq<PathInput>)
      requires Valid()
      modifies this
      ensures Valid() && this.paths == WithoutAll(old(this.paths), paths)
    {
      ghost var start := this.paths;
      for i := 0 to |paths|
        invariant Valid()
        invariant WithoutAll(this.paths, paths[i..]) == WithoutAll(start, paths)
      {
        assert paths[i..][1..] == paths[i + 1..];
        WithoutDistinct(this.paths, paths[i]);
        this.paths := Without(this.paths, paths[i]);
      }
    }

    /** `clear()`. */
    method Clear()
      modifies this
      ensures Valid() && paths == []
    {
      paths := [];
    }

    /** `serialize(attributes)`. */
    method Serialize(attributes: ExpressionAttributes) returns (r: Result<string, ExpressionError>)
      requires attributes.Valid()
      modifies attributes
      ensures attributes.Valid()
      ensures (r, attributes.State()) == SerializeProjection(paths, old(attributes.State()))
    {
      var names := SerializePathNames(paths, attributes);
      if names.Err? {
        return Err(names.error);
      }
      return Ok(Join(", ", names.value));
    }
  }
}
