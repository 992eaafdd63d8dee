/**
 * The two insertion-ordered collections the expressions keep their
 * directives in: a map whose `set` replaces the value of a known key in
 * place and appends a new key at the end, and a set whose `add` appends a
 * new member and ignores a known one. Iteration visits entries in that
 * order.
 */
module OrderedCollections {
  import opened Results

  /** The keys of the entries, in order. */
  function Keys<K, V>(entries: seq<(K, V)>): (r: seq<K>)
    ensures |r| == |entries|
  {
    if entries == [] then [] else [entries[0].0] + Keys(entries[1..])
  }

  lemma {:induction false} KeysAt<K, V>(entries: seq<(K, V)>, i: nat)
    requires i < |entries|
    ensures Keys(entries)[i] == entries[i].0
    decreases i
  {
    if i > 0 {
      KeysAt(entries[1..], i - 1);
    }
  }

  /** No key occurs twice. */
  predicate Distinct<K(==)>(s: seq<K>) {
    forall i, j :: 0 <= i < j < |s| ==> s[i] != s[j]
  }

  /** The value a key is bound to, if any. */
  function Lookup<K(==), V>(entries: seq<(K, V)>, k: K): (r: Option<V>)
    ensures r.Some? <==> k in Keys(entries)
  {
    if entries == [] then None
    else if entries[0].0 == k then Some(entries[0].1)
    else Lookup(entries[1..], k)
  }

  /** `map.set(k, v)`: a known key keeps its position and takes the new value; a new key goes last. */
  function Put<K(==), V>(entries: seq<(K, V)>, k: K, v: V): (r: seq<(K, V)>)
    ensures Keys(r) == if k in Keys(entries) then Keys(entries) else Keys(entries) + [k]
    ensures Lookup(r, k) == Some(v)
  {
    if entries == [] then [(k, v)]
    else if entries[0].0 == k then [(k, v)] + entries[1..]
    else
      var rest := Put(entries[1..], k, v);
      assert [entries[0]] + rest == [entries[0]] + rest;
      assert Keys([entries[0]] + rest) == [entries[0].0] + Keys(rest) by {
        assert ([entries[0]] + rest)[1..] == rest;
      }
      assert Keys(entries) == [entries[0].0] + Keys(entries[1..]);
      [entries[0]] + rest
  }

  /** Setting one key leaves every other key's value as it was. */
  lemma {:induction false} PutOther<K, V>(entries: seq<(K, V)>, k: K, v: V, other: K)
    requires other != k
    ensures Lookup(Put(entries, k, v), other) == Lookup(entries, other)
  {
    if entries != [] && entries[0].0 != k {
      var rest := Put(entries[1..], k, v);
      assert ([entries[0]] + rest)[1..] == rest;
      PutOther(entries[1..], k, v, other);
    } else if entries != [] {
      assert ([(k, v)] + entries[1..])[1..] == entries[1..];
    }
  }

  lemma AppendDistinct<K>(s: seq<K>, k: K)
    requires Distinct(s) && k !in s
    ensures Distinct(s + [k])
  {
    forall i, j | 0 <= i < j < |s + [k]|
      ensures (s + [k])[i] != (s + [k])[j]
    {
      if j == |s| {
        assert s[i] in s;
      }
    }
  }

  /** Putting keeps the keys distinct. */
  lemma PutDistinct<K, V>(entries: seq<(K, V)>, k: K, v: V)
    requires Distinct(Keys(entries))
    ensures Distinct(Keys(Put(entries, k, v)))
  {
    if k !in Keys(entries) {
      AppendDistinct(Keys(entries), k);
    }
  }

  /** `set.add(x)`: a new member goes last, a known one changes nothing. */
  function Insert<K(==)>(s: seq<K>, x: K): (r: seq<K>)
    ensures x in r
    ensures x in s ==> r == s
    ensures x !in s ==> r == s + [x]
  {
    if x in s then s else s + [x]
  }

  /** Inserting keeps the members distinct. */
  lemma InsertDistinct<K>(s: seq<K>, x: K)
    requires Distinct(s)
    ensures Distinct(Insert(s, x))
  {
    if x !in s {
      AppendDistinct(s, x);
    }
  }

  /** Putting the same key twice keeps only the second value, in the first one's place. */
  lemma {:induction false} PutOverwrites<K, V>(entries: seq<(K, V)>, k: K, v: V, w: V)
    ensures Put(Put(entries, k, v), k, w) == Put(entries, k, w)
  {
    if entries != [] && entries[0].0 != k {
      var rest := Put(entries[1..], k, v);
      assert ([entries[0]] + rest)[1..] == rest;
      PutOverwrites(entries[1..], k, v, w);
    } else if entries != [] {
      assert ([(k, v)] + entries[1..])[1..] == entries[1..];
    }
  }

  /** Appending an entry appends its key. */
  lemma {:induction false} KeysAppend<K, V>(entries: seq<(K, V)>, e: (K, V))
    ensures Keys(entries + [e]) == Keys(entries) + [e.0]
  {
    if entries != [] {
      assert (entries + [e])[1..] == entries[1..] + [e];
      KeysAppend(entries[1..], e);
    }
  }

  /** A lookup in a sequence with one more entry at the end finds an earlier binding first. */
  lemma {:induction false} LookupAppend<K, V>(entries: seq<(K, V)>, e: (K, V), k: K)
    ensures Lookup(entries + [e], k)
         == if k in Keys(entries) then Lookup(entries, k) else if e.0 == k then Some(e.1) else None
  {
    if entries != [] {
      assert (entries + [e])[1..] == entries[1..] + [e];
      LookupAppend(entries[1..], e, k);
    } else {
      assert [e][1..] == [];
    }
  }

  /** Assigning each defined entry in turn and skipping the undefined ones. */
  function Cleaned<K(==), T>(source: seq<(K, Option<T>)>): seq<(K, T)> {
    if source == [] then []
    else
      var rest := Cleaned(source[..|source| - 1]);
      var (key, value) := source[|source| - 1];
      if value.Some? then Put(rest, key, value.value) else rest
  }

  /** The value of `key` in the source, when it is defined. */
  function DefinedValue<K(==), T>(source: seq<(K, Option<T>)>, key: K): Option<T> {
    var found := Lookup(source, key);
    if found.Some? && found.value.Some? then Some(found.value.value) else None
  }

  /** On a record (distinct keys), cleaning keeps exactly the defined entries, unchanged. */
  lemma {:induction false} CleanedLookup<K, T>(source: seq<(K, Option<T>)>, key: K)
    requires Distinct(Keys(source))
    ensures Lookup(Cleaned(source), key) == DefinedValue(source, key)
  {
    if source != [] {
      var init, last := source[..|source| - 1], source[|source| - 1];
      assert source == init + [last];
      KeysAppend(init, last);
      assert Distinct(Keys(init)) by {
        forall i, j | 0 <= i < j < |Keys(init)|
          ensures Keys(init)[i] != Keys(init)[j]
        {
          assert Keys(source)[i] == Keys(init)[i];
          assert Keys(source)[j] == Keys(init)[j];
        }
      }
      CleanedLookup(init, key);
      LookupAppend(init, last, key);
      if last.1.Some? && last.0 != key {
        PutOther(Cleaned(init), last.0, last.1.value, key);
      }
      if last.0 == key {
        assert Keys(source)[|init|] == key;
        forall i | 0 <= i < |Keys(init)|
          ensures Keys(init)[i] != key
        {
          assert Keys(source)[i] == Keys(init)[i];
        }
        assert key !in Keys(init);
      }
    }
  }

  /** `delete record[k]`: the entries without key `k`, in order. */
  function Remove<K(==), V>(entries: seq<(K, V)>, k: K): (r: seq<(K, V)>)
    ensures k !in Keys(r)
    ensures |r| <= |entries|
  {
    if entries == [] then []
    else
      var rest := Remove(entries[1..], k);
      if entries[0].0 == k then rest
      else
        assert Keys([entries[0]] + rest) == [entries[0].0] + Keys(rest) by {
          assert ([entries[0]] + rest)[1..] == rest;
        }
        [entries[0]] + rest
  }

  /** Removing one key leaves every other key's value as it was. */
  lemma {:induction false} RemoveOther<K, V>(entries: seq<(K, V)>, k: K, other: K)
    requires other != k
    ensures Lookup(Remove(entries, k), other) == Lookup(entries, other)
  {
    if entries != [] {
      RemoveOther(entries[1..], k, other);
      var rest := Remove(entries[1..], k);
      assert ([entries[0]] + rest)[1..] == rest;
    }
  }

  /** Removing an absent key changes nothing. */
  lemma {:induction false} RemoveAbsent<K, V>(entries: seq<(K, V)>, k: K)
    requires k !in Keys(entries)
    ensures Remove(entries, k) == entries
  {
    if entries != [] {
      assert Keys(entries) == [entries[0].0] + Keys(entries[1..]);
      RemoveAbsent(entries[1..], k);
    }
  }
}
