/**
 * The parameter store reader of the test kit: it lists the parameters
 * under a path, turns each parameter name into an environment key
 * (`/dev/user-table/name` under `/dev` becomes `USER_TABLE_NAME`), and
 * adds to the environment every key it does not already hold.
 */
module SystemStores {
  import opened Results
  import opened Text
  import opened OrderedCollections

  // ----- Key derivation -----

  /** The characters the regular expression `[/-]` splits on. */
  predicate IsSeparator(c: char) { c == '/' || c == '-' }

  predicate NoSeparator(s: string) { forall i :: 0 <= i < |s| ==> !IsSeparator(s[i]) }

  /** `s.slice(n)` for a non-negative `n`: empty once `n` passes the end. */
  function Drop(s: string, n: nat): (r: string)
    ensures n <= |s| ==> r == s[n..]
    ensures n >= |s| ==> r == ""
  {
    if n <= |s| then s[n..] else ""
  }

  function CountSeparators(s: string): nat {
    if s == [] then 0 else (if IsSeparator(s[0]) then 1 else 0) + CountSeparators(s[1..])
  }

  /** `s.split(/[/-]/)`: the pieces between separators, empty ones included. */
  function Split(s: string): (r: seq<string>)
    ensures |r| == 1 + CountSeparators(s)
    ensures forall k :: 0 <= k < |r| ==> NoSeparator(r[k])
  {
    if s == [] then [""]
    else if IsSeparator(s[0]) then [""] + Split(s[1..])
    else
      var rest := Split(s[1..]);
      [[s[0]] + rest[0]] + rest[1..]
  }

  /** `.filter(Boolean)` on strings: the non-empty ones, in order. */
  function NonEmpty(parts: seq<string>): (r: seq<string>)
    ensures |r| <= |parts|
    ensures forall k :: 0 <= k < |r| ==> r[k] != "" && r[k] in parts
  {
    if parts == [] then []
    else (if parts[0] == "" then [] else [parts[0]]) + NonEmpty(parts[1..])
  }

  /** The words of a name: its non-empty pieces between separators. */
  function Words(s: string): (r: seq<string>)
    ensures forall k :: 0 <= k < |r| ==> r[k] != "" && NoSeparator(r[k])
  {
    NonEmpty(Split(s))
  }

  /** The environment key of a parameter name read under `path`, with `prefix` in front. */
  function DerivedKey(path: string, prefix: string, name: string): string {
    Upper(Join("_", Words(prefix + "/" + Drop(name, |path|))))
  }

  /** Splitting at a separator splits the two sides independently. */
  lemma {:induction false} SplitConcat(a: string, c: char, b: string)
    requires IsSeparator(c)
    ensures Split(a + [c] + b) == Split(a) + Split(b)
  {
    if a == [] {
      assert a + [c] + b == [c] + b;
      assert ([c] + b)[1..] == b;
    } else {
      assert (a + [c] + b)[1..] == a[1..] + [c] + b;
      SplitConcat(a[1..], c, b);
    }
  }

  lemma {:induction false} SplitWord(w: string)
    requires NoSeparator(w)
    ensures Split(w) == [w]
  {
    if w != [] {
      SplitWord(w[1..]);
      assert [w[0]] + w[1..] == w;
    }
  }

  lemma {:induction false} NonEmptyConcat(a: seq<string>, b: seq<string>)
    ensures NonEmpty(a + b) == NonEmpty(a) + NonEmpty(b)
  {
    if a != [] {
      assert (a + b)[1..] == a[1..] + b;
      NonEmptyConcat(a[1..], b);
    } else {
      assert a + b == b;
    }
  }

  /** The words on either side of a separator are the words of the whole, in order. */
  lemma WordsConcat(a: string, c: char, b: string)
    requires IsSeparator(c)
    ensures Words(a + [c] + b) == Words(a) + Words(b)
  {
    SplitConcat(a, c, b);
    NonEmptyConcat(Split(a), Split(b));
  }

  /** The key is the words of the prefix, then the words of the name past the path, joined with `_` and uppercased. */
  lemma DerivedKeyWords(path: string, prefix: string, name: string)
    ensures DerivedKey(path, prefix, name) == Upper(Join("_", Words(prefix) + Words(Drop(name, |path|))))
  {
    WordsConcat(prefix, '/', Drop(name, |path|));
    assert prefix + "/" + Drop(name, |path|) == prefix + ['/'] + Drop(name, |path|);
  }

  /** Words joined by a separator are read back as those words. */
  lemma {:induction false} WordsOfJoin(c: char, words: seq<string>)
    requires IsSeparator(c)
    requires forall k :: 0 <= k < |words| ==> words[k] != "" && NoSeparator(words[k])
    ensures Words(Join([c], words)) == words
  {
    if |words| == 1 {
      SplitWord(words[0]);
    } else if |words| > 1 {
      var init, last := words[..|words| - 1], words[|words| - 1];
      WordsOfJoin(c, init);
      WordsConcat(Join([c], init), c, last);
      SplitWord(last);
      assert Join([c], words) == Join([c], init) + [c] + last;
      assert NonEmpty([last]) == [last] by {
        assert [last][1..] == [];
      }
      assert init + [last] == words;
    }
  }

  /** A name made of the path and `/`-separated words gives those words, after the prefix's, as its key. */
  lemma NestedNameKey(path: string, prefix: string, words: seq<string>)
    requires forall k :: 0 <= k < |words| ==> words[k] != "" && NoSeparator(words[k])
    ensures DerivedKey(path, prefix, path + "/" + Join("/", words)) == Upper(Join("_", Words(prefix) + words))
  {
    var name := path + "/" + Join("/", words);
    assert Words(Drop(name, |path|)) == words by {
      var rest := "/" + Join("/", words);
      assert name == path + rest;
      DropPrefix(path, rest);
      LeadingSeparator(Join("/", words));
      WordsOfJoin('/', words);
    }
    DerivedKeyWords(path, prefix, name);
  }

  lemma DropPrefix(path: string, rest: string)
    ensures Drop(path + rest, |path|) == rest
  {
    assert (path + rest)[|path|..] == rest;
  }

  /** A leading `/` adds no word. */
  lemma LeadingSeparator(s: string)
    ensures Words("/" + s) == Words(s)
  {
    assert Words([]) == [] by {
      assert Split([]) == [""];
    }
    assert Words("/" + s) == Words([]) + Words(s) by {
      WordsConcat([], '/', s);
      assert [] + ['/'] + s == "/" + s;
    }
  }

  lemma {:induction false} JoinNoSeparator(parts: seq<string>)
    requires forall k :: 0 <= k < |parts| ==> NoSeparator(parts[k])
    ensures NoSeparator(Join("_", parts))
  {
    if |parts| > 1 {
      JoinNoSeparator(parts[..|parts| - 1]);
      var joined := Join("_", parts[..|parts| - 1]) + "_" + parts[|parts| - 1];
      forall i | 0 <= i < |joined|
        ensures !IsSeparator(joined[i])
      {
        if i >= |Join("_", parts[..|parts| - 1])| + 1 {
          assert joined[i] == parts[|parts| - 1][i - |Join("_", parts[..|parts| - 1])| - 1];
        }
      }
    }
  }

  /** A derived key holds no separator and no lowercase letter. */
  lemma KeyAlphabet(path: string, prefix: string, name: string)
    ensures forall i :: 0 <= i < |DerivedKey(path, prefix, name)| ==>
      !IsSeparator(DerivedKey(path, prefix, name)[i]) && !('a' <= DerivedKey(path, prefix, name)[i] <= 'z')
  {
    JoinNoSeparator(Words(prefix + "/" + Drop(name, |path|)));
  }

  // ----- Collecting the parameters -----

  /** A parameter as the store returns it; either part may be missing. */
  datatype Parameter = Parameter(name: Option<string>, value: Option<string>)

  /** Only parameters with a non-empty name and a non-empty value are kept. */
  predicate IsDefined(p: Parameter) {
    p.name.Some? && p.name.value != "" && p.value.Some? && p.value.value != ""
  }

  /** The record `config` fills: each kept parameter's value under its key, the last one winning. */
  function Output(path: string, prefix: string, parameters: seq<Parameter>): seq<(string, string)> {
    if parameters == [] then []
    else
      var rest := Output(path, prefix, parameters[..|parameters| - 1]);
      var p := parameters[|parameters| - 1];
      if IsDefined(p) then Put(rest, DerivedKey(path, prefix, p.name.value), p.value.value) else rest
  }

  /** The value of the last kept parameter whose key is `key`. */
  function LastValue(path: string, prefix: string, parameters: seq<Parameter>, key: string): (r: Option<string>)
    ensures r.Some? <==> exists k :: 0 <= k < |parameters| && IsDefined(parameters[k])
                                      && DerivedKey(path, prefix, parameters[k].name.value) == key
  {
    if parameters == [] then None
    else
      var p := parameters[|parameters| - 1];
      var init := parameters[..|parameters| - 1];
      if IsDefined(p) && DerivedKey(path, prefix, p.name.value) == key then Some(p.value.value)
      else
        var r := LastValue(path, prefix, init, key);
        assert forall k :: 0 <= k < |init| ==> init[k] == parameters[k];
        r
  }

  /** Every key of the record holds the value of the last kept parameter that derives it. */
  lemma {:induction false} OutputLookup(path: string, prefix: string, parameters: seq<Parameter>, key: string)
    ensures Lookup(Output(path, prefix, parameters), key) == LastValue(path, prefix, parameters, key)
  {
    if parameters != [] {
      var init, p := parameters[..|parameters| - 1], parameters[|parameters| - 1];
      OutputLookup(path, prefix, init, key);
      if IsDefined(p) && DerivedKey(path, prefix, p.name.value) != key {
        PutOther(Output(path, prefix, init), DerivedKey(path, prefix, p.name.value), p.value.value, key);
      }
    }
  }

  /** A parameter missing its name or value leaves the record as it was. */
  lemma SkipsUndefined(path: string, prefix: string, parameters: seq<Parameter>, p: Parameter)
    requires !IsDefined(p)
    ensures Output(path, prefix, parameters + [p]) == Output(path, prefix, parameters)
  {
    assert (parameters + [p])[..|parameters|] == parameters;
  }

  lemma {:induction false} OutputDistinct(path: string, prefix: string, parameters: seq<Parameter>)
    ensures Distinct(Keys(Output(path, prefix, parameters)))
  {
    if parameters != [] {
      var init, p := parameters[..|parameters| - 1], parameters[|parameters| - 1];
      OutputDistinct(path, prefix, init);
      if IsDefined(p) {
        PutDistinct(Output(path, prefix, init), DerivedKey(path, prefix, p.name.value), p.value.value);
      }
    }
  }

  // ----- The environment merge -----

  /** The environment after the merge: each key of the record is added unless the environment has it. */
  function Merged(env: map<string, string>, output: seq<(string, string)>): (r: map<string, string>)
    ensures r.Keys == env.Keys + set k | k in Keys(output)
    ensures forall k :: k in env ==> r[k] == env[k]
  {
    if output == [] then env
    else
      var init, last := output[..|output| - 1], output[|output| - 1];
      var merged := Merged(env, init);
      KeysAppend(init, last);
      assert init + [last] == output;
      if last.0 in merged then merged else merged[last.0 := last.1]
  }

  /** A key the environment lacked takes the record's value. */
  lemma {:induction false} MergedAdds(env: map<string, string>, output: seq<(string, string)>, key: string)
    requires key in Keys(output) && key !in env
    ensures key in Merged(env, output) && Some(Merged(env, output)[key]) == Lookup(output, key)
  {
    var init, last := output[..|output| - 1], output[|output| - 1];
    assert init + [last] == output;
    LookupAppend(init, last, key);
    KeysAppend(init, last);
    if key in Keys(init) {
      MergedAdds(env, init, key);
    }
  }

  /** One more entry of the record: added unless the environment already has its key. */
  lemma MergedStep(env: map<string, string>, output: seq<(string, string)>, i: nat)
    requires i < |output|
    ensures var merged := Merged(env, output[..i]);
      Merged(env, output[..i + 1]) == if output[i].0 in merged then merged else merged[output[i].0 := output[i].1]
  {
    assert output[..i + 1][..i] == output[..i];
  }

  /** The process environment `config` writes to. */
  class Environment {
    var variables: map<string, string>

    constructor(variables: map<string, string>)
      ensures this.variables == variables
    {
      this.variables := variables;
    }
  }

  /** The `BeginsWith` name filter of the parameter listing. */
  datatype Filter = Filter(key: string, option: string, values: seq<string>)

  /** A store reading below `path`. */
  class SystemStore {
    const path: string
    const decryption: bool

    constructor(path: string, decryption: bool)
      ensures this.path == path && this.decryption == decryption
    {
      this.path := path;
      this.decryption := decryption;
    }

    /** The listing filters: one `BeginsWith` on the path when there is a path, none otherwise. */
    method Filters() returns (filters: seq<Filter>)
      ensures filters == [] <==> path == ""
      ensures forall k :: 0 <= k < |filters| ==> filters[k] == Filter("Name", "BeginsWith", [path])
      ensures |filters| <= 1
    {
      filters := [];
      if |path| > 0 {
        filters := filters + [Filter("Name", "BeginsWith", [path])];
      }
    }

    /**
     * `config(prefix)` once the parameters are fetched: the record of the
     * kept parameters under their keys, merged into the environment
     * without overwriting.
     */
    method Config(prefix: string, parameters: seq<Parameter>, env: Environment) returns (output: seq<(string, string)>)
      modifies env
      ensures output == Output(path, prefix, parameters)
      ensures env.variables == Merged(old(env.variables), output)
    {
      output := [];
      for i := 0 to |parameters|
        invariant output == Output(path, prefix, parameters[..i])
      {
        assert parameters[..i + 1][..i] == parameters[..i];
        var parameter := parameters[i];
        if parameter.name.None? || parameter.name.value == "" || parameter.value.None? || parameter.value.value == "" {
          continue;
        }
        var name := parameter.name.value;
        name := Drop(name, |path|);
        name := prefix + "/" + name;
        name := Upper(Join("_", NonEmpty(Split(name))));
        output := Put(output, name, parameter.value.value);
      }
      assert parameters[..|parameters|] == parameters;
      ghost var initial := env.variables;
      for i := 0 to |output|
        invariant env.variables == Merged(initial, output[..i])
      {
        MergedStep(initial, output, i);
        var (name, value) := output[i];
        if name !in env.variables {
          env.variables := env.variables[name := value];
        }
      }
      assert output[..|output|] == output;
    }
  }
}
