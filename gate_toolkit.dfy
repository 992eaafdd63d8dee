/**
 * The response builder handed to a gate handler: a body, a status code and
 * a record of header values under lowercased names, set through chained
 * calls and turned into a lambda result by `build`.
 */
module GateToolkits {
  import opened Results
  import opened Text
  import opened OrderedCollections

  /** The lambda result `build` produces. */
  datatype AwsResult = AwsResult(body: string, statusCode: int, headers: seq<(string, string)>)

  /** What a toolkit holds: body, code and the values of each header, in insertion order. */
  datatype Draft = Draft(body: string, code: int, headers: seq<(string, seq<string>)>)

  /** A fresh toolkit answers 200 with an empty body and no headers. */
  const Defaults: Draft := Draft("", 200, [])

  /** `String(length)` for the non-negative integers `bytes` is given. */
  function LengthText(length: nat): (r: string)
    ensures r != "" && IsDigits(r) && DecimalValue(r) == length
  {
    DecimalRoundTrip(length);
    DecimalDigits(length)
  }

  lemma LowerIdempotent(s: string)
    ensures Lower(Lower(s)) == Lower(s)
  {
  }

  /** `this.$headers[key] ?? []`. */
  function Values(headers: seq<(string, seq<string>)>, key: string): (r: seq<string>)
    ensures Lookup(headers, key).Some? ==> r == Lookup(headers, key).value
    ensures Lookup(headers, key).None? ==> r == []
  {
    match Lookup(headers, key)
    case None => []
    case Some(values) => values
  }

  /**
   * `header(name, value, append)`: the lowercased name keeps its place (or
   * goes last when new) and holds either its earlier values followed by
   * `value`, or `value` alone.
   */
  function WithHeader(headers: seq<(string, seq<string>)>, name: string, value: string, append: bool)
    : (r: seq<(string, seq<string>)>)
    ensures Keys(r) == Insert(Keys(headers), Lower(name))
    ensures Lookup(r, Lower(name)) == Some(if append then Values(headers, Lower(name)) + [value] else [value])
  {
    var key := Lower(name);
    Put(headers, key, if append then Values(headers, key) + [value] else [value])
  }

  /** Setting one header leaves every other header's values as they were. */
  lemma WithHeaderOther(headers: seq<(string, seq<string>)>, name: string, value: string, append: bool, other: string)
    requires other != Lower(name)
    ensures Lookup(WithHeader(headers, name, value, append), other) == Lookup(headers, other)
  {
    PutOther(headers, Lower(name), if append then Values(headers, Lower(name)) + [value] else [value], other);
  }

  /** A header set without appending replaces every value given before under the same name. */
  lemma ReplaceDiscards(headers: seq<(string, seq<string>)>, first: string, v: string, append: bool, second: string, w: string)
    requires Lower(first) == Lower(second)
    ensures WithHeader(WithHeader(headers, first, v, append), second, w, false) == WithHeader(headers, second, w, false)
  {
    PutOverwrites(headers, Lower(first), if append then Values(headers, Lower(first)) + [v] else [v], [w]);
  }

  /** Appending each of `values` in turn under `name`. */
  function AppendAll(headers: seq<(string, seq<string>)>, name: string, values: seq<string>): seq<(string, seq<string>)> {
    if values == [] then headers
    else WithHeader(AppendAll(headers, name, values[..|values| - 1]), name, values[|values| - 1], true)
  }

  /** Appended values accumulate in call order after the values already there. */
  lemma {:induction false} AppendAccumulates(headers: seq<(string, seq<string>)>, name: string, values: seq<string>)
    ensures values != [] ==> Lookup(AppendAll(headers, name, values), Lower(name))
                             == Some(Values(headers, Lower(name)) + values)
  {
    if |values| > 1 {
      var init, last := values[..|values| - 1], values[|values| - 1];
      AppendAccumulates(headers, name, init);
      var prior := AppendAll(headers, name, init);
      assert AppendAll(headers, name, values) == WithHeader(prior, name, last, true);
      assert Values(prior, Lower(name)) == Values(headers, Lower(name)) + init;
      assert Values(headers, Lower(name)) + init + [last] == Values(headers, Lower(name)) + values;
    } else if |values| == 1 {
      assert values[..0] == [] && values == [values[0]];
    }
  }

  /** Header names are stored lowercased and once each. */
  predicate WellFormed(headers: seq<(string, seq<string>)>) {
    Distinct(Keys(headers)) && forall k :: k in Keys(headers) ==> Lower(k) == k
  }

  lemma WithHeaderWellFormed(headers: seq<(string, seq<string>)>, name: string, value: string, append: bool)
    requires WellFormed(headers)
    ensures WellFormed(WithHeader(headers, name, value, append))
  {
    LowerIdempotent(name);
    PutDistinct(headers, Lower(name), if append then Values(headers, Lower(name)) + [value] else [value]);
  }

  /** Each header's values joined with `,`. */
  function Joined(headers: seq<(string, seq<string>)>): (r: seq<(string, string)>)
    ensures Keys(r) == Keys(headers)
  {
    if headers == [] then []
    else
      var rest := Joined(headers[1..]);
      assert Keys([(headers[0].0, Join(",", headers[0].1))] + rest) == [headers[0].0] + Keys(rest) by {
        assert ([(headers[0].0, Join(",", headers[0].1))] + rest)[1..] == rest;
      }
      [(headers[0].0, Join(",", headers[0].1))] + rest
  }

  /** A built header holds exactly the joined values stored under its name. */
  lemma {:induction false} JoinedLookup(headers: seq<(string, seq<string>)>, key: string)
    ensures Lookup(Joined(headers), key)
         == if Lookup(headers, key).Some? then Some(Join(",", Lookup(headers, key).value)) else None
  {
    if headers != [] {
      var rest := Joined(headers[1..]);
      assert ([(headers[0].0, Join(",", headers[0].1))] + rest)[1..] == rest;
      JoinedLookup(headers[1..], key);
    }
  }

  lemma JoinedLookupAll(headers: seq<(string, seq<string>)>)
    ensures forall key :: Lookup(Joined(headers), key)
                       == if Lookup(headers, key).Some? then Some(Join(",", Lookup(headers, key).value)) else None
  {
    forall key {
      JoinedLookup(headers, key);
    }
  }

  /** The result of `build` for a draft. */
  function Built(draft: Draft): (r: AwsResult)
    ensures r.body == draft.body && r.statusCode == draft.code
    ensures Keys(r.headers) == Keys(draft.headers)
  {
    AwsResult(draft.body, draft.code, Joined(draft.headers))
  }

  /** A toolkit whose values were all appended under one name builds them comma-joined. */
  lemma BuiltAppended(draft: Draft, name: string, values: seq<string>)
    requires Lookup(draft.headers, Lower(name)).None? && values != []
    ensures Lookup(Built(draft.(headers := AppendAll(draft.headers, name, values))).headers, Lower(name))
         == Some(Join(",", values))
  {
    AppendAccumulates(draft.headers, name, values);
    JoinedLookup(AppendAll(draft.headers, name, values), Lower(name));
    assert Values(draft.headers, Lower(name)) + values == values;
  }

  /** The response builder. */
  class GateToolkit {
    var body: string
    var code: int
    var headers: seq<(string, seq<string>)>

    ghost function State(): Draft
      reads this
    {
      Draft(body, code, headers)
    }

    ghost predicate Valid()
      reads this
    {
      WellFormed(headers)
    }

    constructor()
      ensures State() == Defaults && Valid()
    {
      body, code, headers := "", 200, [];
    }

    /** `body(text)` for a string body. */
    method Body(text: string)
      modifies this
      ensures State() == old(State()).(body := text)
    {
      body := text;
    }

    method Code(status: int)
      modifies this
      ensures State() == old(State()).(code := status)
    {
      code := status;
    }

    method Header(name: string, value: string, append: bool)
      requires Valid()
      modifies this
      ensures Valid()
      ensures State() == old(State()).(headers := WithHeader(old(headers), name, value, append))
    {
      WithHeaderWellFormed(headers, name, value, append);
      var key := Lower(name);
      if append {
        headers := Put(headers, key, Values(headers, key) + [value]);
      } else {
        headers := Put(headers, key, [value]);
      }
    }

    method Type(mime: string)
      requires Valid()
      modifies this
      ensures Valid()
      ensures State() == old(State()).(headers := WithHeader(old(headers), "content-type", mime, false))
    {
      Header("content-type", mime, false);
    }

    method Bytes(length: nat)
      requires Valid()
      modifies this
      ensures Valid()
      ensures State() == old(State()).(headers := WithHeader(old(headers), "content-length", LengthText(length), false))
    {
      Header("content-length", LengthText(length), false);
    }

    method Location(uri: string)
      requires Valid()
      modifies this
      ensures Valid()
      ensures State() == old(State()).(headers := WithHeader(old(headers), "location", uri, false))
    {
      Header("location", uri, false);
    }

    /** '201 Created' with a location. */
    method Created(location: string)
      requires Valid()
      modifies this
      ensures Valid()
      ensures State() == Draft(old(body), 201, WithHeader(old(headers), "location", location, false))
    {
      Code(201);
      Location(location);
    }

    /** '204 No Content' with an empty body. */
    method Empty()
      modifies this
      ensures State() == old(State()).(code := 204, body := "")
    {
      Code(204);
      Body("");
    }

    /** '302 Found' with a location. */
    method Redirect(location: string)
      requires Valid()
      modifies this
      ensures Valid()
      ensures State() == Draft(old(body), 302, WithHeader(old(headers), "location", location, false))
    {
      Code(302);
      Location(location);
    }

    /** `build`: body and code as set, each header's values joined with `,`. */
    function Build(): (r: AwsResult)
      reads this
      ensures r.body == body && r.statusCode == code
      ensures Keys(r.headers) == Keys(headers)
      ensures forall key :: Lookup(r.headers, key)
                         == if Lookup(headers, key).Some? then Some(Join(",", Lookup(headers, key).value)) else None
    {
      JoinedLookupAll(headers);
      AwsResult(body, code, Joined(headers))
    }
  }
}
