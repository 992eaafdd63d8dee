/**
 * The translation of an injected web-server response into an API Gateway
 * result: the body (a chunked payload decoded, after the pattern of
 * section 7.1 of RFC 9112 without chunk extensions or trailers), the
 * headers without `transfer-encoding` when the payload was chunked, the
 * status code and whether the body is base64 encoded.
 */
module WireResponses {
  import opened Results
  import opened Text
  import opened OrderedCollections

  const Crlf: string := "\r\n"

  predicate ContainsCrlf(s: string) {
    exists i :: 0 <= i < |s| - 1 && s[i] == '\r' && s[i + 1] == '\n'
  }

  /** `s.split('\r\n')`: the pieces between the occurrences of CRLF, left to right. */
  function SplitCrlf(s: string): (r: seq<string>)
    ensures |r| >= 1
    decreases |s|
  {
    if |s| < 2 then [s]
    else if s[0] == '\r' && s[1] == '\n' then [""] + SplitCrlf(s[2..])
    else
      var rest := SplitCrlf(s[1..]);
      [[s[0]] + rest[0]] + rest[1..]
  }

  /** Splitting is undone by joining with CRLF. */
  lemma {:induction false} SplitJoin(s: string)
    ensures Join(Crlf, SplitCrlf(s)) == s
    decreases |s|
  {
    if |s| >= 2 {
      if s[0] == '\r' && s[1] == '\n' {
        SplitJoin(s[2..]);
        JoinPrepend(Crlf, "", SplitCrlf(s[2..]));
      } else {
        var rest := SplitCrlf(s[1..]);
        SplitJoin(s[1..]);
        if |rest| == 1 {
          assert Join(Crlf, rest) == rest[0];
        } else {
          JoinPrepend(Crlf, rest[0], rest[1..]);
          JoinPrepend(Crlf, [s[0]] + rest[0], rest[1..]);
          assert rest == [rest[0]] + rest[1..];
        }
      }
    }
  }

  /** A piece without CRLF followed by CRLF is split off whole. */
  lemma {:induction false} SplitAfter(a: string, b: string)
    requires !ContainsCrlf(a)
    ensures SplitCrlf(a + Crlf + b) == [a] + SplitCrlf(b)
    decreases |a|
  {
    var s := a + Crlf + b;
    if a == [] {
      assert s[2..] == b;
    } else {
      assert s[1..] == a[1..] + Crlf + b;
      assert !ContainsCrlf(a[1..]) by {
        forall i | 0 <= i < |a[1..]| - 1
          ensures !(a[1..][i] == '\r' && a[1..][i + 1] == '\n')
        {
          assert a[1..][i] == a[i + 1] && a[1..][i + 1] == a[i + 2];
        }
      }
      SplitAfter(a[1..], b);
      if |a| == 1 {
        assert s[0] == a[0] && s[1] == '\r';
      } else {
        assert !(a[0] == '\r' && a[1] == '\n');
      }
      assert [a[0]] + a[1..] == a;
    }
  }

  // ----- Number.parseInt(s, 16) -----

  predicate IsHexDigit(c: char) { '0' <= c <= '9' || 'a' <= c <= 'f' || 'A' <= c <= 'F' }

  function HexDigitValue(c: char): (v: nat)
    ensures v < 16
  {
    if '0' <= c <= '9' then c as int - '0' as int
    else if 'a' <= c <= 'f' then c as int - 'a' as int + 10
    else if 'A' <= c <= 'F' then c as int - 'A' as int + 10
    else 0
  }

  /** The value of a string of hexadecimal digits. */
  function HexValue(s: string): nat {
    if s == [] then 0 else HexValue(s[..|s| - 1]) * 16 + HexDigitValue(s[|s| - 1])
  }

  /** The end of the run of white space from `i` on. */
  function SpaceEnd(s: string, i: nat): (j: nat)
    requires i <= |s|
    ensures i <= j <= |s| && (j < |s| ==> !IsWhiteSpace(s[j]))
    decreases |s| - i
  {
    if i < |s| && IsWhiteSpace(s[i]) then SpaceEnd(s, i + 1) else i
  }

  /** The end of the run of hexadecimal digits from `i` on. */
  function HexEnd(s: string, i: nat): (j: nat)
    requires i <= |s|
    ensures i <= j <= |s| && (j < |s| ==> !IsHexDigit(s[j]))
    ensures forall k :: i <= k < j ==> IsHexDigit(s[k])
    decreases |s| - i
  {
    if i < |s| && IsHexDigit(s[i]) then HexEnd(s, i + 1) else i
  }

  /**
   * `Number.parseInt(s, 16)`: leading white space, an optional sign, an
   * optional `0x`/`0X`, then the longest run of hexadecimal digits; no
   * digits at all is NaN (absent).
   */
  function ParseHex(s: string): Option<int> {
    var i := SpaceEnd(s, 0);
    var negative := i < |s| && s[i] == '-';
    var j := if i < |s| && (s[i] == '-' || s[i] == '+') then i + 1 else i;
    var k := if OccursAt(s, "0x", j) || OccursAt(s, "0X", j) then j + 2 else j;
    var e := HexEnd(s, k);
    var magnitude: int := HexValue(s[k..e]);
    if e == k then None else Some(if negative then -magnitude else magnitude)
  }

  /** The end index a chunk's data is sliced to: `Math.max(0, parseInt(size, 16))`, NaN slicing to nothing. */
  function ChunkSize(size: string): (n: nat)
    ensures ParseHex(size).None? ==> n == 0
    ensures ParseHex(size).Some? ==> n == if ParseHex(size).value < 0 then 0 else ParseHex(size).value
  {
    match ParseHex(size)
    case None => 0
    case Some(v) => if v < 0 then 0 else v
  }

  /** A chunk's data truncated to its size. */
  function ChunkText(size: string, data: string): (r: string)
    ensures |r| == if ChunkSize(size) < |data| then ChunkSize(size) else |data|
    ensures r == data[..|r|]
  {
    if ChunkSize(size) < |data| then data[..ChunkSize(size)] else data
  }

  /** The decoded body of the split payload: each (size, data) pair with non-empty data, truncated and concatenated. */
  function DecodePieces(raw: seq<string>): string
    decreases |raw|
  {
    if |raw| < 2 then ""
    else (if raw[1] != "" then ChunkText(raw[0], raw[1]) else "") + DecodePieces(raw[2..])
  }

  /** The chunked decoding of a payload. */
  function DecodeChunked(payload: string): string {
    DecodePieces(SplitCrlf(payload))
  }

  /** The pieces from `index` on, none once the index has run past the end. */
  function Rest(raw: seq<string>, index: nat): seq<string> {
    if index < |raw| then raw[index..] else []
  }

  /** One (size, data) pair of the decoding. */
  lemma DecodeStep(raw: seq<string>, index: nat)
    requires index < |raw|
    ensures DecodePieces(Rest(raw, index))
         == (if index + 1 < |raw| && raw[index + 1] != "" then ChunkText(raw[index], raw[index + 1]) else "")
            + DecodePieces(Rest(raw, index + 2))
  {
    var rest := raw[index..];
    if index + 1 < |raw| {
      assert rest[0] == raw[index] && rest[1] == raw[index + 1];
      assert rest[2..] == Rest(raw, index + 2);
    }
  }

  /** `parts.push(part)` adds `part` to the end of `parts.join('')`. */
  lemma ConcatStep(parts: seq<string>, part: string)
    ensures Join("", parts + [part]) == Join("", parts) + part
  {
    JoinAppend("", parts, part);
    if parts != [] {
      assert Join("", parts) + "" == Join("", parts);
    } else {
      assert Join("", parts) == "";
    }
  }

  /** A pair with data adds its truncated data to the parts. */
  lemma PushedChunk(raw: seq<string>, index: nat, parts: seq<string>)
    requires index + 1 < |raw| && raw[index + 1] != ""
    requires Join("", parts) + DecodePieces(Rest(raw, index)) == DecodePieces(raw)
    ensures Join("", parts + [ChunkText(raw[index], raw[index + 1])]) + DecodePieces(Rest(raw, index + 2))
         == DecodePieces(raw)
  {
    DecodeStep(raw, index);
    var part := ChunkText(raw[index], raw[index + 1]);
    var decoded, later := Join("", parts), DecodePieces(Rest(raw, index + 2));
    assert DecodePieces(Rest(raw, index)) == part + later;
    ConcatStep(parts, part);
    ConcatAssociative(decoded, part, later);
  }

  /** A pair without data, or a size without a pair, adds nothing. */
  lemma SkippedChunk(raw: seq<string>, index: nat, parts: seq<string>)
    requires index < |raw| && !(index + 1 < |raw| && raw[index + 1] != "")
    requires Join("", parts) + DecodePieces(Rest(raw, index)) == DecodePieces(raw)
    ensures Join("", parts) + DecodePieces(Rest(raw, index + 2)) == DecodePieces(raw)
  {
    DecodeStep(raw, index);
    assert "" + DecodePieces(Rest(raw, index + 2)) == DecodePieces(Rest(raw, index + 2));
  }

  /** The chunked branch of the `body` getter. */
  method ChunkedBody(payload: string) returns (body: string)
    ensures body == DecodeChunked(payload)
  {
    var raw := SplitCrlf(payload);
    var parts: seq<string> := [];
    var index := 0;
    assert raw[0..] == raw;
    while index < |raw|
      invariant index <= |raw| + 1
      invariant Join("", parts) + DecodePieces(Rest(raw, index)) == DecodePieces(raw)
      decreases |raw| - index
    {
      if index + 1 < |raw| && raw[index + 1] != "" {
        PushedChunk(raw, index, parts);
        parts := parts + [ChunkText(raw[index], raw[index + 1])];
      } else {
        SkippedChunk(raw, index, parts);
      }
      index := index + 2;
    }
    body := Join("", parts);
  }

  // ----- Encoding side: the chunked payload a sender writes -----

  function HexDigit(d: nat): (c: char)
    requires d < 16
    ensures IsHexDigit(c) && HexDigitValue(c) == d
  {
    if d < 10 then ('0' as int + d) as char else ('a' as int + d - 10) as char
  }

  /** The lowercase hexadecimal notation of `n`. */
  function HexDigits(n: nat): (s: string)
    ensures |s| > 0 && forall k :: 0 <= k < |s| ==> IsHexDigit(s[k])
  {
    if n < 16 then [HexDigit(n)] else HexDigits(n / 16) + [HexDigit(n % 16)]
  }

  lemma {:induction false} HexRoundTrip(n: nat)
    ensures HexValue(HexDigits(n)) == n
  {
    if n >= 16 {
      var s := HexDigits(n);
      assert s[..|s| - 1] == HexDigits(n / 16);
      HexRoundTrip(n / 16);
    }
  }

  /** Hexadecimal digits parse back to their value, whatever non-digit text follows them. */
  lemma ParseHexDigits(n: nat, tail: string)
    requires tail == "" || (!IsHexDigit(tail[0]) && tail[0] != 'x' && tail[0] != 'X')
    ensures ParseHex(HexDigits(n) + tail) == Some(n)
  {
    var d := HexDigits(n);
    var s := d + tail;
    assert s[0] == d[0] && !IsWhiteSpace(s[0]);
    assert SpaceEnd(s, 0) == 0;
    assert !OccursAt(s, "0x", 0) && !OccursAt(s, "0X", 0) by {
      if |s| >= 2 {
        assert s[0..2][1] == s[1];
        if |d| >= 2 { assert s[1] == d[1] && IsHexDigit(d[1]); } else { assert s[1] == tail[0]; }
      }
    }
    var e := HexEnd(s, 0);
    assert e == |d| by {
      assert forall k :: 0 <= k < |d| ==> s[k] == d[k] && IsHexDigit(s[k]);
      assert |d| < |s| ==> s[|d|] == tail[0] && !IsHexDigit(s[|d|]);
    }
    assert s[0..e] == d;
    HexRoundTrip(n);
  }

  /** No digits at all parse to NaN (absent), so such a chunk contributes nothing. */
  lemma DigitlessChunkEmpty(size: string, data: string)
    requires forall k :: 0 <= k < |size| ==> !IsHexDigit(size[k])
    ensures ChunkText(size, data) == ""
  {
    var i := SpaceEnd(size, 0);
    var j := if i < |size| && (size[i] == '-' || size[i] == '+') then i + 1 else i;
    if OccursAt(size, "0x", j) {
      assert size[j..j + 2][0] == '0' && IsHexDigit(size[j]);
    } else if OccursAt(size, "0X", j) {
      assert size[j..j + 2][0] == '0' && IsHexDigit(size[j]);
    } else {
      assert HexEnd(size, j) == j;
    }
  }

  /** The chunked payload of `chunks`: each as hex size, CRLF, data, CRLF; then the last chunk `0` and an empty trailer. */
  function EncodeChunks(chunks: seq<string>): string {
    if chunks == [] then "0" + Crlf + Crlf
    else HexDigits(|chunks[0]|) + Crlf + chunks[0] + Crlf + EncodeChunks(chunks[1..])
  }

  function Concat(parts: seq<string>): string {
    if parts == [] then "" else parts[0] + Concat(parts[1..])
  }

  lemma NoCrlfInHex(n: nat)
    ensures !ContainsCrlf(HexDigits(n))
  {
    var s := HexDigits(n);
    assert forall i :: 0 <= i < |s| ==> s[i] != '\r';
  }

  /** Decoding a chunked payload of non-empty chunks that hold no CRLF gives back their concatenation. */
  lemma {:induction false} DecodeEncodeChunks(chunks: seq<string>)
    requires forall k :: 0 <= k < |chunks| ==> chunks[k] != "" && !ContainsCrlf(chunks[k])
    ensures DecodeChunked(EncodeChunks(chunks)) == Concat(chunks)
  {
    if chunks == [] {
      assert !ContainsCrlf("0");
      SplitAfter("0", Crlf);
      SplitAfter("", "");
      assert "" + Crlf + "" == Crlf;
      assert SplitCrlf(EncodeChunks(chunks)) == ["0", "", ""];
      assert ["0", "", ""][2..] == [""];
    } else {
      var c := chunks[0];
      var rest := EncodeChunks(chunks[1..]);
      var hex := HexDigits(|c|);
      NoCrlfInHex(|c|);
      assert EncodeChunks(chunks) == hex + Crlf + (c + Crlf + rest);
      SplitAfter(hex, c + Crlf + rest);
      SplitAfter(c, rest);
      var raw := SplitCrlf(EncodeChunks(chunks));
      assert raw == [hex, c] + SplitCrlf(rest);
      assert raw[2..] == SplitCrlf(rest);
      ParseHexDigits(|c|, "");
      assert hex + "" == hex;
      assert ChunkText(hex, c) == c;
      DecodeEncodeChunks(chunks[1..]);
    }
  }

  // ----- Headers and encoding flag -----

  /** The response is chunked when `transfer-encoding` is exactly `chunked`. */
  predicate IsChunked(headers: seq<(string, string)>) {
    Lookup(headers, "transfer-encoding") == Some("chunked")
  }

  /** The headers the result carries. */
  function StrippedHeaders(headers: seq<(string, string)>): (r: seq<(string, string)>)
    ensures !IsChunked(headers) ==> r == headers
    ensures IsChunked(headers) ==> Lookup(r, "transfer-encoding").None?
  {
    if IsChunked(headers) then Remove(headers, "transfer-encoding") else headers
  }

  /** Only `transfer-encoding` is touched. */
  lemma StrippedOther(headers: seq<(string, string)>, key: string)
    requires key != "transfer-encoding"
    ensures Lookup(StrippedHeaders(headers), key) == Lookup(headers, key)
  {
    if IsChunked(headers) {
      RemoveOther(headers, "transfer-encoding", key);
    }
  }

  /** `/; *charset=/` finds a match in `s`: a `;`, spaces, then `charset=`. */
  predicate HasCharset(s: string) {
    exists i, j :: 0 <= i < j <= |s| && s[i] == ';' && (forall k :: i < k < j ==> s[k] == ' ') && OccursAt(s, "charset=", j)
  }

  /** `isBase64Encoded`: a content type without a charset, or a content encoding other than `identity`. */
  predicate IsBase64Encoded(headers: seq<(string, string)>) {
    var contentType := Lookup(headers, "content-type");
    var encoding := Lookup(headers, "content-encoding");
    (contentType.Some? && contentType.value != "" && !HasCharset(contentType.value))
    || (encoding.Some? && encoding.value != "" && encoding.value != "identity")
  }

  /** A content type with no parameters at all marks the body as base64. */
  lemma BareTypeIsBase64(headers: seq<(string, string)>)
    requires Lookup(headers, "content-type").Some?
    requires Lookup(headers, "content-type").value != "" && ';' !in Lookup(headers, "content-type").value
    ensures IsBase64Encoded(headers)
  {
  }

  /** A charset parameter, with no encoding beyond `identity`, marks the body as text. */
  lemma CharsetIsText(headers: seq<(string, string)>, mime: string, spaces: nat, rest: string)
    requires Lookup(headers, "content-type") == Some(mime + ";" + seq(spaces, _ => ' ') + "charset=" + rest)
    requires Lookup(headers, "content-encoding").None? || Lookup(headers, "content-encoding") == Some("identity")
    ensures !IsBase64Encoded(headers)
  {
    var s := mime + ";" + seq(spaces, _ => ' ') + "charset=" + rest;
    var i, j := |mime|, |mime| + 1 + spaces;
    assert s[i] == ';';
    assert forall k :: i < k < j ==> s[k] == ' ';
    assert s[j..j + 8] == "charset=";
    assert OccursAt(s, "charset=", j);
    assert HasCharset(s);
  }

  /** A content encoding other than `identity` marks the body as base64. */
  lemma EncodingIsBase64(headers: seq<(string, string)>)
    requires Lookup(headers, "content-encoding").Some?
    requires Lookup(headers, "content-encoding").value !in {"", "identity"}
    ensures IsBase64Encoded(headers)
  {
  }

  // ----- The response -----

  /** A result body: text, or the base64 text of the raw payload's bytes. */
  datatype ResponseBody = TextBody(text: string) | Base64Body(payload: string)

  /** The `body` getter on the headers as the server sent them. */
  function BodyOf(headers: seq<(string, string)>, rawPayload: string): (r: ResponseBody)
    ensures IsChunked(headers) ==> r == TextBody(DecodeChunked(rawPayload))
    ensures !IsChunked(headers) ==> r == if IsBase64Encoded(headers) then Base64Body(rawPayload) else TextBody(rawPayload)
  {
    if IsChunked(headers) then TextBody(DecodeChunked(rawPayload))
    else if IsBase64Encoded(headers) then Base64Body(rawPayload)
    else TextBody(rawPayload)
  }

  datatype AwsResult = AwsResult(body: ResponseBody, headers: seq<(string, string)>, statusCode: int, isBase64Encoded: bool)

  /** The response of the server, whose header record `encode` changes in place. */
  class WireResponse {
    var headers: seq<(string, string)>
    const rawPayload: string
    const statusCode: int

    constructor(headers: seq<(string, string)>, rawPayload: string, statusCode: int)
      ensures this.headers == headers && this.rawPayload == rawPayload && this.statusCode == statusCode
    {
      this.headers, this.rawPayload, this.statusCode := headers, rawPayload, statusCode;
    }

    /** The `body` getter. */
    method Body() returns (r: ResponseBody)
      ensures r == BodyOf(headers, rawPayload)
    {
      if Lookup(headers, "transfer-encoding") == Some("chunked") {
        var text := ChunkedBody(rawPayload);
        return TextBody(text);
      }
      if IsBase64Encoded(headers) {
        return Base64Body(rawPayload);
      }
      return TextBody(rawPayload);
    }

    /** The `headers` getter: it deletes `transfer-encoding` from a chunked response's headers. */
    method Headers() returns (r: seq<(string, string)>)
      modifies this
      ensures headers == StrippedHeaders(old(headers)) && r == headers
    {
      if Lookup(headers, "transfer-encoding") == Some("chunked") {
        headers := Remove(headers, "transfer-encoding");
      }
      r := headers;
    }

    /** `encode`: body, headers, status code and encoding flag, read in that order. */
    method Encode() returns (r: AwsResult)
      modifies this
      ensures headers == StrippedHeaders(old(headers))
      ensures r == AwsResult(BodyOf(old(headers), rawPayload), headers, statusCode, IsBase64Encoded(old(headers)))
    {
      var body := Body();
      ghost var before := headers;
      var stripped := Headers();
      StrippedOther(before, "content-type");
      StrippedOther(before, "content-encoding");
      r := AwsResult(body, stripped, statusCode, IsBase64Encoded(headers));
    }
  }
}
