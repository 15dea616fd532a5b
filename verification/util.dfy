/** The helpers of package `util`: base64 wrappers, random identifiers,
    HTTP request construction, response-header merging and the status
    check of `GetHTTPBody`. Sockets, `http.Client` and the iris context
    are not modelled; their results are parameters. */
module Util {
  import opened Wrappers
  import opened GoInts
  import Base64

  // ---------------------------------------------------------------------
  // Go string <-> []byte conversions

  /** `string(b)`: each byte becomes one character of the string. */
  function BytesToString(b: seq<byte>): (s: string)
    ensures |s| == |b|
    ensures forall i :: 0 <= i < |b| ==> s[i] as int == b[i]
  {
    seq(|b|, i requires 0 <= i < |b| => b[i] as char)
  }

  // ---------------------------------------------------------------------
  // Base64 helpers

  /** `EncodeBase64`: standard-alphabet, padded encoding. */
  function EncodeBase64(data: seq<byte>): (s: string)
    ensures Base64.Decode(s) == Some(data)
  {
    Base64.RoundTrip(data);
    Base64.Encode(data)
  }

  /** `DecodeBase64`: a decoding failure is logged and yields no bytes. */
  function DecodeBase64(text: string): (r: seq<byte>)
    ensures Base64.Decode(text).Some? ==> r == Base64.Decode(text).value
    ensures Base64.Decode(text).None? ==> r == []
  {
    match Base64.Decode(text)
    case Some(b) => b
    case None => []
  }

  /** Bytes encoded by `EncodeBase64` come back unchanged from `DecodeBase64`. */
  lemma DecodeEncodeBase64(data: seq<byte>)
    ensures DecodeBase64(EncodeBase64(data)) == data
  {
  }

  /** Malformed input never fails: it decodes to the empty byte string. */
  lemma DecodeBase64Malformed(text: string)
    requires |Base64.StripNewlines(text)| % 4 != 0
    ensures DecodeBase64(text) == []
  {
    Base64.DecodeRejectsPartialQuantum(text);
  }

  // ---------------------------------------------------------------------
  // Random strings

  /** The 62 characters `RandomString` draws from. */
  const Charset: string := "abcdefghijklmnopqrstuvwxyz" + "ABCDEFGHIJKLMNOPQRSTUVWXYZ0123456789"

  predicate IsAlphanumeric(c: char) {
    ('a' <= c <= 'z') || ('A' <= c <= 'Z') || ('0' <= c <= '9')
  }

  lemma CharsetIsAlphanumeric()
    ensures |Charset| == 62
    ensures forall i :: 0 <= i < |Charset| ==> IsAlphanumeric(Charset[i])
  {
  }

  /** One draw per character, each a result of `seededRand.Intn(bound)`,
      so in [0, bound). */
  predicate DrawsBelow(length: nat, draws: seq<nat>, bound: nat) {
    |draws| == length && forall i :: 0 <= i < |draws| ==> draws[i] < bound
  }

  /** Draws acceptable for a random string of the given length. */
  predicate ValidDraws(length: nat, draws: seq<nat>) {
    DrawsBelow(length, draws, |Charset|)
  }

  /** `stringWithCharset`: `draws[i]` is what the i-th call of
      `seededRand.Intn(len(charset))` returned. */
  function StringWithCharset(length: nat, charset: string, draws: seq<nat>): (s: string)
    requires DrawsBelow(length, draws, |charset|)
    ensures |s| == length
    ensures forall i :: 0 <= i < length ==> s[i] == charset[draws[i]]
  {
    if length == 0 then []
    else StringWithCharset(length - 1, charset, draws[..length - 1]) + [charset[draws[length - 1]]]
  }

  /** `RandomString(length)` with the random source's draws as an input. */
  function RandomString(length: nat, draws: seq<nat>): (s: string)
    requires ValidDraws(length, draws)
    ensures |s| == length
    ensures forall i :: 0 <= i < |s| ==> s[i] in Charset && IsAlphanumeric(s[i])
  {
    CharsetIsAlphanumeric();
    StringWithCharset(length, Charset, draws)
  }

  /** Each position of a random string is the character its draw selects. */
  lemma RandomStringFollowsDraws(length: nat, draws: seq<nat>, i: nat)
    requires ValidDraws(length, draws)
    requires i < length
    ensures RandomString(length, draws)[i] == Charset[draws[i]]
  {
  }

  // ---------------------------------------------------------------------
  // HTTP requests and responses

  /** The parts of an `*http.Request` the model follows. `body` is `None`
      for a request built with a nil `io.Reader`. */
  datatype Request = Request(verb: string, url: string, header: map<string, string>, body: Option<seq<byte>>)

  datatype Response = Response(statusCode: int, body: seq<byte>)

  /** The three verbs for which `CreateHTTPRequest` calls `http.NewRequest`. */
  predicate IsBuiltVerb(verb: string) {
    verb == "POST" || verb == "GET" || verb == "DELETE"
  }

  /** `CreateHTTPRequest`. `newRequestOk` is whether `http.NewRequest`
      accepts the URL. For a method other than POST, GET or DELETE no
      request is made and `req` stays nil; copying a non-empty header map
      into that nil request then dereferences nil. */
  function CreateHttpRequest(verb: string, url: string, headers: map<string, string>,
                             body: seq<byte>, newRequestOk: bool): (r: Outcome<Result<Option<Request>>>)
    ensures IsBuiltVerb(verb) ==> r.Returns?
    ensures r.Returns? && r.value.Ok? && r.value.value.Some? ==>
      var req := r.value.value.value;
      && req.verb == verb && req.url == url && req.header == headers
      && (req.body.Some? <==> verb != "GET")
      && (req.body.Some? ==> req.body.value == body)
    ensures r.Returns? && r.value.Ok? ==> (r.value.value.Some? <==> IsBuiltVerb(verb))
    ensures r.Returns? ==> (r.value.Err? <==> IsBuiltVerb(verb) && !newRequestOk)
    ensures r.Panics? <==> !IsBuiltVerb(verb) && |headers| > 0
  {
    if IsBuiltVerb(verb) then
      if !newRequestOk then Returns(Err("net/http: invalid request"))
      else
        var payload := if verb == "GET" then None else Some(body);
        Returns(Ok(Some(Request(verb, url, headers, payload))))
    else if |headers| > 0 then Panics("invalid memory address or nil pointer dereference")
    else Returns(Ok(None))
  }

  /** A method other than POST, GET or DELETE with a header to copy makes
      `CreateHTTPRequest` dereference its nil request. */
  lemma UnsupportedVerbPanics(url: string, body: seq<byte>, newRequestOk: bool)
    ensures CreateHttpRequest("PUT", url, map["Accept" := "*/*"], body, newRequestOk).Panics?
  {
  }

  /** What `CreateHTTPRequest` evidently intends: a method other than POST,
      GET or DELETE yields no request, whatever the headers; the three
      supported methods behave as the code does. */
  function CreateHttpRequestFixed(verb: string, url: string, headers: map<string, string>,
                                  body: seq<byte>, newRequestOk: bool): (r: Result<Option<Request>>)
    ensures !IsBuiltVerb(verb) ==> r == Ok(None)
    ensures r.Err? <==> IsBuiltVerb(verb) && !newRequestOk
    ensures r.Ok? && r.value.Some? ==>
      var req := r.value.value;
      && IsBuiltVerb(verb)
      && req.verb == verb && req.url == url && req.header == headers
      && (req.body.Some? <==> verb != "GET")
      && (req.body.Some? ==> req.body.value == body)
  {
    if !IsBuiltVerb(verb) then Ok(None)
    else if !newRequestOk then Err("net/http: invalid request")
    else Ok(Some(Request(verb, url, headers, if verb == "GET" then None else Some(body))))
  }

  /** The corrected function differs from the code exactly where the code
      panics. */
  lemma CreateHttpRequestFixedAgrees(verb: string, url: string, headers: map<string, string>,
                                     body: seq<byte>, newRequestOk: bool)
    ensures CreateHttpRequest(verb, url, headers, body, newRequestOk).Returns? ==>
      CreateHttpRequest(verb, url, headers, body, newRequestOk).value == CreateHttpRequestFixed(verb, url, headers, body, newRequestOk)
    ensures CreateHttpRequest(verb, url, headers, body, newRequestOk).Panics? <==>
      !IsBuiltVerb(verb) && |headers| > 0
  {
  }

  /** The status check of `GetHTTPBody`, given the outcome of the request
      (`GetHTTPResponse` yields a status and a body, or an error). */
  function GetHttpBody(response: Result<Response>): (r: Result<seq<byte>>)
    ensures r.Ok? <==> response.Ok? && 200 <= response.value.statusCode < 400
    ensures r.Ok? ==> r.value == response.value.body
    ensures response.Err? ==> r == Err(response.msg)
  {
    match response
    case Err(msg) => Err(msg)
    case Ok(resp) =>
      if resp.statusCode < 200 || resp.statusCode >= 400 then Err("error while getting HTTP response")
      else Ok(resp.body)
  }

  // ---------------------------------------------------------------------
  // Response headers

  /** `HeadersMap`, the default response headers. */
  const DefaultHeaders: map<string, string> := map["Content-Type" := "application/json"]

  /** The writer's headers after the call, and the caller's map, which Go
      mutates in place when it is not nil. */
  datatype HeaderUpdate = HeaderUpdate(written: map<string, string>, callerMap: Option<map<string, string>>)

  /** `SetResponseHeaders(w, headersMap)`. `writer` is the header map of
      the ResponseWriter, `None` for a nil writer. */
  function SetResponseHeaders(writer: Option<map<string, string>>, headersMap: Option<map<string, string>>): (r: Result<HeaderUpdate>)
    ensures r.Err? <==> writer.None?
    ensures r.Ok? && headersMap.None? ==> r.value.callerMap.None?
    ensures r.Ok? && headersMap.Some? ==> r.value.callerMap.Some?
    ensures r.Ok? ==>
      var applied := if headersMap.Some? then r.value.callerMap.value else DefaultHeaders;
      && (forall k :: k in applied <==> k in DefaultHeaders || (headersMap.Some? && k in headersMap.value))
      && (forall k :: k in DefaultHeaders ==> applied[k] == DefaultHeaders[k])
      && (forall k :: headersMap.Some? && k in headersMap.value && k !in DefaultHeaders ==> applied[k] == headersMap.value[k])
      && (forall k :: k in r.value.written <==> k in writer.value || k in applied)
      && (forall k :: k in applied ==> r.value.written[k] == applied[k])
      && (forall k :: k in writer.value && k !in applied ==> r.value.written[k] == writer.value[k])
  {
    match writer
    case None => Err("please provide a ResponseWriter and a HeadersMap")
    case Some(w) =>
      match headersMap
      case None => Ok(HeaderUpdate(w + DefaultHeaders, None))
      case Some(h) =>
        var merged := h + DefaultHeaders;
        Ok(HeaderUpdate(w + merged, Some(merged)))
  }
}
