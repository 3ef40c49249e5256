/**
 * The observer's capture modes and its HTTP Archive import: each `log.entries[]` object becomes
 * one exchange, in entry order. Reading the file, JSON decoding and URL parsing are oracles.
 */
module HttpProxy {

  import opened Wrappers
  import opened Text
  import opened PyValues
  import opened Registry
  import opened Interactions

  /** A `{"name": ..., "value": ...}` pair of a HAR header or query-string array. */
  datatype NameValue = NameValue(name: string, value: string)

  /**
   * A HAR `postData` or `content` object: its `text` and `mimeType` (`None` when absent or null),
   * and whether the object has any key at all, which is what makes it truthy.
   */
  datatype HarBody = HarBody(text: Option<string>, mimeType: Option<string>, hasKeys: bool)

  /** A HAR request; `None` marks an absent key. */
  datatype HarRequest = HarRequest(
    httpMethod: Option<string>,
    url: Option<string>,
    queryString: seq<NameValue>,
    headers: seq<NameValue>,
    postData: Option<HarBody>)

  /** A HAR response; `None` marks an absent key. */
  datatype HarResponse = HarResponse(
    status: Option<int>,
    headers: seq<NameValue>,
    content: Option<HarBody>)

  /** One `log.entries[]` object; an absent request or response reads as `{}`. */
  datatype HarEntry = HarEntry(request: Option<HarRequest>, response: Option<HarResponse>, time: Option<real>)

  const EmptyRequest: HarRequest := HarRequest(None, None, [], [], None)
  const EmptyResponse: HarResponse := HarResponse(None, [], None)

  /** The decoded HAR document: `log` and its `entries` may be absent. */
  datatype HarFile = HarFile(log: Option<Option<seq<HarEntry>>>)

  /** `har_data.get("log", {}).get("entries", [])` */
  function EntriesOf(har: HarFile): seq<HarEntry>
  {
    match har.log
    case Some(Some(entries)) => entries
    case _ => []
  }

  // ---------------------------------------------------------------- one entry

  function AnyPair(p: NameValue): bool { true }
  function PairName(p: NameValue): string { p.name }
  function PairValue(p: NameValue): string { p.value }

  /** `{p["name"]: p["value"] for p in pairs}`: a later duplicate name overwrites an earlier one. */
  function PairsDict(pairs: seq<NameValue>): Dict<string>
  {
    Register(pairs, AnyPair, PairName, PairValue)
  }

  /** `query_params[qp["name"]] = qp["value"]` for each pair, in order. */
  method QueryParams(pairs: seq<NameValue>) returns (d: Dict<string>)
    ensures d == PairsDict(pairs)
  {
    d := [];
    for i := 0 to |pairs|
      invariant d == Register(pairs[..i], AnyPair, PairName, PairValue)
    {
      RegisterSnoc(pairs, i, AnyPair, PairName, PairValue);
      d := Put(d, pairs[i].name, pairs[i].value);
    }
    assert pairs[..|pairs|] == pairs;
  }

  /** The text is decoded only when the MIME type is non-empty and mentions "json" and the text is non-empty. */
  predicate Decodable(b: HarBody)
  {
    IsJsonType(b.mimeType) && b.text.Some? && b.text.value != []
  }

  /** A body and its content type: nothing for a falsy object; the decoded text, or the raw text when decoding fails. */
  function BodyOf(b: Option<HarBody>, decode: string -> Option<Json>): (Json, Option<string>)
  {
    match b
    case None => (JNull, None)
    case Some(body) =>
      if !body.hasKeys then (JNull, None)
      else
        var raw := if body.text.Some? then JStr(body.text.value) else JNull;
        if Decodable(body) then
          match decode(body.text.value)
          case Some(v) => (v, body.mimeType)
          case None => (raw, body.mimeType)
        else (raw, body.mimeType)
  }

  /** The exchange one entry becomes, with `pathOf` standing for `urlparse(url).path`. */
  function ExchangeOf(e: HarEntry, decode: string -> Option<Json>, pathOf: string -> string): HttpExchange
  {
    var req := e.request.GetOr(EmptyRequest);
    var resp := e.response.GetOr(EmptyResponse);
    var url := req.url.GetOr("");
    var (reqBody, reqType) := BodyOf(req.postData, decode);
    var (respBody, respType) := BodyOf(resp.content, decode);
    HttpExchange(
      req.httpMethod.GetOr("GET"), url, pathOf(url), PairsDict(req.queryString), PairsDict(req.headers),
      reqBody, reqType, resp.status.GetOr(0), PairsDict(resp.headers), respBody, respType,
      Some(e.time.GetOr(0.0)))
  }

  /** The exchanges of a list of entries, in entry order. */
  function ExchangesOf(entries: seq<HarEntry>, decode: string -> Option<Json>, pathOf: string -> string): (r: seq<HttpExchange>)
    ensures |r| == |entries|
    decreases |entries|
  {
    if entries == [] then []
    else ExchangesOf(entries[..|entries| - 1], decode, pathOf) + [ExchangeOf(entries[|entries| - 1], decode, pathOf)]
  }

  /** `_parse_har_file` on the decoded document. */
  method ParseHarFile(har: HarFile, decode: string -> Option<Json>, pathOf: string -> string)
    returns (exchanges: seq<HttpExchange>)
    ensures exchanges == ExchangesOf(EntriesOf(har), decode, pathOf)
  {
    var entries := EntriesOf(har);
    exchanges := [];
    for i := 0 to |entries|
      invariant exchanges == ExchangesOf(entries[..i], decode, pathOf)
    {
      var e := entries[i];
      var req := e.request.GetOr(EmptyRequest);
      var resp := e.response.GetOr(EmptyResponse);
      var queryParams := QueryParams(req.queryString);
      var url := req.url.GetOr("");
      var (reqBody, reqType) := BodyOf(req.postData, decode);
      var (respBody, respType) := BodyOf(resp.content, decode);
      var ex := HttpExchange(
        req.httpMethod.GetOr("GET"), url, pathOf(url), queryParams, PairsDict(req.headers),
        reqBody, reqType, resp.status.GetOr(0), PairsDict(resp.headers), respBody, respType,
        Some(e.time.GetOr(0.0)));
      assert entries[..i + 1][..i] == entries[..i];
      exchanges := exchanges + [ex];
    }
    assert entries[..|entries|] == entries;
  }

  // ---------------------------------------------------------------- capture modes

  /** What the observer is given: pre-captured exchanges and an optional HAR path. */
  datatype ObserverInput = ObserverInput(
    appName: string,
    baseUrl: string,
    proxyPort: int,
    capturedExchanges: seq<HttpExchange>,
    harFilePath: Option<string>)

  /**
   * `ObserverAgent.run`: pre-captured exchanges win; otherwise a non-empty HAR path is read
   * (`readHar` decodes the file); otherwise the record stays empty.
   */
  method Observe(input: ObserverInput, sessionId: string, readHar: string -> HarFile,
                 decode: string -> Option<Json>, pathOf: string -> string)
    returns (record: InteractionRecord)
    ensures record.sessionId == sessionId && record.appName == input.appName && record.baseUrl == input.baseUrl
    ensures input.capturedExchanges != [] ==> record.httpExchanges == input.capturedExchanges
    ensures input.capturedExchanges == [] && input.harFilePath.Some? && input.harFilePath.value != [] ==>
      record.httpExchanges == ExchangesOf(EntriesOf(readHar(input.harFilePath.value)), decode, pathOf)
    ensures input.capturedExchanges == [] && (input.harFilePath.None? || input.harFilePath.value == []) ==>
      record.httpExchanges == []
  {
    var exchanges: seq<HttpExchange> := [];
    if input.capturedExchanges != [] {
      for i := 0 to |input.capturedExchanges|
        invariant exchanges == input.capturedExchanges[..i]
      {
        exchanges := exchanges + [input.capturedExchanges[i]];
      }
      assert input.capturedExchanges[..|input.capturedExchanges|] == input.capturedExchanges;
    } else if input.harFilePath.Some? && input.harFilePath.value != [] {
      var parsed := ParseHarFile(readHar(input.harFilePath.value), decode, pathOf);
      exchanges := exchanges + parsed;
    }
    record := InteractionRecord(sessionId, input.appName, input.baseUrl, exchanges);
  }

  // ---------------------------------------------------------------- properties

  /** Exchange `i` is made from entry `i`. */
  lemma {:induction false} ExchangeAt(entries: seq<HarEntry>, decode: string -> Option<Json>, pathOf: string -> string, i: nat)
    requires i < |entries|
    ensures ExchangesOf(entries, decode, pathOf)[i] == ExchangeOf(entries[i], decode, pathOf)
    decreases |entries|
  {
    var n := |entries| - 1;
    if i < n {
      ExchangeAt(entries[..n], decode, pathOf, i);
      assert entries[..n][i] == entries[i];
    }
  }

  /** A name maps to the value of its last pair: later duplicates overwrite earlier ones. */
  lemma LastPairWins(pairs: seq<NameValue>, i: nat)
    requires i < |pairs|
    requires forall j :: i < j < |pairs| ==> pairs[j].name != pairs[i].name
    ensures Get(PairsDict(pairs), pairs[i].name) == Some(pairs[i].value)
  {
    var k := pairs[i].name;
    RegisterHas(pairs, AnyPair, PairName, PairValue, k);
    var c := LastWitness(pairs, AnyPair, PairName, PairValue, k);
    assert AnyPair(pairs[i]);
  }

  /** Missing fields default to method GET, url "", status 0 and duration 0. */
  lemma EntryDefaults(e: HarEntry, decode: string -> Option<Json>, pathOf: string -> string)
    ensures var ex := ExchangeOf(e, decode, pathOf);
      (e.request.None? || e.request.value.httpMethod.None? ==> ex.httpMethod == "GET")
      && (e.request.None? || e.request.value.url.None? ==> ex.url == "" && ex.path == pathOf(""))
      && (e.response.None? || e.response.value.status.None? ==> ex.statusCode == 0)
      && (e.time.None? ==> ex.durationMs == Some(0.0))
      && (e.request.None? ==> ex.requestBody == JNull && ex.requestContentType.None? && ex.queryParams == [])
  {
  }

  /** A body is decoded exactly when it is decodable; a failed decode keeps the raw text; a falsy object gives nothing. */
  lemma BodyRule(b: HarBody, decode: string -> Option<Json>)
    requires b.hasKeys
    ensures Decodable(b) && decode(b.text.value).Some? ==> BodyOf(Some(b), decode).0 == decode(b.text.value).value
    ensures !(Decodable(b) && decode(b.text.value).Some?) ==>
      BodyOf(Some(b), decode).0 == (if b.text.Some? then JStr(b.text.value) else JNull)
    ensures BodyOf(Some(b), decode).1 == b.mimeType
  {
  }

  /** The parsed request counts as JSON exactly when its `postData` object is truthy with a JSON MIME type. */
  lemma ParsedJsonRequest(e: HarEntry, decode: string -> Option<Json>, pathOf: string -> string)
    ensures IsJsonRequest(ExchangeOf(e, decode, pathOf)) <==>
      e.request.Some? && e.request.value.postData.Some? && e.request.value.postData.value.hasKeys
      && IsJsonType(e.request.value.postData.value.mimeType)
  {
  }
}
