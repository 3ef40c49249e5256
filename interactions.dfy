/** Captured HTTP traffic: one exchange per request/response pair, grouped into a recording session. */
module Interactions {

  import opened Wrappers
  import opened Text
  import opened PyValues

  /**
   * One captured request/response pair. Header and query dicts keep insertion order;
   * bodies are whatever was decoded (`JNull` when absent). The capture timestamp is not modelled.
   */
  datatype HttpExchange = HttpExchange(
    httpMethod: string,
    url: string,
    path: string,
    queryParams: Dict<string>,
    requestHeaders: Dict<string>,
    requestBody: Json,
    requestContentType: Option<string>,
    statusCode: int,
    responseHeaders: Dict<string>,
    responseBody: Json,
    responseContentType: Option<string>,
    durationMs: Option<real>)

  /** `bool(ct and "json" in ct)` */
  predicate IsJsonType(ct: Option<string>)
  {
    ct.Some? && ct.value != [] && Contains(ct.value, "json")
  }

  predicate IsJsonRequest(ex: HttpExchange) { IsJsonType(ex.requestContentType) }

  predicate IsJsonResponse(ex: HttpExchange) { IsJsonType(ex.responseContentType) }

  predicate IsSuccess(ex: HttpExchange) { 200 <= ex.statusCode < 400 }

  /** A content type is JSON exactly when "json" occurs somewhere in it; a missing one never is. */
  lemma JsonTypeIff(ct: Option<string>)
    ensures IsJsonType(ct) <==> ct.Some? && exists i :: 0 <= i <= |ct.value| - 4 && StartsWith(ct.value[i..], "json")
    ensures ct.None? ==> !IsJsonType(ct)
  {
    if ct.Some? {
      ContainsIff(ct.value, "json");
    }
  }

  /** Success means a 2xx or a 3xx status. */
  lemma SuccessIsTwoOrThreeHundred(ex: HttpExchange)
    requires ex.statusCode >= 0
    ensures IsSuccess(ex) <==> ex.statusCode / 100 == 2 || ex.statusCode / 100 == 3
  {
  }

  /** A recording session; browser events and timestamps are not modelled. */
  datatype InteractionRecord = InteractionRecord(
    sessionId: string,
    appName: string,
    baseUrl: string,
    httpExchanges: seq<HttpExchange>)

  /** `{(ex.method, ex.path) for ex in exchanges}`: raw, un-normalised pairs. */
  function UniqueEndpoints(exchanges: seq<HttpExchange>): (r: set<(string, string)>)
    ensures forall ex :: ex in exchanges ==> (ex.httpMethod, ex.path) in r
    ensures forall p :: p in r ==> exists ex :: ex in exchanges && (ex.httpMethod, ex.path) == p
  {
    set ex | ex in exchanges :: (ex.httpMethod, ex.path)
  }

  /** There are never more distinct endpoints than exchanges. */
  lemma {:induction false} UniqueEndpointsBound(exchanges: seq<HttpExchange>)
    ensures |UniqueEndpoints(exchanges)| <= |exchanges|
    decreases |exchanges|
  {
    if exchanges != [] {
      var last := exchanges[|exchanges| - 1];
      var init := exchanges[..|exchanges| - 1];
      UniqueEndpointsBound(init);
      assert exchanges == init + [last];
      assert UniqueEndpoints(exchanges) == UniqueEndpoints(init) + {(last.httpMethod, last.path)};
    }
  }
}
