/** The CORS middleware of the HTTP server: a request from a configured origin
    gets the CORS headers; a preflight is answered 204; everything else is passed on. */
module HttpServer {
  import opened Http

  /** The headers the middleware sets for an allowed origin. */
  function CorsHeaders(origin: string): (h: map<string, string>)
    ensures h.Keys == {"Access-Control-Allow-Origin", "Vary", "Access-Control-Allow-Credentials",
                       "Access-Control-Allow-Headers", "Access-Control-Allow-Methods"}
    ensures h["Access-Control-Allow-Origin"] == origin && h["Vary"] == "Origin"
    ensures h["Access-Control-Allow-Credentials"] == "true"
  {
    map["Access-Control-Allow-Origin" := origin,
        "Vary" := "Origin",
        "Access-Control-Allow-Credentials" := "true",
        "Access-Control-Allow-Headers" := "Content-Type, X-CSRF-Token",
        "Access-Control-Allow-Methods" := "GET, POST, PUT, PATCH, DELETE, OPTIONS"]
  }

  /** What the middleware did: the response headers, and whether it passed the
      request on (otherwise it answered 204). */
  datatype CorsOutcome = CorsOutcome(headers: map<string, string>, forwarded: bool)

  /** The decision both copies of handleCors make. `origin` is the Origin header
      ("" when absent) and `headers` the response headers before the middleware. */
  function CorsDecision(origins: seq<string>, origin: string, verb: string, headers: map<string, string>): (r: CorsOutcome)
    ensures origin != "" && origin in origins ==> r.headers == headers + CorsHeaders(origin)
    ensures !(origin != "" && origin in origins) ==> r.headers == headers
    ensures r.forwarded <==> verb != "OPTIONS"
  {
    var allowed := origin in origins;
    var h := if origin != "" && allowed then headers + CorsHeaders(origin) else headers;
    CorsOutcome(h, verb != "OPTIONS")
  }

  /** The membership loop with its `allowed` flag and `break`. */
  method OriginListed(origins: seq<string>, origin: string) returns (allowed: bool)
    ensures allowed <==> origin in origins
  {
    allowed := false;
    var i := 0;
    while i < |origins|
      invariant 0 <= i <= |origins|
      invariant !allowed && origin !in origins[..i]
    {
      if origin == origins[i] {
        allowed := true;
        break;
      }
      i := i + 1;
      assert origins[..i] == origins[..i - 1] + [origins[i - 1]];
    }
    assert allowed || origins[..i] == origins;
  }

  datatype CorsConfig = CorsConfig(origins: seq<string>)

  /** handleCors of the HTTP server. */
  method HandleCors(configuration: CorsConfig, origin: string, verb: string, headers: map<string, string>)
    returns (r: CorsOutcome)
    ensures r == CorsDecision(configuration.origins, origin, verb, headers)
  {
    var allowed := OriginListed(configuration.origins, origin);
    var h := headers;
    if origin != "" && allowed {
      h := h + CorsHeaders(origin);
    }
    if verb == "OPTIONS" {
      return CorsOutcome(h, false);
    }
    r := CorsOutcome(h, true);
  }

  /** An empty Origin never gets CORS headers, even when "" is configured. */
  lemma EmptyOriginNoHeaders(origins: seq<string>, verb: string, headers: map<string, string>)
    ensures CorsDecision(origins, "", verb, headers).headers == headers
  {
  }

  /** An origin gets the headers only when listed exactly; a preflight is answered
      whether or not it is, and its headers do not depend on the method. */
  lemma PreflightAlwaysAnswered(origins: seq<string>, origin: string, headers: map<string, string>)
    ensures !CorsDecision(origins, origin, "OPTIONS", headers).forwarded
    ensures CorsDecision(origins, origin, "OPTIONS", headers).headers == CorsDecision(origins, origin, "GET", headers).headers
    ensures "Access-Control-Allow-Origin" !in headers ==>
      ("Access-Control-Allow-Origin" in CorsDecision(origins, origin, "GET", headers).headers <==> origin != "" && origin in origins)
  {
  }
}
