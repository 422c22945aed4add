/** The stand-alone entry point of cmd/api: a /health endpoint behind its own
    copy of the CORS middleware. */
module ApiMain {
  import opened Http
  import opened Config
  import opened HttpServer

  /** The /health payload; `time` is the server's clock, given as a parameter. */
  datatype HealthBody = HealthBody(status: string, env: string, time: int)

  function Health(configuration: Config, now: int): (r: Reply<HealthBody>)
    ensures r.JsonReply? && r.status == StatusOK
    ensures r.body.status == "ok" && r.body.env == configuration.appEnv
  {
    JsonReply(StatusOK, HealthBody("ok", configuration.appEnv, now))
  }

  /** handleCors of cmd/api, over Config.corsOrigin: the same decision as the server's. */
  method HandleCors(configuration: Config, origin: string, verb: string, headers: map<string, string>)
    returns (r: CorsOutcome)
    ensures r == CorsDecision(configuration.corsOrigin, origin, verb, headers)
  {
    var allowed := false;
    var i := 0;
    while i < |configuration.corsOrigin|
      invariant 0 <= i <= |configuration.corsOrigin|
      invariant !allowed && origin !in configuration.corsOrigin[..i]
    {
      if origin == configuration.corsOrigin[i] {
        allowed := true;
        break;
      }
      i := i + 1;
      assert configuration.corsOrigin[..i] == configuration.corsOrigin[..i - 1] + [configuration.corsOrigin[i - 1]];
    }
    assert allowed || configuration.corsOrigin[..i] == configuration.corsOrigin;
    var h := headers;
    if origin != "" && allowed {
      h := h + CorsHeaders(origin);
    }
    if verb == "OPTIONS" {
      return CorsOutcome(h, false);
    }
    r := CorsOutcome(h, true);
  }
}
