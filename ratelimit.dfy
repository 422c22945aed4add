/** The fixed-window rate limiter: a Redis counter per key, incremented on every
    request, whose expiry is set when it is created; and the middleware that keys
    it by route and client address. */
module RateLimit {
  import opened Wrappers
  import opened GoStrings
  import opened Http

  /** The Redis state the limiter touches: each key's counter and the expiry
      (a window length) set on it. Time itself is not modelled. */
  datatype Counters = Counters(counts: map<string, int>, ttl: map<string, int>)

  /** What Allow returns: whether the request is within the limit, and the store error. */
  datatype AllowAnswer = AllowAnswer(allowed: bool, err: Option<string>)

  /** INCR reads a missing key as 0. */
  function Hits(counts: map<string, int>, key: string): int {
    if key in counts then counts[key] else 0
  }

  /** One Allow against the Redis state. `incrFault` and `expireFault` are the errors
      INCR and EXPIRE return, if any. */
  function AllowStep(c: Counters, key: string, limit: int, window: int,
                     incrFault: Option<string>, expireFault: Option<string>): (r: (Counters, AllowAnswer))
    ensures incrFault.Some? ==> r == (c, AllowAnswer(false, incrFault))
    ensures incrFault.None? ==> r.0.counts == c.counts[key := Hits(c.counts, key) + 1]
    ensures incrFault.None? ==> Hits(r.0.counts, key) == Hits(c.counts, key) + 1
    ensures r.0.ttl != c.ttl ==> incrFault.None? && Hits(r.0.counts, key) == 1 && r.0.ttl == c.ttl[key := window]
    ensures incrFault.None? && Hits(r.0.counts, key) == 1 && expireFault.None? ==> r.0.ttl == c.ttl[key := window]
    ensures r.1.allowed <==>
      incrFault.None? && Hits(r.0.counts, key) <= limit && (Hits(r.0.counts, key) != 1 || expireFault.None?)
    ensures r.1.err.Some? <==> incrFault.Some? || (Hits(r.0.counts, key) == 1 && expireFault.Some?)
  {
    if incrFault.Some? then (c, AllowAnswer(false, incrFault))
    else
      var count := Hits(c.counts, key) + 1;
      var counts := c.counts[key := count];
      if count == 1 && expireFault.Some? then (Counters(counts, c.ttl), AllowAnswer(false, expireFault))
      else
        var ttl := if count == 1 then c.ttl[key := window] else c.ttl;
        (Counters(counts, ttl), AllowAnswer(count <= limit, None))
  }

  /** The answers of `n` successive fault-free Allow calls on one key. */
  function Run(c: Counters, key: string, limit: int, window: int, n: nat): (answers: seq<bool>)
    ensures |answers| == n
    decreases n
  {
    if n == 0 then []
    else
      var next := AllowStep(c, key, limit, window, None, None);
      [next.1.allowed] + Run(next.0, key, limit, window, n - 1)
  }

  /** Call i (from 0) of a run passes iff the counter it produces is within the limit. */
  lemma {:induction false} RunFrom(c: Counters, key: string, limit: int, window: int, n: nat)
    ensures forall i :: 0 <= i < n ==> (Run(c, key, limit, window, n)[i] <==> Hits(c.counts, key) + i + 1 <= limit)
    decreases n
  {
    if n > 0 {
      var next := AllowStep(c, key, limit, window, None, None);
      RunFrom(next.0, key, limit, window, n - 1);
      var run := Run(c, key, limit, window, n);
      assert run == [next.1.allowed] + Run(next.0, key, limit, window, n - 1);
      forall i | 0 <= i < n ensures run[i] <==> Hits(c.counts, key) + i + 1 <= limit {
        if i > 0 {
          assert run[i] == Run(next.0, key, limit, window, n - 1)[i - 1];
        }
      }
    }
  }

  /** Within one window (a fresh key), exactly the first `limit` calls pass. */
  lemma FirstLimitPass(c: Counters, key: string, limit: int, window: int, n: nat)
    requires key !in c.counts
    ensures forall i :: 0 <= i < n ==> (Run(c, key, limit, window, n)[i] <==> i < limit)
  {
    RunFrom(c, key, limit, window, n);
  }

  /** The limiter; `hasRedis` says whether its Redis client is set. */
  class RateLimiter {
    const hasRedis: bool
    var counts: map<string, int>
    var ttl: map<string, int>

    /** NewRateLimiter, on an empty Redis. */
    constructor (hasRedis: bool)
      ensures this.hasRedis == hasRedis && counts == map[] && ttl == map[]
    {
      this.hasRedis := hasRedis;
      counts := map[];
      ttl := map[];
    }

    function State(): Counters
      reads this
    {
      Counters(counts, ttl)
    }

    /** Allow: INCR the key; on the first increment set its expiry to the window. */
    method Allow(key: string, limit: int, window: int, incrFault: Option<string>, expireFault: Option<string>)
      returns (allowed: bool, err: Option<string>)
      modifies this
      ensures (State(), AllowAnswer(allowed, err)) == AllowStep(old(State()), key, limit, window, incrFault, expireFault)
    {
      if incrFault.Some? {
        return false, incrFault;
      }
      var count := Hits(counts, key) + 1;
      counts := counts[key := count];
      if count == 1 {
        if expireFault.Some? {
          return false, expireFault;
        }
        ttl := ttl[key := window];
      }
      return count <= limit, None;
    }
  }

  /** The middleware's answer to what Allow returned. */
  function Admit(answer: AllowAnswer): (g: Gate<()>)
    ensures answer.err.Some? ==> g == Answered(ErrorReply(StatusInternalServerError, "rate limit error"))
    ensures answer.err.None? && !answer.allowed ==> g == Answered(ErrorReply(StatusTooManyRequests, "too many requests"))
    ensures g == Next <==> answer.err.None? && answer.allowed
  {
    if answer.err.Some? then Answered(ErrorReply(StatusInternalServerError, "rate limit error"))
    else if !answer.allowed then Answered(ErrorReply(StatusTooManyRequests, "too many requests"))
    else Next
  }

  /** The counter key of a route and a client address. */
  function LimitKey(route: string, ip: string): (k: string)
    ensures |k| == |route| + |ip| + 4
  {
    "rl:" + route + ":" + ip
  }

  /** Routes without a colon never share a counter: the key determines the route and the address. */
  lemma LimitKeySeparates(route1: string, ip1: string, route2: string, ip2: string)
    requires ':' !in route1 && ':' !in route2
    requires LimitKey(route1, ip1) == LimitKey(route2, ip2)
    ensures route1 == route2 && ip1 == ip2
  {
    var k := LimitKey(route1, ip1);
    assert forall i :: 0 <= i < |route1| ==> k[3 + i] == route1[i];
    assert forall i :: 0 <= i < |route2| ==> k[3 + i] == route2[i];
    assert k[3 + |route1|] == ':' && k[3 + |route2|] == ':';
    assert route1 == k[3..3 + |route1|] == route2;
    assert ip1 == k[4 + |route1|..] == ip2;
  }

  /** RateLimitMiddleware, with the limiter `rl` (null when not set). */
  method RateLimitMiddleware(rl: RateLimiter?, route: string, limit: int, window: int,
                             forwardedFor: string, remoteAddr: string,
                             incrFault: Option<string>, expireFault: Option<string>) returns (g: Gate<()>)
    modifies rl
    ensures rl == null || !rl.hasRedis ==> g == Answered(ErrorReply(StatusInternalServerError, "rate limiter not configured"))
    ensures rl != null && !rl.hasRedis ==> rl.State() == old(rl.State())
    ensures rl != null && rl.hasRedis ==>
      var step := AllowStep(old(rl.State()), LimitKey(route, ClientIP(forwardedFor, remoteAddr)), limit, window, incrFault, expireFault);
      rl.State() == step.0 && g == Admit(step.1)
  {
    if rl == null || !rl.hasRedis {
      return Answered(ErrorReply(StatusInternalServerError, "rate limiter not configured"));
    }
    var ip := ClientIP(forwardedFor, remoteAddr);
    var key := LimitKey(route, ip);
    var allowed, err := rl.Allow(key, limit, window, incrFault, expireFault);
    g := Admit(AllowAnswer(allowed, err));
  }

  /** The first index of `c` in `s` at or after `from`. */
  function IndexFrom(s: string, c: char, from: nat): (r: Option<nat>)
    requires from <= |s|
    ensures r.None? <==> c !in s[from..]
    ensures r.Some? ==> from <= r.value < |s| && s[r.value] == c && c !in s[from..r.value]
    decreases |s| - from
  {
    if from == |s| then None
    else if s[from] == c then Some(from)
    else
      var r := IndexFrom(s, c, from + 1);
      assert s[from..] == [s[from]] + s[from + 1..];
      assert r.Some? ==> s[from..r.value] == [s[from]] + s[from + 1..r.value];
      r
  }

  /** The last index of `c` in `s`. */
  function LastIndex(s: string, c: char): (r: Option<nat>)
    ensures r.None? <==> c !in s
    ensures r.Some? ==> r.value < |s| && s[r.value] == c && c !in s[r.value + 1..]
  {
    if s == [] then None
    else if s[|s| - 1] == c then Some(|s| - 1)
    else
      var r := LastIndex(s[..|s| - 1], c);
      InInit(s, c);
      if r.Some? then AfterInInit(s, r.value); r else r
  }

  lemma InInit(s: string, c: char)
    requires s != []
    ensures c in s <==> c in s[..|s| - 1] || s[|s| - 1] == c
  {
    assert s == s[..|s| - 1] + [s[|s| - 1]];
  }

  lemma AfterInInit(s: string, k: nat)
    requires k < |s| - 1
    ensures s[k + 1..] == s[..|s| - 1][k + 1..] + [s[|s| - 1]]
  {
  }

  /** net.SplitHostPort as the standard library defines it: the text after the last
      colon is the port; a host in brackets may hold colons, a bare one may not; stray
      brackets are refused. Returns the host and the port, or None on an error. */
  function SplitHostPort(hostport: string): (r: Option<(string, string)>)
    ensures r.Some? ==> ':' in hostport && ':' !in r.value.1
  {
    match LastIndex(hostport, ':')
    case None => None
    case Some(i) =>
      var bracketed := hostport[0] == '[';
      var end := IndexFrom(hostport, ']', 0);
      if bracketed && end.None? then None
      else if bracketed && end.value + 1 != i then None
      else if !bracketed && ':' in hostport[..i] then None
      else
        var host := if bracketed then hostport[1..end.value] else hostport[..i];
        var j: nat := if bracketed then 1 else 0;
        var k: nat := if bracketed then end.value + 1 else 0;
        if '[' in hostport[j..] || ']' in hostport[k..] then None
        else Some((host, hostport[i + 1..]))
  }

  /** A plain host and port joined by a colon split back into the two. */
  lemma SplitJoinHostPort(host: string, port: string)
    requires ':' !in host && ':' !in port
    requires '[' !in host && ']' !in host && '[' !in port && ']' !in port
    ensures SplitHostPort(host + ":" + port) == Some((host, port))
  {
    var s := host + ":" + port;
    var i := |host|;
    assert s[i] == ':';
    forall k | 0 <= k < |s| && k != i
      ensures s[k] != ':' && s[k] != '[' && s[k] != ']'
    {
      if k < i { assert s[k] == host[k]; }
      else { assert s[k] == port[k - i - 1]; }
    }
    assert LastIndex(s, ':') == Some(i);
    assert s[0] != '[' by {
      if |host| > 0 { assert s[0] == host[0]; }
    }
    assert s[..i] == host;
    assert s[i + 1..] == port;
  }

  /** clientIP: the first X-Forwarded-For entry, trimmed, when the header is set
      (strings.Split never returns an empty slice, so its length check always
      passes); otherwise the host of RemoteAddr when it splits to a non-empty host;
      otherwise RemoteAddr as it is. */
  function ClientIP(forwardedFor: string, remoteAddr: string): (ip: string)
    ensures forwardedFor != "" ==> ip == TrimSpace(Split(forwardedFor, ',')[0]) && ',' !in ip
    ensures forwardedFor == "" ==>
      ip == (if SplitHostPort(remoteAddr).Some? && SplitHostPort(remoteAddr).value.0 != ""
             then SplitHostPort(remoteAddr).value.0 else remoteAddr)
  {
    if forwardedFor != "" then
      var parts := Split(forwardedFor, ',');
      TrimmedNoComma(parts[0]);
      TrimSpace(parts[0])
    else
      match SplitHostPort(remoteAddr)
      case Some((host, _)) => if host != "" then host else remoteAddr
      case None => remoteAddr
  }

  /** Trimming keeps a comma-free string comma-free. */
  lemma TrimmedNoComma(s: string)
    requires ',' !in s
    ensures ',' !in TrimSpace(s)
  {
    var l := TrimLeft(s);
    assert l == s[|s| - |l|..];
    assert TrimRight(l) == l[..|TrimRight(l)|];
  }

  /** Without X-Forwarded-For, a connection from host:port is keyed by its host. */
  lemma ClientIPFromRemote(host: string, port: string)
    requires host != "" && ':' !in host && ':' !in port
    requires '[' !in host && ']' !in host && '[' !in port && ']' !in port
    ensures ClientIP("", host + ":" + port) == host
  {
    SplitJoinHostPort(host, port);
  }

  /** The forwarded address wins over the connection's address, whatever it holds. */
  lemma ForwardedForWins(forwardedFor: string, remoteAddr: string, other: string)
    requires forwardedFor != ""
    ensures ClientIP(forwardedFor, remoteAddr) == ClientIP(forwardedFor, other)
  {
  }
}
