/** Loading the configuration from the environment. */
module Config {
  import opened Wrappers
  import opened GoStrings

  /** The process environment: os.Getenv reads an unset variable as "". */
  type Environment = map<string, string>

  datatype Config = Config(appEnv: string, port: string, corsOrigin: seq<string>,
                           databaseUrl: string, redisUrl: string)

  const DefaultAppEnv := "development"
  const DefaultPort := "8080"
  const DefaultCorsOrigin := "http://localhost:5173"

  function Getenv(env: Environment, key: string): string {
    if key in env then env[key] else ""
  }

  /** getEnv: the variable's value, or the fallback when that value is empty. */
  function GetEnv(env: Environment, key: string, fallback: string): (v: string)
    ensures v == fallback <==> Getenv(env, key) == "" || Getenv(env, key) == fallback
    ensures Getenv(env, key) != "" ==> v == Getenv(env, key)
  {
    var value := Getenv(env, key);
    if value == "" then fallback else value
  }

  /** The images under `f` of the parts, leaving out the empty ones, in order. */
  function Kept(parts: seq<string>, f: string -> string): (r: seq<string>)
    ensures |r| <= |parts|
  {
    if parts == [] then []
    else
      var p := f(parts[|parts| - 1]);
      var init := Kept(parts[..|parts| - 1], f);
      if p != "" then init + [p] else init
  }

  /** The trimmed, non-empty parts, in order: what the loop of LoadConfig appends. */
  function CleanOrigins(parts: seq<string>): (r: seq<string>)
    ensures |r| <= |parts|
  {
    Kept(parts, TrimSpace)
  }

  /** The loop of LoadConfig over the comma-separated parts. */
  method ParseOrigins(allCors: string) returns (origins: seq<string>)
    ensures origins == CleanOrigins(Split(allCors, ','))
  {
    var parts := Split(allCors, ',');
    origins := [];
    var i := 0;
    while i < |parts|
      invariant 0 <= i <= |parts|
      invariant origins == Kept(parts[..i], TrimSpace)
    {
      var p := TrimSpace(parts[i]);
      KeptPrefix(parts, i, TrimSpace);
      if p != "" {
        origins := origins + [p];
      }
      i := i + 1;
    }
    KeptWhole(parts, TrimSpace);
  }

  lemma KeptWhole(parts: seq<string>, f: string -> string)
    ensures Kept(parts[..|parts|], f) == Kept(parts, f)
  {
    assert parts[..|parts|] == parts;
  }

  lemma KeptSnoc(init: seq<string>, p: string, f: string -> string)
    ensures Kept(init + [p], f) == if f(p) != "" then Kept(init, f) + [f(p)] else Kept(init, f)
  {
    var s := init + [p];
    assert s[..|s| - 1] == init;
  }

  lemma KeptPrefix(parts: seq<string>, i: nat, f: string -> string)
    requires i < |parts|
    ensures Kept(parts[..i + 1], f) ==
      if f(parts[i]) != "" then Kept(parts[..i], f) + [f(parts[i])] else Kept(parts[..i], f)
  {
    assert parts[..i + 1][..i] == parts[..i];
  }

  lemma Unsnoc(b: seq<string>)
    requires b != []
    ensures b == b[..|b| - 1] + [b[|b| - 1]]
  {
  }

  lemma SnocAssoc(a: seq<string>, b: seq<string>, p: string)
    ensures a + (b + [p]) == (a + b) + [p]
  {
  }

  lemma {:induction false} KeptConcat(a: seq<string>, b: seq<string>, f: string -> string)
    ensures Kept(a + b, f) == Kept(a, f) + Kept(b, f)
    decreases |b|
  {
    if b == [] {
      assert a + b == a;
    } else {
      var init, p := b[..|b| - 1], b[|b| - 1];
      KeptConcat(a, init, f);
      Unsnoc(b);
      SnocAssoc(a, init, p);
      KeptSnoc(a + init, p, f);
      KeptSnoc(init, p, f);
      if f(p) != "" {
        SnocAssoc(Kept(a, f), Kept(init, f), f(p));
      }
    }
  }

  /** Every kept value is the non-empty image of some part. */
  lemma {:induction false} KeptFrom(parts: seq<string>, f: string -> string, i: nat) returns (k: nat)
    requires i < |Kept(parts, f)|
    ensures k < |parts| && Kept(parts, f)[i] == f(parts[k]) && f(parts[k]) != ""
  {
    var init := parts[..|parts| - 1];
    var p := f(parts[|parts| - 1]);
    if p != "" && i == |Kept(init, f)| {
      k := |parts| - 1;
    } else {
      k := KeptFrom(init, f, i);
      assert parts[k] == init[k];
    }
  }

  /** Cleaning works part by part and keeps the order of the parts: cleaning a
      concatenation concatenates the cleaned halves. */
  lemma CleanOriginsConcat(a: seq<string>, b: seq<string>)
    ensures CleanOrigins(a + b) == CleanOrigins(a) + CleanOrigins(b)
  {
    KeptConcat(a, b, TrimSpace);
  }

  /** One part is kept, trimmed, exactly when something besides spaces is left of it. */
  lemma CleanOriginsSingle(p: string)
    ensures CleanOrigins([p]) == if AllSpace(p) then [] else [TrimSpace(p)]
  {
    assert [p][..0] == [];
  }

  /** Every parsed origin is non-empty and has no surrounding space. */
  lemma CleanOriginsClean(parts: seq<string>)
    ensures forall i :: 0 <= i < |CleanOrigins(parts)| ==> CleanOrigins(parts)[i] != "" && Trimmed(CleanOrigins(parts)[i])
  {
    forall i | 0 <= i < |CleanOrigins(parts)|
      ensures CleanOrigins(parts)[i] != "" && Trimmed(CleanOrigins(parts)[i])
    {
      var k := KeptFrom(parts, TrimSpace, i);
    }
  }

  /** At most as many origins as there are commas, plus one. */
  lemma OriginsBound(allCors: string)
    ensures |CleanOrigins(Split(allCors, ','))| <= Count(allCors, ',') + 1
  {
  }

  /** The configuration LoadConfig returns, or the message log.Fatal prints. */
  function ConfigOf(env: Environment): (r: Result<Config, string>)
    ensures r.Success? <==> Getenv(env, "DATABASE_URL") != "" && Getenv(env, "REDIS_URL") != ""
    ensures Getenv(env, "DATABASE_URL") == "" ==> r == Failure("DATABASE_URL not found")
    ensures r.Success? ==> r.value.databaseUrl != "" && r.value.redisUrl != ""
    ensures r.Success? && Getenv(env, "APP_ENV") == "" ==> r.value.appEnv == DefaultAppEnv
    ensures r.Success? && Getenv(env, "BACKEND_PORT") == "" ==> r.value.port == DefaultPort
    ensures r.Success? && Getenv(env, "CORS_ORIGIN") == "" ==> r.value.corsOrigin == [DefaultCorsOrigin]
  {
    var appEnv := GetEnv(env, "APP_ENV", DefaultAppEnv);
    var port := GetEnv(env, "BACKEND_PORT", DefaultPort);
    var allCors := GetEnv(env, "CORS_ORIGIN", DefaultCorsOrigin);
    var databaseUrl := GetEnv(env, "DATABASE_URL", "");
    var redisUrl := GetEnv(env, "REDIS_URL", "");
    DefaultOrigins();
    if databaseUrl == "" then Failure("DATABASE_URL not found")
    else if redisUrl == "" then Failure("REDIS_URL not found")
    else Success(Config(appEnv, port, CleanOrigins(Split(allCors, ',')), databaseUrl, redisUrl))
  }

  /** The default CORS_ORIGIN parses to itself. */
  lemma DefaultOrigins()
    ensures CleanOrigins(Split(DefaultCorsOrigin, ',')) == [DefaultCorsOrigin]
  {
    var s := DefaultCorsOrigin;
    assert ',' !in s && s != "" && Trimmed(s);
    SingleOrigin(s);
  }

  /** A single origin, with no comma and no surrounding space, parses to itself. */
  lemma SingleOrigin(s: string)
    requires ',' !in s && s != "" && Trimmed(s)
    ensures CleanOrigins(Split(s, ',')) == [s]
  {
    SplitWithoutSeparator(s, ',');
    TrimmedFixed(s);
    assert [s][..0] == [];
    assert Kept([s], TrimSpace) == Kept([], TrimSpace) + [s];
  }

  lemma {:induction false} SplitWithoutSeparator(s: string, sep: char)
    requires sep !in s
    ensures Split(s, sep) == [s]
  {
    if s != [] {
      SplitWithoutSeparator(s[1..], sep);
      assert [s[0]] + s[1..] == s;
    }
  }

  /** LoadConfig; a Failure stands for log.Fatal ending the process. */
  method LoadConfig(env: Environment) returns (r: Result<Config, string>)
    ensures r == ConfigOf(env)
  {
    var appEnv := GetEnv(env, "APP_ENV", DefaultAppEnv);
    var port := GetEnv(env, "BACKEND_PORT", DefaultPort);
    var allCors := GetEnv(env, "CORS_ORIGIN", DefaultCorsOrigin);
    var origins := ParseOrigins(allCors);
    var databaseUrl := GetEnv(env, "DATABASE_URL", "");
    var redisUrl := GetEnv(env, "REDIS_URL", "");
    if databaseUrl == "" {
      return Failure("DATABASE_URL not found");
    }
    if redisUrl == "" {
      return Failure("REDIS_URL not found");
    }
    r := Success(Config(appEnv, port, origins, databaseUrl, redisUrl));
  }
}
