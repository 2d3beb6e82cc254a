/** The JWT settings provider: reads the `jwt` environment variable, parses
    it, insists on the three settings, and keeps the first valid result for
    the life of the process. The JSON parser is a parameter, and the
    process-wide static field is a value threaded through each call. */
module JwtSettingsProvider {

  import opened Results
  import opened Errors
  import opened Environments

  const VariableName := "jwt"

  const NotSetMessage := "JWT environment variable is not set."
  const ParseFailedMessage := "Failed to parse JWT environment variable."
  const MissingFieldsMessage := "JWT environment variable is missing required fields."

  /** The settings as deserialised: any of them may be absent. */
  datatype JwtSettings = JwtSettings(secretKey: Option<string>, issuer: Option<string>, audience: Option<string>)

  /** What the deserialiser makes of the text: an exception, the JSON
      literal `null`, or an object. */
  datatype Parsed = Malformed | JsonNull | Object(settings: JwtSettings)

  /** The static cache field. */
  datatype Provider = Provider(cache: Option<JwtSettings>)

  predicate IsNullOrEmpty(s: Option<string>)
  {
    s.None? || s.value == ""
  }

  /** All three settings present and non-empty. */
  predicate IsComplete(settings: JwtSettings)
  {
    !IsNullOrEmpty(settings.secretKey) && !IsNullOrEmpty(settings.issuer) && !IsNullOrEmpty(settings.audience)
  }

  /** The checks made when nothing is cached, in the source's order. */
  function Load(env: Environment, parse: string -> Parsed): (r: Result<JwtSettings, Error>)
    ensures (VariableName !in env || env[VariableName] == "") ==> r == Err(InvalidOperation(NotSetMessage))
    ensures VariableName in env && env[VariableName] != "" && parse(env[VariableName]).Malformed?
            ==> r == Err(InvalidOperation(ParseFailedMessage))
    ensures VariableName in env && env[VariableName] != "" && parse(env[VariableName]).JsonNull?
            ==> r == Err(InvalidOperation(MissingFieldsMessage))
    ensures VariableName in env && env[VariableName] != "" && parse(env[VariableName]).Object?
            ==> var s := parse(env[VariableName]).settings;
                r == if IsComplete(s) then Ok(s) else Err(InvalidOperation(MissingFieldsMessage))
  {
    if VariableName !in env || env[VariableName] == "" then Err(InvalidOperation(NotSetMessage))
    else match parse(env[VariableName])
      case Malformed => Err(InvalidOperation(ParseFailedMessage))
      case JsonNull => Err(InvalidOperation(MissingFieldsMessage))
      case Object(s) => if IsComplete(s) then Ok(s) else Err(InvalidOperation(MissingFieldsMessage))
  }

  /** Only complete settings are ever cached. */
  predicate Valid(provider: Provider)
  {
    provider.cache.Some? ==> IsComplete(provider.cache.value)
  }

  /** `GetJwtSettings`: the new provider state and what the call returned
      or threw. A cached value is returned without reading the
      environment; otherwise the cache is set only on success. */
  function GetJwtSettings(provider: Provider, env: Environment, parse: string -> Parsed)
    : (r: (Provider, Result<JwtSettings, Error>))
    requires Valid(provider)
    ensures Valid(r.0)
    ensures r.1.Ok? ==> IsComplete(r.1.value) && r.0.cache == Some(r.1.value)
    ensures provider.cache.Some? ==> r == (provider, Ok(provider.cache.value))
    ensures provider.cache.None? ==> r.1 == Load(env, parse)
    ensures r.1.Err? ==> r.0 == provider
  {
    if provider.cache.Some? then (provider, Ok(provider.cache.value))
    else match Load(env, parse)
      case Ok(settings) => (Provider(Some(settings)), Ok(settings))
      case Err(e) => (provider, Err(e))
  }

  /** Successive calls, each seeing the environment as it is then: the
      final provider and every call's outcome. */
  function GetMany(provider: Provider, envs: seq<Environment>, parse: string -> Parsed)
    : (r: (Provider, seq<Result<JwtSettings, Error>>))
    requires Valid(provider)
    ensures Valid(r.0) && |r.1| == |envs|
    decreases |envs|
  {
    if |envs| == 0 then (provider, [])
    else
      var (next, outcome) := GetJwtSettings(provider, envs[0], parse);
      var (last, outcomes) := GetMany(next, envs[1..], parse);
      (last, [outcome] + outcomes)
  }

  /** Once cached, every later call returns the cached value whatever the
      environment then holds, and the cache never changes. */
  lemma {:induction false} CachedIsFinal(provider: Provider, envs: seq<Environment>, parse: string -> Parsed)
    requires Valid(provider) && provider.cache.Some?
    ensures GetMany(provider, envs, parse).0 == provider
    ensures forall k :: 0 <= k < |envs| ==> GetMany(provider, envs, parse).1[k] == Ok(provider.cache.value)
    decreases |envs|
  {
    if |envs| > 0 {
      CachedIsFinal(provider, envs[1..], parse);
    }
  }

  /** Calls before the first success each load afresh from the environment
      of their time and leave the cache empty; the first success is then
      returned by that call and by every call after it. */
  lemma {:induction false} FirstSuccessSticks(provider: Provider, envs: seq<Environment>, parse: string -> Parsed, n: nat)
    requires provider.cache.None?
    requires n < |envs|
    requires forall k :: 0 <= k < n ==> Load(envs[k], parse).Err?
    requires Load(envs[n], parse).Ok?
    ensures forall k :: 0 <= k < n ==> GetMany(provider, envs, parse).1[k] == Load(envs[k], parse)
    ensures forall k :: n <= k < |envs| ==> GetMany(provider, envs, parse).1[k] == Load(envs[n], parse)
    ensures GetMany(provider, envs, parse).0 == Provider(Some(Load(envs[n], parse).value))
    decreases n
  {
    var outcomes := GetMany(provider, envs, parse).1;
    var tail := GetMany(GetJwtSettings(provider, envs[0], parse).0, envs[1..], parse);
    assert outcomes == [GetJwtSettings(provider, envs[0], parse).1] + tail.1;
    if n == 0 {
      var cached := Provider(Some(Load(envs[0], parse).value));
      CachedIsFinal(cached, envs[1..], parse);
    } else {
      FirstSuccessSticks(provider, envs[1..], parse, n - 1);
      forall k | 1 <= k < |envs|
        ensures outcomes[k] == tail.1[k - 1]
      {
      }
    }
  }

  /** A failure leaves nothing behind: the next call validates again, so
      fixing the environment afterwards is enough to succeed. */
  lemma RecoversAfterFailure(env1: Environment, env2: Environment, parse: string -> Parsed)
    requires Load(env1, parse).Err? && Load(env2, parse).Ok?
    ensures var (p1, r1) := GetJwtSettings(Provider(None), env1, parse);
            var (p2, r2) := GetJwtSettings(p1, env2, parse);
            r1.Err? && r2 == Load(env2, parse) && p2.cache == Some(r2.value)
  {
  }
}
