/**
 * Client construction helpers (src/helper.rs): the default headers and the registry base URL.
 * The process environment is a map from variable name to value; whether a text is a valid
 * header value is decided by a predicate the caller supplies.
 */
module Helper {
  import opened Wrappers
  import opened Strings
  import opened Types

  const CRATES_IO_BASE_URL: string := "https://crates.io/api/v1/"

  /** The headers every request carries: the user agent, and an authorization value when one applies. */
  datatype Headers = Headers(userAgent: string, authorization: Option<string>)

  /** `reqwest::header::InvalidHeaderValue`: carries no detail. */
  datatype InvalidHeaderValue = InvalidHeaderValue

  /** `CARGO_REGISTRIES_<NAME>_TOKEN`, the variable cargo reads a registry's token from. */
  function TokenVariable(registryName: string): (v: string)
    ensures |v| == |registryName| + 23
    ensures v[..17] == "CARGO_REGISTRIES_" && v[|v| - 6..] == "_TOKEN"
    ensures v[17..|v| - 6] == AsciiUpper(registryName)
  {
    "CARGO_REGISTRIES_" + AsciiUpper(registryName) + "_TOKEN"
  }

  /**
   * Where the authorization value comes from: a named registry reads its environment
   * variable (and ignores any explicit token); an unnamed registry uses its explicit token.
   */
  function AuthorizationSource(registry: Option<Registry>, env: map<string, string>): (auth: Option<string>)
    ensures registry.None? ==> auth.None?
    ensures registry.Some? && registry.value.name.Some? ==>
              (auth.Some? <==> TokenVariable(registry.value.name.value) in env)
    ensures registry.Some? && registry.value.name.Some? && auth.Some? ==>
              auth.value == env[TokenVariable(registry.value.name.value)]
    ensures registry.Some? && registry.value.name.None? ==> auth == registry.value.token
  {
    match registry
    case None => None
    case Some(reg) =>
      match reg.name
      case Some(name) =>
        var variable := TokenVariable(name);
        if variable in env then Some(env[variable]) else None
      case None => reg.token
  }

  /** `setup_headers`: fails when the user agent or the chosen authorization value is not a valid header value. */
  function SetupHeaders(userAgent: string, registry: Option<Registry>, env: map<string, string>,
                        validHeaderValue: string -> bool): (r: Result<Headers, InvalidHeaderValue>)
    ensures r.Success? <==>
              validHeaderValue(userAgent) &&
              (AuthorizationSource(registry, env).Some? ==> validHeaderValue(AuthorizationSource(registry, env).value))
    ensures r.Success? ==> r.value == Headers(userAgent, AuthorizationSource(registry, env))
  {
    if !validHeaderValue(userAgent) then Failure(InvalidHeaderValue)
    else
      var auth := AuthorizationSource(registry, env);
      if auth.Some? && !validHeaderValue(auth.value) then Failure(InvalidHeaderValue)
      else Success(Headers(userAgent, auth))
  }

  /** `base_url`: the registry's own URL, or crates.io's API root when no registry is given. */
  function BaseUrl(registry: Option<Registry>): (url: string)
    ensures registry.None? ==> url == CRATES_IO_BASE_URL
    ensures registry.Some? ==> url == registry.value.url
  {
    match registry
    case None => CRATES_IO_BASE_URL
    case Some(reg) => reg.url
  }

  /** Without a registry the only header is the user agent, whatever the environment holds. */
  lemma CratesIoHeaders(userAgent: string, env: map<string, string>, validHeaderValue: string -> bool)
    requires validHeaderValue(userAgent)
    ensures SetupHeaders(userAgent, None, env, validHeaderValue) == Success(Headers(userAgent, None))
  {
  }

  /** A named registry's token comes from the environment even when an explicit token is also configured. */
  lemma NamedRegistryPrefersEnvironment(userAgent: string, reg: Registry, env: map<string, string>,
                                        validHeaderValue: string -> bool)
    requires reg.name.Some? && TokenVariable(reg.name.value) in env
    requires validHeaderValue(userAgent) && validHeaderValue(env[TokenVariable(reg.name.value)])
    ensures SetupHeaders(userAgent, Some(reg), env, validHeaderValue) ==
              Success(Headers(userAgent, Some(env[TokenVariable(reg.name.value)])))
  {
  }

  /** An unnamed registry sends its explicit token, whatever token variables the environment holds. */
  lemma UnnamedRegistryUsesToken(userAgent: string, reg: Registry, env: map<string, string>,
                                 validHeaderValue: string -> bool)
    requires reg.name.None? && reg.token.Some?
    requires validHeaderValue(userAgent) && validHeaderValue(reg.token.value)
    ensures SetupHeaders(userAgent, Some(reg), env, validHeaderValue) == Success(Headers(userAgent, reg.token))
  {
  }

  /** The environment variable the header tests set for the registry named "foobar". */
  lemma FoobarTokenVariable()
    ensures TokenVariable("foobar") == "CARGO_REGISTRIES_FOOBAR_TOKEN"
  {
    assert AsciiUpper("foobar") == "FOOBAR";
  }

  /** Registry names that differ only in ASCII letter case share one token variable. */
  lemma TokenVariableIgnoresCase(a: string, b: string)
    requires |a| == |b|
    requires forall i :: 0 <= i < |a| ==> UpperChar(a[i]) == UpperChar(b[i])
    ensures TokenVariable(a) == TokenVariable(b)
  {
    assert AsciiUpper(a) == AsciiUpper(b);
  }
}
