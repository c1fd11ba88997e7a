/** The configuration check done by `startup` before authenticating: the
    domain-name compatibility shim and the scan of the required variables. */
module Startup {
  import opened Types

  /** The process environment, read once. A variable that is not set reads as "". */
  type Env = map<string, string>

  const DomainName := "OS_DOMAIN_NAME"
  const UserDomainName := "OS_USER_DOMAIN_NAME"

  /** The required variables, in the order in which they are checked.
      OS_REGION_NAME is listed twice, as in the source. */
  const RequiredEnvVars: seq<string> := [
    "OS_AUTH_URL",
    "OS_USERNAME",
    "OS_PASSWORD",
    "OS_PROJECT_DOMAIN_ID",
    "OS_REGION_NAME",
    "OS_PROJECT_NAME",
    "OS_USER_DOMAIN_NAME",
    "OS_INTERFACE",
    "OS_PROJECT_ID",
    "OS_DOMAIN_NAME",
    "OS_REGION_NAME"
  ]

  /** `os.Getenv`: the value of `key`, or "" when it is unset. */
  function Getenv(env: Env, key: string): string {
    if key in env then env[key] else ""
  }

  /** The environment after the compatibility shim: OS_DOMAIN_NAME takes the value
      of OS_USER_DOMAIN_NAME when it is empty or when the user domain is set. */
  function DomainShim(env: Env): (shimmed: Env)
    ensures Getenv(env, DomainName) == "" || Getenv(env, UserDomainName) != "" ==>
              Getenv(shimmed, DomainName) == Getenv(env, UserDomainName)
    ensures Getenv(env, DomainName) != "" && Getenv(env, UserDomainName) == "" ==>
              shimmed == env
    ensures forall key :: key != DomainName ==> Getenv(shimmed, key) == Getenv(env, key)
  {
    if Getenv(env, DomainName) == "" || Getenv(env, UserDomainName) != "" then
      env[DomainName := Getenv(env, UserDomainName)]
    else
      env
  }

  /** After the shim, the domain name is missing exactly when both domain variables were. */
  lemma ShimmedDomainMissing(env: Env)
    ensures Getenv(DomainShim(env), DomainName) == "" <==>
              Getenv(env, DomainName) == "" && Getenv(env, UserDomainName) == ""
  {
  }

  /** `names[k]` is the first of `names` that is unset or empty in `env`. */
  ghost predicate FirstMissingAt(env: Env, names: seq<string>, k: int) {
    && 0 <= k < |names|
    && Getenv(env, names[k]) == ""
    && forall j :: 0 <= j < k ==> Getenv(env, names[j]) != ""
  }

  /** `startup` up to authentication: apply the shim, then fail on the first
      required variable, in list order, whose value is empty. On success the
      shimmed environment is the configuration handed on. The shim copies the
      user domain, which is checked earlier in the list, so the error never
      names OS_DOMAIN_NAME. */
  method Startup(env: Env) returns (r: Result<Env>)
    ensures r.Success? <==>
              forall i :: 0 <= i < |RequiredEnvVars| ==> Getenv(DomainShim(env), RequiredEnvVars[i]) != ""
    ensures r.Success? ==> r.value == DomainShim(env)
    ensures r.Failure? ==>
              exists k :: FirstMissingAt(DomainShim(env), RequiredEnvVars, k) &&
                          r.error == MissingEnvVar(RequiredEnvVars[k])
    ensures r.Failure? ==> r.error != MissingEnvVar(DomainName)
  {
    var e := env;
    if Getenv(e, DomainName) == "" || Getenv(e, UserDomainName) != "" {
      e := e[DomainName := Getenv(e, UserDomainName)];
    }
    assert e == DomainShim(env);

    var index := 0;
    while index < |RequiredEnvVars|
      invariant 0 <= index <= |RequiredEnvVars|
      invariant forall j :: 0 <= j < index ==> Getenv(e, RequiredEnvVars[j]) != ""
      invariant index > 6 ==> Getenv(e, DomainName) != ""
    {
      if Getenv(e, RequiredEnvVars[index]) == "" {
        assert FirstMissingAt(e, RequiredEnvVars, index);
        return Failure(MissingEnvVar(RequiredEnvVars[index]));
      }
      index := index + 1;
    }
    return Success(e);
  }
}
