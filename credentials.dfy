/** Resolution of the API key (`load_api_key`). */
module Credentials {

  import opened Options
  import opened Failures

  const API_KEY_VAR := "API_KEY"
  const FALLBACK_KEY_VAR := "LAB02_API_KEY"

  /** `os.environ.get(name)`, with an unset variable read as the empty string:
      the program only tests it for truthiness, where both are falsy. */
  function EnvValue(env: map<string, string>, name: string): string
  {
    if name in env then env[name] else ""
  }

  /** The places a key may come from, in order of precedence: the
      `--api-key` argument, `API_KEY`, `LAB02_API_KEY`. */
  function Candidates(cli: Option<string>, env: map<string, string>): (c: seq<string>)
    ensures |c| == 3
  {
    [cli.GetOr(""), EnvValue(env, API_KEY_VAR), EnvValue(env, FALLBACK_KEY_VAR)]
  }

  /** The first non-empty string of `c`, if there is one: the reference
      reading of a chain of Python `or`s. */
  function FirstNonEmpty(c: seq<string>): (r: Option<string>)
    ensures r.None? <==> forall i :: 0 <= i < |c| ==> c[i] == ""
    ensures r.Some? ==> exists i :: 0 <= i < |c| && c[i] == r.value && r.value != ""
                                    && forall j :: 0 <= j < i ==> c[j] == ""
  {
    if c == [] then None
    else if c[0] != "" then Some(c[0])
    else
      var r := FirstNonEmpty(c[1..]);
      assert r.Some? ==> exists i :: 1 <= i < |c| && c[i] == r.value && r.value != ""
                                     && forall j :: 0 <= j < i ==> c[j] == "";
      r
  }

  /** `load_api_key(cli_api_key)`: a non-empty command-line key wins; else
      `API_KEY`, else `LAB02_API_KEY`; an empty value counts as absent at
      every level, and with no non-empty value the call fails. */
  function LoadApiKey(cli: Option<string>, env: map<string, string>): (r: Result<string>)
    ensures cli.Some? && cli.value != "" ==> r == Success(cli.value)
    ensures r.Failure? <==> forall i :: 0 <= i < 3 ==> Candidates(cli, env)[i] == ""
    ensures r.Failure? ==> r.error == MissingApiKey
    ensures r.Success? ==> r.value != ""
    ensures r.Success? ==> exists i :: 0 <= i < 3 && Candidates(cli, env)[i] == r.value
                                       && forall j :: 0 <= j < i ==> Candidates(cli, env)[j] == ""
  {
    if cli.Some? && cli.value != "" then
      assert Candidates(cli, env)[0] == cli.value;
      Success(cli.value)
    else
      var envKey := if EnvValue(env, API_KEY_VAR) != "" then EnvValue(env, API_KEY_VAR)
                    else EnvValue(env, FALLBACK_KEY_VAR);
      var c := Candidates(cli, env);
      assert c[0] == "" && c[1] == EnvValue(env, API_KEY_VAR) && c[2] == EnvValue(env, FALLBACK_KEY_VAR);
      if envKey == "" then Failure(MissingApiKey) else Success(envKey)
  }

  /** The key resolved is the first non-empty candidate, and resolution fails
      exactly when there is none. */
  lemma LoadApiKeyIsFirstNonEmpty(cli: Option<string>, env: map<string, string>)
    ensures LoadApiKey(cli, env) == match FirstNonEmpty(Candidates(cli, env))
                                   case Some(k) => Success(k)
                                   case None => Failure(MissingApiKey)
  {
  }
}
