/** Environment validation of packages/etl/src/config/env.ts. The process
    environment is a map from variable names to their values. */
module Env {
  import opened Wrappers
  import opened Strings

  const MessagePrefix: string := "Missing required environment variables: "
  const MessageSuffix: string := "\nEnsure they are set in .env file or as GitHub Actions secrets."

  /** `!process.env[key]`: the variable is unset or set to the empty string. */
  predicate IsMissing(env: map<string, string>, key: string)
  {
    key !in env || env[key] == ""
  }

  /** `required.filter((key) => !process.env[key])`. */
  function Missing(env: map<string, string>, required: seq<string>): (missing: seq<string>)
    ensures |missing| <= |required|
    ensures forall k :: k in missing <==> k in required && IsMissing(env, k)
  {
    if |required| == 0 then []
    else
      var rest := Missing(env, required[1..]);
      if IsMissing(env, required[0]) then [required[0]] + rest else rest
  }

  /** The filter keeps the order of `required`: the missing keys of a
      concatenation are those of each half, in turn. */
  lemma {:induction false} MissingAppend(env: map<string, string>, a: seq<string>, b: seq<string>)
    ensures Missing(env, a + b) == Missing(env, a) + Missing(env, b)
  {
    if |a| > 0 {
      assert (a + b)[1..] == a[1..] + b;
      MissingAppend(env, a[1..], b);
    } else {
      assert a + b == b;
    }
  }

  /** The error text: every missing key, joined by ", ", then the hint. */
  function MissingMessage(missing: seq<string>): (m: string)
    ensures |m| == |MessagePrefix| + |Join(missing, ", ")| + |MessageSuffix|
    ensures m[..|MessagePrefix|] == MessagePrefix
    ensures m[|MessagePrefix|..|m| - |MessageSuffix|] == Join(missing, ", ")
    ensures m[|m| - |MessageSuffix|..] == MessageSuffix
  {
    var m := MessagePrefix + Join(missing, ", ") + MessageSuffix;
    assert m[|MessagePrefix|..|m| - |MessageSuffix|] == Join(missing, ", ");
    m
  }

  /** `validateEnv(required)`: fails exactly when some required key is missing,
      and the failure names the missing keys in the order given. */
  function ValidateEnv(env: map<string, string>, required: seq<string>): (r: Result<()>)
    ensures r.Ok? <==> forall i :: 0 <= i < |required| ==> !IsMissing(env, required[i])
    ensures r.Err? ==> r.message == MissingMessage(Missing(env, required))
  {
    var missing := Missing(env, required);
    if |missing| > 0 then
      assert missing[0] in missing;
      Err(MissingMessage(missing))
    else
      assert forall i :: 0 <= i < |required| ==> required[i] in required;
      Ok(())
  }

  /** Nothing required, nothing to complain about. */
  lemma EmptyRequiredPasses(env: map<string, string>)
    ensures ValidateEnv(env, []).Ok?
  {
  }

  /** Adding required keys can only turn success into failure, never the
      reverse: validation is monotone in the required list. */
  lemma ValidateEnvMonotone(env: map<string, string>, a: seq<string>, b: seq<string>)
    requires ValidateEnv(env, a + b).Ok?
    ensures ValidateEnv(env, a).Ok? && ValidateEnv(env, b).Ok?
  {
    forall i | 0 <= i < |a|
      ensures !IsMissing(env, a[i])
    {
      assert a[i] == (a + b)[i];
    }
    forall i | 0 <= i < |b|
      ensures !IsMissing(env, b[i])
    {
      assert b[i] == (a + b)[|a| + i];
    }
  }

  /** `process.env.X ?? ''`: the configuration constants read an unset
      variable as the empty string. */
  function EnvOrEmpty(env: map<string, string>, key: string): (v: string)
    ensures v == "" <==> IsMissing(env, key)
    ensures key in env ==> v == env[key]
  {
    if key in env then env[key] else ""
  }
}
