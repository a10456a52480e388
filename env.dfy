/** Reading configuration from the process environment: `getEnv` and
    `parseBool`. The environment is a map from variable names to values. */
module Env {
  import opened Options
  import Text

  type Environment = map<string, string>

  /** `getEnv(name, fallback)`: the variable's value when it is set and
      non-empty, the fallback otherwise. */
  function GetEnv(env: Environment, name: string, fallback: string): (r: string)
    ensures r == fallback || (name in env && r == env[name])
    ensures name in env && env[name] != "" ==> r == env[name]
    ensures r == "" ==> fallback == ""
  {
    if name in env && env[name] != "" then env[name] else fallback
  }

  /** `s` spells "true" in any mix of letter cases. */
  predicate SpellsTrue(s: string) {
    |s| == 4 && forall i :: 0 <= i < 4 ==> Text.LowerChar(s[i]) == "true"[i]
  }

  /** `parseBool(value, fallback)`: unset or empty gives the fallback; any
      other value is true exactly when it is "true" ignoring case. */
  function ParseBool(value: Option<string>, fallback: bool): (b: bool)
    ensures !Truthy(value) ==> b == fallback
    ensures Truthy(value) ==> (b <==> SpellsTrue(value.value))
  {
    if !Truthy(value) then fallback else Text.ToLower(value.value) == "true"
  }

  /** Values other than a spelling of "true" (such as "1", "yes" or "on")
      read as false, and upper-case spellings read as true. */
  lemma ParseBoolExamples(fallback: bool)
    ensures ParseBool(Some("TRUE"), false) && ParseBool(Some("True"), false)
    ensures !ParseBool(Some("1"), true) && !ParseBool(Some("yes"), true)
    ensures !ParseBool(Some("false"), true) && !ParseBool(Some(" true"), true)
    ensures ParseBool(Some(""), fallback) == fallback && ParseBool(None, fallback) == fallback
  {
    assert Text.ToLower("TRUE") == "true";
    assert Text.ToLower("True") == "true";
  }
}
