/**
 * Process-wide configuration read from the environment at start-up
 * (main.go lines 22-31), with the `getenv` default fallback and `toBool`.
 */
module Config {

  /** The process environment; a variable that is not set is absent. */
  type Environment = map<string, string>

  /** `os.Getenv`: the variable's value, or "" when it is not set. */
  function Lookup(env: Environment, key: string): string
  {
    if key in env then env[key] else ""
  }

  /**
   * `getenv(key, defaultValue)`: the variable's value when it is set to a
   * non-empty string, the default otherwise (unset and set-to-empty are the
   * same to Go).
   */
  function Getenv(env: Environment, key: string, defaultValue: string): (value: string)
    ensures key in env && env[key] != "" ==> value == env[key]
    ensures (key !in env || env[key] == "") ==> value == defaultValue
  {
    var value := Lookup(env, key);
    if value == "" then defaultValue else value
  }

  /** `toBool`: only the exact, lower-case string "true" is true. */
  predicate ToBool(value: string): (b: bool)
    ensures b <==> |value| == 4 && value[0] == 't' && value[1] == 'r' && value[2] == 'u' && value[3] == 'e'
  {
    value == "true"
  }

  /** The package-level variables of main.go, apart from IdleTimeout. */
  datatype Settings = Settings(
    checkGithubUser: bool,
    githubUser: string,
    hostKeyFile: string,
    port: string,
    sshEntrypoint: string,
    sshGroupID: string,
    sshUserID: string)

  const DefaultPort := "2222"
  const DefaultEntrypoint := "/bin/bash"

  function LoadSettings(env: Environment): (s: Settings)
    ensures s.port != "" && s.sshEntrypoint != ""
  {
    Settings(
      checkGithubUser := ToBool(Getenv(env, "CHECK_GITHUB_USER", "false")),
      githubUser := Lookup(env, "GITHUB_USER"),
      hostKeyFile := Lookup(env, "HOST_KEY_FILE"),
      port := Getenv(env, "PORT", DefaultPort),
      sshEntrypoint := Getenv(env, "SSH_ENTRYPOINT", DefaultEntrypoint),
      sshGroupID := Lookup(env, "SSH_GROUP_ID"),
      sshUserID := Lookup(env, "SSH_USER_ID"))
  }

  /** `getenv` yields "" only when both the variable and the default are empty. */
  lemma GetenvEmpty(env: Environment, key: string, defaultValue: string)
    ensures Getenv(env, key, defaultValue) == "" <==> Lookup(env, key) == "" && defaultValue == ""
  {
  }

  /**
   * Identity enforcement is on exactly when CHECK_GITHUB_USER is the string
   * "true": the default "false" and every other spelling leave it off.
   */
  lemma CheckGithubUserExactTrue(env: Environment)
    ensures LoadSettings(env).checkGithubUser <==> Lookup(env, "CHECK_GITHUB_USER") == "true"
  {
  }

  /** With nothing set, the gateway listens on 2222, runs /bin/bash and drops no privileges. */
  lemma EmptyEnvironmentDefaults()
    ensures LoadSettings(map[]) == Settings(false, "", "", "2222", "/bin/bash", "", "")
  {
  }
}
