/** What the programs read from the process they run in. */
module Platform {
  import opened Json

  /** The process environment; an unset variable is missing from the map. */
  type Env = map<string, string>

  /** `process.env[name]` when it is set to a non-empty (truthy) string. */
  function EnvVar(env: Env, name: string): Option<string> {
    if name in env && env[name] != "" then Some(env[name]) else None
  }
}
