/** `process.env`, read by the main process and by the build configuration. */
module ProcessEnv {
  /** The environment of the process: a variable that is not set has no key. */
  type Env = map<string, string>

  /** `process.env[name] === value`: an unset variable (`undefined`) equals no string. */
  predicate Equals(env: Env, name: string, value: string)
  {
    name in env && env[name] == value
  }
}
