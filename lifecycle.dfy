/**
 * The mode decision in `initialize`: after the bundler is created, a
 * production build runs only when `NODE_ENV` is exactly "production";
 * everything else starts the dev server.
 */
module Lifecycle {

  /** What `initialize` does with the bundler: one `build()`, or `createDevServer()` and the event wiring. */
  datatype Mode = Production | Development

  /**
   * `process.env.NODE_ENV === 'production'`, with the environment as a map
   * from variable names to values (an unset variable is an absent key).
   * The comparison is exact: any other value, a different case included,
   * and an unset variable all select the dev server.
   */
  function SelectMode(env: map<string, string>): (m: Mode)
    ensures m == Production <==> "NODE_ENV" in env && env["NODE_ENV"] == "production"
    ensures m == Development <==> "NODE_ENV" !in env || env["NODE_ENV"] != "production"
  {
    if "NODE_ENV" in env && env["NODE_ENV"] == "production" then Production else Development
  }

  /** Only `NODE_ENV` decides the mode: environments that agree on it select the same mode. */
  lemma ModeDependsOnlyOnNodeEnv(env: map<string, string>, env': map<string, string>)
    requires ("NODE_ENV" in env) == ("NODE_ENV" in env')
    requires "NODE_ENV" in env ==> env["NODE_ENV"] == env'["NODE_ENV"]
    ensures SelectMode(env) == SelectMode(env')
  {
  }

  /**
   * How the `try` block in `initialize` ends: the view helpers are installed
   * with the mode's bundler started, or a step threw and the error was logged.
   */
  datatype Outcome = HelpersInstalled(mode: Mode) | ErrorLogged

  /**
   * The `try`/`catch` in `initialize`, with whether each awaited bundler call
   * resolves as a parameter. The helpers are installed only after
   * `createRsbuild` and then the mode's `build()` or `createDevServer()` have
   * resolved; a rejection of any of them skips the assignment and is logged.
   */
  function Initialize(env: map<string, string>, created: bool, built: bool, devServerCreated: bool): (o: Outcome)
    ensures o.HelpersInstalled? <==>
      created && (if SelectMode(env) == Production then built else devServerCreated)
    ensures o.HelpersInstalled? ==> o.mode == SelectMode(env)
  {
    if !created then ErrorLogged
    else match SelectMode(env)
      case Production => if built then HelpersInstalled(Production) else ErrorLogged
      case Development => if devServerCreated then HelpersInstalled(Development) else ErrorLogged
  }

  /** Each mode awaits only its own bundler call: the other one's result does not matter. */
  lemma InitializeAwaitsOnlyItsMode(env: map<string, string>, created: bool, built: bool, devServerCreated: bool, built': bool, devServerCreated': bool)
    ensures SelectMode(env) == Production ==>
      Initialize(env, created, built, devServerCreated) == Initialize(env, created, built, devServerCreated')
    ensures SelectMode(env) == Development ==>
      Initialize(env, created, built, devServerCreated) == Initialize(env, created, built', devServerCreated)
  {
  }
}
