/** Values shared by the components: options and environment configurations. */
module Config {

  datatype Option<+T> = None | Some(value: T)

  /** The upstream part of an environment's `config.json`. */
  datatype ConfigUpstream = ConfigUpstream(environment: string, latest: bool)

  datatype EnvironmentConfig = EnvironmentConfig(upstream: Option<ConfigUpstream>, group: Option<string>)

  /** The group named by the configuration; an environment without one is a group of its own. */
  function DeriveGroupName(config: EnvironmentConfig, envName: string): string {
    match config.group
    case None => envName
    case Some(name) => name
  }

  /** An upstream as the overview shows it: `latest` wins over an environment name. */
  datatype Upstream = Latest | From(environment: string)

  function TransformUpstream(upstream: Option<ConfigUpstream>): Option<Upstream> {
    match upstream
    case None => None
    case Some(u) =>
      if u.latest then Some(Latest)
      else if u.environment != "" then Some(From(u.environment))
      else None
  }
}
