/** The plugin's configuration entries read by the modelled code, with their defaults. */
module Config {
  import opened Wrappers

  /** A configuration: each entry is None when the key is not set. */
  datatype Config = Config(maxMsgCount: Option<int>, perMsgCount: Option<int>, maxQueryRounds: Option<int>)

  const DefaultMaxMsgCount: int := 500
  const DefaultPerMsgCount: int := 200
  const DefaultMaxQueryRounds: int := 10

  /** `conf.get("max_msg_count", 500)`: how many turns to collect before stopping. */
  function TargetCount(conf: Config): (n: int)
  {
    conf.maxMsgCount.GetOr(DefaultMaxMsgCount)
  }

  /** `conf.get("per_msg_count", 200)`: the page size sent with each history request. */
  function PageSize(conf: Config): (n: int)
  {
    conf.perMsgCount.GetOr(DefaultPerMsgCount)
  }

  /** `conf.get("max_query_rounds", 10)`: the round budget when the command names none. */
  function DefaultRounds(conf: Config): (n: int)
  {
    conf.maxQueryRounds.GetOr(DefaultMaxQueryRounds)
  }

  /** Each entry is the configured value when the key is set, and its default (500, 200, 10) otherwise. */
  lemma EntriesOrDefaults(conf: Config)
    ensures TargetCount(conf) == if conf.maxMsgCount.Some? then conf.maxMsgCount.value else 500
    ensures PageSize(conf) == if conf.perMsgCount.Some? then conf.perMsgCount.value else 200
    ensures DefaultRounds(conf) == if conf.maxQueryRounds.Some? then conf.maxQueryRounds.value else 10
  {
  }
}
