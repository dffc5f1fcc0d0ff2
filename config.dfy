/** Per-engine configuration and its defaults. A field missing from an engine's
    settings entry takes the matching `default_engine_*` value, and an engine
    with no entry at all gets `EngineConfig::default()`. */
module Config {
  import opened Wrappers
  import opened Models

  datatype EngineConfig = EngineConfig(
    enabled: bool,
    weight: real,
    timeout: u64,   // seconds
    throttle: u64,  // milliseconds
    tokens: seq<string>,
    extra: map<string, string>)

  function DefaultEngineEnabled(): bool { true }
  function DefaultEngineWeight(): real { 1.0 }
  function DefaultEngineTimeout(): u64 { 2 }
  function DefaultEngineThrottle(): u64 { 500 }

  /** `EngineConfig::default()`: enabled, weight 1.0, 2 s timeout, 500 ms
      throttle, no tokens, no extra settings. */
  function Default(): (c: EngineConfig)
    ensures c.enabled && c.weight == 1.0 && c.timeout == 2 && c.throttle == 500
    ensures c.tokens == [] && c.extra == map[]
  {
    EngineConfig(
      DefaultEngineEnabled(), DefaultEngineWeight(), DefaultEngineTimeout(), DefaultEngineThrottle(),
      [], map[])
  }

  /** An engine's entry in the settings, each field possibly absent. */
  datatype EngineEntry = EngineEntry(
    enabled: Option<bool>,
    weight: Option<real>,
    timeout: Option<u64>,
    throttle: Option<u64>,
    tokens: Option<seq<string>>,
    extra: Option<map<string, string>>)

  /** Deserialising an entry: every absent field takes its declared default. */
  function FromEntry(e: EngineEntry): EngineConfig {
    EngineConfig(
      e.enabled.GetOr(DefaultEngineEnabled()),
      e.weight.GetOr(DefaultEngineWeight()),
      e.timeout.GetOr(DefaultEngineTimeout()),
      e.throttle.GetOr(DefaultEngineThrottle()),
      e.tokens.GetOr([]),
      e.extra.GetOr(map[]))
  }

  /** The per-field defaults and the `Default` impl agree: an entry with every
      field absent deserialises to `EngineConfig::default()`. */
  lemma EmptyEntryIsDefault()
    ensures FromEntry(EngineEntry(None, None, None, None, None, None)) == Default()
  {
  }

  /** A field given in the entry is taken as given. */
  lemma EntryFieldsKept(e: EngineEntry)
    ensures e.enabled.Some? ==> FromEntry(e).enabled == e.enabled.value
    ensures e.weight.Some? ==> FromEntry(e).weight == e.weight.value
    ensures e.timeout.Some? ==> FromEntry(e).timeout == e.timeout.value
    ensures e.throttle.Some? ==> FromEntry(e).throttle == e.throttle.value
    ensures e.tokens.Some? ==> FromEntry(e).tokens == e.tokens.value
    ensures e.extra.Some? ==> FromEntry(e).extra == e.extra.value
  {
  }

  /** `settings.engines.get(id).cloned().unwrap_or_default()`. */
  function ConfigFor(engines: map<string, EngineConfig>, id: string): (c: EngineConfig)
    ensures id in engines ==> c == engines[id]
    ensures id !in engines ==> c == Default() && c.enabled
  {
    if id in engines then engines[id] else Default()
  }
}
