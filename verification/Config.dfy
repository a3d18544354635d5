/** The configuration the engine consults (internal/model/types.go). */
module Config {
  import opened Basics

  /**
   A decoded YAML value. Every value but null carries its text as the default print verb renders
   it; mapping keys are already texts.
   */
  datatype Value =
    | Nil
    | Str(text: string)
    | Scalar(text: string)
    | List(items: seq<Value>, text: string)
    | Mapping(entries: map<string, Value>, text: string)

  function Sprint(v: Value): string {
    if v.Nil? then "<nil>" else v.text
  }

  /** A match expression: the raw mapping of the configuration. */
  type MatchSpec = map<string, Value>

  datatype ClearRule = ClearRule(spec: MatchSpec, keyFields: seq<string>, varBindOid: string, regex: string)

  datatype DedupConfig = DedupConfig(ttlSeconds: int, keyFields: seq<string>, holdUntilClear: bool,
                                     clear: Option<ClearRule>)

  datatype AlarmRule = AlarmRule(id: string, spec: MatchSpec, dedup: DedupConfig)

  datatype FilterRule = FilterRule(id: string, action: string, spec: MatchSpec)

  datatype AppConfig = AppConfig(defaultAction: string, filters: seq<FilterRule>, alarms: seq<AlarmRule>)
}
