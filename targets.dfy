/** The entities the controller reads from its domain configuration. */
module Targets {

  /** One endpoint of a record. Optional fields carry the value the controller
      falls back to when they are absent: `weight` 1, `location` "" (no
      region, i.e. a default target), `protocol` "http", `port` 80, `path` "/". */
  datatype Target = Target(
    address: string,
    protocol: string,
    port: int,
    path: string,
    weight: int,
    location: string)

  /** A DNS record: a name ("" when the entry has none) and its candidate
      targets, in configuration order. */
  datatype RecordSpec = RecordSpec(name: string, targets: seq<Target>)

  /** The record name -> healthy targets map handed from the health check to
      the view composer. */
  type HealthyMap = map<string, seq<Target>>

  /** One view: record name -> the targets to publish, weights replicated. */
  type View = map<string, seq<Target>>

  /** View key ("default" or an upper-cased region code) -> view. */
  type Views = map<string, View>

  const DEFAULT_VIEW: string := "default"
}
