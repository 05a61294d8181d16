/** Application settings: the log levels and the default configuration. */
module Config {
  import opened NetTypes

  /** `LogLevel` */
  datatype LogLevel = DEBUG | INFO | WARN | ERROR

  /** The severity order DEBUG < INFO < WARN < ERROR. */
  function Rank(l: LogLevel): nat
  {
    match l
    case DEBUG => 0
    case INFO => 1
    case WARN => 2
    case ERROR => 3
  }

  /** `LogLevel::allows`: a filter at `self` lets `level` through. */
  predicate Allows(self: LogLevel, level: LogLevel)
  {
    match self
    case DEBUG => true
    case INFO => level != DEBUG
    case WARN => level == WARN || level == ERROR
    case ERROR => level == ERROR
  }

  /** A level is let through exactly when it is at least as severe as the
      filter's. */
  lemma AllowsIsRankOrder(self: LogLevel, level: LogLevel)
    ensures Allows(self, level) <==> Rank(level) >= Rank(self)
  {
  }

  /** `allows` is a total order. */
  lemma AllowsTotalOrder(a: LogLevel, b: LogLevel, c: LogLevel)
    ensures Allows(a, a)
    ensures Allows(a, b) && Allows(b, c) ==> Allows(a, c)
    ensures Allows(a, b) || Allows(b, a)
    ensures Allows(a, b) && Allows(b, a) ==> a == b
  {
    AllowsIsRankOrder(a, b);
    AllowsIsRankOrder(b, c);
    AllowsIsRankOrder(a, c);
    AllowsIsRankOrder(b, a);
  }

  /** `LogLevel::to_string`: the level's own name. */
  function LevelText(l: LogLevel): (s: string)
    ensures s in {"DEBUG", "INFO", "WARN", "ERROR"}
  {
    match l
    case DEBUG => "DEBUG"
    case INFO => "INFO"
    case WARN => "WARN"
    case ERROR => "ERROR"
  }

  /** Different levels have different names. */
  lemma LevelTextInjective(a: LogLevel, b: LogLevel)
    ensures LevelText(a) == LevelText(b) ==> a == b
  {
  }

  /** `bps_unit` */
  const BITS: string := "bits"
  const BYTES: string := "bytes"

  /** `AppConfig` without its logging part. */
  datatype AppConfig = AppConfig(startup: bool, refreshIntervalMs: U64, theme: string, dataUnit: string)

  /** `AppConfig::new` */
  function NewAppConfig(): (c: AppConfig)
    ensures !c.startup && c.refreshIntervalMs == 1000 && c.theme == "system" && c.dataUnit == BITS
  {
    AppConfig(false, 1000, "system", BITS)
  }
}
