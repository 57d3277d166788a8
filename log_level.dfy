/**
 * The global log level: four fixed table entries, one per level name, chosen
 * by `setLogLevel`; anything else, `null` included (`None`), selects `info`.
 */
module LogLevel {
  import opened Wrappers

  datatype Level = Level(level: string, isDebugEnabled: bool, isInfoEnabled: bool, isWarnEnabled: bool)

  const DEBUG := Level("debug", true, true, true)
  const INFO := Level("info", false, true, true)
  const WARN := Level("warn", false, false, true)
  const ERROR := Level("error", false, false, false)

  /** Each level enables everything less verbose than itself. */
  predicate Ordered(l: Level)
  {
    (l.isDebugEnabled ==> l.isInfoEnabled) && (l.isInfoEnabled ==> l.isWarnEnabled)
  }

  const LEVEL_NAMES: set<string> := {"debug", "info", "warn", "error"}

  /** The table entry `setLogLevel` picks for its argument. */
  function LevelFor(text: Option<string>): (l: Level)
    ensures text.Some? && text.value in LEVEL_NAMES ==> l.level == text.value
    ensures !(text.Some? && text.value in LEVEL_NAMES) ==> l == INFO
    ensures l in {DEBUG, INFO, WARN, ERROR}
  {
    match text
    case Some("debug") => DEBUG
    case Some("info") => INFO
    case Some("warn") => WARN
    case Some("error") => ERROR
    case _ => INFO
  }

  /** Every entry of the table is ordered. */
  lemma TableOrdered(text: Option<string>)
    ensures Ordered(LevelFor(text))
  {
  }

  /** Naming the level in force selects it again. */
  lemma LevelForOwnName(text: Option<string>)
    ensures LevelFor(Some(LevelFor(text).level)) == LevelFor(text)
  {
  }

  /** `globalThis`, as far as the log level goes. */
  class Globals {
    var ephemeralVideoLogLevel: Level

    constructor (initial: Level)
      ensures ephemeralVideoLogLevel == initial
    {
      ephemeralVideoLogLevel := initial;
    }

    /** `setLogLevel`: only the global level changes; it is a function of the argument alone, so a second call changes nothing. */
    method SetLogLevel(text: Option<string>)
      modifies this`ephemeralVideoLogLevel
      ensures ephemeralVideoLogLevel == LevelFor(text)
    {
      ephemeralVideoLogLevel := LevelFor(text);
    }
  }
}
