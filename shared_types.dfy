/** The constants the app shares with the root helper (Shared/SharedTypes.h). */
module SharedTypes {
  import Bus
  import Rules

  const NOTI5_MATCHED: string := "com.noti5.matched"
  const NOTI5_RULES_UPDATED: string := "com.noti5.rules.updated"
  const NOTI5_START: string := "com.noti5.start"
  const NOTI5_STOP: string := "com.noti5.stop"
  const NOTI5_HEARTBEAT: string := "com.noti5.heartbeat"

  /** The header's numbering of match types. */
  function MatchTypeCode(m: Rules.MatchType): (r: nat)
    ensures r <= 5
  {
    match m
    case Equals => 0
    case Contains => 1
    case StartsWith => 2
    case EndsWith => 3
    case NotEquals => 4
    case NotContains => 5
  }

  /** The numbering is one-to-one. */
  lemma MatchTypeCodeInjective(a: Rules.MatchType, b: Rules.MatchType)
    ensures MatchTypeCode(a) == MatchTypeCode(b) <==> a == b
  {
  }

  /** Both sides of the bus use the same names. */
  lemma NamesAgree()
    ensures NOTI5_MATCHED == Bus.Matched && NOTI5_RULES_UPDATED == Bus.RulesUpdated
    ensures NOTI5_START == Bus.Start && NOTI5_STOP == Bus.Stop
    ensures NOTI5_HEARTBEAT == Bus.Heartbeat
  {
  }
}
