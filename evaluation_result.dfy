/** EvaluationResult and its two constructors
    (NotifyFilter/Models/NotificationRecord.swift). */
module Results {
  import opened Wrappers
  import opened Records
  import opened Rules

  datatype EvaluationResult = EvaluationResult(
    action: RuleAction,
    matchedRuleName: Option<string>,
    matchedRuleId: Option<Uuid>,
    wasDefault: bool)

  /** EvaluationResult.matched(rule:): the rule's action, name and id. */
  function Matched(rule: FilterRule): (r: EvaluationResult)
    ensures r.action == rule.action && r.matchedRuleName == Some(rule.name)
    ensures r.matchedRuleId == Some(rule.id) && !r.wasDefault
  {
    EvaluationResult(rule.action, Some(rule.name), Some(rule.id), false)
  }

  /** EvaluationResult.defaultResult(action:): no rule name or id. */
  function DefaultResult(action: RuleAction): (r: EvaluationResult)
    ensures r.action == action && r.matchedRuleName.None? && r.matchedRuleId.None? && r.wasDefault
  {
    EvaluationResult(action, None, None, true)
  }

  /** The two constructors never produce the same result, and wasDefault
      tells them apart. */
  lemma MatchedIsNotDefault(rule: FilterRule, action: RuleAction)
    ensures Matched(rule) != DefaultResult(action)
  {
  }
}
