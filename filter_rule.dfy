/** Filter rules, their conditions and how one rule is matched against a
    notification (NotifyFilter/Models/FilterRule.swift). */
module Rules {
  import opened Wrappers
  import opened Strings
  import opened Records

  datatype ConditionField = Sender | Keyword | App
  datatype MatchType = Equals | Contains | StartsWith | EndsWith | NotEquals | NotContains
  datatype LogicOperator = And | Or
  datatype RuleAction = Notify | Block
  datatype GlobalFilterMode = Whitelist | Blacklist

  datatype RuleCondition = RuleCondition(
    id: Uuid,
    field: ConditionField,
    matchType: MatchType,
    value: string,
    isCaseSensitive: bool)

  /** A lower priority number is evaluated first. */
  datatype FilterRule = FilterRule(
    id: Uuid,
    name: string,
    isEnabled: bool,
    priority: int,
    action: RuleAction,
    conditions: seq<RuleCondition>,
    logicOperator: LogicOperator)

  /** RuleCondition(field:matchType:value:isCaseSensitive:), with its
      defaults; `id` stands for the UUID() the initializer draws. */
  function NewCondition(id: Uuid, field: ConditionField, matchType: MatchType := Contains,
                        value: string, isCaseSensitive: bool := false): (c: RuleCondition)
    ensures c.id == id && c.field == field && c.matchType == matchType
    ensures c.value == value && c.isCaseSensitive == isCaseSensitive
  {
    RuleCondition(id, field, matchType, value, isCaseSensitive)
  }

  /** FilterRule(name:action:conditions:logicOperator:), with its defaults. */
  function NewRule(id: Uuid, name: string, action: RuleAction := Notify,
                   conditions: seq<RuleCondition> := [], logicOperator: LogicOperator := And): (r: FilterRule)
    ensures r.id == id && r.name == name && r.action == action
    ensures r.conditions == conditions && r.logicOperator == logicOperator
    ensures r.isEnabled && r.priority == 100
  {
    FilterRule(id, name, true, 100, action, conditions, logicOperator)
  }

  /** A rule built with every default is enabled, has priority 100, notifies
      and combines its (no) conditions with AND. */
  lemma NewRuleDefaults(id: Uuid, name: string)
    ensures NewRule(id, name) == FilterRule(id, name, true, 100, Notify, [], And)
  {
  }

  // ----- matching -----

  /** The text a condition inspects. */
  function FieldValue(field: ConditionField, n: NotificationRecord): string {
    match field
    case Sender => n.title
    case Keyword => Join([n.title, n.subtitle.GetOr(""), n.body], " ")
    case App => n.bundleId
  }

  /** sender reads the title, app the bundle id, and keyword the title,
      subtitle (empty when absent) and body separated by single spaces. */
  lemma FieldValues(n: NotificationRecord)
    ensures FieldValue(Sender, n) == n.title
    ensures FieldValue(App, n) == n.bundleId
    ensures FieldValue(Keyword, n) == n.title + " " + n.subtitle.GetOr("") + " " + n.body
  {
    var parts := [n.title, n.subtitle.GetOr(""), n.body];
    assert parts[1..][1..] == [n.body];
    assert Join(parts[1..], " ") == n.subtitle.GetOr("") + " " + n.body;
  }

  /** One of the six string predicates, on already case-mapped operands. */
  predicate Compare(matchType: MatchType, compareValue: string, targetValue: string) {
    match matchType
    case Equals => compareValue == targetValue
    case Contains => Strings.Contains(compareValue, targetValue)
    case StartsWith => HasPrefix(compareValue, targetValue)
    case EndsWith => HasSuffix(compareValue, targetValue)
    case NotEquals => compareValue != targetValue
    case NotContains => !Strings.Contains(compareValue, targetValue)
  }

  /** The field value as compared: lowercased unless case-sensitive. */
  function CompareValue(c: RuleCondition, n: NotificationRecord): string {
    if c.isCaseSensitive then FieldValue(c.field, n) else Lower(FieldValue(c.field, n))
  }

  /** The condition's value as compared: lowercased unless case-sensitive. */
  function TargetValue(c: RuleCondition): string {
    if c.isCaseSensitive then c.value else Lower(c.value)
  }

  /** RuleCondition.matches(notification:). */
  predicate ConditionMatches(c: RuleCondition, n: NotificationRecord) {
    Compare(c.matchType, CompareValue(c, n), TargetValue(c))
  }

  /** `results.allSatisfy { $0 }` over the conditions' results. */
  predicate AllMatch(conditions: seq<RuleCondition>, n: NotificationRecord) {
    conditions == [] || (ConditionMatches(conditions[0], n) && AllMatch(conditions[1..], n))
  }

  /** `results.contains { $0 }` over the conditions' results. */
  predicate AnyMatch(conditions: seq<RuleCondition>, n: NotificationRecord) {
    conditions != [] && (ConditionMatches(conditions[0], n) || AnyMatch(conditions[1..], n))
  }

  /** FilterRule.matches(notification:). */
  predicate RuleMatches(r: FilterRule, n: NotificationRecord) {
    if !r.isEnabled || r.conditions == [] then false
    else match r.logicOperator
      case And => AllMatch(r.conditions, n)
      case Or => AnyMatch(r.conditions, n)
  }

  // ----- properties of matching -----

  lemma {:induction false} AllMatchIffEvery(conditions: seq<RuleCondition>, n: NotificationRecord)
    ensures AllMatch(conditions, n) <==> forall i :: 0 <= i < |conditions| ==> ConditionMatches(conditions[i], n)
  {
    if conditions != [] {
      AllMatchIffEvery(conditions[1..], n);
      assert forall i :: 1 <= i < |conditions| ==> conditions[i] == conditions[1..][i - 1];
    }
  }

  lemma {:induction false} AnyMatchIffSome(conditions: seq<RuleCondition>, n: NotificationRecord)
    ensures AnyMatch(conditions, n) <==> exists i :: 0 <= i < |conditions| && ConditionMatches(conditions[i], n)
  {
    if conditions != [] {
      AnyMatchIffSome(conditions[1..], n);
      if AnyMatch(conditions[1..], n) {
        var i :| 0 <= i < |conditions[1..]| && ConditionMatches(conditions[1..][i], n);
        assert ConditionMatches(conditions[i + 1], n);
      }
      if exists i :: 0 <= i < |conditions| && ConditionMatches(conditions[i], n) {
        var i :| 0 <= i < |conditions| && ConditionMatches(conditions[i], n);
        if i > 0 {
          assert conditions[1..][i - 1] == conditions[i];
        }
      }
    }
  }

  /** A rule matches exactly when it is enabled, has a condition, and all
      (AND) or some (OR) of its conditions match. */
  lemma RuleMatchesSpec(r: FilterRule, n: NotificationRecord)
    ensures RuleMatches(r, n) <==> (r.isEnabled && r.conditions != [] &&
      (r.logicOperator == And ==> forall i :: 0 <= i < |r.conditions| ==> ConditionMatches(r.conditions[i], n)) &&
      (r.logicOperator == Or ==> exists i :: 0 <= i < |r.conditions| && ConditionMatches(r.conditions[i], n)))
  {
    AllMatchIffEvery(r.conditions, n);
    AnyMatchIffSome(r.conditions, n);
  }

  /** A rule with no conditions, or a disabled rule, never matches. */
  lemma NeverMatches(r: FilterRule, n: NotificationRecord)
    requires r.conditions == [] || !r.isEnabled
    ensures !RuleMatches(r, n)
  {
  }

  /** notEquals is the negation of equals, notContains that of contains. */
  lemma NegatedMatchTypes(c: RuleCondition, n: NotificationRecord)
    ensures ConditionMatches(c.(matchType := NotEquals), n) == !ConditionMatches(c.(matchType := Equals), n)
    ensures ConditionMatches(c.(matchType := NotContains), n) == !ConditionMatches(c.(matchType := Contains), n)
  {
  }

  /** startsWith, endsWith and contains hold exactly when the (case-mapped)
      target is a prefix, a suffix or a slice of the (case-mapped) field. */
  lemma SubstringMatchTypes(c: RuleCondition, n: NotificationRecord)
    ensures ConditionMatches(c.(matchType := StartsWith), n) <==>
      exists rest :: CompareValue(c, n) == TargetValue(c) + rest
    ensures ConditionMatches(c.(matchType := EndsWith), n) <==>
      exists front :: CompareValue(c, n) == front + TargetValue(c)
    ensures ConditionMatches(c.(matchType := Contains), n) <==>
      exists i :: OccursAt(CompareValue(c, n), TargetValue(c), i)
  {
    HasPrefixIffSplit(CompareValue(c, n), TargetValue(c));
    HasSuffixIffSplit(CompareValue(c, n), TargetValue(c));
    ContainsIffOccurs(CompareValue(c, n), TargetValue(c));
  }

  /** A case-sensitive condition compares the field and the value unchanged. */
  lemma CaseSensitiveComparesUnchanged(c: RuleCondition, n: NotificationRecord)
    requires c.isCaseSensitive
    ensures ConditionMatches(c, n) == Compare(c.matchType, FieldValue(c.field, n), c.value)
  {
  }

  /** A case-insensitive condition cannot tell apart values or fields that
      lowercase alike. */
  lemma CaseInsensitiveIgnoresCase(c: RuleCondition, value': string, n: NotificationRecord, n': NotificationRecord)
    requires !c.isCaseSensitive
    requires Lower(value') == Lower(c.value)
    requires Lower(FieldValue(c.field, n')) == Lower(FieldValue(c.field, n))
    ensures ConditionMatches(c.(value := value'), n') == ConditionMatches(c, n)
  {
  }

  // ----- display names and the one-line text of a condition -----

  function FieldDisplayName(f: ConditionField): string {
    match f
    case Sender => "Sender"
    case Keyword => "Keyword"
    case App => "App"
  }

  function MatchTypeDisplayName(m: MatchType): string {
    match m
    case Equals => "equals"
    case Contains => "contains"
    case StartsWith => "starts with"
    case EndsWith => "ends with"
    case NotEquals => "not equals"
    case NotContains => "not contains"
  }

  /** `<Field> <match type> "<value>"`, as both rule lists and the rule editor
      render a condition. */
  function ConditionText(c: RuleCondition): string {
    FieldDisplayName(c.field) + " " + MatchTypeDisplayName(c.matchType) + " \"" + c.value + "\""
  }

  /** The texts of a rule's conditions, in order. */
  function ConditionTexts(conditions: seq<RuleCondition>): (r: seq<string>)
    ensures |r| == |conditions|
    ensures forall i :: 0 <= i < |r| ==> r[i] == ConditionText(conditions[i])
  {
    seq(|conditions|, i requires 0 <= i < |conditions| => ConditionText(conditions[i]))
  }

  /** The separator between condition texts for an operator. */
  function LogicSeparator(op: LogicOperator): string {
    if op == And then " AND " else " OR "
  }

  /** A condition's text begins with the display name of its field. */
  lemma ConditionTextStartsWithField(c: RuleCondition)
    ensures FieldDisplayName(c.field) <= ConditionText(c)
    ensures ConditionText(c)[0] in {'S', 'K', 'A'}
  {
  }

  // ----- raw values of the global mode (UserDefaults storage) -----

  function ModeRawValue(m: GlobalFilterMode): string {
    match m
    case Whitelist => "whitelist"
    case Blacklist => "blacklist"
  }

  /** GlobalFilterMode(rawValue:). */
  function ParseMode(s: string): Option<GlobalFilterMode> {
    if s == "whitelist" then Some(Whitelist)
    else if s == "blacklist" then Some(Blacklist)
    else None
  }

  /** Parsing accepts exactly the two raw values, each naming its mode. */
  lemma ModeRawValueRoundTrip(m: GlobalFilterMode, s: string)
    ensures ParseMode(ModeRawValue(m)) == Some(m)
    ensures ParseMode(s) == Some(m) <==> s == ModeRawValue(m)
  {
  }
}
