/** The per-app list logic (NotifyFilter/Views/AppsListView.swift): which
    rules belong to an app, the quick actions that add or remove them, and
    the caption and colour an app's row shows. */
module AppsList {
  import opened Wrappers
  import opened Strings
  import opened Records
  import opened Rules
  import opened Engine
  import opened Storage
  import opened RulesList
  import Bus

  // ----- rules of one app -----

  /** Some condition of the rule is `app` with exactly this value (the
      match type and case sensitivity of the condition play no part). */
  predicate HasAppCondition(rule: FilterRule, bundleId: string) {
    NamesApp(rule.conditions, bundleId)
  }

  /** `conditions.contains { $0.field == .app && $0.value == bundleId }`. */
  predicate NamesApp(conditions: seq<RuleCondition>, bundleId: string) {
    conditions != [] && ((conditions[0].field == App && conditions[0].value == bundleId)
      || NamesApp(conditions[1..], bundleId))
  }

  /** NamesApp holds exactly when some condition is `app` with the value. */
  lemma {:induction false} NamesAppSpec(conditions: seq<RuleCondition>, bundleId: string)
    ensures NamesApp(conditions, bundleId) <==>
      exists c :: c in conditions && c.field == App && c.value == bundleId
  {
    if conditions != [] {
      NamesAppSpec(conditions[1..], bundleId);
      assert conditions == [conditions[0]] + conditions[1..];
    }
  }

  /** rulesForApp(_:): the store's rules that name the app, in store order. */
  function RulesForApp(rules: seq<FilterRule>, bundleId: string): (r: seq<FilterRule>)
    ensures |r| <= |rules|
  {
    if rules == [] then []
    else ((if HasAppCondition(rules[0], bundleId) then [rules[0]] else [])
      + RulesForApp(rules[1..], bundleId))
  }

  /** rulesForApp holds exactly the store's rules that name the app. */
  lemma {:induction false} RulesForAppSpec(rules: seq<FilterRule>, bundleId: string)
    ensures forall x :: x in RulesForApp(rules, bundleId) <==> x in rules && HasAppCondition(x, bundleId)
  {
    if rules != [] {
      RulesForAppSpec(rules[1..], bundleId);
      assert rules == [rules[0]] + rules[1..];
    }
  }

  /** No rule names the app, so rulesForApp is empty. */
  lemma {:induction false} RulesForAppNone(rules: seq<FilterRule>, bundleId: string)
    requires forall x :: x in rules ==> !HasAppCondition(x, bundleId)
    ensures RulesForApp(rules, bundleId) == []
  {
    if rules != [] {
      assert rules[0] in rules;
      assert forall x :: x in rules[1..] ==> x in rules;
      RulesForAppNone(rules[1..], bundleId);
    }
  }

  /** One step of the filter on a rule put in front. */
  lemma RulesForAppCons(x: FilterRule, t: seq<FilterRule>, bundleId: string)
    ensures RulesForApp([x] + t, bundleId)
      == (if HasAppCondition(x, bundleId) then [x] else []) + RulesForApp(t, bundleId)
  {
    assert ([x] + t)[0] == x && ([x] + t)[1..] == t;
  }

  /** The filter distributes over concatenation, so it keeps store order. */
  lemma {:induction false} RulesForAppConcat(a: seq<FilterRule>, b: seq<FilterRule>, bundleId: string)
    ensures RulesForApp(a + b, bundleId) == RulesForApp(a, bundleId) + RulesForApp(b, bundleId)
  {
    if a == [] {
      assert a + b == b;
    } else {
      var x, t := a[0], a[1..];
      RulesForAppConcat(t, b, bundleId);
      assert a + b == [x] + (t + b) && a == [x] + t;
      RulesForAppCons(x, t + b, bundleId);
      RulesForAppCons(x, t, bundleId);
      var head, ft, fb := (if HasAppCondition(x, bundleId) then [x] else []),
        RulesForApp(t, bundleId), RulesForApp(b, bundleId);
      assert head + (ft + fb) == (head + ft) + fb;
    }
  }

  // ----- quick actions -----

  datatype QuickAction = AllowAll | BlockAll | RemoveRules

  /** The rule allowAll (action notify) or blockAll (action block) adds:
      one case-insensitive `app equals <bundle id>` condition, AND. */
  function QuickRule(action: RuleAction, app: KnownApp, ruleId: Uuid, condId: Uuid): FilterRule {
    NewRule(ruleId, (if action == Notify then "Allow " else "Block ") + app.name, action,
            [NewCondition(condId, App, Equals, app.id)], And)
  }

  /** A quick rule is named after the app and its action, is enabled with
      priority 100, belongs to the app, and matches exactly the
      notifications whose bundle id equals the app's up to case. */
  lemma QuickRuleSpec(action: RuleAction, app: KnownApp, ruleId: Uuid, condId: Uuid, n: NotificationRecord)
    ensures var q := QuickRule(action, app, ruleId, condId);
      && q.name == (if action == Notify then "Allow " else "Block ") + app.name
      && q.action == action && q.logicOperator == And
      && q.isEnabled && q.priority == 100 && q.id == ruleId
      && |q.conditions| == 1
      && HasAppCondition(q, app.id)
      && (RuleMatches(q, n) <==> Lower(n.bundleId) == Lower(app.id))
  {
    var q := QuickRule(action, app, ruleId, condId);
    assert q.conditions[1..] == [];
    assert AllMatch(q.conditions, n) <==> ConditionMatches(q.conditions[0], n);
  }

  /** handleQuickAction(_:for:): allowAll and blockAll add a rule through
      addRule; removeRules deletes every rule of the app, one deleteRule call
      each. */
  method HandleQuickAction(storage: RuleStorage, action: QuickAction, app: KnownApp, ruleId: Uuid, condId: Uuid)
    modifies storage`rules, storage`defaultsRules, storage`defaultsMode, storage.helper`rulesFile, storage.helper.bus
    ensures action == AllowAll ==>
      storage.rules == old(storage.rules) + [QuickRule(Notify, app, ruleId, condId)] && storage.Saved()
    ensures action == BlockAll ==>
      storage.rules == old(storage.rules) + [QuickRule(Block, app, ruleId, condId)] && storage.Saved()
    ensures action == RemoveRules ==>
      storage.rules == WithoutIds(old(storage.rules), IdSet(RulesForApp(old(storage.rules), app.id)))
      && storage.SavedTimes(|RulesForApp(old(storage.rules), app.id)|)
  {
    match action
    case AllowAll =>
      storage.AddRule(QuickRule(Notify, app, ruleId, condId));
    case BlockAll =>
      storage.AddRule(QuickRule(Block, app, ruleId, condId));
    case RemoveRules =>
      var rulesToRemove := RulesForApp(storage.rules, app.id);
      DeletePicked(storage, rulesToRemove);
  }

  /** After allowAll or blockAll the app's rules are the earlier ones
      followed by the new rule. */
  lemma AddedQuickRuleIsLast(rules: seq<FilterRule>, action: RuleAction, app: KnownApp, ruleId: Uuid, condId: Uuid)
    ensures RulesForApp(rules + [QuickRule(action, app, ruleId, condId)], app.id)
      == RulesForApp(rules, app.id) + [QuickRule(action, app, ruleId, condId)]
  {
    var q := QuickRule(action, app, ruleId, condId);
    RulesForAppConcat(rules, [q], app.id);
    assert HasAppCondition(q, app.id);
    assert [q][1..] == [];
  }

  /** After removeRules the app has no rules left; with unique ids every rule
      that does not name the app stays in the store. */
  lemma RemoveRulesSpec(rules: seq<FilterRule>, bundleId: string, x: FilterRule)
    ensures RulesForApp(WithoutIds(rules, IdSet(RulesForApp(rules, bundleId))), bundleId) == []
    ensures UniqueIds(rules) && x in rules && !HasAppCondition(x, bundleId) ==>
      x in WithoutIds(rules, IdSet(RulesForApp(rules, bundleId)))
  {
    var mine := RulesForApp(rules, bundleId);
    var rest := WithoutIds(rules, IdSet(mine));
    RulesForAppSpec(rules, bundleId);
    forall y | y in rules && HasAppCondition(y, bundleId) ensures y.id in IdSet(mine) {
      assert y in mine;
    }
    RulesForAppNone(rest, bundleId);
    if UniqueIds(rules) && x in rules && !HasAppCondition(x, bundleId) {
      forall y | y in mine ensures y.id != x.id {
        if y.id == x.id {
          SameIdSame(rules, x, y);
        }
      }
      assert x.id !in IdSet(mine);
    }
  }

  /** The row offers Remove Rules only when the app has rules. */
  function OfferedActions(rules: seq<FilterRule>): (r: seq<QuickAction>)
    ensures AllowAll in r && BlockAll in r
    ensures RemoveRules in r <==> rules != []
  {
    [AllowAll, BlockAll] + (if rules == [] then [] else [RemoveRules])
  }

  // ----- the row caption and colour -----

  /** The number of enabled rules with the action. */
  function EnabledCount(rules: seq<FilterRule>, action: RuleAction): nat {
    if rules == [] then 0
    else ((if rules[0].action == action && rules[0].isEnabled then 1 else 0)
      + EnabledCount(rules[1..], action))
  }

  /** Some enabled rule has the action. */
  predicate HasEnabled(rules: seq<FilterRule>, action: RuleAction) {
    exists x :: x in rules && x.action == action && x.isEnabled
  }

  /** The count is positive exactly when an enabled rule has the action. */
  lemma {:induction false} EnabledCountPositive(rules: seq<FilterRule>, action: RuleAction)
    ensures EnabledCount(rules, action) > 0 <==> HasEnabled(rules, action)
  {
    if rules != [] {
      EnabledCountPositive(rules[1..], action);
      if HasEnabled(rules, action) && !(rules[0].action == action && rules[0].isEnabled) {
        var x :| x in rules && x.action == action && x.isEnabled;
        assert x in rules[1..];
      }
      if HasEnabled(rules[1..], action) {
        var x :| x in rules[1..] && x.action == action && x.isEnabled;
        assert x in rules;
      }
    }
  }

  /** The two counts together are the number of enabled rules. */
  lemma {:induction false} EnabledCountsSum(rules: seq<FilterRule>)
    ensures EnabledCount(rules, Notify) + EnabledCount(rules, Block) == |EnabledRules(rules)|
  {
    if rules != [] {
      EnabledCountsSum(rules[1..]);
    }
  }

  /** "rule" for exactly one rule, "rules" otherwise; disabled rules count. */
  function RuleNoun(total: nat): string {
    if total == 1 then " rule" else " rules"
  }

  /** AppRow.rulesSummary. */
  function RulesSummary(rules: seq<FilterRule>): string {
    SummaryText(EnabledCount(rules, Notify), EnabledCount(rules, Block), |rules|)
  }

  /** The summary from the two enabled counts and the total. */
  function SummaryText(notifyCount: nat, blockCount: nat, total: nat): string {
    var parts := (if notifyCount > 0 then [NatToString(notifyCount) + " allow"] else [])
      + (if blockCount > 0 then [NatToString(blockCount) + " block"] else []);
    Join(parts, ", ") + RuleNoun(total)
  }

  /** The four shapes of the summary text. */
  lemma SummaryTextCases(notifyCount: nat, blockCount: nat, total: nat)
    ensures var a := NatToString(notifyCount);
      var b := NatToString(blockCount);
      var noun := RuleNoun(total);
      && (notifyCount > 0 && blockCount > 0 ==> SummaryText(notifyCount, blockCount, total) == a + " allow, " + b + " block" + noun)
      && (notifyCount > 0 && blockCount == 0 ==> SummaryText(notifyCount, blockCount, total) == a + " allow" + noun)
      && (notifyCount == 0 && blockCount > 0 ==> SummaryText(notifyCount, blockCount, total) == b + " block" + noun)
      && (notifyCount == 0 && blockCount == 0 ==> SummaryText(notifyCount, blockCount, total) == noun)
  {
    var x := NatToString(notifyCount) + " allow";
    var y := NatToString(blockCount) + " block";
    assert [x, y][1..] == [y];
    assert Join([x, y], ", ") == x + ", " + y;
  }

  /** The summary names each action only when an enabled rule has it, lists
      allow before block, and takes its noun from the total rule count. */
  lemma RulesSummarySpec(rules: seq<FilterRule>)
    ensures var a := NatToString(EnabledCount(rules, Notify));
      var b := NatToString(EnabledCount(rules, Block));
      var noun := RuleNoun(|rules|);
      && (HasEnabled(rules, Notify) && HasEnabled(rules, Block) ==>
            RulesSummary(rules) == a + " allow, " + b + " block" + noun)
      && (HasEnabled(rules, Notify) && !HasEnabled(rules, Block) ==>
            RulesSummary(rules) == a + " allow" + noun)
      && (!HasEnabled(rules, Notify) && HasEnabled(rules, Block) ==>
            RulesSummary(rules) == b + " block" + noun)
      && (!HasEnabled(rules, Notify) && !HasEnabled(rules, Block) ==>
            RulesSummary(rules) == noun)
  {
    EnabledCountPositive(rules, Notify);
    EnabledCountPositive(rules, Block);
    SummaryTextCases(EnabledCount(rules, Notify), EnabledCount(rules, Block), |rules|);
  }

  /** The noun follows the total, not the counts shown: one enabled allow
      rule beside a disabled block rule reads "1 allow rules". */
  lemma SummaryOfAllowAndDisabled(allow: FilterRule, blocked: FilterRule)
    requires allow.action == Notify && allow.isEnabled
    requires blocked.action == Block && !blocked.isEnabled
    ensures RulesSummary([allow, blocked]) == "1 allow rules"
  {
    assert [allow, blocked][1..] == [blocked];
    assert [blocked][1..] == [];
    assert EnabledCount([], Notify) == 0 && EnabledCount([], Block) == 0;
    assert EnabledCount([blocked], Notify) == 0 && EnabledCount([blocked], Block) == 0;
    assert EnabledCount([allow, blocked], Notify) == 1 && EnabledCount([allow, blocked], Block) == 0;
    assert NatToString(1) == "1";
    SummaryTextCases(1, 0, 2);
  }

  /** A lone disabled rule reads " rule", with no count at all. */
  lemma SummaryOfDisabled(blocked: FilterRule)
    requires !blocked.isEnabled
    ensures RulesSummary([blocked]) == " rule"
  {
    assert [blocked][1..] == [];
    assert EnabledCount([], Notify) == 0 && EnabledCount([], Block) == 0;
    assert EnabledCount([blocked], Notify) == 0 && EnabledCount([blocked], Block) == 0;
    SummaryTextCases(0, 0, 1);
  }

  datatype RowColor = Orange | Green | Red | Secondary

  /** AppRow.rulesColor. */
  function RulesColor(rules: seq<FilterRule>): RowColor {
    var hasNotify := exists x :: x in rules && x.action == Notify && x.isEnabled;
    var hasBlock := exists x :: x in rules && x.action == Block && x.isEnabled;
    if hasNotify && hasBlock then Orange
    else if hasNotify then Green
    else if hasBlock then Red
    else Secondary
  }

  /** The colour agrees with the summary: orange when it names both actions,
      green for allow only, red for block only, secondary for neither. */
  lemma RulesColorSpec(rules: seq<FilterRule>)
    ensures RulesColor(rules) == Orange <==> EnabledCount(rules, Notify) > 0 && EnabledCount(rules, Block) > 0
    ensures RulesColor(rules) == Green <==> EnabledCount(rules, Notify) > 0 && EnabledCount(rules, Block) == 0
    ensures RulesColor(rules) == Red <==> EnabledCount(rules, Notify) == 0 && EnabledCount(rules, Block) > 0
    ensures RulesColor(rules) == Secondary <==> EnabledRules(rules) == []
  {
    EnabledCountPositive(rules, Notify);
    EnabledCountPositive(rules, Block);
    EnabledCountsSum(rules);
  }

  /** The row's caption: "No rules" for an app without rules, otherwise the
      summary. */
  function RowCaption(rules: seq<FilterRule>): string {
    if rules == [] then "No rules" else RulesSummary(rules)
  }

  /** The caption says "No rules" exactly when the app has none. */
  lemma RowCaptionSpec(rules: seq<FilterRule>)
    ensures RowCaption(rules) == "No rules" <==> rules == []
  {
    if rules != [] {
      RulesSummarySpec(rules);
      var a := NatToString(EnabledCount(rules, Notify));
      var b := NatToString(EnabledCount(rules, Block));
      assert RulesSummary(rules)[0] in {a[0], b[0], ' '};
    }
  }
}
