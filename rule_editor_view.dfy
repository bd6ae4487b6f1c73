/** The rule editor's state and logic (NotifyFilter/Views/RuleEditorView.swift):
    the fields being edited, the condition shortcuts, the preview line, when
    Save is allowed and the rule Save hands back. */
module Editor {
  import opened Wrappers
  import opened Strings
  import opened Records
  import opened Rules
  import opened Storage
  import opened RulesList
  import Bus

  /** The rule Save produces: an edited rule keeps its id and priority and
      takes every edited field; a new rule is FilterRule(name:action:
      conditions:logicOperator:) with a fresh id, then the enabled flag. */
  function SavedRule(existing: Option<FilterRule>, name: string, action: RuleAction,
                     logicOperator: LogicOperator, conditions: seq<RuleCondition>,
                     isEnabled: bool, freshId: Uuid): (r: FilterRule)
    ensures r.name == name && r.action == action && r.logicOperator == logicOperator
    ensures r.conditions == conditions && r.isEnabled == isEnabled
    ensures existing.Some? ==> r.id == existing.value.id && r.priority == existing.value.priority
    ensures existing.None? ==> r.id == freshId && r.priority == 100
  {
    match existing
    case Some(rule) =>
      rule.(name := name, action := action, logicOperator := logicOperator,
            conditions := conditions, isEnabled := isEnabled)
    case None =>
      NewRule(freshId, name, action, conditions, logicOperator).(isEnabled := isEnabled)
  }

  /** "NOTIFY" or "BLOCK". */
  function ActionText(action: RuleAction): string {
    if action == Notify then "NOTIFY" else "BLOCK"
  }

  const PreviewPlaceholder: string := "Add conditions to see preview"

  /** rulePreview. */
  function RulePreview(action: RuleAction, logicOperator: LogicOperator, conditions: seq<RuleCondition>): string {
    if conditions == [] then PreviewPlaceholder
    else "IF " + Join(ConditionTexts(conditions), LogicSeparator(logicOperator)) + " THEN " + ActionText(action)
  }

  /** The preview is the placeholder exactly when there are no conditions;
      otherwise it is "IF <the row description of the rule> THEN <action>",
      so the editor and the rules list render conditions alike. */
  lemma RulePreviewSpec(rule: FilterRule)
    ensures RulePreview(rule.action, rule.logicOperator, rule.conditions) == PreviewPlaceholder
      <==> rule.conditions == []
    ensures rule.conditions != [] ==>
      RulePreview(rule.action, rule.logicOperator, rule.conditions)
        == "IF " + RuleDescription(rule) + " THEN " + ActionText(rule.action)
  {
    if rule.conditions != [] {
      var p := RulePreview(rule.action, rule.logicOperator, rule.conditions);
      assert p[0] == 'I' && PreviewPlaceholder[0] == 'A';
    }
  }

  class RuleEditor {
    const existingRule: Option<FilterRule>
    var name: string
    var action: RuleAction
    var logicOperator: LogicOperator
    var conditions: seq<RuleCondition>
    var isEnabled: bool

    /** init(rule:onSave:): an edit starts from the rule's fields, a new rule
        from an empty name, notify, AND, no conditions, enabled. */
    constructor(rule: Option<FilterRule>)
      ensures existingRule == rule
      ensures rule.Some? ==> (name == rule.value.name && action == rule.value.action
        && logicOperator == rule.value.logicOperator && conditions == rule.value.conditions
        && isEnabled == rule.value.isEnabled)
      ensures rule.None? ==> (name == "" && action == Notify && logicOperator == And
        && conditions == [] && isEnabled)
    {
      existingRule := rule;
      name := "";
      action := Notify;
      logicOperator := And;
      conditions := [];
      isEnabled := true;
      new;
      if rule.Some? {
        name := rule.value.name;
        action := rule.value.action;
        logicOperator := rule.value.logicOperator;
        conditions := rule.value.conditions;
        isEnabled := rule.value.isEnabled;
      }
    }

    /** The Save button is enabled. */
    predicate SaveEnabled()
      reads this
    {
      name != "" && conditions != []
    }

    /** addCondition(): a blank `sender contains ""` condition at the end. */
    method AddCondition(condId: Uuid)
      modifies this`conditions
      ensures conditions == old(conditions) + [NewCondition(condId, Sender, Contains, "")]
    {
      conditions := conditions + [NewCondition(condId, Sender, Contains, "")];
    }

    /** addSenderCondition(_:). */
    method AddSenderCondition(condId: Uuid, sender: string)
      modifies this`conditions
      ensures conditions == old(conditions) + [NewCondition(condId, Sender, Contains, sender)]
    {
      conditions := conditions + [NewCondition(condId, Sender, Contains, sender)];
    }

    /** addAppCondition(_:). */
    method AddAppCondition(condId: Uuid, bundleId: string)
      modifies this`conditions
      ensures conditions == old(conditions) + [NewCondition(condId, App, Equals, bundleId)]
    {
      conditions := conditions + [NewCondition(condId, App, Equals, bundleId)];
    }

    /** saveRule(): builds the rule field by field; `freshId` stands for the
        UUID() a new rule draws. */
    method SaveRule(freshId: Uuid) returns (rule: FilterRule)
      ensures rule == SavedRule(existingRule, name, action, logicOperator, conditions, isEnabled, freshId)
    {
      if existingRule.Some? {
        rule := existingRule.value;
        rule := rule.(name := name);
        rule := rule.(action := action);
        rule := rule.(logicOperator := logicOperator);
        rule := rule.(conditions := conditions);
        rule := rule.(isEnabled := isEnabled);
      } else {
        rule := NewRule(freshId, name, action, conditions, logicOperator);
        rule := rule.(isEnabled := isEnabled);
      }
    }
  }

  /** A rule saved while Save is enabled has a name and at least one
      condition, and the conditions in the order the editor shows them. */
  lemma SaveEnabledRuleHasConditions(existing: Option<FilterRule>, name: string, action: RuleAction,
                                     logicOperator: LogicOperator, conditions: seq<RuleCondition>,
                                     isEnabled: bool, freshId: Uuid)
    requires name != "" && conditions != []
    ensures var r := SavedRule(existing, name, action, logicOperator, conditions, isEnabled, freshId);
      r.name != "" && |r.conditions| > 0 && RuleDescription(r) != "No conditions"
  {
    var r := SavedRule(existing, name, action, logicOperator, conditions, isEnabled, freshId);
    RuleDescriptionSpec(r);
  }

  /** Reopening a rule and saving without edits gives the rule back. */
  lemma SaveUnchangedIsIdentity(rule: FilterRule, freshId: Uuid)
    ensures SavedRule(Some(rule), rule.name, rule.action, rule.logicOperator, rule.conditions,
                      rule.isEnabled, freshId) == rule
  {
  }

  /** The rules list's onSave: a new rule goes through addRule, an edited
      one through updateRule. */
  method SubmitEditor(editor: RuleEditor, storage: RuleStorage, freshId: Uuid)
    modifies storage`rules, storage`defaultsRules, storage`defaultsMode, storage.helper`rulesFile, storage.helper.bus
    ensures var r := SavedRule(editor.existingRule, editor.name, editor.action, editor.logicOperator,
                               editor.conditions, editor.isEnabled, freshId);
      storage.rules == if editor.existingRule.None? then old(storage.rules) + [r]
                       else UpdatedById(old(storage.rules), r)
    ensures editor.existingRule.None? || FirstIndexOf(old(storage.rules), editor.existingRule.value.id).Some? ==>
      storage.Saved()
    ensures editor.existingRule.Some? && FirstIndexOf(old(storage.rules), editor.existingRule.value.id).None? ==>
      storage.NothingSaved()
  {
    var rule := editor.SaveRule(freshId);
    if editor.existingRule.None? {
      storage.AddRule(rule);
    } else {
      storage.UpdateRule(rule);
    }
  }

  /** With unique ids, saving an edit of the k-th rule replaces that rule in
      place and leaves every other rule where it was. */
  lemma EditReplacesInPlace(rules: seq<FilterRule>, k: nat, name: string, action: RuleAction,
                            logicOperator: LogicOperator, conditions: seq<RuleCondition>,
                            isEnabled: bool, freshId: Uuid)
    requires UniqueIds(rules) && k < |rules|
    ensures var r := SavedRule(Some(rules[k]), name, action, logicOperator, conditions, isEnabled, freshId);
      UpdatedById(rules, r) == rules[k := r]
  {
    var r := SavedRule(Some(rules[k]), name, action, logicOperator, conditions, isEnabled, freshId);
    UpdatedByIdSpec(rules, r);
    var i :| 0 <= i < |rules| && rules[i].id == r.id
      && (forall j :: 0 <= j < i ==> rules[j].id != r.id)
      && UpdatedById(rules, r) == rules[i := r];
    assert rules[i].id == rules[k].id;
    assert i == k;
  }
}
