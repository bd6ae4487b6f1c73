/** Creating a rule from a recent notification
    (Noti5/Views/RecentNotificationsView.swift, CreateRuleFromNotificationView):
    the form, its preview line, when Create is allowed and the rule it adds. */
module FromNotification {
  import opened Wrappers
  import opened Strings
  import opened Records
  import opened Rules
  import opened Storage
  import Bus

  /** The fields of a recent notification the form reads. */
  datatype RecentNotification = RecentNotification(
    bundleId: string,
    title: string,
    subtitle: Option<string>,
    body: string)

  /** The form's state. */
  datatype CreateForm = CreateForm(
    ruleName: string,
    matchBundleId: bool,
    matchTitle: bool,
    matchBody: bool,
    titleContains: string,
    bodyContains: string)

  /** The @State initial values: only the app toggle is on. */
  const InitialForm: CreateForm := CreateForm("", true, false, false, "", "")

  /** onAppear: the name "Rule for <app name or bundle id>", and the title
      and body texts prefilled from the notification; toggles unchanged. */
  function OnAppear(form: CreateForm, n: RecentNotification): (r: CreateForm)
    ensures r.matchBundleId == form.matchBundleId && r.matchTitle == form.matchTitle
    ensures r.matchBody == form.matchBody
    ensures r.titleContains == n.title && r.bodyContains == n.body
    ensures Find(n.bundleId).Some? ==> r.ruleName == "Rule for " + Find(n.bundleId).value.name
    ensures Find(n.bundleId).None? ==> r.ruleName == "Rule for " + n.bundleId
  {
    var shown := match Find(n.bundleId) case Some(app) => app.name case None => n.bundleId;
    form.(ruleName := "Rule for " + shown, titleContains := n.title, bodyContains := n.body)
  }

  // ----- which conditions the form stands for -----

  /** The title clause applies: its toggle is on and its text non-empty. */
  predicate TitleApplies(form: CreateForm) {
    form.matchTitle && form.titleContains != ""
  }

  /** The body clause applies: its toggle is on and its text non-empty. */
  predicate BodyApplies(form: CreateForm) {
    form.matchBody && form.bodyContains != ""
  }

  /** The conditions createRule builds, in its fixed order; the three slots
      draw the ids condIdBase, condIdBase + 1 and condIdBase + 2. */
  function FormConditions(form: CreateForm, n: RecentNotification, condIdBase: Uuid): seq<RuleCondition> {
    (if form.matchBundleId then [NewCondition(condIdBase, App, Equals, n.bundleId)] else [])
    + (if TitleApplies(form) then [NewCondition(condIdBase + 1, Sender, Contains, form.titleContains)] else [])
    + (if BodyApplies(form) then [NewCondition(condIdBase + 2, Keyword, Contains, form.bodyContains)] else [])
  }

  /** The clauses of the preview line, in the same order. */
  function FormClauses(form: CreateForm, n: RecentNotification): seq<string> {
    (if form.matchBundleId then ["App is " + n.bundleId] else [])
    + (if TitleApplies(form) then ["Title contains \"" + form.titleContains + "\""] else [])
    + (if BodyApplies(form) then ["Body contains \"" + form.bodyContains + "\""] else [])
  }

  /** The field a condition of the form tests, and the words its clause
      starts with. */
  function ClauseHead(field: ConditionField): string {
    match field
    case App => "App is "
    case Sender => "Title contains "
    case Keyword => "Body contains "
  }

  /** Each condition of the form carries the value, match type and case
      handling of its clause, and is present only when its clause applies. */
  lemma FormConditionsContents(form: CreateForm, n: RecentNotification, condIdBase: Uuid)
    ensures var cs := FormConditions(form, n, condIdBase);
      && |cs| == (if form.matchBundleId then 1 else 0) + (if TitleApplies(form) then 1 else 0)
                 + (if BodyApplies(form) then 1 else 0)
      && (forall c :: c in cs && c.field == App ==> form.matchBundleId && c.value == n.bundleId && c.matchType == Equals)
      && (forall c :: c in cs && c.field == Sender ==> TitleApplies(form) && c.value == form.titleContains && c.matchType == Contains)
      && (forall c :: c in cs && c.field == Keyword ==> BodyApplies(form) && c.value == form.bodyContains && c.matchType == Contains)
      && (forall c :: c in cs ==> !c.isCaseSensitive)
  {
    var cs := FormConditions(form, n, condIdBase);
    var a := if form.matchBundleId then [NewCondition(condIdBase, App, Equals, n.bundleId)] else [];
    var t := if TitleApplies(form) then [NewCondition(condIdBase + 1, Sender, Contains, form.titleContains)] else [];
    var b := if BodyApplies(form) then [NewCondition(condIdBase + 2, Keyword, Contains, form.bodyContains)] else [];
    assert cs == a + t + b;
    forall c | c in cs ensures c in a || c in t || c in b {
    }
  }

  /** The conditions come in the order app, title, body, and the preview
      has one clause per condition, naming the same field. */
  lemma FormConditionsOrder(form: CreateForm, n: RecentNotification, condIdBase: Uuid)
    ensures var cs := FormConditions(form, n, condIdBase);
      var clauses := FormClauses(form, n);
      && (forall i, j :: 0 <= i < j < |cs| ==> FieldRank(cs[i].field) < FieldRank(cs[j].field))
      && |clauses| == |cs|
      && (forall i :: 0 <= i < |cs| ==> ClauseHead(cs[i].field) <= clauses[i])
  {
  }

  /** The position of a field in createRule's order. */
  function FieldRank(field: ConditionField): nat {
    match field
    case App => 0
    case Sender => 1
    case Keyword => 2
  }

  /** ruleDescription. */
  function FormDescription(form: CreateForm, n: RecentNotification): string {
    var clauses := FormClauses(form, n);
    if clauses == [] then "No conditions set" else Join(clauses, " AND ")
  }

  /** The preview says "No conditions set" exactly when the rule would have
      no conditions; otherwise it is the clauses that apply, in the order
      app, title, body, joined by " AND ". */
  lemma FormDescriptionSpec(form: CreateForm, n: RecentNotification, condIdBase: Uuid)
    ensures FormDescription(form, n) == "No conditions set" <==> FormConditions(form, n, condIdBase) == []
    ensures var d := FormDescription(form, n);
      var a, t, b := "App is " + n.bundleId, "Title contains \"" + form.titleContains + "\"",
                     "Body contains \"" + form.bodyContains + "\"";
      var A, T, B := form.matchBundleId, TitleApplies(form), BodyApplies(form);
      && (A && !T && !B ==> d == a)
      && (!A && T && !B ==> d == t)
      && (!A && !T && B ==> d == b)
      && (A && T && !B ==> d == a + " AND " + t)
      && (A && !T && B ==> d == a + " AND " + b)
      && (!A && T && B ==> d == t + " AND " + b)
      && (A && T && B ==> d == a + " AND " + t + " AND " + b)
  {
    var clauses := FormClauses(form, n);
    assert |clauses| == |FormConditions(form, n, condIdBase)| by {
      FormConditionsOrder(form, n, condIdBase);
    }
    if clauses != [] {
      JoinStartsWithFirst(clauses, " AND ");
      assert clauses[0][0] in {'A', 'T', 'B'};
    }
    var a, t, b := "App is " + n.bundleId, "Title contains \"" + form.titleContains + "\"",
                   "Body contains \"" + form.bodyContains + "\"";
    var A, T, B := form.matchBundleId, TitleApplies(form), BodyApplies(form);
    if A && T && B {
      assert clauses == [a, t, b];
      JoinPairAndTriple(a, t, b, " AND ");
    } else if A && T {
      assert clauses == [a, t];
      JoinPairAndTriple(a, t, b, " AND ");
    } else if A && B {
      assert clauses == [a, b];
      JoinPairAndTriple(a, b, b, " AND ");
    } else if T && B {
      assert clauses == [t, b];
      JoinPairAndTriple(t, b, b, " AND ");
    }
  }

  /** The rule createRule adds: the form's name and conditions with every
      other FilterRule default. */
  function CreatedRule(form: CreateForm, n: RecentNotification, ruleId: Uuid, condIdBase: Uuid): (r: FilterRule)
    ensures r.id == ruleId && r.name == form.ruleName && r.conditions == FormConditions(form, n, condIdBase)
    ensures r.isEnabled && r.priority == 100 && r.action == Notify && r.logicOperator == And
  {
    NewRule(ruleId, form.ruleName, conditions := FormConditions(form, n, condIdBase))
  }

  /** createRule(): conditional appends, then addRule. */
  method CreateRule(storage: RuleStorage, form: CreateForm, n: RecentNotification, ruleId: Uuid, condIdBase: Uuid)
    modifies storage`rules, storage`defaultsRules, storage`defaultsMode, storage.helper`rulesFile, storage.helper.bus
    ensures storage.rules == old(storage.rules) + [CreatedRule(form, n, ruleId, condIdBase)]
    ensures storage.Saved()
  {
    var conditions: seq<RuleCondition> := [];
    if form.matchBundleId {
      conditions := conditions + [NewCondition(condIdBase, App, Equals, n.bundleId)];
    }
    if form.matchTitle && form.titleContains != "" {
      conditions := conditions + [NewCondition(condIdBase + 1, Sender, Contains, form.titleContains)];
    }
    if form.matchBody && form.bodyContains != "" {
      conditions := conditions + [NewCondition(condIdBase + 2, Keyword, Contains, form.bodyContains)];
    }
    assert conditions == FormConditions(form, n, condIdBase);
    var rule := NewRule(ruleId, form.ruleName, conditions := conditions);
    storage.AddRule(rule);
  }

  // ----- when Create is enabled -----

  /** The Create button's enablement as written: a name and at least one
      toggle on, whether or not the toggled text is empty. */
  predicate CreateEnabledAsWritten(form: CreateForm) {
    form.ruleName != "" && (form.matchBundleId || form.matchTitle || form.matchBody)
  }

  /** With the app toggle off and the title toggle on over an empty title,
      Create is enabled and adds a rule with no conditions, which never
      matches any notification. */
  lemma CreateEnabledAsWrittenAdmitsEmptyRule(n: RecentNotification, ruleId: Uuid, condIdBase: Uuid, m: NotificationRecord)
    requires n.title == ""
    ensures var form := OnAppear(InitialForm, n).(matchBundleId := false, matchTitle := true);
      && CreateEnabledAsWritten(form)
      && FormConditions(form, n, condIdBase) == []
      && !RuleMatches(CreatedRule(form, n, ruleId, condIdBase), m)
  {
  }

  /** Create enabled only when the rule would have a name and a condition. */
  predicate CreateEnabled(form: CreateForm, n: RecentNotification) {
    form.ruleName != "" && (form.matchBundleId || TitleApplies(form) || BodyApplies(form))
  }

  /** The corrected enablement admits exactly the forms whose rule has a
      name and at least one condition, it implies the written one, and it
      agrees with it whenever the app toggle is on. */
  lemma CreateEnabledSpec(form: CreateForm, n: RecentNotification, condIdBase: Uuid)
    ensures CreateEnabled(form, n) <==> form.ruleName != "" && FormConditions(form, n, condIdBase) != []
    ensures CreateEnabled(form, n) ==> CreateEnabledAsWritten(form)
    ensures form.matchBundleId ==> (CreateEnabled(form, n) <==> CreateEnabledAsWritten(form))
  {
    FormConditionsContents(form, n, condIdBase);
  }

  /** Pressing Create, under the corrected enablement: a rule is added only
      when it has a name and conditions. */
  method PressCreate(storage: RuleStorage, form: CreateForm, n: RecentNotification, ruleId: Uuid, condIdBase: Uuid)
    returns (created: bool)
    modifies storage`rules, storage`defaultsRules, storage`defaultsMode, storage.helper`rulesFile, storage.helper.bus
    ensures created <==> CreateEnabled(form, n)
    ensures created ==> (storage.rules == old(storage.rules) + [CreatedRule(form, n, ruleId, condIdBase)]
      && CreatedRule(form, n, ruleId, condIdBase).conditions != [] && storage.Saved())
    ensures !created ==> storage.rules == old(storage.rules) && storage.NothingSaved()
  {
    created := CreateEnabled(form, n);
    if created {
      CreateEnabledSpec(form, n, condIdBase);
      CreateRule(storage, form, n, ruleId, condIdBase);
    }
  }
}
