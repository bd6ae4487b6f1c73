/** The rules list screen's list logic (Noti5/Views/RulesListView.swift):
    the active and inactive sections, deleting from either, reordering the
    active section, and the one-line description of a rule. */
module RulesList {
  import opened Wrappers
  import opened Sequences
  import opened Strings
  import opened Records
  import opened Rules
  import opened Engine
  import opened Storage
  import Bus
  import Helper

  /** The active section: enabled rules by priority, as evaluate sees them. */
  function ActiveRules(rules: seq<FilterRule>): seq<FilterRule> {
    SortByPriority(EnabledRules(rules))
  }

  /** The inactive section: disabled rules in store order. */
  function InactiveRules(rules: seq<FilterRule>): seq<FilterRule> {
    DisabledRules(rules)
  }

  /** The two sections show every rule exactly once, the active one in
      priority order. */
  lemma SectionsSpec(rules: seq<FilterRule>)
    ensures SortedByPriority(ActiveRules(rules))
    ensures multiset(ActiveRules(rules)) + multiset(InactiveRules(rules)) == multiset(rules)
    ensures forall x :: x in ActiveRules(rules) <==> x in rules && x.isEnabled
    ensures forall x :: x in InactiveRules(rules) <==> x in rules && !x.isEnabled
  {
    SortSpec(EnabledRules(rules));
    EnabledDisabledPartition(rules);
    forall x ensures x in ActiveRules(rules) <==> x in EnabledRules(rules) {
      assert x in ActiveRules(rules) <==> x in multiset(ActiveRules(rules));
    }
  }

  /** Identifiers of the rules picked by offsets, as `offsets.map { section[$0] }`. */
  function PickedIds(section: seq<FilterRule>, offsets: seq<nat>): (r: set<Uuid>)
    requires forall k :: 0 <= k < |offsets| ==> offsets[k] < |section|
    ensures forall id :: id in r <==> exists k :: 0 <= k < |offsets| && section[offsets[k]].id == id
  {
    set k | 0 <= k < |offsets| :: section[offsets[k]].id
  }

  /** The ids of some rules. */
  function IdSet(rules: seq<FilterRule>): set<Uuid> {
    set x | x in rules :: x.id
  }

  lemma IdSetSnoc(rules: seq<FilterRule>, k: nat)
    requires k < |rules|
    ensures IdSet(rules[..k + 1]) == IdSet(rules[..k]) + {rules[k].id}
  {
    assert rules[..k + 1] == rules[..k] + [rules[k]];
  }

  /** Deleting rules of one section, by id, one deleteRule call each. */
  method DeletePicked(storage: RuleStorage, picked: seq<FilterRule>)
    modifies storage`rules, storage`defaultsRules, storage`defaultsMode, storage.helper`rulesFile, storage.helper.bus
    ensures storage.rules == WithoutIds(old(storage.rules), IdSet(picked))
    ensures storage.SavedTimes(|picked|)
  {
    ghost var rules0 := storage.rules;
    WithoutNoIds(rules0);
    assert picked[..0] == [];
    assert IdSet(picked[..0]) == {} by {
      assert forall id :: id !in IdSet([]);
    }
    for k := 0 to |picked|
      invariant storage.rules == WithoutIds(rules0, IdSet(picked[..k]))
      invariant storage.SavedTimes(k)
    {
      storage.DeleteRule(picked[k]);
      WithoutIdsStep(rules0, IdSet(picked[..k]), picked[k].id);
      IdSetSnoc(picked, k);
      PostsSnoc(k);
    }
    assert picked[..|picked|] == picked;
  }

  /** deleteActiveRules(at:). */
  method DeleteActiveRules(storage: RuleStorage, offsets: seq<nat>)
    requires forall k :: 0 <= k < |offsets| ==> offsets[k] < |ActiveRules(storage.rules)|
    modifies storage`rules, storage`defaultsRules, storage`defaultsMode, storage.helper`rulesFile, storage.helper.bus
    ensures storage.rules == WithoutIds(old(storage.rules), PickedIds(ActiveRules(old(storage.rules)), offsets))
    ensures storage.SavedTimes(|offsets|)
  {
    var active := ActiveRules(storage.rules);
    var picked := seq(|offsets|, k requires 0 <= k < |offsets| => active[offsets[k]]);
    assert IdSet(picked) == PickedIds(active, offsets) by {
      forall id ensures id in IdSet(picked) <==> id in PickedIds(active, offsets) {
        if id in PickedIds(active, offsets) {
          var k :| 0 <= k < |offsets| && active[offsets[k]].id == id;
          assert picked[k] in picked;
        }
      }
    }
    DeletePicked(storage, picked);
  }

  /** deleteInactiveRules(at:). */
  method DeleteInactiveRules(storage: RuleStorage, offsets: seq<nat>)
    requires forall k :: 0 <= k < |offsets| ==> offsets[k] < |InactiveRules(storage.rules)|
    modifies storage`rules, storage`defaultsRules, storage`defaultsMode, storage.helper`rulesFile, storage.helper.bus
    ensures storage.rules == WithoutIds(old(storage.rules), PickedIds(InactiveRules(old(storage.rules)), offsets))
    ensures storage.SavedTimes(|offsets|)
  {
    var inactive := InactiveRules(storage.rules);
    var picked := seq(|offsets|, k requires 0 <= k < |offsets| => inactive[offsets[k]]);
    assert IdSet(picked) == PickedIds(inactive, offsets) by {
      forall id ensures id in IdSet(picked) <==> id in PickedIds(inactive, offsets) {
        if id in PickedIds(inactive, offsets) {
          var k :| 0 <= k < |offsets| && inactive[offsets[k]].id == id;
          assert picked[k] in picked;
        }
      }
    }
    DeletePicked(storage, picked);
  }

  /** With unique ids, deleting from the active section removes exactly the
      picked rules and leaves the whole inactive section in place. */
  lemma DeleteActiveKeepsInactive(rules: seq<FilterRule>, offsets: seq<nat>, x: FilterRule)
    requires UniqueIds(rules)
    requires forall k :: 0 <= k < |offsets| ==> offsets[k] < |ActiveRules(rules)|
    ensures x in InactiveRules(rules) ==> x in WithoutIds(rules, PickedIds(ActiveRules(rules), offsets))
    ensures forall k :: 0 <= k < |offsets| ==>
      ActiveRules(rules)[offsets[k]] !in WithoutIds(rules, PickedIds(ActiveRules(rules), offsets))
  {
    var active := ActiveRules(rules);
    SectionsSpec(rules);
    if x in InactiveRules(rules) {
      forall k | 0 <= k < |offsets| ensures active[offsets[k]].id != x.id {
        var y := active[offsets[k]];
        assert y in active;
        SameIdSame(rules, x, y);
      }
    }
  }

  // ----- reordering the active section -----

  /** The last of the updates that carries the id. */
  function Latest(updates: seq<FilterRule>, id: Uuid): (r: Option<FilterRule>)
    ensures r.Some? ==> r.value in updates && r.value.id == id
  {
    if updates == [] then None
    else if updates[|updates| - 1].id == id then Some(updates[|updates| - 1])
    else Latest(updates[..|updates| - 1], id)
  }

  /** One updateRule call per update, in order. */
  function UpdatedAll(rules: seq<FilterRule>, updates: seq<FilterRule>): seq<FilterRule> {
    if updates == [] then rules
    else UpdatedById(UpdatedAll(rules, updates[..|updates| - 1]), updates[|updates| - 1])
  }

  /** In a store with unique ids, a series of updates leaves at each position
      the last update with that rule's id, or the rule if there is none. */
  lemma {:induction false} UpdatedAllSpec(rules: seq<FilterRule>, updates: seq<FilterRule>)
    requires UniqueIds(rules)
    ensures |UpdatedAll(rules, updates)| == |rules| && Ids(UpdatedAll(rules, updates)) == Ids(rules)
    ensures forall k :: 0 <= k < |rules| ==> UpdatedAll(rules, updates)[k] == Latest(updates, rules[k].id).GetOr(rules[k])
  {
    if updates != [] {
      var front := updates[..|updates| - 1];
      var u := updates[|updates| - 1];
      UpdatedAllSpec(rules, front);
      var before := UpdatedAll(rules, front);
      UpdatedByIdSpec(before, u);
      assert forall k :: 0 <= k < |rules| ==> before[k].id == Ids(before)[k] == rules[k].id;
      match FirstIndexOf(before, u.id)
      case None =>
      case Some(i) =>
        forall k | 0 <= k < |rules| && k != i ensures rules[k].id != u.id {
          assert rules[i].id == u.id;
        }
    }
  }

  /** With distinct ids among the updates, each one is the latest with its id. */
  lemma {:induction false} LatestOfUnique(updates: seq<FilterRule>, j: nat)
    requires UniqueIds(updates) && j < |updates|
    ensures Latest(updates, updates[j].id) == Some(updates[j])
  {
    var front := updates[..|updates| - 1];
    if j < |updates| - 1 {
      assert updates[|updates| - 1].id != updates[j].id;
      assert UniqueIds(front);
      LatestOfUnique(front, j);
      assert front[j] == updates[j];
    }
  }

  /** An id no update carries has no latest update. */
  lemma {:induction false} LatestAbsent(updates: seq<FilterRule>, id: Uuid)
    requires forall j :: 0 <= j < |updates| ==> updates[j].id != id
    ensures Latest(updates, id).None?
  {
    if updates != [] {
      LatestAbsent(updates[..|updates| - 1], id);
    }
  }

  /** The active section after a drag: moved, then renumbered by position. */
  function MovedActive(rules: seq<FilterRule>, source: set<nat>, destination: nat): seq<FilterRule>
    requires destination <= |ActiveRules(rules)|
  {
    Renumbered(Moved(ActiveRules(rules), source, destination))
  }

  /** The renumbered active section carries the ids of the active rules,
      each as often, with priorities 0, 1, 2, ... in display order; with
      unique ids in the store its ids are unique too. */
  lemma MovedActiveSpec(rules: seq<FilterRule>, source: set<nat>, destination: nat)
    requires destination <= |ActiveRules(rules)|
    ensures |MovedActive(rules, source, destination)| == |ActiveRules(rules)|
    ensures forall j :: 0 <= j < |MovedActive(rules, source, destination)| ==>
      MovedActive(rules, source, destination)[j].priority == j
    ensures multiset(Ids(MovedActive(rules, source, destination))) == multiset(Ids(ActiveRules(rules)))
    ensures UniqueIds(rules) ==> UniqueIds(MovedActive(rules, source, destination))
  {
    var active := ActiveRules(rules);
    var m := Moved(active, source, destination);
    MovedPermutes(active, source, destination);
    MovePreservesIds(active, source, destination);
    assert |m| == |active| by {
      assert |multiset(m)| == |multiset(active)|;
    }
    if UniqueIds(rules) {
      UniqueIdsFilter(rules);
      SortSpec(EnabledRules(rules));
      UniqueIdsPermutation(EnabledRules(rules), active);
      UniqueIdsPermutation(active, m);
      assert forall j :: 0 <= j < |m| ==> Renumbered(m)[j].id == m[j].id;
    }
  }

  /** moveActiveRules(from:to:): one updateRule per rule of the moved active
      section, giving it its new position as priority. */
  method MoveActiveRules(storage: RuleStorage, source: set<nat>, destination: nat)
    requires destination <= |ActiveRules(storage.rules)|
    modifies storage`rules, storage`defaultsRules, storage`defaultsMode, storage.helper`rulesFile, storage.helper.bus
    ensures storage.rules == UpdatedAll(old(storage.rules), MovedActive(old(storage.rules), source, destination))
    ensures storage.SavedTimes(|ActiveRules(old(storage.rules))|)
  {
    ghost var rules0 := storage.rules;
    var moved := Moved(ActiveRules(storage.rules), source, destination);
    assert forall j :: 0 <= j < |moved| ==> moved[j] in rules0 by {
      MovedFromStore(rules0, source, destination);
    }
    assert |moved| == |ActiveRules(rules0)| by {
      MovedPermutes(ActiveRules(rules0), source, destination);
      assert |multiset(moved)| == |multiset(ActiveRules(rules0))|;
    }
    UpdateRenumbered(storage, moved);
  }

  /** The loop of moveActiveRules: the rule at each index of `moved` is
      updated with that index as its priority. Every one of them is in the
      store, so every update saves. */
  method UpdateRenumbered(storage: RuleStorage, moved: seq<FilterRule>)
    requires forall j :: 0 <= j < |moved| ==> moved[j] in storage.rules
    modifies storage`rules, storage`defaultsRules, storage`defaultsMode, storage.helper`rulesFile, storage.helper.bus
    ensures storage.rules == UpdatedAll(old(storage.rules), Renumbered(moved))
    ensures storage.SavedTimes(|moved|)
  {
    ghost var rules0 := storage.rules;
    ghost var updates := Renumbered(moved);
    for index := 0 to |moved|
      invariant storage.rules == UpdatedAll(rules0, updates[..index])
      invariant storage.SavedTimes(index)
    {
      var updated := moved[index].(priority := index);
      UpdatedAllKeepsIds(rules0, updates[..index]);
      LandsInStore(rules0, storage.rules, moved[index]);
      assert updated == updates[index];
      storage.UpdateRule(updated);
      UpdatedAllSnoc(rules0, updates, index);
      PostsSnoc(index);
    }
    assert updates[..|moved|] == updates;
  }

  lemma UpdatedAllSnoc(rules: seq<FilterRule>, updates: seq<FilterRule>, k: nat)
    requires k < |updates|
    ensures UpdatedAll(rules, updates[..k + 1]) == UpdatedById(UpdatedAll(rules, updates[..k]), updates[k])
  {
    assert updates[..k + 1][..k] == updates[..k];
  }

  /** Updates never change the ids, whichever rules they hit. */
  lemma {:induction false} UpdatedAllKeepsIds(rules: seq<FilterRule>, updates: seq<FilterRule>)
    ensures Ids(UpdatedAll(rules, updates)) == Ids(rules)
  {
    if updates != [] {
      UpdatedAllKeepsIds(rules, updates[..|updates| - 1]);
      UpdatedByIdSpec(UpdatedAll(rules, updates[..|updates| - 1]), updates[|updates| - 1]);
    }
  }

  /** A rule of the store has its id in any list with the store's ids. */
  lemma LandsInStore(rules: seq<FilterRule>, current: seq<FilterRule>, x: FilterRule)
    requires x in rules && Ids(current) == Ids(rules)
    ensures FirstIndexOf(current, x.id).Some?
  {
    var j :| 0 <= j < |rules| && rules[j] == x;
    assert Ids(current)[j] == x.id;
  }

  /** The moved active section holds enabled rules of the store. */
  lemma MovedFromStore(rules: seq<FilterRule>, source: set<nat>, destination: nat)
    requires destination <= |ActiveRules(rules)|
    ensures forall j :: 0 <= j < |Moved(ActiveRules(rules), source, destination)| ==>
      Moved(ActiveRules(rules), source, destination)[j] in rules
      && Moved(ActiveRules(rules), source, destination)[j].isEnabled
  {
    var active := ActiveRules(rules);
    var m := Moved(active, source, destination);
    SectionsSpec(rules);
    MovedPermutes(active, source, destination);
    forall j | 0 <= j < |m| ensures m[j] in rules && m[j].isEnabled {
      assert m[j] in multiset(m);
    }
  }

  /** Every update lands in the store. */
  lemma UpdatesLand(rules: seq<FilterRule>, source: set<nat>, destination: nat)
    requires UniqueIds(rules) && destination <= |ActiveRules(rules)|
    ensures forall j :: 0 <= j < |MovedActive(rules, source, destination)| ==>
      MovedActive(rules, source, destination)[j] in UpdatedAll(rules, MovedActive(rules, source, destination))
  {
    var m := Moved(ActiveRules(rules), source, destination);
    var updates := MovedActive(rules, source, destination);
    var result := UpdatedAll(rules, updates);
    MovedActiveSpec(rules, source, destination);
    UpdatedAllSpec(rules, updates);
    MovedFromStore(rules, source, destination);
    forall j | 0 <= j < |updates| ensures updates[j] in result {
      var p :| 0 <= p < |rules| && rules[p] == m[j];
      LatestOfUnique(updates, j);
      assert result[p] == updates[j];
    }
  }

  /** The inactive rules keep their place and their contents. */
  lemma InactiveUntouched(rules: seq<FilterRule>, source: set<nat>, destination: nat)
    requires UniqueIds(rules) && destination <= |ActiveRules(rules)|
    ensures |UpdatedAll(rules, MovedActive(rules, source, destination))| == |rules|
    ensures forall k :: 0 <= k < |rules| && !rules[k].isEnabled ==>
      UpdatedAll(rules, MovedActive(rules, source, destination))[k] == rules[k]
  {
    var m := Moved(ActiveRules(rules), source, destination);
    var updates := MovedActive(rules, source, destination);
    var result := UpdatedAll(rules, updates);
    MovedActiveSpec(rules, source, destination);
    UpdatedAllSpec(rules, updates);
    MovedFromStore(rules, source, destination);
    forall k | 0 <= k < |rules| && !rules[k].isEnabled ensures result[k] == rules[k] {
      forall j | 0 <= j < |updates| ensures updates[j].id != rules[k].id {
        assert rules[k] in rules;
        SameIdSame(rules, m[j], rules[k]);
      }
      LatestAbsent(updates, rules[k].id);
    }
  }

  /** After a drag, with unique ids: every rule of the moved active section
      sits in the store with its new position as priority, the inactive
      rules are untouched, and no rule is added or lost. */
  lemma MoveActiveSpec(rules: seq<FilterRule>, source: set<nat>, destination: nat)
    requires UniqueIds(rules) && destination <= |ActiveRules(rules)|
    ensures Ids(UpdatedAll(rules, MovedActive(rules, source, destination))) == Ids(rules)
    ensures forall j :: 0 <= j < |MovedActive(rules, source, destination)| ==>
      MovedActive(rules, source, destination)[j] in UpdatedAll(rules, MovedActive(rules, source, destination))
    ensures forall k :: 0 <= k < |rules| && !rules[k].isEnabled ==>
      UpdatedAll(rules, MovedActive(rules, source, destination))[k] == rules[k]
  {
    UpdatedAllSpec(rules, MovedActive(rules, source, destination));
    UpdatesLand(rules, source, destination);
    InactiveUntouched(rules, source, destination);
  }

  // ----- the row text -----

  /** ruleDescription of a rule row. */
  function RuleDescription(rule: FilterRule): string {
    if rule.conditions == [] then "No conditions"
    else Join(ConditionTexts(rule.conditions), LogicSeparator(rule.logicOperator))
  }

  /** The row says "No conditions" exactly when the rule has none; otherwise
      it begins with the first condition's text, a single condition is
      shown as just its text, and each further condition adds the operator's
      separator and its own text at the end. */
  lemma RuleDescriptionSpec(rule: FilterRule)
    ensures RuleDescription(rule) == "No conditions" <==> rule.conditions == []
    ensures rule.conditions != [] ==> ConditionText(rule.conditions[0]) <= RuleDescription(rule)
    ensures |rule.conditions| == 1 ==> RuleDescription(rule) == ConditionText(rule.conditions[0])
    ensures var n := |rule.conditions|;
      n >= 2 ==>
        RuleDescription(rule) == RuleDescription(rule.(conditions := rule.conditions[..n - 1]))
          + LogicSeparator(rule.logicOperator) + ConditionText(rule.conditions[n - 1])
  {
    var n := |rule.conditions|;
    if n >= 2 {
      var front := rule.conditions[..n - 1];
      assert ConditionTexts(rule.conditions) == ConditionTexts(front) + [ConditionText(rule.conditions[n - 1])];
      JoinSnoc(ConditionTexts(front), ConditionText(rule.conditions[n - 1]), LogicSeparator(rule.logicOperator));
    }
    if rule.conditions != [] {
      var texts := ConditionTexts(rule.conditions);
      JoinStartsWithFirst(texts, LogicSeparator(rule.logicOperator));
      ConditionTextStartsWithField(rule.conditions[0]);
      assert RuleDescription(rule)[0] == ConditionText(rule.conditions[0])[0];
    }
  }
}
