/** The rule store (Noti5/Services/RuleStorage.swift): the app's list of
    rules and global mode, kept in UserDefaults and mirrored to the shared
    rules file the root helper reads. */
module Storage {
  import opened Wrappers
  import opened Sequences
  import opened Records
  import opened Rules
  import opened Results
  import opened Engine
  import Bus
  import Helper

  // ----- the list operations, as functions of the list -----

  /** `firstIndex(where: { $0.id == id })`. */
  function FirstIndexOf(rules: seq<FilterRule>, id: Uuid): (r: Option<nat>)
    ensures r.Some? ==> (r.value < |rules| && rules[r.value].id == id
      && forall j :: 0 <= j < r.value ==> rules[j].id != id)
    ensures r.None? ==> forall j :: 0 <= j < |rules| ==> rules[j].id != id
  {
    if rules == [] then None
    else if rules[0].id == id then Some(0)
    else match FirstIndexOf(rules[1..], id)
      case None => None
      case Some(k) => Some(k + 1)
  }

  /** updateRule: the first rule with the same id is replaced. */
  function UpdatedById(rules: seq<FilterRule>, rule: FilterRule): seq<FilterRule> {
    match FirstIndexOf(rules, rule.id)
    case Some(i) => rules[i := rule]
    case None => rules
  }

  /** toggleRule: the first rule with the id has its enabled flag flipped. */
  function ToggledById(rules: seq<FilterRule>, id: Uuid): seq<FilterRule> {
    match FirstIndexOf(rules, id)
    case Some(i) => rules[i := rules[i].(isEnabled := !rules[i].isEnabled)]
    case None => rules
  }

  /** deleteRule: `removeAll { $0.id == id }`. */
  function WithoutId(rules: seq<FilterRule>, id: Uuid): (r: seq<FilterRule>)
    ensures forall x :: x in r <==> x in rules && x.id != id
    ensures |r| <= |rules|
  {
    if rules == [] then []
    else (if rules[0].id == id then [] else [rules[0]]) + WithoutId(rules[1..], id)
  }

  /** The store after deleting, one deleteRule call each, the rules with
      the given ids. */
  function WithoutIds(rules: seq<FilterRule>, ids: set<Uuid>): (r: seq<FilterRule>)
    ensures forall x :: x in r <==> x in rules && x.id !in ids
  {
    if rules == [] then []
    else (if rules[0].id in ids then [] else [rules[0]]) + WithoutIds(rules[1..], ids)
  }

  /** One more deleteRule extends the deleted ids. */
  lemma {:induction false} WithoutIdsStep(rules: seq<FilterRule>, ids: set<Uuid>, id: Uuid)
    ensures WithoutId(WithoutIds(rules, ids), id) == WithoutIds(rules, ids + {id})
  {
    if rules != [] {
      WithoutIdsStep(rules[1..], ids, id);
      var head := if rules[0].id in ids then [] else [rules[0]];
      WithoutIdConcat(head, WithoutIds(rules[1..], ids), id);
    }
  }

  lemma {:induction false} WithoutIdConcat(a: seq<FilterRule>, b: seq<FilterRule>, id: Uuid)
    ensures WithoutId(a + b, id) == WithoutId(a, id) + WithoutId(b, id)
  {
    if a != [] {
      var ab := a + b;
      assert ab != [] && ab[0] == a[0] && ab[1..] == a[1..] + b;
      WithoutIdConcat(a[1..], b, id);
      var head := if a[0].id == id then [] else [a[0]];
      assert WithoutId(ab, id) == head + WithoutId(ab[1..], id);
      assert WithoutId(a, id) == head + WithoutId(a[1..], id);
    } else {
      assert a + b == b;
    }
  }

  lemma {:induction false} WithoutNoIds(rules: seq<FilterRule>)
    ensures WithoutIds(rules, {}) == rules
  {
    if rules != [] {
      WithoutNoIds(rules[1..]);
      assert rules == [rules[0]] + rules[1..];
    }
  }

  /** The priority renumbering of moveRules: every rule gets its position. */
  function Renumbered(rules: seq<FilterRule>): (r: seq<FilterRule>)
    ensures |r| == |rules|
  {
    seq(|rules|, i requires 0 <= i < |rules| => rules[i].(priority := i))
  }

  function Ids(rules: seq<FilterRule>): (r: seq<Uuid>)
    ensures |r| == |rules|
  {
    seq(|rules|, i requires 0 <= i < |rules| => rules[i].id)
  }

  /** No two rules share an id (the store's Identifiable ids). */
  ghost predicate UniqueIds(rules: seq<FilterRule>) {
    forall i, j :: 0 <= i < j < |rules| ==> rules[i].id != rules[j].id
  }

  /** Unique ids are exactly distinct entries of Ids. */
  lemma UniqueIdsIffDistinct(rules: seq<FilterRule>)
    ensures UniqueIds(rules) <==> Distinct(Ids(rules))
  {
    assert forall i :: 0 <= i < |rules| ==> Ids(rules)[i] == rules[i].id;
  }

  /** In a store with unique ids, a rule is determined by its id. */
  lemma SameIdSame(rules: seq<FilterRule>, x: FilterRule, y: FilterRule)
    requires UniqueIds(rules) && x in rules && y in rules
    ensures x.id == y.id ==> x == y
  {
    var i :| 0 <= i < |rules| && rules[i] == x;
    var j :| 0 <= j < |rules| && rules[j] == y;
    assert x.id == y.id ==> i == j;
  }

  /** Unique ids survive any reordering. */
  lemma UniqueIdsPermutation(a: seq<FilterRule>, b: seq<FilterRule>)
    requires UniqueIds(a) && multiset(a) == multiset(b)
    ensures UniqueIds(b)
  {
    assert Distinct(a);
    DistinctPermutation(a, b);
    forall i, j | 0 <= i < j < |b| ensures b[i].id != b[j].id {
      assert b[i] in multiset(a) && b[j] in multiset(a);
      SameIdSame(a, b[i], b[j]);
    }
  }

  /** Unique ids survive dropping rules. */
  lemma {:induction false} UniqueIdsFilter(rules: seq<FilterRule>)
    requires UniqueIds(rules)
    ensures UniqueIds(EnabledRules(rules)) && UniqueIds(DisabledRules(rules))
  {
    if rules != [] {
      assert UniqueIds(rules[1..]);
      UniqueIdsFilter(rules[1..]);
      forall x | x in rules[1..] ensures x.id != rules[0].id {
        var k :| 0 <= k < |rules[1..]| && rules[1..][k] == x;
        assert rules[k + 1] == x;
      }
      var e := EnabledRules(rules);
      forall i, j | 0 <= i < j < |e| ensures e[i].id != e[j].id {
        if i == 0 && rules[0].isEnabled {
          assert e[j] in EnabledRules(rules[1..]);
        }
      }
      var d := DisabledRules(rules);
      forall i, j | 0 <= i < j < |d| ensures d[i].id != d[j].id {
        if i == 0 && !rules[0].isEnabled {
          assert d[j] in DisabledRules(rules[1..]);
        }
      }
    }
  }

  // ----- properties of the list operations -----

  /** updateRule replaces exactly the first rule with the id, when there is
      one, and otherwise leaves the list alone; the ids stay as they were. */
  lemma UpdatedByIdSpec(rules: seq<FilterRule>, rule: FilterRule)
    ensures |UpdatedById(rules, rule)| == |rules| && Ids(UpdatedById(rules, rule)) == Ids(rules)
    ensures (forall j :: 0 <= j < |rules| ==> rules[j].id != rule.id) ==> UpdatedById(rules, rule) == rules
    ensures (exists j :: 0 <= j < |rules| && rules[j].id == rule.id) ==>
      exists i :: (0 <= i < |rules| && rules[i].id == rule.id
        && (forall j :: 0 <= j < i ==> rules[j].id != rule.id)
        && UpdatedById(rules, rule) == rules[i := rule])
  {
    match FirstIndexOf(rules, rule.id)
    case None =>
    case Some(i) =>
      assert Ids(rules[i := rule]) == Ids(rules);
  }

  /** With unique ids, an update leaves the updated rule in the list and
      every rule of another id untouched. */
  lemma UpdatedByIdKeepsOthers(rules: seq<FilterRule>, rule: FilterRule, x: FilterRule)
    requires UniqueIds(rules) && exists j :: 0 <= j < |rules| && rules[j].id == rule.id
    ensures rule in UpdatedById(rules, rule)
    ensures x.id != rule.id ==> (x in UpdatedById(rules, rule) <==> x in rules)
  {
    var i := FirstIndexOf(rules, rule.id).value;
    var r := rules[i := rule];
    assert UpdatedById(rules, rule) == r;
    assert r[i] == rule;
    if x.id != rule.id {
      if x in rules {
        var k :| 0 <= k < |rules| && rules[k] == x;
        assert r[k] == x;
      }
      if x in r {
        var k :| 0 <= k < |r| && r[k] == x;
        assert k != i;
      }
    }
  }

  /** Toggling flips the flag of the first rule with the id and nothing
      else; toggling twice restores the list. */
  lemma ToggledByIdSpec(rules: seq<FilterRule>, id: Uuid)
    ensures |ToggledById(rules, id)| == |rules| && Ids(ToggledById(rules, id)) == Ids(rules)
    ensures forall j :: 0 <= j < |rules| ==>
      ToggledById(rules, id)[j] == (if Some(j) == FirstIndexOf(rules, id) then rules[j].(isEnabled := !rules[j].isEnabled) else rules[j])
    ensures ToggledById(ToggledById(rules, id), id) == rules
  {
    match FirstIndexOf(rules, id)
    case None =>
    case Some(i) =>
      var t := ToggledById(rules, id);
      assert Ids(t) == Ids(rules);
      assert forall j :: 0 <= j < |rules| ==> t[j].id == rules[j].id;
      assert FirstIndexOf(t, id) == Some(i);
  }

  /** Adding a rule and deleting it by id gives the list without that id;
      for a fresh id that is the list before. */
  lemma AddThenDelete(rules: seq<FilterRule>, rule: FilterRule)
    ensures WithoutId(rules + [rule], rule.id) == WithoutId(rules, rule.id)
    ensures (forall j :: 0 <= j < |rules| ==> rules[j].id != rule.id) ==> WithoutId(rules, rule.id) == rules
  {
    WithoutIdConcat(rules, [rule], rule.id);
    assert [rule][1..] == [];
    assert WithoutId([rule], rule.id) == [];
    assert WithoutId(rules, rule.id) + [] == WithoutId(rules, rule.id);
    if forall j :: 0 <= j < |rules| ==> rules[j].id != rule.id {
      forall x | x in rules ensures x.id != rule.id {
        var j :| 0 <= j < |rules| && rules[j] == x;
      }
      AddThenDeleteAbsent(rules, rule.id);
    }
  }

  /** Deleting by id is idempotent and leaves no rule with the id. */
  lemma WithoutIdIdempotent(rules: seq<FilterRule>, id: Uuid)
    ensures WithoutId(WithoutId(rules, id), id) == WithoutId(rules, id)
    ensures forall x :: x in WithoutId(rules, id) ==> x.id != id
  {
    AddThenDeleteAbsent(WithoutId(rules, id), id);
  }

  lemma {:induction false} AddThenDeleteAbsent(rules: seq<FilterRule>, id: Uuid)
    requires forall x :: x in rules ==> x.id != id
    ensures WithoutId(rules, id) == rules
  {
    if rules != [] {
      AddThenDeleteAbsent(rules[1..], id);
      assert rules == [rules[0]] + rules[1..];
    }
  }

  /** After moveRules the priorities are the positions, so the store is in
      priority order and evaluate scans it front to back. */
  lemma RenumberedSpec(rules: seq<FilterRule>, mode: GlobalFilterMode, n: NotificationRecord)
    ensures forall i :: 0 <= i < |rules| ==> Renumbered(rules)[i].priority == i
    ensures Ids(Renumbered(rules)) == Ids(rules)
    ensures SortedByPriority(Renumbered(rules))
    ensures Evaluate(Renumbered(rules), mode, n) ==
      match FirstMatch(EnabledRules(Renumbered(rules)), n)
      case Some(r) => Matched(r)
      case None => DefaultResult(DefaultAction(mode))
  {
    EvaluateInStoreOrder(Renumbered(rules), mode, n);
  }

  /** A move then renumbering keeps every rule id, each exactly as often. */
  lemma MovePreservesIds(rules: seq<FilterRule>, source: set<nat>, destination: nat)
    requires destination <= |rules|
    ensures multiset(Ids(Renumbered(Moved(rules, source, destination)))) == multiset(Ids(rules))
  {
    var m := Moved(rules, source, destination);
    assert Ids(Renumbered(m)) == Ids(m);
    SelectIds(rules, 0, destination, source, false);
    SelectIds(rules, 0, |rules|, source, true);
    SelectIds(rules, destination, |rules|, source, false);
    IdsConcat(Select(rules, 0, destination, source, false), Select(rules, 0, |rules|, source, true));
    IdsConcat(Select(rules, 0, destination, source, false) + Select(rules, 0, |rules|, source, true),
              Select(rules, destination, |rules|, source, false));
    assert Ids(m) == Moved(Ids(rules), source, destination);
    MovedPermutes(Ids(rules), source, destination);
  }

  lemma IdsConcat(a: seq<FilterRule>, b: seq<FilterRule>)
    ensures Ids(a + b) == Ids(a) + Ids(b)
  {
  }

  /** Selecting by offsets commutes with taking the ids. */
  lemma {:induction false} SelectIds(rules: seq<FilterRule>, lo: nat, hi: nat, offsets: set<nat>, inSet: bool)
    requires lo <= hi <= |rules|
    ensures Ids(Select(rules, lo, hi, offsets, inSet)) == Select(Ids(rules), lo, hi, offsets, inSet)
    decreases hi - lo
  {
    if lo < hi {
      SelectIds(rules, lo, hi - 1, offsets, inSet);
      var last := if (hi - 1 in offsets) == inSet then [rules[hi - 1]] else [];
      IdsConcat(Select(rules, lo, hi - 1, offsets, inSet), last);
    }
  }

  // ----- order of the rules that survive a delete -----

  lemma {:induction false} WithoutIdsConcat(a: seq<FilterRule>, b: seq<FilterRule>, ids: set<Uuid>)
    ensures WithoutIds(a + b, ids) == WithoutIds(a, ids) + WithoutIds(b, ids)
  {
    if a != [] {
      var ab := a + b;
      assert ab != [] && ab[0] == a[0] && ab[1..] == a[1..] + b;
      WithoutIdsConcat(a[1..], b, ids);
      var head := if a[0].id in ids then [] else [a[0]];
      assert WithoutIds(ab, ids) == head + WithoutIds(ab[1..], ids);
      assert WithoutIds(a, ids) == head + WithoutIds(a[1..], ids);
    } else {
      assert a + b == b;
    }
  }

  /** Deleting a set of ids keeps the rules at exactly the positions whose
      id is outside the set, each once and in store order. */
  lemma {:induction false} WithoutIdsPositions(rules: seq<FilterRule>, ids: set<Uuid>) returns (f: seq<nat>)
    ensures SubsequenceAt(WithoutIds(rules, ids), rules, f)
    ensures forall i :: i in f <==> 0 <= i < |rules| && rules[i].id !in ids
    decreases |rules|
  {
    if rules == [] {
      f := [];
    } else {
      var p, x := rules[..|rules| - 1], rules[|rules| - 1];
      assert rules == p + [x];
      var g := WithoutIdsPositions(p, ids);
      WithoutIdsConcat(p, [x], ids);
      assert [x][1..] == [];
      var keep := x.id !in ids;
      assert WithoutIds([x], ids) == if keep then [x] else [];
      SubsequenceSnoc(WithoutIds(p, ids), p, g, x, keep);
      f := g + (if keep then [|p|] else []);
    }
  }

  /** Deleting one id is deleting the set holding just that id. */
  lemma {:induction false} WithoutIdIsWithoutIds(rules: seq<FilterRule>, id: Uuid)
    ensures WithoutId(rules, id) == WithoutIds(rules, {id})
  {
    if rules != [] {
      WithoutIdIsWithoutIds(rules[1..], id);
    }
  }

  /** removeAll keeps the rules at exactly the positions with another id,
      each once and in store order. */
  lemma WithoutIdPositions(rules: seq<FilterRule>, id: Uuid) returns (f: seq<nat>)
    ensures SubsequenceAt(WithoutId(rules, id), rules, f)
    ensures forall i :: i in f <==> 0 <= i < |rules| && rules[i].id != id
  {
    WithoutIdIsWithoutIds(rules, id);
    f := WithoutIdsPositions(rules, {id});
  }

  // ----- which operations keep the ids unique -----

  /** Keeping some rules in order keeps their ids unique. */
  lemma UniqueIdsSubsequence(r: seq<FilterRule>, rules: seq<FilterRule>, f: seq<nat>)
    requires UniqueIds(rules) && SubsequenceAt(r, rules, f)
    ensures UniqueIds(r)
  {
    forall k, l | 0 <= k < l < |r| ensures r[k].id != r[l].id {
      assert f[k] < f[l] && r[k] == rules[f[k]] && r[l] == rules[f[l]];
    }
  }

  /** addRule keeps the ids unique exactly when the new rule's id is fresh. */
  lemma UniqueIdsAfterAdd(rules: seq<FilterRule>, rule: FilterRule)
    ensures UniqueIds(rules + [rule]) <==> UniqueIds(rules) && forall x :: x in rules ==> x.id != rule.id
  {
    var s := rules + [rule];
    if UniqueIds(s) {
      forall x | x in rules ensures x.id != rule.id {
        var i :| 0 <= i < |rules| && rules[i] == x;
        assert s[i] == x && s[|rules|] == rule;
      }
      assert UniqueIds(rules) by {
        forall i, j | 0 <= i < j < |rules| ensures rules[i].id != rules[j].id {
          assert s[i] == rules[i] && s[j] == rules[j];
        }
      }
    }
  }

  /** updateRule and toggleRule keep every id in place, so they keep the ids
      unique. */
  lemma UniqueIdsAfterUpdate(rules: seq<FilterRule>, rule: FilterRule, id: Uuid)
    requires UniqueIds(rules)
    ensures UniqueIds(UpdatedById(rules, rule))
    ensures UniqueIds(ToggledById(rules, id))
  {
    UpdatedByIdSpec(rules, rule);
    ToggledByIdSpec(rules, id);
    UniqueIdsIffDistinct(rules);
    UniqueIdsIffDistinct(UpdatedById(rules, rule));
    UniqueIdsIffDistinct(ToggledById(rules, id));
  }

  /** deleteRule, the list views' repeated deletes and deleteRules(at:)
      keep the ids unique. */
  lemma UniqueIdsAfterDelete(rules: seq<FilterRule>, id: Uuid, ids: set<Uuid>, offsets: set<nat>)
    requires UniqueIds(rules)
    ensures UniqueIds(WithoutId(rules, id))
    ensures UniqueIds(WithoutIds(rules, ids))
    ensures UniqueIds(RemovedAt(rules, offsets))
  {
    var f := WithoutIdPositions(rules, id);
    UniqueIdsSubsequence(WithoutId(rules, id), rules, f);
    var g := WithoutIdsPositions(rules, ids);
    UniqueIdsSubsequence(WithoutIds(rules, ids), rules, g);
    var h := RemovedAtPositions(rules, offsets);
    UniqueIdsSubsequence(RemovedAt(rules, offsets), rules, h);
  }

  /** moveRules keeps the ids unique. */
  lemma UniqueIdsAfterMove(rules: seq<FilterRule>, source: set<nat>, destination: nat)
    requires UniqueIds(rules) && destination <= |rules|
    ensures UniqueIds(Renumbered(Moved(rules, source, destination)))
  {
    MovePreservesIds(rules, source, destination);
    UniqueIdsIffDistinct(rules);
    DistinctPermutation(Ids(rules), Ids(Renumbered(Moved(rules, source, destination))));
    UniqueIdsIffDistinct(Renumbered(Moved(rules, source, destination)));
  }

  /** importRules appends without looking at ids: importing a copy of a
      non-empty store, such as its own export, duplicates every id. */
  lemma ImportOfOwnExportDuplicatesIds(rules: seq<FilterRule>)
    requires rules != []
    ensures !UniqueIds(rules + rules)
    ensures forall k :: 0 <= k < |rules| ==> (rules + rules)[k].id == (rules + rules)[k + |rules|].id
  {
    assert (rules + rules)[0] == (rules + rules)[|rules|];
  }

  // ----- the example rules -----

  /** The two example rules of createDefaultRules, before they are disabled;
      the ids stand for the UUIDs drawn. */
  function DefaultTemplates(idBase: Uuid): (r: seq<FilterRule>)
    ensures |r| == 2
  {
    [ NewRule(idBase, "Priority Contacts", Notify,
        [ NewCondition(idBase + 2, Sender, Contains, "Mom"),
          NewCondition(idBase + 3, Sender, Contains, "Dad") ], Or),
      NewRule(idBase + 1, "Urgent Keywords", Notify,
        [ NewCondition(idBase + 4, Keyword, Contains, "urgent"),
          NewCondition(idBase + 5, Keyword, Contains, "emergency"),
          NewCondition(idBase + 6, Keyword, Contains, "ASAP") ], Or) ]
  }

  function Disabled(r: FilterRule): FilterRule {
    r.(isEnabled := false)
  }

  /** The rules createDefaultRules leaves in the store. */
  function DefaultRules(idBase: Uuid): (r: seq<FilterRule>)
    ensures |r| == 2
  {
    [Disabled(DefaultTemplates(idBase)[0]), Disabled(DefaultTemplates(idBase)[1])]
  }

  /** The example rules are two disabled OR-rules that notify: contacts Mom
      or Dad, and urgent, emergency or ASAP in the text.  Being disabled they
      never match, so a fresh store gives every notification the default. */
  lemma DefaultRulesSpec(idBase: Uuid, mode: GlobalFilterMode, n: NotificationRecord)
    ensures forall r :: r in DefaultRules(idBase) ==>
      !r.isEnabled && r.logicOperator == Or && r.action == Notify && r.priority == 100
    ensures DefaultRules(idBase)[0].name == "Priority Contacts"
    ensures |DefaultRules(idBase)[0].conditions| == 2 && |DefaultRules(idBase)[1].conditions| == 3
    ensures DefaultRules(idBase)[1].name == "Urgent Keywords"
    ensures UniqueIds(DefaultRules(idBase))
    ensures Evaluate(DefaultRules(idBase), mode, n) == DefaultResult(DefaultAction(mode))
  {
    var d := DefaultRules(idBase);
    assert !d[0].isEnabled && !d[1].isEnabled;
    assert d[1..] == [d[1]] && d[1..][1..] == [];
    assert EnabledRules(d[1..]) == [];
    assert Ids(d) == [idBase, idBase + 1];
  }

  // ----- loading -----

  /** `GlobalFilterMode(rawValue:)` of the stored mode, whitelist otherwise. */
  function InitialMode(storedMode: Option<string>): GlobalFilterMode {
    if storedMode.Some? && ParseMode(storedMode.value).Some? then ParseMode(storedMode.value).value else Whitelist
  }

  /** loadRules: the UserDefaults rules, else those of the shared file, else
      the example rules. */
  function InitialRules(stored: FileRead<seq<FilterRule>>, shared: FileRead<seq<FilterRule>>, idBase: Uuid): (r: seq<FilterRule>)
    ensures r != []
    ensures stored.Decoded? && stored.value != [] ==> r == stored.value
  {
    var fromDefaults := if stored.Decoded? then stored.value else [];
    var fromShared := if fromDefaults == [] then Helper.LoadedRules(shared) else fromDefaults;
    if fromShared == [] then DefaultRules(idBase) else fromShared
  }

  /** Whether loading had to fall back to the example rules (and save them). */
  predicate NeedsDefaults(stored: FileRead<seq<FilterRule>>, shared: FileRead<seq<FilterRule>>) {
    (!stored.Decoded? || stored.value == []) && Helper.LoadedRules(shared) == []
  }

  /** Saved rules load back; a store saved empty comes back with the
      example rules. */
  lemma LoadAfterSave(rules: seq<FilterRule>, mode: GlobalFilterMode, idBase: Uuid)
    ensures rules != [] ==> InitialRules(Decoded(rules), Decoded(rules), idBase) == rules
    ensures rules == [] ==> InitialRules(Decoded(rules), Decoded(rules), idBase) == DefaultRules(idBase)
    ensures InitialMode(Some(ModeRawValue(mode))) == mode
  {
    ModeRawValueRoundTrip(mode, ModeRawValue(mode));
  }

  /** The shared file is only consulted when UserDefaults holds no rules. */
  lemma SharedFileIsFallback(stored: seq<FilterRule>, shared: FileRead<seq<FilterRule>>, shared': FileRead<seq<FilterRule>>, idBase: Uuid)
    requires stored != []
    ensures InitialRules(Decoded(stored), shared, idBase) == InitialRules(Decoded(stored), shared', idBase)
  {
  }

  /** `n` rules-updated posts, one per save. */
  function Posts(n: nat): (r: seq<string>)
    ensures |r| == n && forall k :: 0 <= k < n ==> r[k] == Bus.RulesUpdated
  {
    seq(n, _ => Bus.RulesUpdated)
  }

  lemma PostsSnoc(n: nat)
    ensures Posts(n) + [Bus.RulesUpdated] == Posts(n + 1)
  {
  }

  class RuleStorage {
    var rules: seq<FilterRule>
    var globalMode: GlobalFilterMode
    /** The `filterRules` entry of UserDefaults. */
    var defaultsRules: FileRead<seq<FilterRule>>
    /** The `globalFilterMode` entry of UserDefaults. */
    var defaultsMode: Option<string>
    const helper: Helper.HelperManager

    /** Both UserDefaults entries and the shared rules file hold the
        current rules and mode. */
    predicate Persisted()
      reads this, helper
    {
      defaultsRules == Decoded(rules) && defaultsMode == Some(ModeRawValue(globalMode))
      && helper.rulesFile == Decoded(rules)
    }

    /** What saveRules leaves behind: both UserDefaults entries and the
        shared rules file hold the current state, and one rules-updated post
        went out. */
    twostate predicate Saved()
      reads this, helper, helper.bus
    {
      Persisted()
      && helper.bus.posted == old(helper.bus.posted) + [Bus.RulesUpdated]
      && helper.bus.callbacks == old(helper.bus.callbacks)
    }

    /** Nothing persisted and nothing posted. */
    twostate predicate NothingSaved()
      reads this, helper, helper.bus
    {
      defaultsRules == old(defaultsRules) && defaultsMode == old(defaultsMode)
      && helper.rulesFile == old(helper.rulesFile)
      && helper.bus.posted == old(helper.bus.posted)
      && helper.bus.callbacks == old(helper.bus.callbacks)
    }

    /** What `count` saveRules calls in a row leave behind: after at least
        one the current state is persisted, after none the stored state is as
        it was; one rules-updated post per call. */
    twostate predicate SavedTimes(count: nat)
      reads this, helper, helper.bus
    {
      && (count > 0 ==> Persisted())
      && (count == 0 ==> defaultsRules == old(defaultsRules) && defaultsMode == old(defaultsMode)
                         && helper.rulesFile == old(helper.rulesFile))
      && helper.bus.posted == old(helper.bus.posted) + Posts(count)
      && helper.bus.callbacks == old(helper.bus.callbacks)
    }

    /** init(): loadRules() from the given UserDefaults entries and the
        helper's rules file. */
    constructor Load(helper: Helper.HelperManager, defaultsRules: FileRead<seq<FilterRule>>,
                     defaultsMode: Option<string>, idBase: Uuid)
      modifies helper`rulesFile, helper.bus
      ensures this.helper == helper
      ensures rules == InitialRules(defaultsRules, old(helper.rulesFile), idBase)
      ensures globalMode == InitialMode(defaultsMode)
      ensures NeedsDefaults(defaultsRules, old(helper.rulesFile)) ==>
        this.defaultsRules == Decoded(rules) && this.defaultsMode == Some(ModeRawValue(globalMode))
        && helper.rulesFile == Decoded(rules)
        && helper.bus.posted == old(helper.bus.posted) + [Bus.RulesUpdated]
      ensures !NeedsDefaults(defaultsRules, old(helper.rulesFile)) ==>
        this.defaultsRules == defaultsRules && this.defaultsMode == defaultsMode
        && helper.rulesFile == old(helper.rulesFile) && helper.bus.posted == old(helper.bus.posted)
    {
      this.helper := helper;
      this.defaultsRules := defaultsRules;
      this.defaultsMode := defaultsMode;
      rules := if defaultsRules.Decoded? then defaultsRules.value else [];
      globalMode := if defaultsMode.Some? && ParseMode(defaultsMode.value).Some?
        then ParseMode(defaultsMode.value).value else Whitelist;
      new;
      if rules == [] {
        rules := helper.LoadRules();
      }
      if rules == [] {
        CreateDefaultRules(idBase);
      }
    }

    /** saveRules(). */
    method SaveRules()
      modifies this`defaultsRules, this`defaultsMode, helper`rulesFile, helper.bus
      ensures Saved()
    {
      defaultsRules := Decoded(rules);
      defaultsMode := Some(ModeRawValue(globalMode));
      helper.SaveRules(rules);
    }

    /** addRule(_:). */
    method AddRule(rule: FilterRule)
      modifies this`rules, this`defaultsRules, this`defaultsMode, helper`rulesFile, helper.bus
      ensures rules == old(rules) + [rule]
      ensures Saved()
    {
      rules := rules + [rule];
      SaveRules();
    }

    /** updateRule(_:): saves only when a rule with the id exists. */
    method UpdateRule(rule: FilterRule)
      modifies this`rules, this`defaultsRules, this`defaultsMode, helper`rulesFile, helper.bus
      ensures rules == UpdatedById(old(rules), rule)
      ensures FirstIndexOf(old(rules), rule.id).Some? ==> Saved()
      ensures FirstIndexOf(old(rules), rule.id).None? ==> NothingSaved()
    {
      var index := FirstIndexOf(rules, rule.id);
      if index.Some? {
        rules := rules[index.value := rule];
        SaveRules();
      }
    }

    /** deleteRule(_:): saves even when nothing was removed. */
    method DeleteRule(rule: FilterRule)
      modifies this`rules, this`defaultsRules, this`defaultsMode, helper`rulesFile, helper.bus
      ensures rules == WithoutId(old(rules), rule.id)
      ensures Saved()
    {
      rules := WithoutId(rules, rule.id);
      SaveRules();
    }

    /** deleteRules(at:). */
    method DeleteRulesAt(offsets: set<nat>)
      requires forall i :: i in offsets ==> i < |rules|
      modifies this`rules, this`defaultsRules, this`defaultsMode, helper`rulesFile, helper.bus
      ensures rules == RemovedAt(old(rules), offsets)
      ensures Saved()
    {
      rules := RemovedAt(rules, offsets);
      SaveRules();
    }

    /** moveRules(from:to:): move, then renumber the priorities in order. */
    method MoveRules(source: set<nat>, destination: nat)
      requires forall i :: i in source ==> i < |rules|
      requires destination <= |rules|
      modifies this`rules, this`defaultsRules, this`defaultsMode, helper`rulesFile, helper.bus
      ensures rules == Renumbered(Moved(old(rules), source, destination))
      ensures Saved()
    {
      rules := Moved(rules, source, destination);
      ghost var moved := rules;
      for index := 0 to |rules|
        modifies this`rules
        invariant |rules| == |moved|
        invariant forall k :: 0 <= k < index ==> rules[k] == moved[k].(priority := k)
        invariant forall k :: index <= k < |rules| ==> rules[k] == moved[k]
      {
        rules := rules[index := rules[index].(priority := index)];
      }
      SaveRules();
    }

    /** toggleRule(_:): saves only when a rule with the id exists. */
    method ToggleRule(rule: FilterRule)
      modifies this`rules, this`defaultsRules, this`defaultsMode, helper`rulesFile, helper.bus
      ensures rules == ToggledById(old(rules), rule.id)
      ensures FirstIndexOf(old(rules), rule.id).Some? ==> Saved()
      ensures FirstIndexOf(old(rules), rule.id).None? ==> NothingSaved()
    {
      var index := FirstIndexOf(rules, rule.id);
      if index.Some? {
        var i := index.value;
        rules := rules[i := rules[i].(isEnabled := !rules[i].isEnabled)];
        SaveRules();
      }
    }

    /** createDefaultRules(): the example rules, disabled one by one. */
    method CreateDefaultRules(idBase: Uuid)
      modifies this`rules, this`defaultsRules, this`defaultsMode, helper`rulesFile, helper.bus
      ensures rules == DefaultRules(idBase)
      ensures Saved()
    {
      var templates := DefaultTemplates(idBase);
      rules := templates;
      for i := 0 to |rules|
        modifies this`rules
        invariant |rules| == 2
        invariant forall k :: 0 <= k < i ==> rules[k] == Disabled(templates[k])
        invariant forall k :: i <= k < 2 ==> rules[k] == templates[k]
      {
        rules := rules[i := rules[i].(isEnabled := false)];
      }
      SaveRules();
    }

    /** evaluate(notification:): filter, sort, then the first match; the
        global default when no enabled rule matches. */
    method Evaluate(n: NotificationRecord) returns (result: EvaluationResult)
      ensures result == Engine.Evaluate(rules, globalMode, n)
    {
      var sortedRules := SortByPriority(EnabledRules(rules));
      var i := 0;
      while i < |sortedRules|
        invariant 0 <= i <= |sortedRules|
        invariant FirstMatch(sortedRules, n) == FirstMatch(sortedRules[i..], n)
      {
        assert sortedRules[i..][1..] == sortedRules[i + 1..];
        if RuleMatches(sortedRules[i], n) {
          return Matched(sortedRules[i]);
        }
        i := i + 1;
      }
      result := DefaultResult(DefaultAction(globalMode));
    }

    /** importRules(from:): a list that does not decode changes nothing and
        reports failure; otherwise it is appended and saved. */
    method ImportRules(decoded: Option<seq<FilterRule>>) returns (ok: bool)
      modifies this`rules, this`defaultsRules, this`defaultsMode, helper`rulesFile, helper.bus
      ensures ok == decoded.Some?
      ensures decoded.None? ==> rules == old(rules) && NothingSaved()
      ensures decoded.Some? ==> rules == old(rules) + decoded.value && Saved()
    {
      if decoded.None? {
        return false;
      }
      rules := rules + decoded.value;
      SaveRules();
      ok := true;
    }
  }
}
