/** The rule engine behind RuleStorage.evaluate(notification:)
    (Noti5/Services/RuleStorage.swift): keep the enabled rules, sort them by
    priority, and take the first that matches.  Swift's `sorted` is modelled
    as a stable sort, so rules of equal priority keep their store order. */
module Engine {
  import opened Wrappers
  import opened Records
  import opened Rules
  import opened Results

  /** `rules.filter { $0.isEnabled }`. */
  function EnabledRules(rules: seq<FilterRule>): (r: seq<FilterRule>)
    ensures forall x :: x in r <==> x in rules && x.isEnabled
  {
    if rules == [] then []
    else (if rules[0].isEnabled then [rules[0]] else []) + EnabledRules(rules[1..])
  }

  /** `rules.filter { !$0.isEnabled }`. */
  function DisabledRules(rules: seq<FilterRule>): (r: seq<FilterRule>)
    ensures forall x :: x in r <==> x in rules && !x.isEnabled
  {
    if rules == [] then []
    else (if !rules[0].isEnabled then [rules[0]] else []) + DisabledRules(rules[1..])
  }

  ghost predicate SortedByPriority(s: seq<FilterRule>) {
    forall i, j :: 0 <= i < j < |s| ==> s[i].priority <= s[j].priority
  }

  /** Inserts `x` before the first rule whose priority is not below its own. */
  function Insert(x: FilterRule, s: seq<FilterRule>): seq<FilterRule> {
    if s == [] || x.priority <= s[0].priority then [x] + s
    else [s[0]] + Insert(x, s[1..])
  }

  /** `sorted { $0.priority < $1.priority }`, as a stable insertion sort. */
  function SortByPriority(s: seq<FilterRule>): seq<FilterRule> {
    if s == [] then [] else Insert(s[0], SortByPriority(s[1..]))
  }

  /** The first rule of a sequence that matches; the loop of evaluate. */
  function FirstMatch(s: seq<FilterRule>, n: NotificationRecord): (r: Option<FilterRule>)
    ensures r.Some? ==> r.value in s && RuleMatches(r.value, n)
    ensures r.None? ==> forall x :: x in s ==> !RuleMatches(x, n)
  {
    if s == [] then None
    else if RuleMatches(s[0], n) then Some(s[0])
    else FirstMatch(s[1..], n)
  }

  /** The global default: whitelist blocks, blacklist notifies. */
  function DefaultAction(mode: GlobalFilterMode): RuleAction {
    if mode == Whitelist then Block else Notify
  }

  /** evaluate(notification:) as a function of the store's rules and mode. */
  function Evaluate(rules: seq<FilterRule>, mode: GlobalFilterMode, n: NotificationRecord): EvaluationResult {
    match FirstMatch(SortByPriority(EnabledRules(rules)), n)
    case Some(r) => Matched(r)
    case None => DefaultResult(DefaultAction(mode))
  }

  // ----- the reference choice: minimal priority, then store order -----

  /** The matching rule of least priority, the earliest in store order among
      equals; defined without sorting. */
  function BestMatch(s: seq<FilterRule>, n: NotificationRecord): Option<FilterRule> {
    if s == [] then None
    else
      var rest := BestMatch(s[1..], n);
      if RuleMatches(s[0], n) && (rest.None? || s[0].priority <= rest.value.priority) then Some(s[0])
      else rest
  }

  /** Index k holds a matching rule whose priority is no larger than that of
      any matching rule, and strictly smaller than that of every matching
      rule before it. */
  ghost predicate IsBestAt(s: seq<FilterRule>, n: NotificationRecord, k: int) {
    && 0 <= k < |s|
    && RuleMatches(s[k], n)
    && (forall j :: 0 <= j < |s| && RuleMatches(s[j], n) ==> s[k].priority <= s[j].priority)
    && (forall j :: 0 <= j < k && RuleMatches(s[j], n) ==> s[k].priority < s[j].priority)
  }

  /** BestMatch fails exactly when no rule matches, and otherwise returns the
      rule at an index satisfying IsBestAt. */
  lemma BestMatchSpec(s: seq<FilterRule>, n: NotificationRecord)
    ensures BestMatch(s, n).None? <==> forall j :: 0 <= j < |s| ==> !RuleMatches(s[j], n)
    ensures BestMatch(s, n).Some? ==> exists k :: IsBestAt(s, n, k) && s[k] == BestMatch(s, n).value
  {
    BestMatchNone(s, n);
    if BestMatch(s, n).Some? {
      var k := BestMatchIndex(s, n);
    }
  }

  lemma {:induction false} BestMatchNone(s: seq<FilterRule>, n: NotificationRecord)
    ensures BestMatch(s, n).None? <==> forall j :: 0 <= j < |s| ==> !RuleMatches(s[j], n)
  {
    if s != [] {
      BestMatchNone(s[1..], n);
      assert forall j :: 1 <= j < |s| ==> s[j] == s[1..][j - 1];
    }
  }

  lemma {:induction false} BestMatchIndex(s: seq<FilterRule>, n: NotificationRecord) returns (k: nat)
    requires BestMatch(s, n).Some?
    ensures IsBestAt(s, n, k) && s[k] == BestMatch(s, n).value
  {
    var t := s[1..];
    var rest := BestMatch(t, n);
    BestMatchNone(t, n);
    assert forall j :: 1 <= j < |s| ==> s[j] == t[j - 1];
    if RuleMatches(s[0], n) && (rest.None? || s[0].priority <= rest.value.priority) {
      k := 0;
      if rest.Some? {
        var k' := BestMatchIndex(t, n);
        assert forall j :: 1 <= j < |s| && RuleMatches(s[j], n) ==> t[k'].priority <= s[j].priority;
      }
    } else {
      var k' := BestMatchIndex(t, n);
      k := k' + 1;
      assert forall j :: 1 <= j < |s| && RuleMatches(s[j], n) ==> t[k'].priority <= s[j].priority;
    }
  }

  // ----- the sort is a sorted permutation -----

  lemma {:induction false} InsertPermutes(x: FilterRule, s: seq<FilterRule>)
    ensures multiset(Insert(x, s)) == multiset([x] + s)
  {
    if s != [] && x.priority > s[0].priority {
      InsertPermutes(x, s[1..]);
      assert s == [s[0]] + s[1..];
    }
  }

  lemma {:induction false} InsertSorted(x: FilterRule, s: seq<FilterRule>)
    requires SortedByPriority(s)
    ensures SortedByPriority(Insert(x, s))
  {
    if s != [] && x.priority > s[0].priority {
      var t := s[1..];
      InsertSorted(x, t);
      InsertPermutes(x, t);
      var r' := Insert(x, t);
      assert Insert(x, s) == [s[0]] + r';
      forall j | 0 <= j < |r'| ensures s[0].priority <= r'[j].priority {
        var y := r'[j];
        assert y in multiset([x] + t);
        if y != x {
          assert y in t;
          var k :| 0 <= k < |t| && t[k] == y;
          assert s[k + 1] == y;
        }
      }
      ConsSorted(s[0], r');
    } else if s != [] {
      ConsSorted(x, s);
    }
  }

  /** A rule put before a sorted list whose priorities are not below its own
      keeps the list sorted. */
  lemma ConsSorted(h: FilterRule, s: seq<FilterRule>)
    requires SortedByPriority(s)
    requires forall j :: 0 <= j < |s| ==> h.priority <= s[j].priority
    ensures SortedByPriority([h] + s)
  {
    var r := [h] + s;
    forall i, j | 0 <= i < j < |r| ensures r[i].priority <= r[j].priority {
      assert r[j] == s[j - 1];
      if i > 0 {
        assert r[i] == s[i - 1];
      }
    }
  }

  /** SortByPriority returns its input, reordered by non-decreasing priority. */
  lemma {:induction false} SortSpec(s: seq<FilterRule>)
    ensures multiset(SortByPriority(s)) == multiset(s)
    ensures SortedByPriority(SortByPriority(s))
  {
    if s != [] {
      SortSpec(s[1..]);
      InsertPermutes(s[0], SortByPriority(s[1..]));
      InsertSorted(s[0], SortByPriority(s[1..]));
      assert s == [s[0]] + s[1..];
    }
  }

  // ----- the sort-then-scan of evaluate picks the reference rule -----

  /** Scanning after inserting `x` finds `x` exactly when it matches and no
      matching rule of the sorted rest has a lower priority. */
  lemma {:induction false} FirstMatchInsert(x: FilterRule, s: seq<FilterRule>, n: NotificationRecord)
    requires SortedByPriority(s)
    ensures FirstMatch(Insert(x, s), n) ==
      var rest := FirstMatch(s, n);
      if RuleMatches(x, n) && (rest.None? || x.priority <= rest.value.priority) then Some(x) else rest
  {
    if s == [] || x.priority <= s[0].priority {
      var rest := FirstMatch(s, n);
      if rest.Some? {
        var k :| 0 <= k < |s| && s[k] == rest.value;
        assert s[0].priority <= s[k].priority;
      }
    } else {
      assert SortedByPriority(s[1..]);
      FirstMatchInsert(x, s[1..], n);
    }
  }

  /** Filtering, sorting and scanning selects the reference rule. */
  lemma {:induction false} FirstMatchOfSortedIsBest(s: seq<FilterRule>, n: NotificationRecord)
    ensures FirstMatch(SortByPriority(EnabledRules(s)), n) == BestMatch(s, n)
  {
    if s != [] {
      FirstMatchOfSortedIsBest(s[1..], n);
      SortSpec(EnabledRules(s[1..]));
      if s[0].isEnabled {
        assert EnabledRules(s) == [s[0]] + EnabledRules(s[1..]);
        assert ([s[0]] + EnabledRules(s[1..]))[1..] == EnabledRules(s[1..]);
        FirstMatchInsert(s[0], SortByPriority(EnabledRules(s[1..])), n);
      } else {
        assert EnabledRules(s) == EnabledRules(s[1..]);
      }
    }
  }

  /** evaluate returns the matched result of the enabled matching rule of
      least priority, earliest in store order among equals, and the global
      default (block in whitelist mode, notify in blacklist mode) when no
      enabled rule matches. */
  lemma EvaluateSpec(rules: seq<FilterRule>, mode: GlobalFilterMode, n: NotificationRecord)
    ensures (forall j :: 0 <= j < |rules| ==> !RuleMatches(rules[j], n)) ==>
      Evaluate(rules, mode, n) == DefaultResult(if mode == Whitelist then Block else Notify)
    ensures (exists j :: 0 <= j < |rules| && RuleMatches(rules[j], n)) ==>
      exists k :: IsBestAt(rules, n, k) && rules[k].isEnabled && Evaluate(rules, mode, n) == Matched(rules[k])
  {
    FirstMatchOfSortedIsBest(rules, n);
    BestMatchSpec(rules, n);
  }

  /** Of two enabled matching rules with priorities 1 and 2, evaluate
      reports the first, whichever order the store holds them in. */
  lemma LowerPriorityWins(a: FilterRule, b: FilterRule, mode: GlobalFilterMode, n: NotificationRecord)
    requires RuleMatches(a, n) && RuleMatches(b, n) && a.priority == 1 && b.priority == 2
    ensures Evaluate([a, b], mode, n).matchedRuleName == Some(a.name)
    ensures Evaluate([b, a], mode, n).matchedRuleName == Some(a.name)
  {
    FirstMatchOfSortedIsBest([a, b], n);
    FirstMatchOfSortedIsBest([b, a], n);
    assert [a, b][1..] == [b] && [b, a][1..] == [a];
    assert BestMatch([b], n) == Some(b) && BestMatch([a], n) == Some(a);
  }

  // ----- a store already in priority order -----

  /** Sorting a list already in priority order changes nothing. */
  lemma {:induction false} SortFixesSorted(s: seq<FilterRule>)
    requires SortedByPriority(s)
    ensures SortByPriority(s) == s
  {
    if s != [] {
      assert SortedByPriority(s[1..]);
      SortFixesSorted(s[1..]);
      if |s| > 1 {
        assert s[0].priority <= s[1].priority;
      }
      assert [s[0]] + s[1..] == s;
    }
  }

  /** Dropping disabled rules keeps priority order. */
  lemma {:induction false} EnabledKeepsSorted(s: seq<FilterRule>)
    requires SortedByPriority(s)
    ensures SortedByPriority(EnabledRules(s))
  {
    if s != [] {
      assert SortedByPriority(s[1..]);
      EnabledKeepsSorted(s[1..]);
      var r := EnabledRules(s);
      if s[0].isEnabled {
        forall i, j | 0 <= i < j < |r| ensures r[i].priority <= r[j].priority {
          if i == 0 {
            assert r[j] in EnabledRules(s[1..]);
          }
        }
      }
    }
  }

  /** For a store in priority order, evaluate is a scan in store order. */
  lemma EvaluateInStoreOrder(rules: seq<FilterRule>, mode: GlobalFilterMode, n: NotificationRecord)
    requires SortedByPriority(rules)
    ensures Evaluate(rules, mode, n) ==
      match FirstMatch(EnabledRules(rules), n)
      case Some(r) => Matched(r)
      case None => DefaultResult(DefaultAction(mode))
  {
    EnabledKeepsSorted(rules);
    SortFixesSorted(EnabledRules(rules));
  }

  /** The enabled and the disabled rules together are the store. */
  lemma {:induction false} EnabledDisabledPartition(s: seq<FilterRule>)
    ensures multiset(EnabledRules(s)) + multiset(DisabledRules(s)) == multiset(s)
  {
    if s != [] {
      EnabledDisabledPartition(s[1..]);
      assert s == [s[0]] + s[1..];
    }
  }
}
