# Noti5 notification filter, modelled in Dafny

Noti5 is an iOS app that decides which incoming notifications deserve a
critical alert. The user keeps an ordered list of filter rules. Each rule is
a set of conditions on the sender (the notification title), on a keyword
(title, subtitle and body together) or on the app's bundle id, joined by AND
or OR. A root helper process watches the system's notification store and
writes the notifications that matched to a shared file. The app drains that
file and re-sends each entry as a critical alert, skipping any alert it sent
for the same app, title and body in the last five minutes.

This project models the decision layer of the app:

- the rule and condition matching and the evaluation of a notification
  against the store (first enabled rule of lowest priority, else the
  global-mode default);
- the rule store with its add, update, delete, move, toggle, default-rules
  and import operations, and the list, per-app and editor views that build,
  reorder, partition and delete rules through it;
- the alert deduplication cache, with its 300-second window and 600-second
  eviction, and the content of each alert request;
- the helper supervisor: pid-file check, spawn outcomes, heartbeat health
  check, stop, and the drain of the matched-notifications file;
- the Darwin notification name registry, and its agreement with the C header
  the helper is built from.

Pure Swift code (matching, evaluation, descriptions, summaries) is modelled
as functions with lemmas. Code that mutates state (`RuleStorage`,
`CriticalAlertSender`, `HelperManager`, `DarwinNotificationCenter`, the rule
editor) is modelled as classes whose methods change their fields. Each such
method is tied by its `ensures` to a function of the old state, and that
function has its own lemmas. Loops in the source (`moveRules`,
`createDefaultRules`, `evaluate`, the delete and move helpers of the lists,
the drain of pending notifications) are `for`/`while` loops with invariants.

Modules follow the source files: `Rules` (FilterRule.swift), `Records` and
`Results` (NotificationRecord.swift), `Engine` and `Storage`
(RuleStorage.swift), `Alerts`, `Helper`, `Bus`, `RulesList`, `AppsList`,
`Editor` and `FromNotification` (the four views), `SharedTypes`
(SharedTypes.h) and `State` (AppState). `Strings`, `Sequences` and `Wrappers`
hold the string, sequence and option helpers they share.

Inputs the app reads from the OS become parameters:

- the clock is an integer number of seconds `now`;
- each `UUID()` is a caller-supplied natural number;
- the pid file is an optional string, and "process alive" is a set of
  signalable pids;
- the heartbeat file's age is an optional integer;
- a spawn attempt is a result code, plus a flag saying whether the helper
  binary is bundled;
- every decoded file is a `FileRead` (missing, undecodable or decoded);
- the delivery outcome of an alert request is a boolean passed to a
  separate completion step.

## Model

| member | source | states |
|---|---|---|
| Rules.NewCondition | NotifyFilter/Models/FilterRule.swift:55-61 | a new condition has the given field, match type (contains by default), value and case sensitivity (off by default) |
| Rules.FieldValue | NotifyFilter/Models/FilterRule.swift:84-94 | the text a condition tests: the title for sender; title, subtitle (nil as "") and body joined by single spaces for keyword; the bundle id for app (stated by `Rules.FieldValues`) |
| Rules.ConditionMatches | NotifyFilter/Models/FilterRule.swift:63-82 | one condition against a notification: the six match types on the field text and the value, both lowercased unless case-sensitive (stated by `NegatedMatchTypes`, `SubstringMatchTypes` and the two case lemmas) |
| Rules.RuleMatches | NotifyFilter/Models/FilterRule.swift:32-43 | a rule matches when enabled, with conditions, and all (AND) or some (OR) of them match (stated by `Rules.RuleMatchesSpec`) |
| Rules.NewRule | NotifyFilter/Models/FilterRule.swift:21-29 | a new rule is enabled, has priority 100, and takes the given name, action, conditions and operator |
| Rules.NewRuleDefaults | NotifyFilter/Models/FilterRule.swift:21-29 | with only a name, a new rule is enabled, priority 100, notify, no conditions, AND |
| Rules.FieldValues | NotifyFilter/Models/FilterRule.swift:84-94 | sender reads the title, app the bundle id, and keyword the title, subtitle (or "") and body joined by single spaces |
| Rules.RuleMatchesSpec | NotifyFilter/Models/FilterRule.swift:32-43 | a rule matches iff it is enabled, has conditions, and with AND every condition matches, with OR some condition matches |
| Rules.AllMatchIffEvery | NotifyFilter/Models/FilterRule.swift:36-38 | the AND fold holds iff every condition matches |
| Rules.AnyMatchIffSome | NotifyFilter/Models/FilterRule.swift:39-40 | the OR fold holds iff some condition matches |
| Rules.NeverMatches | NotifyFilter/Models/FilterRule.swift:33 | a disabled rule, or one without conditions, matches no notification |
| Rules.NegatedMatchTypes | NotifyFilter/Models/FilterRule.swift:68-81 | notEquals is exactly the negation of equals, and notContains of contains, on the same inputs |
| Rules.SubstringMatchTypes | NotifyFilter/Models/FilterRule.swift:72-76 | contains holds iff the target occurs in the value; startsWith iff it is a prefix; endsWith iff it is a suffix |
| Rules.CaseSensitiveComparesUnchanged | NotifyFilter/Models/FilterRule.swift:63-66 | a case-sensitive condition compares the field value and the target unchanged |
| Rules.CaseInsensitiveIgnoresCase | NotifyFilter/Models/FilterRule.swift:63-66 | for a case-insensitive condition, changing the case of the target or of the field value does not change the outcome |
| Rules.ConditionTexts | Noti5/Views/RulesListView.swift:175-186 | one text per condition, in order |
| Rules.ConditionTextStartsWithField | NotifyFilter/Models/FilterRule.swift:104-110 | a condition's text starts with its field's display name |
| Rules.ModeRawValueRoundTrip | NotifyFilter/Models/FilterRule.swift:174-177 | the raw value of a global mode parses back to that mode, and only that string parses to it |
| SharedTypes.NamesAgree | Noti5/Services/DarwinNotificationCenter.swift:14-18 | the five Swift notification names equal the header's NOTI5_* strings of Shared/SharedTypes.h lines 12-16 |
| SharedTypes.MatchTypeCode | Shared/SharedTypes.h:53-60 | the helper's match-type codes lie in 0..5 |
| SharedTypes.MatchTypeCodeInjective | Shared/SharedTypes.h:53-60 | distinct match types have distinct codes |
| Records.ContentHashPreimage | NotifyFilter/Models/NotificationRecord.swift:36-39 | the hashed string is exactly the bundle id, a bar, the title, a bar, the subtitle (nil as ""), a bar and the body, each field at its own offset |
| Records.ContentHashNilSubtitle | NotifyFilter/Models/NotificationRecord.swift:36-39 | a nil subtitle and an empty one hash the same string, so such notifications share a content hash |
| Records.FindIn | NotifyFilter/Models/NotificationRecord.swift:92-94 | the index found is the first entry with the bundle id; none is found only when no entry has it |
| Records.Find | NotifyFilter/Models/NotificationRecord.swift:92-94 | the first known app with the bundle id, or none (stated by `Records.FindSpec`) |
| Records.FindSpec | NotifyFilter/Models/NotificationRecord.swift:92-94 | find succeeds iff some known app has the bundle id, and then returns a table entry with that id |
| Records.AllIdsDistinct | NotifyFilter/Models/NotificationRecord.swift:63-90 | the bundle ids of the known-app table are pairwise distinct |
| Records.OfCategory | NotifyFilter/Models/NotificationRecord.swift:96-98 | a category's group holds exactly the table's apps of that category |
| Records.Grouped | NotifyFilter/Models/NotificationRecord.swift:96-98 | the known apps of each category, in list order (stated by `Records.GroupedSpec`) |
| Records.GroupedSpec | NotifyFilter/Models/NotificationRecord.swift:96-98 | every app is in its category's group, every group is non-empty, and a group holds only apps of its category |
| Results.Matched | NotifyFilter/Models/NotificationRecord.swift:123-130 | a matched result carries the rule's action, name and id and is not a default |
| Results.DefaultResult | NotifyFilter/Models/NotificationRecord.swift:132-139 | a default result carries the given action, no rule name or id, and is a default |
| Results.MatchedIsNotDefault | NotifyFilter/Models/NotificationRecord.swift:117-139 | a matched result never equals a default result |
| Engine.EnabledRules | Noti5/Services/RuleStorage.swift:142 | the filter keeps exactly the enabled rules |
| Engine.SortByPriority | Noti5/Services/RuleStorage.swift:142 | the enabled rules ordered by priority, ties in store order (stated by `Engine.SortSpec`: sorted, a permutation, stable) |
| Engine.Evaluate | Noti5/Services/RuleStorage.swift:140-154 | the first matching rule of the sorted enabled rules, else the global-mode default (stated by `Engine.EvaluateSpec`) |
| Engine.BestMatch | Noti5/Services/RuleStorage.swift:140-154 | an independent reference for the winner: the leftmost matching rule of least priority, built without sorting (tied to the sorted scan by `FirstMatchOfSortedIsBest`) |
| Engine.DisabledRules | Noti5/Views/RulesListView.swift:100-102 | the filter keeps exactly the disabled rules |
| Engine.FirstMatch | Noti5/Services/RuleStorage.swift:145-149 | the scan returns a matching rule of the list, or none when no rule of the list matches |
| Engine.SortSpec | Noti5/Services/RuleStorage.swift:142 | sorting by priority returns a permutation of its input in non-decreasing priority |
| Engine.BestMatchSpec | Noti5/Services/RuleStorage.swift:140-154 | the reference choice is empty iff no rule matches, and otherwise is an enabled matching rule of minimal priority, the earliest among ties |
| Engine.FirstMatchOfSortedIsBest | Noti5/Services/RuleStorage.swift:142-149 | filtering, sorting and scanning picks exactly the reference choice |
| Engine.EvaluateSpec | Noti5/Services/RuleStorage.swift:140-154 | with no matching rule the result is the default (block in whitelist, notify in blacklist); otherwise it is the matched result of a best enabled matching rule |
| Engine.LowerPriorityWins | Noti5/Services/RuleStorage.swift:142-149 | of two matching rules with priorities 1 and 2, the priority-1 rule wins whichever comes first in the store |
| Engine.SortFixesSorted | Noti5/Services/RuleStorage.swift:142 | sorting an already sorted list leaves it unchanged |
| Engine.EvaluateInStoreOrder | Noti5/Services/RuleStorage.swift:140-154 | on a store already in priority order, evaluation scans the enabled rules in store order |
| Engine.EnabledDisabledPartition | Noti5/Views/RulesListView.swift:96-102 | the enabled and the disabled rules together are a permutation of the store |
| Storage.FirstIndexOf | Noti5/Services/RuleStorage.swift:32 | the index found is the first rule with the id; none only when no rule has it |
| Storage.UpdatedById | Noti5/Services/RuleStorage.swift:31-36 | updateRule on the list: the first rule with the id is replaced, else nothing changes (stated by `UpdatedByIdSpec`) |
| Storage.ToggledById | Noti5/Services/RuleStorage.swift:57-62 | toggleRule on the list: the first rule with the id has its enabled flag flipped (stated by `ToggledByIdSpec`) |
| Storage.Renumbered | Noti5/Services/RuleStorage.swift:50-53 | after a move every rule gets its position as priority (stated by `RenumberedSpec` and `MovePreservesIds`) |
| Storage.WithoutId | Noti5/Services/RuleStorage.swift:38-41 | removing by id keeps exactly the rules with another id and never lengthens the store; their order and multiplicity are stated by `WithoutIdPositions` |
| Storage.WithoutIds | Noti5/Views/RulesListView.swift:108-120 | removing a set of ids keeps exactly the rules whose id is outside it; order and multiplicity are stated by `WithoutIdsPositions` |
| Storage.WithoutIdConcat | Noti5/Services/RuleStorage.swift:38-41 | removing an id from two lists joined is removing it from each |
| Storage.WithoutIdsConcat | Noti5/Views/RulesListView.swift:108-120 | removing a set of ids from two lists joined is removing it from each |
| Storage.WithoutIdsPositions | Noti5/Views/RulesListView.swift:108-120 | the result is the store's subsequence at strictly increasing positions that are exactly those whose id is outside the set, so order and repeats are kept |
| Storage.WithoutIdIsWithoutIds | Noti5/Services/RuleStorage.swift:38-41 | removing one id is removing the set holding just that id |
| Storage.WithoutIdPositions | Noti5/Services/RuleStorage.swift:38-41 | deleteRule keeps the store's subsequence at exactly the positions with a different id, in order |
| Storage.UniqueIdsSubsequence | Noti5/Services/RuleStorage.swift:38-46 | a subsequence of a store with unique ids has unique ids |
| Storage.UniqueIdsAfterAdd | Noti5/Services/RuleStorage.swift:26-29 | addRule keeps the ids unique iff the added rule's id is new to the store |
| Storage.UniqueIdsAfterUpdate | Noti5/Services/RuleStorage.swift:31-36 | updateRule and toggleRule keep unique ids unique |
| Storage.UniqueIdsAfterDelete | Noti5/Services/RuleStorage.swift:38-46 | deleteRule, the views' repeated deletes and deleteRules(at:) keep unique ids unique |
| Storage.UniqueIdsAfterMove | Noti5/Services/RuleStorage.swift:48-55 | moveRules keeps unique ids unique |
| Storage.ImportOfOwnExportDuplicatesIds | Noti5/Services/RuleStorage.swift:164-173 | importing a copy of a non-empty store appends it unchecked, so every id then occurs twice and the ids are no longer unique |
| Storage.WithoutIdsStep | Noti5/Views/RulesListView.swift:110-112 | one more deleteRule call removes one more id |
| Storage.UpdatedByIdSpec | Noti5/Services/RuleStorage.swift:31-36 | update keeps length and ids; without a rule of that id nothing changes; otherwise only the first rule with the id is replaced |
| Storage.UpdatedByIdKeepsOthers | Noti5/Services/RuleStorage.swift:31-36 | with unique ids the new rule is in the store and every rule of another id is kept |
| Storage.ToggledByIdSpec | Noti5/Services/RuleStorage.swift:57-62 | toggle flips isEnabled of the first rule with the id only, keeps every other field and rule, and toggling twice restores the store |
| Storage.AddThenDelete | Noti5/Services/RuleStorage.swift:26-41 | adding a rule then deleting its id equals deleting the id alone, which for a fresh id is the store before |
| Storage.WithoutIdIdempotent | Noti5/Services/RuleStorage.swift:38-41 | deleting an id twice equals deleting it once, and no rule with the id is left |
| Storage.RenumberedSpec | Noti5/Services/RuleStorage.swift:48-55 | after renumbering each rule's priority is its index, ids are kept, the store is in priority order and evaluation scans it in store order |
| Storage.MovePreservesIds | Noti5/Services/RuleStorage.swift:48-55 | moving and renumbering keeps every id, as often as before |
| Storage.DefaultRulesSpec | Noti5/Services/RuleStorage.swift:106-136 | the defaults are "Priority Contacts" (two conditions) and "Urgent Keywords" (three), both disabled, OR, notify, priority 100, with distinct ids; evaluating them alone always gives the mode's default |
| Storage.InitialRules | Noti5/Services/RuleStorage.swift:78-102 | loading never yields an empty store, and a non-empty stored list is used as is |
| Storage.LoadAfterSave | Noti5/Services/RuleStorage.swift:66-102 | loading what was saved gives the saved rules back (the defaults when none were saved) and the saved mode |
| Storage.SharedFileIsFallback | Noti5/Services/RuleStorage.swift:93-96 | the helper's rules file is read only when the stored list is empty |
| Storage.RuleStorage.Load | Noti5/Services/RuleStorage.swift:20-22 | init loads the stored rules, else the helper's file, else the defaults (which are saved), and the stored mode or whitelist |
| Storage.RuleStorage.SaveRules | Noti5/Services/RuleStorage.swift:66-76 | both UserDefaults entries and the helper's rules file hold the current state, and one rules-updated post goes out |
| Storage.RuleStorage.AddRule | Noti5/Services/RuleStorage.swift:26-29 | the rule is appended after the unchanged earlier rules, and the store is saved |
| Storage.RuleStorage.UpdateRule | Noti5/Services/RuleStorage.swift:31-36 | the first rule with the id is replaced and the store saved; with no such rule nothing changes and nothing is saved |
| Storage.RuleStorage.DeleteRule | Noti5/Services/RuleStorage.swift:38-41 | every rule with the id is removed, and the store is saved even if nothing was removed |
| Storage.RuleStorage.DeleteRulesAt | Noti5/Services/RuleStorage.swift:43-46 | the rules at the offsets are removed, and the store is saved |
| Storage.RuleStorage.MoveRules | Noti5/Services/RuleStorage.swift:48-55 | the rules are moved, then every priority is set to its index, and the store is saved |
| Storage.RuleStorage.ToggleRule | Noti5/Services/RuleStorage.swift:57-62 | the first rule with the id is toggled and the store saved; with no such rule nothing changes |
| Storage.RuleStorage.CreateDefaultRules | Noti5/Services/RuleStorage.swift:106-136 | the store becomes the two default rules, disabled one by one, and is saved |
| Storage.RuleStorage.Evaluate | Noti5/Services/RuleStorage.swift:140-154 | the filter, sort and early-return scan compute the evaluation of the store in its global mode |
| Storage.RuleStorage.ImportRules | Noti5/Services/RuleStorage.swift:164-173 | a list that decodes is appended after the existing rules and saved, and the call returns true; otherwise it returns false and nothing changes |
| Alerts.DedupKeyAsWritten | Noti5/Services/CriticalAlertSender.swift:24-25 | the fingerprint string is as long as the three fields plus two bars |
| Alerts.AsWrittenKeyCollides | Noti5/Services/CriticalAlertSender.swift:24-25 | two different (title, body) pairs of one app give the same fingerprint string |
| Alerts.DedupKeyExact | Noti5/Services/CriticalAlertSender.swift:24-25 | the corrected key is equal for two alerts iff their bundle ids, titles and bodies are all equal; the subtitle is not part of it |
| Alerts.Cleaned | Noti5/Services/CriticalAlertSender.swift:113-118 | cleanup keeps exactly the entries younger than 600 s, with their times unchanged |
| Alerts.CleanedKeepsSuppression | Noti5/Services/CriticalAlertSender.swift:113-118 | cleanup never changes whether a key is suppressed at the same time |
| Alerts.CleanedIdempotent | Noti5/Services/CriticalAlertSender.swift:113-118 | cleaning twice at one time equals cleaning once |
| Alerts.Subtitle | Noti5/Services/CriticalAlertSender.swift:39-41 | a subtitle "via <app name>" exists iff the bundle id is a known app |
| Alerts.BuildContent | Noti5/Services/CriticalAlertSender.swift:33-59 | the content has the title, body, subtitle, critical level, thread id equal to the bundle id, and user info holding bundle id, rule name and time |
| Alerts.RequestIdentifier | Noti5/Services/CriticalAlertSender.swift:62 | request identifiers start with "noti5-" and are longer than it |
| Alerts.Decide | Noti5/Services/CriticalAlertSender.swift:22-67 | a send is skipped iff its key was recorded less than 300 s ago; otherwise a request with the key, identifier and content goes out |
| Alerts.CacheAfter | Noti5/Services/CriticalAlertSender.swift:27-31 | sending never adds a key to the cache |
| Alerts.Delivered | Noti5/Services/CriticalAlertSender.swift:70-84 | a successful delivery records the key at the delivery time; every other key is kept as it was |
| Alerts.SuppressedAfterDelivery | Noti5/Services/CriticalAlertSender.swift:27-28 | after a successful delivery the same key is suppressed (also after cleanup) for under 300 s, and from 300 s on it is sent again |
| Alerts.FailedDeliveryNotRemembered | Noti5/Services/CriticalAlertSender.swift:70-72 | a failed delivery changes no suppression |
| Alerts.SendNeverAddsKeys | Noti5/Services/CriticalAlertSender.swift:27-31 | a skipped send leaves the cache untouched and no send adds a key |
| Alerts.CriticalAlertSender.constructor | Noti5/Services/CriticalAlertSender.swift:13-17 | the cache and the submitted requests start empty |
| Alerts.CriticalAlertSender.SendAlert | Noti5/Services/CriticalAlertSender.swift:22-88 | the outcome is the dedup decision; a request is submitted only when not skipped; the cache is cleaned after a submission and untouched after a skip |
| Alerts.CriticalAlertSender.CleanupDeduplicationCache | Noti5/Services/CriticalAlertSender.swift:113-118 | the cache becomes its cleaned version |
| Alerts.CriticalAlertSender.CompleteDelivery | Noti5/Services/CriticalAlertSender.swift:70-84 | on success the key is recorded and matchedCount grows by exactly one; on failure neither changes; no other flag changes |
| State.AppState.constructor | NotifyFilter/App/NotifyFilterApp.swift:25-40 | the flags start false and the counters at zero |
| Bus.Dispatch | Noti5/Services/DarwinNotificationCenter.swift:74-78 | dispatch finds the callback registered under the name at dispatch time, or nothing |
| Bus.NamesDistinct | Noti5/Services/DarwinNotificationCenter.swift:14-18 | the five notification names are distinct |
| Bus.ListeningDispatch | Noti5/Services/DarwinNotificationCenter.swift:82-98 | after startListening the matched and heartbeat names dispatch to their handlers and other names are unaffected; after stopListening neither is registered |
| Bus.StopUndoesListening | Noti5/Services/DarwinNotificationCenter.swift:82-98 | stopping after starting leaves what stopping alone leaves |
| Bus.DarwinNotificationCenter.constructor | Noti5/Services/DarwinNotificationCenter.swift:20-23 | no callbacks registered and nothing posted |
| Bus.DarwinNotificationCenter.Post | Noti5/Services/DarwinNotificationCenter.swift:27-36 | the name is posted; the registry is unchanged |
| Bus.DarwinNotificationCenter.Observe | Noti5/Services/DarwinNotificationCenter.swift:40-59 | the callback becomes the one for the name, replacing any earlier one; other names unchanged |
| Bus.DarwinNotificationCenter.RemoveObserver | Noti5/Services/DarwinNotificationCenter.swift:61-72 | only the name's callback is removed; removing an absent name changes nothing |
| Bus.DarwinNotificationCenter.HandleNotification | Noti5/Services/DarwinNotificationCenter.swift:74-78 | the callback invoked is the dispatch of the name |
| Bus.DarwinNotificationCenter.StartListening | Noti5/Services/DarwinNotificationCenter.swift:82-93 | the registry gets the matched and heartbeat handlers |
| Bus.DarwinNotificationCenter.StopListening | Noti5/Services/DarwinNotificationCenter.swift:95-98 | the matched and heartbeat names are removed |
| Bus.DarwinNotificationCenter.NotifyRulesUpdated | Noti5/Services/DarwinNotificationCenter.swift:102-104 | posts com.noti5.rules.updated |
| Bus.DarwinNotificationCenter.NotifyStart | Noti5/Services/DarwinNotificationCenter.swift:106-108 | posts com.noti5.start |
| Bus.DarwinNotificationCenter.NotifyStop | Noti5/Services/DarwinNotificationCenter.swift:110-112 | posts com.noti5.stop |
| Strings.LowerIdempotent | NotifyFilter/Models/FilterRule.swift:65-66 | lowercasing keeps the length and lowercasing twice equals once |
| Strings.Lower | NotifyFilter/Models/FilterRule.swift:65-66 | lowercasing, character by character (stated by `LowerIdempotent` and the case lemmas) |
| Strings.Contains | NotifyFilter/Models/FilterRule.swift:71-72 | substring search (stated by `ContainsIffOccurs`) |
| Strings.ContainsIffOccurs | NotifyFilter/Models/FilterRule.swift:70-71 | contains holds iff the needle occurs at some position |
| Strings.HasPrefixIffSplit | NotifyFilter/Models/FilterRule.swift:72-73 | hasPrefix holds iff the string is the prefix followed by something |
| Strings.HasSuffixIffSplit | NotifyFilter/Models/FilterRule.swift:74-75 | hasSuffix holds iff the string is something followed by the suffix |
| Strings.ParseInt32 | Noti5/Services/HelperManager.swift:25 | a parsed value lies in the Int32 range |
| Strings.ParseInt32OfIntToString | Noti5/Services/HelperManager.swift:25 | every Int32 written in decimal parses back to itself |
| Strings.TrimSlice | Noti5/Services/HelperManager.swift:25 | trimming removes exactly a prefix and a suffix of `.whitespacesAndNewlines` characters (the Unicode separators, tab, U+000A to U+000D and U+0085), and a non-empty result neither starts nor ends with one |
| Strings.Trim | Noti5/Services/HelperManager.swift:25 | trimming both ends (stated by `TrimSlice` and `TrimPaddedNumber`) |
| Strings.TrimPaddedNumber | Noti5/Services/HelperManager.swift:25 | trimming a number padded by whitespace gives the number's text |
| Helper.PidOf | Noti5/Services/HelperManager.swift:24-26 | a pid is read iff the file exists and its text, trimmed of `.whitespacesAndNewlines`, parses as an Int32, and it is that value |
| Helper.PidOfUnicodePadded | Noti5/Services/HelperManager.swift:24-26 | a pid file reading U+00A0, "1234", U+2028 yields pid 1234: non-ASCII padding is trimmed as well |
| Helper.HelperRunningOfPidFile | Noti5/Services/HelperManager.swift:22-31 | a whitespace-padded pid is read back; the helper runs iff that pid can be signalled; with no pid file it does not run |
| Helper.LoadedRules | Noti5/Services/HelperManager.swift:184-191 | the decoded rules, or no rules when the file is missing or does not decode |
| Helper.DrainOutcomes | Noti5/Services/HelperManager.swift:208-214 | one send outcome per entry |
| Helper.DrainOutcomesAt | Noti5/Services/HelperManager.swift:208-214 | each entry's outcome is decided against the cache as it was before the drain, since deliveries complete later |
| Helper.RequestsOfMembers | Noti5/Services/HelperManager.swift:208-214 | the submitted requests are exactly the outcomes that were not skipped |
| Helper.DecideAfterCleanup | Noti5/Services/CriticalAlertSender.swift:87 | deciding after a cleanup at the same time gives the same outcome, so the cleanups inside a drain do not change later decisions |
| Helper.SameBatchDuplicatesBothSent | Noti5/Services/HelperManager.swift:208-214 | two identical entries of one drain, not suppressed before it, are both sent with the same key |
| Helper.HelperManager.constructor | Noti5/Services/HelperManager.swift:33-35 | no heartbeat seen, no timer armed, no spawn attempted, nothing terminated |
| Helper.HelperManager.SpawnRootHelper | Noti5/Services/HelperManager.swift:60-77 | without the binary nothing is attempted or changed; with it one spawn is attempted, a result of 0 sets helperRunning and any other result leaves it as it was |
| Helper.HelperManager.CheckHelperHealth | Noti5/Services/HelperManager.swift:137-157 | no heartbeat file: nothing changes; age under 60 s: monitoring, no spawn; otherwise not monitoring and one spawn attempt |
| Helper.HelperManager.StartHeartbeatMonitoring | Noti5/Services/HelperManager.swift:129-135 | the 30-second timer is armed |
| Helper.HelperManager.EnsureHelperRunning | Noti5/Services/HelperManager.swift:49-58 | spawns iff the helper is not running, otherwise runs the health check (on a stale heartbeat: the respawn, and helperRunning set only by a bundled binary that spawns with status 0), and in both cases arms the timer |
| Helper.EnsureWhileHealthy | Noti5/Services/HelperManager.swift:49-58 | with a live helper and a fresh heartbeat no spawn is attempted and monitoring is on |
| Helper.HelperManager.StopHelper | Noti5/Services/HelperManager.swift:79-91 | always posts stop and clears helperRunning; terminates the pid only when it parses |
| Helper.HelperManager.HelperDidSendHeartbeat | Noti5/Services/HelperManager.swift:159-165 | records the heartbeat time and sets both flags |
| Helper.HelperManager.SaveRules | Noti5/Services/HelperManager.swift:169-182 | the rules file holds the rules, which load back, and one rules-updated post goes out |
| Helper.HelperManager.LoadRules | Noti5/Services/HelperManager.swift:184-191 | returns the rules of the file, or none |
| Helper.HelperManager.CheckPendingNotifications | Noti5/Services/HelperManager.swift:195-219 | a missing or undecodable file: no send, no rewrite, nothing changes; otherwise one send per entry in file order, the file then holds an empty list, exactly the outcomes' requests are submitted, and the cache is cleaned at `now` iff some entry was sent |
| Helper.HelperManager.SendAll | Noti5/Services/HelperManager.swift:208-214 | the loop of sends yields the drain outcomes, submits exactly their requests, and leaves the cache cleaned at `now` iff some request was submitted, otherwise unchanged |
| Helper.HelperManager.HandleCallback | Noti5/Services/DarwinNotificationCenter.swift:84-92 | the matched callback has the whole effect of checkPendingNotifications and no other; the heartbeat callback records a heartbeat and sets both flags, the file and the alert sender unchanged; any other callback changes nothing |
| RulesList.SectionsSpec | Noti5/Views/RulesListView.swift:96-102 | the active section holds exactly the enabled rules in priority order, the inactive one exactly the disabled rules, and together they are a permutation of the store |
| RulesList.ActiveRules | Noti5/Views/RulesListView.swift:96-98 | the enabled rules sorted by priority (stated by `SectionsSpec`) |
| RulesList.InactiveRules | Noti5/Views/RulesListView.swift:100-102 | the disabled rules in store order (stated by `SectionsSpec`) |
| RulesList.PickedIds | Noti5/Views/RulesListView.swift:108-120 | the ids collected are exactly those of the rules at the offsets |
| RulesList.DeletePicked | Noti5/Views/RulesListView.swift:110-112 | one deleteRule per picked rule removes exactly their ids; after one or more the defaults and the shared file hold the new rules (with none they are unchanged), with one rules-updated post per rule |
| RulesList.DeleteActiveRules | Noti5/Views/RulesListView.swift:108-113 | the rules at the offsets of the active section are removed by id, nothing else; one save and one post per offset |
| RulesList.DeleteInactiveRules | Noti5/Views/RulesListView.swift:115-120 | the rules at the offsets of the inactive section are removed by id, nothing else; one save and one post per offset |
| RulesList.DeleteActiveKeepsInactive | Noti5/Views/RulesListView.swift:108-113 | with unique ids, deleting from the active section keeps every inactive rule and removes every picked one |
| RulesList.UpdatedAllSpec | Noti5/Views/RulesListView.swift:126-131 | a series of updateRule calls leaves at each position the last update with that id, or the rule |
| RulesList.MovedActiveSpec | Noti5/Views/RulesListView.swift:122-132 | the moved active section has the active section's ids and priorities 0, 1, 2, ... in display order |
| RulesList.MoveActiveRules | Noti5/Views/RulesListView.swift:122-132 | the loop applies one update per moved active rule, with its new position as priority; every update finds its rule, so there is one save and one post per active rule |
| RulesList.UpdateRenumbered | Noti5/Views/RulesListView.swift:126-131 | the loop itself: each rule of the moved list, all in the store, is updated with its index as priority, and each update saves and posts |
| RulesList.UpdatedAllKeepsIds | Noti5/Views/RulesListView.swift:126-131 | a series of updates never changes the store's ids, position by position |
| RulesList.MoveActiveSpec | Noti5/Views/RulesListView.swift:122-132 | after a drag, with unique ids, every moved rule sits in the store with its new priority, inactive rules are untouched, and no rule is added or lost |
| RulesList.RuleDescriptionSpec | Noti5/Views/RulesListView.swift:175-186 | "No conditions" iff there are none; one condition reads as its text; each further condition appends the operator's separator and its text to the description of the ones before |
| RulesList.RuleDescription | Noti5/Views/RulesListView.swift:175-186 | a rule row's condition line (stated by `RuleDescriptionSpec`) |
| AppsList.NamesAppSpec | NotifyFilter/Views/AppsListView.swift:53-55 | a rule names an app iff some condition is app with exactly that value |
| AppsList.RulesForApp | NotifyFilter/Views/AppsListView.swift:51-57 | the app's rules never outnumber the store's |
| AppsList.RulesForAppSpec | NotifyFilter/Views/AppsListView.swift:51-57 | the app's rules are exactly the store's rules naming the app |
| AppsList.RulesForAppConcat | NotifyFilter/Views/AppsListView.swift:51-57 | filtering a concatenation gives the filtered parts in the same order, so store order is kept |
| AppsList.QuickRuleSpec | NotifyFilter/Views/AppsListView.swift:61-83 | the quick rule is "Allow <name>" or "Block <name>" with that action, AND, enabled, priority 100, one app-equals condition on the bundle id, and matches exactly the notifications of that app up to case |
| AppsList.HandleQuickAction | NotifyFilter/Views/AppsListView.swift:59-92 | allow and block append the quick rule and save once; remove deletes every rule naming the app, one deleteRule each, and after one or more the defaults and the shared file hold the new rules |
| AppsList.AddedQuickRuleIsLast | NotifyFilter/Views/AppsListView.swift:61-83 | after a quick allow or block the app's rules are the earlier ones followed by the new rule |
| AppsList.RemoveRulesSpec | NotifyFilter/Views/AppsListView.swift:85-90 | after removal the app has no rules, and with unique ids every rule not naming the app remains |
| AppsList.OfferedActions | NotifyFilter/Views/AppsListView.swift:145-151 | allow and block are always offered, remove exactly when the app has rules |
| AppsList.EnabledCountPositive | NotifyFilter/Views/AppsListView.swift:161-162 | an action's count is positive iff some enabled rule has that action |
| AppsList.EnabledCountsSum | NotifyFilter/Views/AppsListView.swift:161-162 | the two counts add up to the number of enabled rules |
| AppsList.SummaryTextCases | NotifyFilter/Views/AppsListView.swift:160-173 | the four shapes of the summary: both counts, allow only, block only, or the noun alone |
| AppsList.RulesSummarySpec | NotifyFilter/Views/AppsListView.swift:160-173 | the summary names an action only when an enabled rule has it, allow before block, with the noun taken from the total |
| AppsList.SummaryOfAllowAndDisabled | NotifyFilter/Views/AppsListView.swift:160-173 | the noun follows the total: one enabled allow rule beside a disabled block rule reads "1 allow rules" |
| AppsList.SummaryOfDisabled | NotifyFilter/Views/AppsListView.swift:160-173 | a lone disabled rule reads " rule", with no count |
| AppsList.RulesSummary | NotifyFilter/Views/AppsListView.swift:160-173 | the per-app summary from the enabled allow and block counts and the total (stated by `RulesSummarySpec`) |
| AppsList.RulesColorSpec | NotifyFilter/Views/AppsListView.swift:175-188 | orange iff both actions have enabled rules, green allow only, red block only, secondary iff no rule is enabled |
| AppsList.RulesColor | NotifyFilter/Views/AppsListView.swift:175-188 | the row colour from which actions have enabled rules (stated by `RulesColorSpec`) |
| AppsList.RowCaptionSpec | NotifyFilter/Views/AppsListView.swift:122-130 | the caption is "No rules" iff the app has no rules |
| AppsList.RowCaption | NotifyFilter/Views/AppsListView.swift:122-130 | "No rules" or the summary (stated by `RowCaptionSpec`) |
| Editor.SavedRule | NotifyFilter/Views/RuleEditorView.swift:162-184 | an edited rule keeps its id and priority and takes every edited field; a new rule has the fresh id, priority 100 and every edited field |
| Editor.RulePreviewSpec | NotifyFilter/Views/RuleEditorView.swift:136-148 | the placeholder iff there are no conditions; otherwise "IF <the rule's row description> THEN NOTIFY or BLOCK" |
| Editor.RulePreview | NotifyFilter/Views/RuleEditorView.swift:136-148 | the editor's preview line (stated by `RulePreviewSpec`) |
| Editor.RuleEditor.constructor | NotifyFilter/Views/RuleEditorView.swift:22-34 | an edit starts from the rule's fields; a new rule from an empty name, notify, AND, no conditions, enabled |
| Editor.RuleEditor.AddCondition | NotifyFilter/Views/RuleEditorView.swift:150-152 | appends sender contains "" after the existing conditions |
| Editor.RuleEditor.AddSenderCondition | NotifyFilter/Views/RuleEditorView.swift:154-156 | appends sender contains the given text |
| Editor.RuleEditor.AddAppCondition | NotifyFilter/Views/RuleEditorView.swift:158-160 | appends app equals the given bundle id |
| Editor.RuleEditor.SaveRule | NotifyFilter/Views/RuleEditorView.swift:162-184 | the rule built field by field is the saved rule of the editor's state |
| Editor.SaveEnabledRuleHasConditions | NotifyFilter/Views/RuleEditorView.swift:121 | a rule saved while Save is enabled has a name and conditions, so its description is not "No conditions" |
| Editor.SubmitEditor | Noti5/Views/RulesListView.swift:84-91 | a new rule is appended and saved; an edited one replaces the rule with its id and is saved iff that id is in the store, otherwise nothing is saved or posted |
| Editor.EditReplacesInPlace | Noti5/Views/RulesListView.swift:84-91 | with unique ids, saving an edit of the k-th rule replaces exactly that rule |
| FromNotification.OnAppear | Noti5/Views/RecentNotificationsView.swift:243-247 | the name is "Rule for " and the app's name (or the bundle id), the texts come from the notification, the toggles are kept |
| FromNotification.FormConditions | Noti5/Views/RecentNotificationsView.swift:271-296 | the conditions createRule builds (stated by `FormConditionsContents` and `FormConditionsOrder`) |
| FromNotification.FormConditionsContents | Noti5/Views/RecentNotificationsView.swift:271-296 | one condition per applying clause: the app condition iff its toggle is on, title and body iff toggled with non-empty text; each carries its clause's value and match type (the body one tests the keyword field); all case-insensitive |
| FromNotification.FormConditionsOrder | Noti5/Views/RecentNotificationsView.swift:251-296 | the conditions come in the order app, title, body, and the preview has one clause per condition, naming the same field |
| FromNotification.FormDescriptionSpec | Noti5/Views/RecentNotificationsView.swift:251-269 | the preview is "No conditions set" iff the rule would have no conditions; otherwise, for each of the seven combinations, it is the applying clauses among `App is <id>`, `Title contains "<t>"`, `Body contains "<b>"`, in that order, joined by " AND " |
| FromNotification.FormDescription | Noti5/Views/RecentNotificationsView.swift:251-269 | the form's preview line (stated by `FormDescriptionSpec`) |
| FromNotification.CreatedRule | Noti5/Views/RecentNotificationsView.swift:298-303 | the created rule has the form's name and conditions and the FilterRule defaults |
| FromNotification.CreateRule | Noti5/Views/RecentNotificationsView.swift:271-304 | the conditional appends build the form's conditions and the rule is appended and saved once |
| FromNotification.CreateEnabledAsWrittenAdmitsEmptyRule | Noti5/Views/RecentNotificationsView.swift:240 | with the app toggle off and the title toggle on over an empty title, Create is enabled and makes a rule with no conditions, which never matches |
| FromNotification.CreateEnabledSpec | Noti5/Views/RecentNotificationsView.swift:240 | the corrected enablement holds iff the rule would have a name and a condition; it implies the written one and agrees with it when the app toggle is on |
| FromNotification.PressCreate | Noti5/Views/RecentNotificationsView.swift:240 | under the corrected enablement a rule is added and saved iff enabled, and it always has conditions; otherwise nothing is saved or posted |
| Sequences.MovedPermutes | Noti5/Services/RuleStorage.swift:49 | a move is a permutation |
| Sequences.RemovedAtSpec | Noti5/Services/RuleStorage.swift:44 | removing at a set of offsets drops exactly those positions and shortens the list by their number; the survivors' order is stated by `RemovedAtPositions` |
| Sequences.RemovedAtPositions | Noti5/Services/RuleStorage.swift:44 | the result is the subsequence at strictly increasing positions that are exactly the offsets not removed |
| Sequences.SelectPositions | Noti5/Services/RuleStorage.swift:44-49 | a selection of positions is the subsequence at exactly the positions chosen, in increasing order |
| Sequences.RemovedAt | Noti5/Services/RuleStorage.swift:44 | remove(atOffsets:) (stated by `RemovedAtSpec` and `RemovedAtPositions`) |
| Sequences.Moved | Noti5/Services/RuleStorage.swift:49 | move(fromOffsets:toOffset:) (stated by `MovedPermutes`) |

## Left out

- JSON encoding and decoding, and `exportRules`: a decode is a `FileRead` or an `Option` given as input; encoding is taken to succeed.
- UserDefaults and file writes: they are fields holding the last value written; write errors swallowed by `try?` are not modelled.
- `setupSharedDirectory` and the file paths: file-system side effects only.
- `posix_spawn` with personas, `kill`, and the file modification date: they become the inputs listed at the top.
- `Timer` and `DispatchQueue.main.async`: the timer is a flag armed by `StartHeartbeatMonitoring`; main-queue updates happen immediately, in program order.
- Races between a send and its completion handler: the completion is a separate step, `CompleteDelivery`.
- Swift `hashValue`: it is seeded per process. The fingerprint is modelled by the string it hashes (`DedupKeyAsWritten`), and the cache by the corrected triple key.
- `lowercased()`: modelled as ASCII lowercasing; other Unicode case mappings are not modelled.
- `contains`: modelled as plain substring search, so an empty needle is contained in every string.
- The critical sound volume (a floating-point value) and the interruption level's iOS availability check.
- Authorization requests and `sendTestAlert`: they only call UNUserNotificationCenter.
- `AppState.matchedNotifications`, `loadState` and `saveState`: they have no logic in the source.
- `filteredApps` of the apps list: it uses localized case-insensitive search.
- SwiftUI bodies, sheets, pickers and the editor's per-condition row bindings: presentation only.
- `IndexSet` offsets are a `set<nat>` (or the `seq<nat>` the delete helpers iterate over).
- Swift's `sorted` is modelled as a stable insertion sort by priority, so ties keep store order.
- RecentNotification's declaration is not part of this model; only the four fields the view reads are modelled.
- Storage.RuleStorage.ImportRules: it appends without looking at ids, so an import that repeats ids breaks their uniqueness (`ImportOfOwnExportDuplicatesIds`), and the lemmas that assume unique ids do not apply after it; the source does the same.
- AppsList.QuickRuleSpec: the quick rule matches its app case-insensitively, but `rulesForApp` compares bundle ids exactly. Both are modelled as the source has them.

## Findings

| source | as written | input that shows it | evidently intended | confidence | as-written member | corrected member |
|---|---|---|---|---|---|---|
| Noti5/Services/CriticalAlertSender.swift:24-25 | the dedup key hashes the bundle id, title and body joined with bars, so the fields' boundaries are lost | app "app", title "a\|b", body "c" and app "app", title "a", body "b\|c" give the same string, so the second alert is skipped for 300 s | two alerts share a key only when bundle id, title and body are all equal | not executed | Alerts.AsWrittenKeyCollides | Alerts.DedupKeyExact |
| Noti5/Views/RecentNotificationsView.swift:240 | Create is enabled when a name is set and any toggle is on, even when the toggled text is empty | app toggle off, title toggle on, notification title "" | Create is enabled only when the rule would have at least one condition | not executed | FromNotification.CreateEnabledAsWrittenAdmitsEmptyRule | FromNotification.CreateEnabledSpec |
