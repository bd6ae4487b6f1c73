/** The root helper's lifecycle and the app's side of its files
    (Noti5/Services/HelperManager.swift).  What the system would report —
    the pid file's text, which pids kill(pid, 0) reaches, the heartbeat
    file's age, whether the helper binary is bundled, posix_spawn's result —
    comes in as parameters; the rules and matched files are fields. */
module Helper {
  import opened Wrappers
  import opened Strings
  import opened Records
  import opened Rules
  import opened State
  import opened Alerts
  import opened Bus

  /** Heartbeats older than this many seconds mean the helper is stuck. */
  const HeartbeatTimeout: int := 60
  /** The health timer's period, in seconds. */
  const HeartbeatCheckInterval: int := 30

  /** MatchedNotificationData: one entry of the matched file. */
  datatype MatchedEntry = MatchedEntry(
    bundleId: string,
    title: string,
    subtitle: Option<string>,
    body: string,
    matchedRuleName: string,
    timestamp: int)

  /** The pid recorded in the pid file, if its trimmed text is an Int32. */
  function PidOf(pidText: Option<string>): (r: Option<int>)
    ensures r.Some? ==> pidText.Some? && ParseInt32(Trim(pidText.value)) == r
    ensures pidText.Some? && ParseInt32(Trim(pidText.value)).Some? ==> r.Some?
  {
    match pidText
    case None => None
    case Some(t) => ParseInt32(Trim(t))
  }

  /** isHelperRunning: a readable pid that kill(pid, 0) reaches. */
  predicate HelperRunning(pidText: Option<string>, signalable: set<int>) {
    PidOf(pidText).Some? && PidOf(pidText).value in signalable
  }

  /** A pid file holding a 32-bit pid with any surrounding whitespace is
      read back as that pid, and the helper counts as running exactly when
      the pid can be signalled; a missing pid file never does. */
  lemma HelperRunningOfPidFile(pre: string, pid: int, post: string, signalable: set<int>)
    requires Int32Min <= pid <= Int32Max
    requires forall k :: 0 <= k < |pre| ==> IsWhitespace(pre[k])
    requires forall k :: 0 <= k < |post| ==> IsWhitespace(post[k])
    ensures PidOf(Some(pre + IntToString(pid) + post)) == Some(pid)
    ensures HelperRunning(Some(pre + IntToString(pid) + post), signalable) <==> pid in signalable
    ensures !HelperRunning(None, signalable)
  {
    TrimPaddedNumber(pre, pid, post);
    ParseInt32OfIntToString(pid);
  }

  /** Padding outside ASCII is trimmed too: a no-break space before the
      digits and a line separator after them. */
  lemma PidOfUnicodePadded()
    ensures PidOf(Some("\U{A0}1234\U{2028}")) == Some(1234)
  {
    assert NatToString(1) == "1";
    assert NatToString(12) == "12";
    assert NatToString(123) == "123";
    assert IntToString(1234) == "1234";
    assert "\U{A0}" + IntToString(1234) + "\U{2028}" == "\U{A0}1234\U{2028}";
    HelperRunningOfPidFile("\U{A0}", 1234, "\U{2028}", {});
  }

  /** loadRules(): the rules file's rules, or none if it is missing or does
      not decode. */
  function LoadedRules(file: FileRead<seq<FilterRule>>): (r: seq<FilterRule>)
    ensures file.Decoded? ==> r == file.value
    ensures !file.Decoded? ==> r == []
  {
    match file
    case Decoded(rules) => rules
    case _ => []
  }

  /** What sendAlert decides for one entry. */
  function DecideEntry(cache: DedupCache, e: MatchedEntry, uuid: Uuid, now: int): SendOutcome {
    Decide(cache, e.title, e.body, e.bundleId, e.matchedRuleName, uuid, now)
  }

  /** What the sends of one checkPendingNotifications decide: every entry is
      judged against the cache as it stood before the batch, the i-th send
      drawing UUID uuidBase + i. */
  function DrainOutcomes(cache: DedupCache, entries: seq<MatchedEntry>, uuidBase: Uuid, now: int): (r: seq<SendOutcome>)
    ensures |r| == |entries|
  {
    if entries == [] then []
    else (DrainOutcomes(cache, entries[..|entries| - 1], uuidBase, now)
      + [DecideEntry(cache, entries[|entries| - 1], uuidBase + |entries| - 1, now)])
  }

  /** The i-th outcome is the i-th entry's decision against the initial cache. */
  lemma {:induction false} DrainOutcomesAt(cache: DedupCache, entries: seq<MatchedEntry>, uuidBase: Uuid, now: int, i: nat)
    requires i < |entries|
    ensures DrainOutcomes(cache, entries, uuidBase, now)[i] == DecideEntry(cache, entries[i], uuidBase + i, now)
  {
    var front := entries[..|entries| - 1];
    if i < |entries| - 1 {
      DrainOutcomesAt(cache, front, uuidBase, now, i);
      assert front[i] == entries[i];
    }
  }

  /** The requests a batch of outcomes hands over, in order. */
  function RequestsOf(outcomes: seq<SendOutcome>): (r: seq<AlertRequest>)
    ensures |r| <= |outcomes|
  {
    if outcomes == [] then []
    else (RequestsOf(outcomes[..|outcomes| - 1])
      + (if outcomes[|outcomes| - 1].Requested? then [outcomes[|outcomes| - 1].request] else []))
  }

  lemma DrainOutcomesSnoc(cache: DedupCache, entries: seq<MatchedEntry>, uuidBase: Uuid, now: int, i: nat)
    requires i < |entries|
    ensures DrainOutcomes(cache, entries[..i + 1], uuidBase, now)
         == DrainOutcomes(cache, entries[..i], uuidBase, now) + [DecideEntry(cache, entries[i], uuidBase + i, now)]
  {
    assert entries[..i + 1][..i] == entries[..i];
  }

  lemma RequestsOfSnoc(outcomes: seq<SendOutcome>, o: SendOutcome)
    ensures RequestsOf(outcomes + [o]) == RequestsOf(outcomes) + (if o.Requested? then [o.request] else [])
  {
    assert (outcomes + [o])[..|outcomes|] == outcomes;
  }

  /** The handed-over requests are exactly those of the Requested outcomes. */
  lemma {:induction false} RequestsOfMembers(outcomes: seq<SendOutcome>, x: AlertRequest)
    ensures x in RequestsOf(outcomes) <==> Requested(x) in outcomes
  {
    if outcomes != [] {
      var front := outcomes[..|outcomes| - 1];
      RequestsOfMembers(front, x);
      assert outcomes == front + [outcomes[|outcomes| - 1]];
    }
  }

  /** Cleanup at the same instant does not change any later decision. */
  lemma DecideAfterCleanup(cache: DedupCache, title: string, body: string, bundleId: string,
                           ruleName: string, uuid: Uuid, now: int)
    ensures Decide(Cleaned(cache, now), title, body, bundleId, ruleName, uuid, now)
         == Decide(cache, title, body, bundleId, ruleName, uuid, now)
  {
    CleanedKeepsSuppression(cache, DedupKey(bundleId, title, body), now);
  }

  /** One send of a batch: whether or not an earlier send already cleaned
      the cache, the decision is the one against the initial cache, and the
      cache stays initial or cleaned. */
  lemma DrainStep(cache0: DedupCache, cleaned: bool, e: MatchedEntry, uuid: Uuid, now: int)
    ensures DecideEntry(if cleaned then Cleaned(cache0, now) else cache0, e, uuid, now) == DecideEntry(cache0, e, uuid, now)
    ensures CacheAfter(if cleaned then Cleaned(cache0, now) else cache0, DecideEntry(cache0, e, uuid, now), now)
         == (if cleaned || DecideEntry(cache0, e, uuid, now).Requested? then Cleaned(cache0, now) else cache0)
  {
    DecideAfterCleanup(cache0, e.title, e.body, e.bundleId, e.matchedRuleName, uuid, now);
    CleanedIdempotent(cache0, now);
  }

  /** Deduplication only sees completed deliveries: two equal entries in one
      batch that the cache does not suppress are both sent. */
  lemma SameBatchDuplicatesBothSent(cache: DedupCache, entries: seq<MatchedEntry>, uuidBase: Uuid, now: int, i: nat, j: nat)
    requires i < j < |entries| && entries[i] == entries[j]
    requires !IsSuppressed(cache, DedupKey(entries[i].bundleId, entries[i].title, entries[i].body), now)
    ensures DrainOutcomes(cache, entries, uuidBase, now)[i].Requested?
    ensures DrainOutcomes(cache, entries, uuidBase, now)[j].Requested?
    ensures DrainOutcomes(cache, entries, uuidBase, now)[i].request.key
         == DrainOutcomes(cache, entries, uuidBase, now)[j].request.key
  {
    DrainOutcomesAt(cache, entries, uuidBase, now, i);
    DrainOutcomesAt(cache, entries, uuidBase, now, j);
  }

  class HelperManager {
    const appState: AppState
    const bus: DarwinNotificationCenter
    const sender: CriticalAlertSender

    /** Time of the last heartbeat post received. */
    var lastHeartbeat: Option<int>
    /** Whether the 30-second health timer is scheduled; rescheduling
        replaces it, so there is at most one. */
    var heartbeatTimerArmed: bool
    /** posix_spawn calls made for the helper binary. */
    var spawnAttempts: nat
    /** Pids sent SIGTERM, oldest first. */
    var terminated: seq<int>
    /** rules.json in the shared directory. */
    var rulesFile: FileRead<seq<FilterRule>>
    /** matched.json, written by the helper and drained here. */
    var matchedFile: FileRead<seq<MatchedEntry>>

    constructor (appState: AppState, bus: DarwinNotificationCenter, sender: CriticalAlertSender,
                 rulesFile: FileRead<seq<FilterRule>>, matchedFile: FileRead<seq<MatchedEntry>>)
      ensures this.appState == appState && this.bus == bus && this.sender == sender
      ensures lastHeartbeat.None? && !heartbeatTimerArmed && spawnAttempts == 0 && terminated == []
      ensures this.rulesFile == rulesFile && this.matchedFile == matchedFile
    {
      this.appState := appState;
      this.bus := bus;
      this.sender := sender;
      lastHeartbeat := None;
      heartbeatTimerArmed := false;
      spawnAttempts := 0;
      terminated := [];
      this.rulesFile := rulesFile;
      this.matchedFile := matchedFile;
    }

    /** spawnRootHelper(): nothing without a bundled binary; a zero spawn
        result marks the helper running, any other leaves the flag. */
    method SpawnRootHelper(binaryBundled: bool, spawnResult: int)
      modifies this`spawnAttempts, appState`helperRunning
      ensures spawnAttempts == old(spawnAttempts) + (if binaryBundled then 1 else 0)
      ensures appState.helperRunning == (if binaryBundled && spawnResult == 0 then true else old(appState.helperRunning))
    {
      if !binaryBundled {
        return;
      }
      spawnAttempts := spawnAttempts + 1;
      if spawnResult == 0 {
        appState.helperRunning := true;
      }
    }

    /** checkHelperHealth(): with no heartbeat file nothing happens; a recent
        heartbeat marks monitoring on; a stale one marks it off and respawns. */
    method CheckHelperHealth(heartbeatAge: Option<int>, binaryBundled: bool, spawnResult: int)
      modifies this`spawnAttempts, appState`helperRunning, appState`isMonitoring
      ensures heartbeatAge.None? ==>
        spawnAttempts == old(spawnAttempts) && appState.isMonitoring == old(appState.isMonitoring)
        && appState.helperRunning == old(appState.helperRunning)
      ensures heartbeatAge.Some? && heartbeatAge.value < HeartbeatTimeout ==>
        appState.isMonitoring && spawnAttempts == old(spawnAttempts)
        && appState.helperRunning == old(appState.helperRunning)
      ensures heartbeatAge.Some? && heartbeatAge.value >= HeartbeatTimeout ==>
        !appState.isMonitoring
        && spawnAttempts == old(spawnAttempts) + (if binaryBundled then 1 else 0)
        && appState.helperRunning == (if binaryBundled && spawnResult == 0 then true else old(appState.helperRunning))
    {
      if heartbeatAge.Some? {
        if heartbeatAge.value < HeartbeatTimeout {
          appState.isMonitoring := true;
        } else {
          appState.isMonitoring := false;
          SpawnRootHelper(binaryBundled, spawnResult);
        }
      }
    }

    /** startHeartbeatMonitoring(): the old timer is invalidated and a new
        one scheduled; each tick is a CheckHelperHealth call. */
    method StartHeartbeatMonitoring()
      modifies this`heartbeatTimerArmed
      ensures heartbeatTimerArmed
    {
      heartbeatTimerArmed := true;
    }

    /** ensureHelperRunning(): spawn when not running, otherwise check the
        heartbeat; either way (re)arm the health timer. */
    method EnsureHelperRunning(pidText: Option<string>, signalable: set<int>, heartbeatAge: Option<int>,
                               binaryBundled: bool, spawnResult: int)
      modifies this`spawnAttempts, this`heartbeatTimerArmed, appState`helperRunning, appState`isMonitoring
      ensures heartbeatTimerArmed
      ensures !HelperRunning(pidText, signalable) ==>
        spawnAttempts == old(spawnAttempts) + (if binaryBundled then 1 else 0)
        && appState.isMonitoring == old(appState.isMonitoring)
        && appState.helperRunning == (if binaryBundled && spawnResult == 0 then true else old(appState.helperRunning))
      ensures HelperRunning(pidText, signalable) && (heartbeatAge.None? || heartbeatAge.value < HeartbeatTimeout) ==>
        spawnAttempts == old(spawnAttempts) && appState.helperRunning == old(appState.helperRunning)
        && appState.isMonitoring == (heartbeatAge.Some? || old(appState.isMonitoring))
      ensures HelperRunning(pidText, signalable) && heartbeatAge.Some? && heartbeatAge.value >= HeartbeatTimeout ==>
        !appState.isMonitoring && spawnAttempts == old(spawnAttempts) + (if binaryBundled then 1 else 0)
        && appState.helperRunning == (if binaryBundled && spawnResult == 0 then true else old(appState.helperRunning))
    {
      var pid := PidOf(pidText);
      if !(pid.Some? && pid.value in signalable) {
        SpawnRootHelper(binaryBundled, spawnResult);
      } else {
        CheckHelperHealth(heartbeatAge, binaryBundled, spawnResult);
      }
      StartHeartbeatMonitoring();
    }

    /** stopHelper(): post stop, SIGTERM the recorded pid if readable, and
        mark the helper not running. */
    method StopHelper(pidText: Option<string>)
      modifies this`terminated, bus, appState`helperRunning
      ensures bus.posted == old(bus.posted) + [Bus.Stop] && bus.callbacks == old(bus.callbacks)
      ensures terminated == old(terminated) + (if PidOf(pidText).Some? then [PidOf(pidText).value] else [])
      ensures !appState.helperRunning
    {
      bus.NotifyStop();
      var pid := PidOf(pidText);
      if pid.Some? {
        terminated := terminated + [pid.value];
      }
      appState.helperRunning := false;
    }

    /** helperDidSendHeartbeat(). */
    method HelperDidSendHeartbeat(now: int)
      modifies this`lastHeartbeat, appState`helperRunning, appState`isMonitoring
      ensures lastHeartbeat == Some(now)
      ensures appState.helperRunning && appState.isMonitoring
    {
      lastHeartbeat := Some(now);
      appState.helperRunning := true;
      appState.isMonitoring := true;
    }

    /** saveRules(_:): write the rules file, then tell the helper. */
    method SaveRules(rules: seq<FilterRule>)
      modifies this`rulesFile, bus
      ensures rulesFile == Decoded(rules) && LoadedRules(rulesFile) == rules
      ensures bus.posted == old(bus.posted) + [RulesUpdated] && bus.callbacks == old(bus.callbacks)
    {
      rulesFile := Decoded(rules);
      bus.NotifyRulesUpdated();
    }

    /** loadRules(). */
    method LoadRules() returns (rules: seq<FilterRule>)
      ensures rules == LoadedRules(rulesFile)
    {
      match rulesFile
      case Decoded(r) => rules := r;
      case _ => rules := [];
    }

    /** checkPendingNotifications(): nothing if matched.json is missing or
        does not decode; otherwise one sendAlert per entry, in order, then
        the file is reset to an empty list. */
    method CheckPendingNotifications(uuidBase: Uuid, now: int) returns (outcomes: seq<SendOutcome>)
      modifies this`matchedFile, sender
      ensures Drained(uuidBase, now, outcomes)
    {
      outcomes := [];
      if !matchedFile.Decoded? {
        return;
      }
      outcomes := SendAll(matchedFile.value, uuidBase, now);
      matchedFile := Decoded([]);
    }

    /** The effect of checkPendingNotifications: a missing or undecodable
        file changes nothing; otherwise the entries are sent in order against
        the cache as it was, the requests are submitted, the cache is cleaned
        iff some request went out, and the file holds an empty list. */
    twostate predicate Drained(uuidBase: Uuid, now: int, outcomes: seq<SendOutcome>)
      reads this, sender
    {
      && (!old(matchedFile).Decoded? ==>
            outcomes == [] && matchedFile == old(matchedFile)
            && sender.recent == old(sender.recent) && sender.submitted == old(sender.submitted))
      && (old(matchedFile).Decoded? ==>
            outcomes == DrainOutcomes(old(sender.recent), old(matchedFile).value, uuidBase, now)
            && matchedFile == Decoded([])
            && sender.submitted == old(sender.submitted) + RequestsOf(outcomes)
            && sender.recent == if RequestsOf(outcomes) == [] then old(sender.recent) else Cleaned(old(sender.recent), now))
    }

    /** The loop of checkPendingNotifications. */
    method SendAll(entries: seq<MatchedEntry>, uuidBase: Uuid, now: int) returns (outcomes: seq<SendOutcome>)
      modifies sender
      ensures outcomes == DrainOutcomes(old(sender.recent), entries, uuidBase, now)
      ensures sender.submitted == old(sender.submitted) + RequestsOf(outcomes)
      ensures sender.recent == if RequestsOf(outcomes) == [] then old(sender.recent) else Cleaned(old(sender.recent), now)
    {
      outcomes := [];
      ghost var cache0 := sender.recent;
      ghost var submitted0 := sender.submitted;
      ghost var cleaned := false;
      for i := 0 to |entries|
        invariant outcomes == DrainOutcomes(cache0, entries[..i], uuidBase, now)
        invariant cleaned == (RequestsOf(outcomes) != [])
        invariant sender.recent == if cleaned then Cleaned(cache0, now) else cache0
        invariant sender.submitted == submitted0 + RequestsOf(outcomes)
      {
        var e := entries[i];
        DrainStep(cache0, cleaned, e, uuidBase + i, now);
        ghost var cacheBefore := sender.recent;
        var outcome := sender.SendAlert(e.title, e.body, e.bundleId, e.matchedRuleName, uuidBase + i, now);
        assert outcome == DecideEntry(cache0, e, uuidBase + i, now);
        assert sender.recent == CacheAfter(cacheBefore, outcome, now);
        cleaned := cleaned || outcome.Requested?;
        DrainOutcomesSnoc(cache0, entries, uuidBase, now, i);
        RequestsOfSnoc(outcomes, outcome);
        outcomes := outcomes + [outcome];
      }
      assert entries[..|entries|] == entries;
    }

    /** The callbacks startListening registers, as run on the main queue. */
    method HandleCallback(callback: Callback, uuidBase: Uuid, now: int) returns (outcomes: seq<SendOutcome>)
      modifies this`matchedFile, this`lastHeartbeat, sender, appState`helperRunning, appState`isMonitoring
      ensures callback == OnMatched ==>
        Drained(uuidBase, now, outcomes) && lastHeartbeat == old(lastHeartbeat)
        && appState.helperRunning == old(appState.helperRunning) && appState.isMonitoring == old(appState.isMonitoring)
      ensures callback == OnHeartbeat ==>
        outcomes == [] && lastHeartbeat == Some(now) && appState.helperRunning && appState.isMonitoring
        && matchedFile == old(matchedFile) && unchanged(sender)
      ensures callback.Custom? ==> outcomes == [] && unchanged(this, sender, appState)
    {
      outcomes := [];
      match callback
      case OnMatched =>
        outcomes := CheckPendingNotifications(uuidBase, now);
      case OnHeartbeat =>
        HelperDidSendHeartbeat(now);
      case Custom(_) =>
    }
  }

  /** A healthy helper is never respawned: ensureHelperRunning while its pid
      answers and its heartbeat is fresh only re-arms the timer and marks
      monitoring on. */
  method EnsureWhileHealthy(h: HelperManager, pidText: Option<string>, signalable: set<int>, age: int,
                            binaryBundled: bool, spawnResult: int)
    requires HelperRunning(pidText, signalable) && age < HeartbeatTimeout
    modifies h`spawnAttempts, h`heartbeatTimerArmed, h.appState`helperRunning, h.appState`isMonitoring
    ensures h.spawnAttempts == old(h.spawnAttempts)
    ensures h.appState.isMonitoring && h.heartbeatTimerArmed
  {
    h.EnsureHelperRunning(pidText, signalable, Some(age), binaryBundled, spawnResult);
    h.EnsureHelperRunning(pidText, signalable, Some(age), binaryBundled, spawnResult);
  }
}
