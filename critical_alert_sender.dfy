/** Critical-alert delivery with a five-minute deduplication window
    (Noti5/Services/CriticalAlertSender.swift).  Clock readings are integer
    seconds passed in as `now`; the notification centre's completion handler
    is the separate step CompleteDelivery. */
module Alerts {
  import opened Wrappers
  import opened Strings
  import opened Records
  import opened State

  const DeduplicationWindow: int := 300
  /** Cache entries survive cleanup for twice the window. */
  const CleanupHorizon: int := 2 * DeduplicationWindow

  // ----- the deduplication key -----

  /** The string whose hash is the key as written: the three fields joined
      with '|'. */
  function DedupKeyAsWritten(bundleId: string, title: string, body: string): (r: string)
    ensures |r| == |bundleId| + |title| + |body| + 2
  {
    bundleId + "|" + title + "|" + body
  }

  /** Two different notifications of the same app whose title and body
      differ only in where a '|' falls share the as-written key, so the
      second is dropped as a duplicate. */
  lemma AsWrittenKeyCollides()
    ensures DedupKeyAsWritten("app", "a|b", "c") == DedupKeyAsWritten("app", "a", "b|c")
    ensures ("a|b", "c") != ("a", "b|c")
  {
    assert DedupKeyAsWritten("app", "a|b", "c") == "app|a|b|c";
    assert DedupKeyAsWritten("app", "a", "b|c") == "app|a|b|c";
  }

  /** The corrected key keeps the three fields apart. */
  datatype DedupKey = DedupKey(bundleId: string, title: string, body: string)

  /** Keys are equal exactly when all three fields are. */
  lemma DedupKeyExact(a: DedupKey, b: DedupKey)
    ensures a == b <==> (a.bundleId == b.bundleId && a.title == b.title && a.body == b.body)
  {
  }

  type DedupCache = map<DedupKey, int>

  /** A key was delivered less than DeduplicationWindow seconds ago. */
  predicate IsSuppressed(cache: DedupCache, key: DedupKey, now: int) {
    key in cache && now - cache[key] < DeduplicationWindow
  }

  /** cleanupDeduplicationCache(): keep entries younger than CleanupHorizon. */
  function Cleaned(cache: DedupCache, now: int): (r: DedupCache)
    ensures forall k :: k in r <==> k in cache && now - cache[k] < CleanupHorizon
    ensures forall k :: k in r ==> r[k] == cache[k]
  {
    map k | k in cache && now - cache[k] < CleanupHorizon :: cache[k]
  }

  /** Cleanup never changes whether a key is suppressed at the same instant. */
  lemma CleanedKeepsSuppression(cache: DedupCache, key: DedupKey, now: int)
    ensures IsSuppressed(Cleaned(cache, now), key, now) <==> IsSuppressed(cache, key, now)
  {
  }

  /** Cleaning twice at the same instant is cleaning once. */
  lemma CleanedIdempotent(cache: DedupCache, now: int)
    ensures Cleaned(Cleaned(cache, now), now) == Cleaned(cache, now)
  {
  }

  // ----- the request -----

  datatype UserInfo = UserInfo(originalBundleId: string, matchedRuleName: string, timestamp: int)

  datatype AlertContent = AlertContent(
    title: string,
    body: string,
    subtitle: Option<string>,
    critical: bool,
    userInfo: UserInfo,
    threadIdentifier: string)

  datatype AlertRequest = AlertRequest(identifier: string, key: DedupKey, content: AlertContent)

  datatype SendOutcome = SkippedDuplicate | Requested(request: AlertRequest)

  /** "via <name>" for a known app. */
  function Subtitle(bundleId: string): (r: Option<string>)
    ensures r.Some? <==> Find(bundleId).Some?
    ensures r.Some? ==> r.value == "via " + Find(bundleId).value.name
  {
    match Find(bundleId)
    case Some(app) => Some("via " + app.name)
    case None => None
  }

  /** The content sendAlert builds: critical sound and interruption level,
      metadata, and the sender app as thread. */
  function BuildContent(title: string, body: string, bundleId: string, ruleName: string, now: int): (c: AlertContent)
    ensures c.title == title && c.body == body && c.critical
    ensures c.subtitle == Subtitle(bundleId) && c.threadIdentifier == bundleId
    ensures c.userInfo == UserInfo(bundleId, ruleName, now)
  {
    AlertContent(title, body, Subtitle(bundleId), true, UserInfo(bundleId, ruleName, now), bundleId)
  }

  /** "noti5-" followed by the request's UUID. */
  function RequestIdentifier(uuid: Uuid): (r: string)
    ensures HasPrefix(r, "noti5-") && |r| > 6
  {
    "noti5-" + NatToString(uuid)
  }

  /** What one sendAlert decides against the cache it sees. */
  function Decide(cache: DedupCache, title: string, body: string, bundleId: string,
                  ruleName: string, uuid: Uuid, now: int): (r: SendOutcome)
    ensures r.SkippedDuplicate? <==> IsSuppressed(cache, DedupKey(bundleId, title, body), now)
    ensures r.Requested? ==> r.request.key == DedupKey(bundleId, title, body)
    ensures r.Requested? ==> r.request.identifier == RequestIdentifier(uuid)
    ensures r.Requested? ==> r.request.content == BuildContent(title, body, bundleId, ruleName, now)
  {
    var key := DedupKey(bundleId, title, body);
    if IsSuppressed(cache, key, now) then SkippedDuplicate
    else Requested(AlertRequest(RequestIdentifier(uuid), key, BuildContent(title, body, bundleId, ruleName, now)))
  }

  /** The cache after one sendAlert: untouched on a skip, cleaned otherwise. */
  function CacheAfter(cache: DedupCache, outcome: SendOutcome, now: int): (r: DedupCache)
    ensures r.Keys <= cache.Keys
  {
    if outcome.Requested? then Cleaned(cache, now) else cache
  }

  /** The cache after a completion: a success stamps the key. */
  function Delivered(cache: DedupCache, request: AlertRequest, success: bool, now: int): (r: DedupCache)
    ensures success ==> request.key in r && r[request.key] == now
    ensures forall k :: k != request.key ==> (k in r <==> k in cache)
    ensures forall k :: k in cache && k != request.key ==> r[k] == cache[k]
  {
    if success then cache[request.key := now] else cache
  }

  /** After a successful delivery at time t the same notification is
      suppressed for the whole window, cleanup or no cleanup, and is sent
      again once the window has passed. */
  lemma SuppressedAfterDelivery(cache: DedupCache, request: AlertRequest, t: int, now: int)
    requires t <= now
    ensures now < t + DeduplicationWindow ==> IsSuppressed(Delivered(cache, request, true, t), request.key, now)
    ensures now < t + DeduplicationWindow ==>
      IsSuppressed(Cleaned(Delivered(cache, request, true, t), now), request.key, now)
    ensures now >= t + DeduplicationWindow ==> !IsSuppressed(Delivered(cache, request, true, t), request.key, now)
  {
    CleanedKeepsSuppression(Delivered(cache, request, true, t), request.key, now);
  }

  /** A failed delivery leaves nothing behind: the notification is not
      suppressed afterwards unless it already was. */
  lemma FailedDeliveryNotRemembered(cache: DedupCache, request: AlertRequest, t: int, key: DedupKey, now: int)
    ensures IsSuppressed(Delivered(cache, request, false, t), key, now) <==> IsSuppressed(cache, key, now)
  {
  }

  /** A skipped send changes nothing; a send that goes out never adds keys. */
  lemma SendNeverAddsKeys(cache: DedupCache, title: string, body: string, bundleId: string,
                          ruleName: string, uuid: Uuid, now: int)
    ensures Decide(cache, title, body, bundleId, ruleName, uuid, now).SkippedDuplicate? ==>
      CacheAfter(cache, Decide(cache, title, body, bundleId, ruleName, uuid, now), now) == cache
    ensures CacheAfter(cache, Decide(cache, title, body, bundleId, ruleName, uuid, now), now).Keys <= cache.Keys
  {
  }

  class CriticalAlertSender {
    /** `recentNotifications`: delivery time per key. */
    var recent: DedupCache
    /** The requests handed to the notification centre, oldest first. */
    var submitted: seq<AlertRequest>
    const appState: AppState

    constructor (appState: AppState)
      ensures recent == map[] && submitted == [] && this.appState == appState
    {
      recent := map[];
      submitted := [];
      this.appState := appState;
    }

    /** sendAlert(title:body:bundleId:ruleName:) up to handing the request
        over; `uuid` is the UUID() of the identifier. */
    method SendAlert(title: string, body: string, bundleId: string, ruleName: string, uuid: Uuid, now: int)
      returns (outcome: SendOutcome)
      modifies this
      ensures outcome == Decide(old(recent), title, body, bundleId, ruleName, uuid, now)
      ensures recent == CacheAfter(old(recent), outcome, now)
      ensures submitted == old(submitted) + (if outcome.Requested? then [outcome.request] else [])
    {
      var key := DedupKey(bundleId, title, body);
      if key in recent && now - recent[key] < DeduplicationWindow {
        return SkippedDuplicate;
      }
      var request := AlertRequest(RequestIdentifier(uuid), key, BuildContent(title, body, bundleId, ruleName, now));
      submitted := submitted + [request];
      CleanupDeduplicationCache(now);
      outcome := Requested(request);
    }

    /** cleanupDeduplicationCache(). */
    method CleanupDeduplicationCache(now: int)
      modifies this
      ensures recent == Cleaned(old(recent), now)
      ensures submitted == old(submitted)
    {
      recent := map k | k in recent && now - recent[k] < CleanupHorizon :: recent[k];
    }

    /** The completion handler of the request: on success the key is stamped
        with the completion time and matchedCount goes up by one. */
    method CompleteDelivery(request: AlertRequest, success: bool, now: int)
      modifies this, appState
      ensures recent == Delivered(old(recent), request, success, now)
      ensures submitted == old(submitted)
      ensures appState.matchedCount == old(appState.matchedCount) + (if success then 1 else 0)
      ensures appState.isMonitoring == old(appState.isMonitoring)
      ensures appState.helperRunning == old(appState.helperRunning)
      ensures appState.processedCount == old(appState.processedCount)
    {
      if success {
        recent := recent[request.key := now];
        appState.matchedCount := appState.matchedCount + 1;
      }
    }
  }
}
