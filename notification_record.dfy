/** NotificationRecord and the table of known apps
    (NotifyFilter/Models/NotificationRecord.swift).  EvaluationResult, which
    the same Swift file declares, depends on FilterRule and lives in module
    Results. */
module Records {
  import opened Wrappers

  /** Stand-in for Foundation's UUID: fresh values are supplied by callers. */
  type Uuid = nat

  /** One notification observed by the privileged helper.  `timestamp` is
      in whole seconds; `fileOffset` is the record's offset in the
      notification store. */
  datatype NotificationRecord = NotificationRecord(
    id: Uuid,
    guid: string,
    bundleId: string,
    title: string,
    subtitle: Option<string>,
    body: string,
    appleId: Option<string>,
    timestamp: int,
    fileOffset: nat)

  /** The text that `contentHash` hashes: bundle id, title, subtitle (empty
      when absent) and body separated by '|'.  The hash itself is Swift's
      per-process hashValue and is not modelled. */
  function ContentHashPreimage(n: NotificationRecord): (r: string)
    ensures var b, t, s := |n.bundleId|, |n.title|, |n.subtitle.GetOr("")|;
      && |r| == b + t + s + |n.body| + 3
      && r[..b] == n.bundleId && r[b] == '|'
      && r[b + 1..b + 1 + t] == n.title && r[b + 1 + t] == '|'
      && r[b + 2 + t..b + 2 + t + s] == n.subtitle.GetOr("") && r[b + 2 + t + s] == '|'
      && r[b + 3 + t + s..] == n.body
  {
    n.bundleId + "|" + n.title + "|" + n.subtitle.GetOr("") + "|" + n.body
  }

  /** A missing subtitle and an empty one hash alike, and the record's
      other fields (ids, time, file offset) do not take part. */
  lemma ContentHashNilSubtitle(n: NotificationRecord, m: NotificationRecord)
    requires m.bundleId == n.bundleId && m.title == n.title && m.body == n.body
    requires n.subtitle.None? && m.subtitle == Some("")
    ensures ContentHashPreimage(m) == ContentHashPreimage(n)
  {
  }

  datatype AppCategory = Messaging | Social | Work | Email | Other

  /** A known app; its id is its bundle identifier. */
  datatype KnownApp = KnownApp(id: string, name: string, category: AppCategory, iconSystemName: string) {
    function BundleId(): string { id }
  }

  /** KnownApp.all, in table order. */
  const All: seq<KnownApp> := [
    KnownApp("net.whatsapp.WhatsApp", "WhatsApp", Messaging, "message.fill"),
    KnownApp("ph.telegra.Telegraph", "Telegram", Messaging, "paperplane.fill"),
    KnownApp("com.apple.MobileSMS", "iMessage", Messaging, "message.fill"),
    KnownApp("org.whispersystems.signal", "Signal", Messaging, "lock.fill"),
    KnownApp("com.facebook.Messenger", "Messenger", Messaging, "message.circle.fill"),
    KnownApp("com.viber", "Viber", Messaging, "phone.fill"),
    KnownApp("com.skype.skype", "Skype", Messaging, "video.fill"),
    KnownApp("com.tinyspeck.chatlyio", "Slack", Work, "number"),
    KnownApp("com.microsoft.skype.teams", "Microsoft Teams", Work, "person.3.fill"),
    KnownApp("us.zoom.videomeetings", "Zoom", Work, "video.fill"),
    KnownApp("com.discord", "Discord", Work, "bubble.left.and.bubble.right.fill"),
    KnownApp("com.google.Gmail", "Gmail", Email, "envelope.fill"),
    KnownApp("com.microsoft.Office.Outlook", "Outlook", Email, "envelope.fill"),
    KnownApp("com.apple.mobilemail", "Apple Mail", Email, "envelope.fill"),
    KnownApp("com.burbn.instagram", "Instagram", Social, "camera.fill"),
    KnownApp("com.atebits.Tweetie2", "Twitter/X", Social, "at"),
    KnownApp("com.facebook.Facebook", "Facebook", Social, "person.2.fill"),
    KnownApp("com.zhiliaoapp.musically", "TikTok", Social, "music.note"),
    KnownApp("com.linkedin.LinkedIn", "LinkedIn", Social, "briefcase.fill")
  ]

  /** `first { $0.bundleId == bundleId }` over a table. */
  function FindIn(apps: seq<KnownApp>, bundleId: string): (r: Option<nat>)
    ensures r.Some? ==> (r.value < |apps| && apps[r.value].BundleId() == bundleId
      && forall j :: 0 <= j < r.value ==> apps[j].BundleId() != bundleId)
    ensures r.None? ==> forall j :: 0 <= j < |apps| ==> apps[j].BundleId() != bundleId
  {
    if apps == [] then None
    else if apps[0].BundleId() == bundleId then Some(0)
    else match FindIn(apps[1..], bundleId)
      case None => None
      case Some(k) => Some(k + 1)
  }

  /** KnownApp.find(bundleId:). */
  function Find(bundleId: string): Option<KnownApp> {
    match FindIn(All, bundleId)
    case None => None
    case Some(k) => Some(All[k])
  }

  /** The app Find returns is the first table entry with that bundle id, and
      Find fails only when no entry has it. */
  lemma FindSpec(bundleId: string)
    ensures Find(bundleId).Some? <==> exists app :: app in All && app.BundleId() == bundleId
    ensures Find(bundleId).Some? ==> Find(bundleId).value in All && Find(bundleId).value.BundleId() == bundleId
  {
    if Find(bundleId).None? {
      forall app | app in All ensures app.BundleId() != bundleId {
        var j :| 0 <= j < |All| && All[j] == app;
      }
    }
  }

  /** The ids of the table are pairwise distinct (they serve as its
      Identifiable ids). */
  lemma AllIdsDistinct()
    ensures forall i, j :: 0 <= i < j < |All| ==> All[i].id != All[j].id
  {
  }

  /** The apps of one category, in table order. */
  function OfCategory(apps: seq<KnownApp>, c: AppCategory): (r: seq<KnownApp>)
    ensures forall a :: a in r ==> a in apps && a.category == c
    ensures forall a :: a in apps && a.category == c ==> a in r
  {
    if apps == [] then []
    else (if apps[0].category == c then [apps[0]] else []) + OfCategory(apps[1..], c)
  }

  /** Dictionary(grouping:by:) over a table: one key per category that
      occurs, holding the apps of that category in table order. */
  function GroupedOf(apps: seq<KnownApp>): map<AppCategory, seq<KnownApp>> {
    map c: AppCategory | (exists a :: a in apps && a.category == c) :: OfCategory(apps, c)
  }

  /** KnownApp.grouped(). */
  function Grouped(): map<AppCategory, seq<KnownApp>> {
    GroupedOf(All)
  }

  /** Every app is listed under its own category, and each group holds only
      apps of its category; no group is empty. */
  lemma GroupedSpec(apps: seq<KnownApp>)
    ensures forall a :: a in apps ==> a.category in GroupedOf(apps) && a in GroupedOf(apps)[a.category]
    ensures forall c :: c in GroupedOf(apps) ==>
      GroupedOf(apps)[c] != [] && forall a :: a in GroupedOf(apps)[c] ==> a in apps && a.category == c
  {
    forall c | c in GroupedOf(apps) ensures GroupedOf(apps)[c] != [] {
      var a :| a in apps && a.category == c;
      assert a in OfCategory(apps, c);
    }
  }
}
