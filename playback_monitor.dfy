/*
 * PlaybackMonitorEntryPoint.TryCapture: on every playback start, progress
 * and stop event, the gates (plugin enabled, user allowed, position past
 * the threshold) decide whether to record anything; if so, one snapshot is
 * upserted into the store for each container the resolver finds.
 */
module PlaybackMonitor {
  import opened Models
  import GuidText
  import NextUp
  import Resolver
  import Store

  const TicksPerSecond: int := 10_000_000

  /**
   * positionTicks / 10_000_000 with C#'s `long` division: whole seconds,
   * truncated toward zero.
   */
  function PositionSeconds(positionTicks: Long): (q: int)
    ensures positionTicks >= 0 ==> 0 <= q && q * TicksPerSecond <= positionTicks < q * TicksPerSecond + TicksPerSecond
    ensures positionTicks < 0 ==> q <= 0 && q * TicksPerSecond - TicksPerSecond < positionTicks <= q * TicksPerSecond
  {
    var ticks: int := positionTicks;
    if ticks >= 0 then ticks / TicksPerSecond else -((-ticks) / TicksPerSecond)
  }

  /**
   * An empty allow-list admits every user; otherwise some entry must equal
   * the user id's text, ignoring case.
   */
  function AllowListAdmits(allowed: seq<string>, userId: Guid): (admits: bool)
    ensures |allowed| == 0 ==> admits
    ensures GuidText.Text(userId) in allowed ==> admits
    ensures admits && |allowed| > 0 ==> exists i :: 0 <= i < |allowed| && |allowed[i]| == 36
  {
    |allowed| == 0 || exists i :: 0 <= i < |allowed| && GuidText.EqualsIgnoreCase(allowed[i], GuidText.Text(userId))
  }

  /** Whether TryCapture gets past its gates for event e under configuration cfg (None when absent). */
  function PassesGates(cfg: Option<PluginConfiguration>, e: PlaybackEvent): (pass: bool)
    ensures pass ==> cfg.Some? && cfg.value.enabled && AllowListAdmits(cfg.value.allowedUserIds, GuidOrEmpty(e.userId))
    ensures cfg.Some? && cfg.value.resumeThresholdSeconds > 0 ==>
      (pass <==> cfg.value.enabled && AllowListAdmits(cfg.value.allowedUserIds, GuidOrEmpty(e.userId))
                 && LongOrZero(e.playbackPositionTicks) >= cfg.value.resumeThresholdSeconds * TicksPerSecond)
  {
    assert cfg.Some? && cfg.value.resumeThresholdSeconds > 0 ==>
      (PositionSeconds(LongOrZero(e.playbackPositionTicks)) >= cfg.value.resumeThresholdSeconds
       <==> LongOrZero(e.playbackPositionTicks) >= cfg.value.resumeThresholdSeconds * TicksPerSecond) by {
      if cfg.Some? && cfg.value.resumeThresholdSeconds > 0 {
        ThresholdInTicks(LongOrZero(e.playbackPositionTicks), cfg.value.resumeThresholdSeconds);
      }
    }
    && cfg.Some?
    && cfg.value.enabled
    && AllowListAdmits(cfg.value.allowedUserIds, GuidOrEmpty(e.userId))
    && PositionSeconds(LongOrZero(e.playbackPositionTicks)) >= cfg.value.resumeThresholdSeconds
  }

  /** The snapshots of e for the containers cs, the i-th stamped with the clock's i-th reading. */
  function SnapshotsFor(cs: seq<ContainerRef>, e: PlaybackEvent, clock: nat -> Timestamp): (snaps: seq<ProgressSnapshot>)
    ensures |snaps| == |cs|
    ensures forall i :: 0 <= i < |cs| ==> snaps[i] == NextUp.BuildSnapshot(cs[i], e, clock(i))
  {
    seq(|cs|, i requires 0 <= i < |cs| => NextUp.BuildSnapshot(cs[i], e, clock(i)))
  }

  /** The upserts one TryCapture performs, in order. */
  function CapturedSnapshots(e: PlaybackEvent, cfg: Option<PluginConfiguration>, lib: Library, clock: nat -> Timestamp): seq<ProgressSnapshot> {
    if PassesGates(cfg, e) then SnapshotsFor(Resolver.Resolve(e, cfg, lib), e, clock) else []
  }

  /**
   * TryCapture, with the configuration (None when absent), the host library
   * and the clock passed in. The reason (start, progress or stopped) only
   * reaches the log.
   */
  method TryCapture(store: Store.ProgressStore, e: PlaybackEvent, reason: string,
                    cfg: Option<PluginConfiguration>, lib: Library, clock: nat -> Timestamp)
    requires store.Valid()
    modifies store
    ensures store.Valid()
    ensures store.entries == Store.PutAll(old(store.entries), CapturedSnapshots(e, cfg, lib, clock))
    ensures CapturedSnapshots(e, cfg, lib, clock) == [] ==> store.file == old(store.file)
    ensures CapturedSnapshots(e, cfg, lib, clock) != [] ==> Store.Mirrors(store.file, store.entries)
  {
    if cfg.None? || !cfg.value.enabled {
      return;
    }
    var userId := GuidOrEmpty(e.userId);
    if |cfg.value.allowedUserIds| > 0 && !AllowListAdmits(cfg.value.allowedUserIds, userId) {
      return;
    }
    var positionTicks := LongOrZero(e.playbackPositionTicks);
    var positionSeconds := PositionSeconds(positionTicks);
    if positionSeconds < cfg.value.resumeThresholdSeconds {
      return;
    }

    assert PassesGates(cfg, e);

    var containers := Resolver.ResolveContainersForPlayback(e, cfg, lib);
    UpsertSnapshots(store, containers, e, clock);
  }

  /** The foreach of TryCapture: one upsert of the event's snapshot per container, in order. */
  method UpsertSnapshots(store: Store.ProgressStore, containers: seq<ContainerRef>, e: PlaybackEvent, clock: nat -> Timestamp)
    requires store.Valid()
    modifies store
    ensures store.Valid()
    ensures store.entries == Store.PutAll(old(store.entries), SnapshotsFor(containers, e, clock))
    ensures containers == [] ==> store.file == old(store.file)
    ensures containers != [] ==> Store.Mirrors(store.file, store.entries)
  {
    ghost var snaps := SnapshotsFor(containers, e, clock);
    for i := 0 to |containers|
      invariant store.Valid()
      invariant store.entries == Store.PutAll(old(store.entries), snaps[..i])
      invariant i == 0 ==> store.file == old(store.file)
      invariant i > 0 ==> Store.Mirrors(store.file, store.entries)
    {
      var snapshot := NextUp.BuildSnapshot(containers[i], e, clock(i));
      store.Upsert(snapshot);
      Store.PutAllStep(old(store.entries), snaps, i);
    }
    assert snaps[..|containers|] == snaps;
  }

  /** No configuration, or a disabled plugin, records nothing. */
  lemma DisabledRecordsNothing(e: PlaybackEvent, cfg: Option<PluginConfiguration>, lib: Library, clock: nat -> Timestamp)
    requires cfg.None? || !cfg.value.enabled
    ensures CapturedSnapshots(e, cfg, lib, clock) == []
  {
  }

  /** A non-empty allow-list without the user's id, in any letter case, records nothing. */
  lemma UnlistedUserRecordsNothing(e: PlaybackEvent, cfg: PluginConfiguration, lib: Library, clock: nat -> Timestamp)
    requires |cfg.allowedUserIds| > 0
    requires forall i :: 0 <= i < |cfg.allowedUserIds| ==> !GuidText.EqualsIgnoreCase(cfg.allowedUserIds[i], GuidText.Text(GuidOrEmpty(e.userId)))
    ensures CapturedSnapshots(e, Some(cfg), lib, clock) == []
  {
  }

  /** The allow-list admits everyone when empty, and accepts the id written in upper case. */
  lemma AllowListExamples(allowed: seq<string>, userId: Guid)
    ensures AllowListAdmits([], userId)
    ensures AllowListAdmits(allowed + [GuidText.UpperText(GuidText.Text(userId))], userId)
  {
    var listed := allowed + [GuidText.UpperText(GuidText.Text(userId))];
    GuidText.UpperTextEqualsIgnoreCase(GuidText.Text(userId));
    assert GuidText.EqualsIgnoreCase(listed[|allowed|], GuidText.Text(userId));
  }

  /** For a positive threshold, the seconds gate is a gate on whole ticks. */
  lemma ThresholdInTicks(positionTicks: Long, thresholdSeconds: Int32)
    requires thresholdSeconds > 0
    ensures PositionSeconds(positionTicks) >= thresholdSeconds <==> positionTicks >= thresholdSeconds * TicksPerSecond
  {
    var q := PositionSeconds(positionTicks);
    if q >= thresholdSeconds {
      assert q * TicksPerSecond >= thresholdSeconds * TicksPerSecond;
    }
    if positionTicks >= thresholdSeconds * TicksPerSecond {
      assert q * TicksPerSecond + TicksPerSecond > thresholdSeconds * TicksPerSecond;
    }
  }

  /** 599,999,999 ticks is 59 whole seconds: under the default threshold of 60, nothing is recorded. */
  lemma JustUnderAMinuteRecordsNothing(e: PlaybackEvent, lib: Library, clock: nat -> Timestamp)
    requires e.playbackPositionTicks == Some(599_999_999)
    ensures PositionSeconds(599_999_999) == 59
    ensures CapturedSnapshots(e, Some(DefaultConfiguration()), lib, clock) == []
  {
  }

  /** An event without a position reads as 0 ticks and records nothing under a positive threshold. */
  lemma MissingPositionRecordsNothing(e: PlaybackEvent, cfg: PluginConfiguration, lib: Library, clock: nat -> Timestamp)
    requires e.playbackPositionTicks.None? && cfg.resumeThresholdSeconds > 0
    ensures CapturedSnapshots(e, Some(cfg), lib, clock) == []
  {
  }

  /**
   * What a capture writes: one snapshot per resolved container, in resolver
   * order, each for the event's user and item, at a position whose whole
   * seconds reach the threshold.
   */
  lemma CapturedSnapshotsShape(e: PlaybackEvent, cfg: Option<PluginConfiguration>, lib: Library, clock: nat -> Timestamp)
    ensures PassesGates(cfg, e) ==> |CapturedSnapshots(e, cfg, lib, clock)| == |Resolver.Resolve(e, cfg, lib)|
    ensures forall i :: 0 <= i < |CapturedSnapshots(e, cfg, lib, clock)| ==>
      var s := CapturedSnapshots(e, cfg, lib, clock)[i];
      && s.containerType == Resolver.Resolve(e, cfg, lib)[i].containerType
      && s.containerId == Resolver.Resolve(e, cfg, lib)[i].id
      && s.userId == GuidOrEmpty(e.userId) && s.lastItemId == GuidOrEmpty(e.itemId)
      && s.updatedAtUtc == clock(i)
      && PositionSeconds(s.positionTicks) >= cfg.value.resumeThresholdSeconds
  {
  }

  /** Past the gates, every resolved container ends up holding this event's snapshot for it. */
  lemma {:induction false} CaptureRecordsEveryContainer(m: map<string, ProgressSnapshot>, e: PlaybackEvent, cfg: Option<PluginConfiguration>, lib: Library, clock: nat -> Timestamp, c: ContainerRef)
    requires PassesGates(cfg, e) && c in Resolver.Resolve(e, cfg, lib)
    ensures var s := Store.Lookup(Store.PutAll(m, CapturedSnapshots(e, cfg, lib, clock)), GuidOrEmpty(e.userId), c.containerType, c.id);
      && s.Some?
      && s.value.containerType == c.containerType && s.value.containerId == c.id
      && s.value.lastItemId == GuidOrEmpty(e.itemId)
      && s.value.positionTicks == LongOrZero(e.playbackPositionTicks)
  {
    var snaps := CapturedSnapshots(e, cfg, lib, clock);
    var cs := Resolver.Resolve(e, cfg, lib);
    var j :| 0 <= j < |cs| && cs[j] == c;
    var k := Store.Key(GuidOrEmpty(e.userId), c.containerType, c.id);
    assert Store.SnapshotKey(snaps[j]) == k;
    Store.PutAllLastWins(m, snaps, k);
    var r := Store.LastWithKey(snaps, k);
    Store.KeyInjective(GuidOrEmpty(e.userId), c.containerType, c.id, snaps[r].userId, snaps[r].containerType, snaps[r].containerId);
  }

  /** A capture leaves the entry of every other user, and of every container it did not resolve, as it was. */
  lemma {:induction false} CaptureLeavesOtherEntries(m: map<string, ProgressSnapshot>, e: PlaybackEvent, cfg: Option<PluginConfiguration>, lib: Library, clock: nat -> Timestamp,
                                                    u: Guid, t: ContainerType, id: Guid)
    requires u != GuidOrEmpty(e.userId) || ContainerRef(t, id) !in Resolver.Resolve(e, cfg, lib)
    ensures Store.Lookup(Store.PutAll(m, CapturedSnapshots(e, cfg, lib, clock)), u, t, id) == Store.Lookup(m, u, t, id)
  {
    var snaps := CapturedSnapshots(e, cfg, lib, clock);
    var k := Store.Key(u, t, id);
    Store.PutAllLastWins(m, snaps, k);
    var r := Store.LastWithKey(snaps, k);
    if r >= 0 {
      var cs := Resolver.Resolve(e, cfg, lib);
      assert snaps[r] == NextUp.BuildSnapshot(cs[r], e, clock(r));
      Store.KeyInjective(u, t, id, snaps[r].userId, snaps[r].containerType, snaps[r].containerId);
      assert false;
    }
  }
}
