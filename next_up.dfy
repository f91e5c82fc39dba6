/*
 * NextUpCalculator: builds snapshots from playback events and decides,
 * from a stored snapshot and the container's current items, which item to
 * offer next and at what position.
 */
module NextUp {
  import opened Models
  import opened CollectionOrder

  /**
   * BuildSnapshot: the snapshot of event e within container c, stamped with
   * the clock reading `now`. Missing ids read as Guid.Empty and a missing
   * position as 0.
   */
  function BuildSnapshot(c: ContainerRef, e: PlaybackEvent, now: Timestamp): (s: ProgressSnapshot)
    ensures s.containerType == c.containerType && s.containerId == c.id
    ensures ReadGuid(e.userId).Some? ==> s.userId == ReadGuid(e.userId).value
    ensures ReadGuid(e.userId).None? ==> s.userId == EmptyGuid
    ensures ReadGuid(e.itemId).Some? ==> s.lastItemId == ReadGuid(e.itemId).value
    ensures ReadGuid(e.itemId).None? ==> s.lastItemId == EmptyGuid
    ensures e.playbackPositionTicks.Some? ==> s.positionTicks == e.playbackPositionTicks.value
    ensures e.playbackPositionTicks.None? ==> s.positionTicks == 0
    ensures s.updatedAtUtc == now
  {
    ProgressSnapshot(
      GuidOrEmpty(e.userId), c.containerType, c.id, GuidOrEmpty(e.itemId),
      LongOrZero(e.playbackPositionTicks), now)
  }

  /**
   * IsCompleted: the item has a known positive runtime and the position is
   * at least completedPercent percent of it (position / runtime * 100 >=
   * completedPercent, cross-multiplied).
   */
  function IsCompleted(item: LibraryItem, positionTicks: Long, completedPercent: Int32): (done: bool)
    ensures done ==> item.runTimeTicks.Some? && item.runTimeTicks.value > 0
    ensures done ==> positionTicks * 100 >= completedPercent * item.runTimeTicks.value
  {
    match item.runTimeTicks
    case None => false
    case Some(runtime) => runtime > 0 && positionTicks * 100 >= completedPercent * runtime
  }

  /**
   * The cross-multiplied test is the source's percentage test computed
   * exactly: position / runtime * 100 >= completedPercent.
   */
  lemma IsCompletedIsPercentage(item: LibraryItem, positionTicks: Long, completedPercent: Int32)
    ensures IsCompleted(item, positionTicks, completedPercent) <==>
      && item.runTimeTicks.Some? && item.runTimeTicks.value > 0
      && (positionTicks as real) / (item.runTimeTicks.value as real) * 100.0 >= completedPercent as real
  {
    if item.runTimeTicks.Some? && item.runTimeTicks.value > 0 {
      var r := item.runTimeTicks.value as real;
      var pct := (positionTicks as real) / r * 100.0;
      assert pct * r == (positionTicks as real) * 100.0;
      assert pct >= completedPercent as real <==> pct * r >= (completedPercent as real) * r;
    }
  }

  /** An item watched to its end counts as completed for any threshold up to 100. */
  lemma WatchedToEndIsCompleted(item: LibraryItem, positionTicks: Long, completedPercent: Int32)
    requires item.runTimeTicks.Some? && item.runTimeTicks.value > 0
    requires positionTicks >= item.runTimeTicks.value && completedPercent <= 100
    ensures IsCompleted(item, positionTicks, completedPercent)
  {
    var runtime: int := item.runTimeTicks.value;
    assert completedPercent * runtime <= 100 * runtime;
  }

  /** A lower threshold completes everything a higher one does. */
  lemma CompletionAntitoneInThreshold(item: LibraryItem, positionTicks: Long, lower: Int32, higher: Int32)
    requires lower <= higher && IsCompleted(item, positionTicks, higher)
    ensures IsCompleted(item, positionTicks, lower)
  {
    var runtime: int := item.runTimeTicks.value;
    assert lower * runtime <= higher * runtime;
  }

  /** An item without a known positive runtime is never completed. */
  lemma UnknownRuntimeNeverCompleted(item: LibraryItem, positionTicks: Long, completedPercent: Int32)
    requires item.runTimeTicks.None? || item.runTimeTicks.value <= 0
    ensures !IsCompleted(item, positionTicks, completedPercent)
  {
  }

  /** List.FindIndex by item id: the first index holding the id, or -1. */
  function FindIndex(items: seq<LibraryItem>, id: Guid): (r: int)
    ensures -1 <= r < |items|
    ensures r >= 0 ==> items[r].id == id && forall j :: 0 <= j < r ==> items[j].id != id
    ensures r < 0 ==> forall j :: 0 <= j < |items| ==> items[j].id != id
  {
    if items == [] then -1
    else if items[0].id == id then 0
    else
      var r := FindIndex(items[1..], id);
      if r < 0 then -1 else r + 1
  }

  function Min(a: int, b: int): int {
    if a <= b then a else b
  }

  /** Whether c carries the container and timestamp of snapshot s. */
  predicate CopiesSnapshot(c: ResumeCandidate, s: ProgressSnapshot) {
    c.containerType == s.containerType && c.containerId == s.containerId && c.updatedAtUtc == s.updatedAtUtc
  }

  /**
   * The decision of ComputeResume once the container's ordered items are
   * known. cfg is None when the plugin has no configuration.
   */
  function ResumeFrom(items: seq<LibraryItem>, snapshot: ProgressSnapshot, cfg: Option<PluginConfiguration>): (r: Option<ResumeCandidate>)
    // an empty container offers nothing
    ensures r.None? <==> |items| == 0
    // every candidate names an item of the container and copies the snapshot's container and time
    ensures r.Some? ==> CopiesSnapshot(r.value, snapshot)
    ensures r.Some? ==> exists i :: 0 <= i < |items| && items[i].id == r.value.nextItemId
    // the last played item is gone: start over at the first item
    ensures |items| > 0 && (forall j :: 0 <= j < |items| ==> items[j].id != snapshot.lastItemId) ==>
      r.value.nextItemId == items[0].id && r.value.resumePositionTicks == 0
    // the last played item is at i (first occurrence)
    ensures forall i :: (0 <= i < |items| && items[i].id == snapshot.lastItemId
                         && (forall j :: 0 <= j < i ==> items[j].id != snapshot.lastItemId)) ==>
        if cfg.Some? && IsCompleted(items[i], snapshot.positionTicks, cfg.value.completedPercent) then
          r.value.nextItemId == items[Min(i + 1, |items| - 1)].id && r.value.resumePositionTicks == 0
        else
          r.value.nextItemId == snapshot.lastItemId && r.value.resumePositionTicks == snapshot.positionTicks
  {
    if |items| == 0 then None
    else
      var idx := FindIndex(items, snapshot.lastItemId);
      if idx < 0 then
        Some(ResumeCandidate(snapshot.containerType, snapshot.containerId, items[0].id, 0, snapshot.updatedAtUtc))
      else
        var resumeTicks := snapshot.positionTicks;
        var current := items[idx];
        if cfg.Some? && IsCompleted(current, resumeTicks, cfg.value.completedPercent) then
          var nextIdx := Min(idx + 1, |items| - 1);
          Some(ResumeCandidate(snapshot.containerType, snapshot.containerId, items[nextIdx].id, 0, snapshot.updatedAtUtc))
        else
          Some(ResumeCandidate(snapshot.containerType, snapshot.containerId, current.id, resumeTicks, snapshot.updatedAtUtc))
  }

  /** Completing the last item of a container offers that last item again, from the start. */
  lemma CompletedLastItemStaysLast(items: seq<LibraryItem>, snapshot: ProgressSnapshot, cfg: PluginConfiguration)
    requires |items| > 0 && items[|items| - 1].id == snapshot.lastItemId
    requires forall j :: 0 <= j < |items| - 1 ==> items[j].id != snapshot.lastItemId
    requires IsCompleted(items[|items| - 1], snapshot.positionTicks, cfg.completedPercent)
    ensures ResumeFrom(items, snapshot, Some(cfg)).value.nextItemId == snapshot.lastItemId
    ensures ResumeFrom(items, snapshot, Some(cfg)).value.resumePositionTicks == 0
  {
  }

  /** The configured collection ordering; ReleaseDate when there is no configuration. */
  function OrderingOf(cfg: Option<PluginConfiguration>): (o: CollectionOrdering)
    ensures cfg.None? ==> o == ReleaseDate
    ensures cfg.Some? ==> o == cfg.value.collectionOrdering
  {
    if cfg.Some? then cfg.value.collectionOrdering else ReleaseDate
  }

  /**
   * GetOrderedItems: a playlist's items in their stored order; a
   * collection's items sorted by the configured ordering, or none when the
   * box set is not found. A throwing lookup makes the whole call throw.
   */
  function GetOrderedItems(containerType: ContainerType, containerId: Guid, cfg: Option<PluginConfiguration>, lib: Library): (r: Try<seq<LibraryItem>>)
    ensures containerType == Playlist ==> r == lib.getItemList(containerId)
    ensures containerType == Collection ==>
      match lib.getItemById(containerId)
      case Threw => r.Threw?
      case Returned(None) => r == Returned([])
      case Returned(Some(box)) =>
        match lib.getItemList(box.id)
        case Threw => r.Threw?
        case Returned(children) =>
          && r.Returned?
          && multiset(r.value) == multiset(children)
          && SortedBy(OrderingOf(cfg), r.value)
          && forall k :: WithKey(OrderingOf(cfg), r.value, k) == WithKey(OrderingOf(cfg), children, k)
  {
    if containerType == Playlist then
      lib.getItemList(containerId)
    else
      match lib.getItemById(containerId)
      case Threw => Threw
      case Returned(None) => Returned([])
      case Returned(Some(box)) =>
        match lib.getItemList(box.id)
        case Threw => Threw
        case Returned(children) => Returned(OrderCollectionItems(children, OrderingOf(cfg)))
  }

  /**
   * ComputeResume: the resume candidate for a stored snapshot against the
   * container's current items; None when the container is empty or a lookup
   * throws. The user id is accepted and not used.
   */
  function ComputeResume(userId: Guid, snapshot: ProgressSnapshot, cfg: Option<PluginConfiguration>, lib: Library): (r: Option<ResumeCandidate>)
    ensures r.Some? ==> CopiesSnapshot(r.value, snapshot)
    ensures r.Some? ==> var items := GetOrderedItems(snapshot.containerType, snapshot.containerId, cfg, lib);
      items.Returned? && exists i :: 0 <= i < |items.value| && items.value[i].id == r.value.nextItemId
    ensures GetOrderedItems(snapshot.containerType, snapshot.containerId, cfg, lib).Threw? ==> r.None?
    ensures var items := GetOrderedItems(snapshot.containerType, snapshot.containerId, cfg, lib);
      r.None? <==> items.Threw? || items.value == []
    ensures var items := GetOrderedItems(snapshot.containerType, snapshot.containerId, cfg, lib);
      items.Returned? ==> r == ResumeFrom(items.value, snapshot, cfg)
  {
    match GetOrderedItems(snapshot.containerType, snapshot.containerId, cfg, lib)
    case Threw => None
    case Returned(items) => ResumeFrom(items, snapshot, cfg)
  }

  /** A collection whose box set is not found offers nothing. */
  lemma MissingBoxSetNoCandidate(userId: Guid, snapshot: ProgressSnapshot, cfg: Option<PluginConfiguration>, lib: Library)
    requires snapshot.containerType == Collection && lib.getItemById(snapshot.containerId) == Returned(None)
    ensures ComputeResume(userId, snapshot, cfg, lib).None?
  {
  }

  /**
   * Items A and B of runtime 100 with threshold 92: a snapshot at 93 on A
   * advances to B at 0; a snapshot at 50 resumes A at 50.
   */
  lemma CompletionExamples(a: LibraryItem, b: LibraryItem, s: ProgressSnapshot, cfg: PluginConfiguration)
    requires a.id != b.id && a.runTimeTicks == Some(100) && b.runTimeTicks == Some(100)
    requires cfg.completedPercent == 92 && s.lastItemId == a.id
    ensures s.positionTicks == 93 ==> ResumeFrom([a, b], s, Some(cfg)).value.nextItemId == b.id
    ensures s.positionTicks == 93 ==> ResumeFrom([a, b], s, Some(cfg)).value.resumePositionTicks == 0
    ensures s.positionTicks == 50 ==> ResumeFrom([a, b], s, Some(cfg)).value.nextItemId == a.id
    ensures s.positionTicks == 50 ==> ResumeFrom([a, b], s, Some(cfg)).value.resumePositionTicks == 50
  {
  }
}
