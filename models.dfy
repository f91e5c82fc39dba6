/*
 * Values shared by every component of the playlist/collection next-up
 * plugin: identifiers and integer widths of the host platform, the records
 * of Services/Models.cs, the plugin configuration, the playback event and
 * the host collaborators the core calls into.
 */
module Models {

  datatype Option<+T> = None | Some(value: T) {
    /** The `??` operator of C#. */
    function GetOr(default: T): T {
      if Some? then value else default
    }
  }

  /** The outcome of a call into the host media server, which may throw. */
  datatype Try<+T> = Threw | Returned(value: T)

  /** A .NET Guid is 128 bits wide; Guid.Empty is the all-zero value. */
  const GuidLimit: nat := 0x1_0000_0000_0000_0000_0000_0000_0000_0000
  type Guid = g: nat | g < GuidLimit
  const EmptyGuid: Guid := 0

  /** The C# `long` and `int` ranges. */
  const LongLimit: int := 0x8000_0000_0000_0000
  type Long = x: int | -LongLimit <= x < LongLimit
  type Int32 = x: int | -0x8000_0000 <= x < 0x8000_0000

  /** A DateTime, as ticks since DateTime.MinValue, which is 0. */
  type Date = nat
  const MinDate: Date := 0

  /** A DateTimeOffset read from the host clock. */
  type Timestamp = int

  datatype ContainerType = Playlist | Collection

  /** Identifies a container by its type and id. */
  datatype ContainerRef = ContainerRef(containerType: ContainerType, id: Guid)

  /** "As of updatedAtUtc, userId was at positionTicks into lastItemId within this container." */
  datatype ProgressSnapshot = ProgressSnapshot(
    userId: Guid,
    containerType: ContainerType,
    containerId: Guid,
    lastItemId: Guid,
    positionTicks: Long,
    updatedAtUtc: Timestamp)

  /** What the user should be offered next for a container. */
  datatype ResumeCandidate = ResumeCandidate(
    containerType: ContainerType,
    containerId: Guid,
    nextItemId: Guid,
    resumePositionTicks: Long,
    updatedAtUtc: Timestamp)

  datatype CollectionOrdering = ReleaseDate | PremiereDate | SortName | ProductionYear

  datatype PluginConfiguration = PluginConfiguration(
    enabled: bool,
    trackPlaylists: bool,
    trackCollections: bool,
    resumeThresholdSeconds: Int32,
    completedPercent: Int32,
    debugLogging: bool,
    collectionOrdering: CollectionOrdering,
    allowedUserIds: seq<string>)

  /** The configuration a fresh installation starts with. */
  function DefaultConfiguration(): (cfg: PluginConfiguration)
    ensures cfg.enabled && cfg.trackPlaylists && cfg.trackCollections && !cfg.debugLogging
    ensures cfg.resumeThresholdSeconds == 60 && cfg.completedPercent == 92
    ensures cfg.collectionOrdering == ReleaseDate && cfg.allowedUserIds == []
  {
    PluginConfiguration(true, true, true, 60, 92, false, ReleaseDate, [])
  }

  /** The part of a library item (a BaseItem of the host) the core reads. */
  datatype LibraryItem = LibraryItem(
    id: Guid,
    isBoxSet: bool,
    sortName: string,
    premiereDate: Option<Date>,
    productionYear: Option<Int32>,
    runTimeTicks: Option<Long>)

  /**
   * The host's library and playlist managers. Each call may throw.
   *   getItemList(p)          recursive children of parent p, in stored order
   *   getItemById(id)         the item, or null
   *   getPlaylists(user)      the user's playlists; an entry may be null
   *   getCollectionFolders(i) the logical parent folders of item i
   */
  datatype Library = Library(
    getItemList: Guid -> Try<seq<LibraryItem>>,
    getItemById: Guid -> Try<Option<LibraryItem>>,
    getPlaylists: Guid -> Try<seq<Option<LibraryItem>>>,
    getCollectionFolders: LibraryItem -> Try<seq<LibraryItem>>)

  /**
   * A playback start/progress/stop event: each field the core reads may be
   * missing from the event (None) or, for an id, hold Guid.Empty.
   */
  datatype PlaybackEvent = PlaybackEvent(
    userId: Option<Guid>,
    itemId: Option<Guid>,
    playlistId: Option<Guid>,
    collectionId: Option<Guid>,
    boxSetId: Option<Guid>,
    parentId: Option<Guid>,
    playbackPositionTicks: Option<Long>)

  /** Whether a Guid field of the event counts as present: Guid.Empty counts as absent. */
  function ReadGuid(field: Option<Guid>): (r: Option<Guid>)
    ensures r.Some? <==> field.Some? && field.value != EmptyGuid
    ensures r.Some? ==> r.value == field.value
  {
    match field
    case Some(g) => if g != EmptyGuid then Some(g) else None
    case None => None
  }

  /** The value a caller reads from a Guid field whatever its presence: Guid.Empty when absent. */
  function GuidOrEmpty(field: Option<Guid>): (g: Guid)
    ensures ReadGuid(field).Some? ==> g == ReadGuid(field).value
    ensures ReadGuid(field).None? ==> g == EmptyGuid
  {
    field.GetOr(EmptyGuid)
  }

  /** The value a caller reads from a long field: 0 when absent. */
  function LongOrZero(field: Option<Long>): (x: Long)
    ensures field.Some? ==> x == field.value
    ensures field.None? ==> x == 0
  {
    field.GetOr(0)
  }

  /** No element of s occurs twice. */
  predicate NoDuplicates<T(==)>(s: seq<T>) {
    forall i, j :: 0 <= i < j < |s| ==> s[i] != s[j]
  }
}
