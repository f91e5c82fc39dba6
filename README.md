# PlaylistNextUp: a verified model of the resume engine

PlaylistNextUp is a Jellyfin server plugin that remembers, per user, where
playback stopped inside a playlist or a collection (a box set), and offers
"continue with the next item" for that container. This project models, in
Dafny, the four parts of the plugin that carry that behaviour:

- **NextUpCalculator**: builds a progress snapshot from a playback event.
  From a stored snapshot and the container's current items it decides the
  resume candidate: the same item at the stored position; the next item
  (clamped to the last one) from the start once the item counts as
  completed; or the first item when the last played item is gone.
  Collections are sorted by the configured ordering; playlists keep their
  stored order.
- **ProgressStore**: a class holding a map from the key
  `"{userId}:{type}:{containerId}"` to the latest snapshot. It offers
  upsert, exact lookup and per-user listing. Every upsert writes the whole
  map to the backing file, and the constructor loads that file back.
- **ContainerResolver**: decides which containers a playback event belongs
  to. Heuristic #0 reads a PlaylistId, then a CollectionId or BoxSetId,
  then a ParentId, and stops at the first hit. Otherwise heuristic #1 scans
  the user's playlists for the item, and then heuristic #2 lists the
  item's box-set parents.
- **PlaybackMonitorEntryPoint.TryCapture**: the gates (plugin enabled, user
  on the allow-list, position at least the threshold in whole seconds),
  then one upsert per resolved container.

Modules, one per component: `Models` (records, configuration, event, host
collaborators), `GuidText` (the text of a Guid and the case-insensitive
comparison), `CollectionOrder` (the collection sort), `NextUp`, `Store`,
`Resolver` and `PlaybackMonitor`.

How the host is represented:

- A Guid is a natural number below 2^128. Guid.Empty is 0. Its text is the
  "D" format: 32 lower-case hex digits grouped 8-4-4-4-12.
- A playback event is a record of optional fields. A Guid field holding
  Guid.Empty counts as absent, and a missing position reads as 0.
- The host's library and playlist managers are function values in
  `Models.Library`. Each call either returns a value or throws
  (`Try.Threw`), and a playlist list may hold null entries (`None`).
- The plugin configuration is passed in as an `Option`: `None` stands for
  a null configuration.
- The clock is a parameter. `BuildSnapshot` takes the current time; a
  capture takes a clock function, and the i-th snapshot reads its i-th
  value.
- The backing file of the store is a `StoredFile` value: missing,
  unreadable, or a sequence of records, each a snapshot or a JSON null.

## Model

All source paths are under `Jellyfin.Plugin.PlaylistNextUp/`.

| member | source | states |
|---|---|---|
| `Models.DefaultConfiguration` | Jellyfin.Plugin.PlaylistNextUp/PluginConfiguration.cs:8-49 | a fresh configuration is enabled and tracks playlists and collections. It has a 60 s threshold, a 92 % completion mark, debug logging off, ReleaseDate ordering and an empty allow-list |
| `Models.ReadGuid` | Jellyfin.Plugin.PlaylistNextUp/Services/PlaybackEventHelper.cs:24-48 | a Guid field reads as present exactly when it is there and is not Guid.Empty, and then it reads as its value |
| `Models.GuidOrEmpty` | Jellyfin.Plugin.PlaylistNextUp/Services/PlaybackEventHelper.cs:15-16 | the value read from an id field is the id when present, otherwise Guid.Empty |
| `Models.LongOrZero` | Jellyfin.Plugin.PlaylistNextUp/Services/PlaybackEventHelper.cs:50-80 | a long field reads as its value, or as 0 when it is missing |
| `GuidText.Text` | Jellyfin.Plugin.PlaylistNextUp/Services/ProgressStore.cs:62 | the text of a Guid, as Guid.ToString() writes it, is 36 characters long |
| `GuidText.TextInjective` | Jellyfin.Plugin.PlaylistNextUp/Services/ProgressStore.cs:62 | two Guids with the same text are the same Guid |
| `GuidText.TextReadsBack` | Jellyfin.Plugin.PlaylistNextUp/Services/ProgressStore.cs:62 | reading the hex digits of a Guid's text back gives the Guid |
| `GuidText.TextFormat` | Jellyfin.Plugin.PlaylistNextUp/Services/ProgressStore.cs:62 | a Guid's text has dashes exactly at positions 8, 13, 18 and 23, and lower-case hex digits everywhere else |
| `GuidText.UpperTextEqualsIgnoreCase` | Jellyfin.Plugin.PlaylistNextUp/EntryPoints/PlaybackMonitorEntryPoint.cs:91 | changing the case of a string's letters keeps it equal to the original, ignoring case |
| `GuidText.EqualsIgnoreCase` | Jellyfin.Plugin.PlaylistNextUp/EntryPoints/PlaybackMonitorEntryPoint.cs:91 | two strings are equal ignoring case exactly when they have the same length and agree character by character after upper-casing. Equal strings are always equal ignoring case |
| `CollectionOrder.KeyOf` | Jellyfin.Plugin.PlaylistNextUp/Services/NextUpCalculator.cs:116-133 | the secondary key of every ordering is the sort name |
| `CollectionOrder.KeyOfPrimary` | Jellyfin.Plugin.PlaylistNextUp/Services/NextUpCalculator.cs:116-133 | the primary key is the premiere date under ReleaseDate and PremiereDate, nothing under SortName, and the production year under ProductionYear. A missing date reads as DateTime.MinValue and a missing year as 0 |
| `CollectionOrder.OrderCollectionItems` | Jellyfin.Plugin.PlaylistNextUp/Services/NextUpCalculator.cs:114-134 | the result is a permutation of the items, sorted by the ordering's key. Items with equal keys keep their input order (stable OrderBy/ThenBy) |
| `CollectionOrder.InsertionSortCorrect` | Jellyfin.Plugin.PlaylistNextUp/Services/NextUpCalculator.cs:116-133 | the stable sort yields a permutation, is sorted, and keeps every key group in input order |
| `CollectionOrder.SortedDeterminedByKeyGroups` | Jellyfin.Plugin.PlaylistNextUp/Services/NextUpCalculator.cs:116-133 | two sorted sequences with the same key groups are equal, so the sorted order is unique |
| `CollectionOrder.OrderIgnoresInputOrder` | Jellyfin.Plugin.PlaylistNextUp/Services/NextUpCalculator.cs:116-133 | inputs that differ only in the order of items with different keys sort to the same list |
| `CollectionOrder.SortNameExample` | Jellyfin.Plugin.PlaylistNextUp/Services/NextUpCalculator.cs:122-124 | under SortName, items named "A" and "B" come out as [A, B] from either input order |
| `CollectionOrder.MissingPremiereDateFirst` | Jellyfin.Plugin.PlaylistNextUp/Services/NextUpCalculator.cs:129-132 | under ReleaseDate, an item without a premiere date sorts before any item dated after DateTime.MinValue |
| `CollectionOrder.NameLeTotal` | Jellyfin.Plugin.PlaylistNextUp/Services/NextUpCalculator.cs:120 | any two sort names are comparable |
| `CollectionOrder.NameLeTransitive` | Jellyfin.Plugin.PlaylistNextUp/Services/NextUpCalculator.cs:120 | the sort-name order is transitive |
| `CollectionOrder.NameLeAntisymmetric` | Jellyfin.Plugin.PlaylistNextUp/Services/NextUpCalculator.cs:120 | two names each at most the other are equal |
| `NextUp.BuildSnapshot` | Jellyfin.Plugin.PlaylistNextUp/Services/NextUpCalculator.cs:33-46 | the snapshot copies the container's type and id and the event's user and item (Guid.Empty when absent). Its position is the event's, or 0 when absent, and it is stamped with the given time |
| `NextUp.IsCompleted` | Jellyfin.Plugin.PlaylistNextUp/Services/NextUpCalculator.cs:136-142 | completed only with a known positive runtime and position·100 ≥ percent·runtime |
| `NextUp.IsCompletedIsPercentage` | Jellyfin.Plugin.PlaylistNextUp/Services/NextUpCalculator.cs:136-142 | completed exactly when the runtime is known and positive and position / runtime × 100 ≥ the percentage, computed in exact reals |
| `NextUp.WatchedToEndIsCompleted` | Jellyfin.Plugin.PlaylistNextUp/Services/NextUpCalculator.cs:136-142 | with a positive runtime, a position at or past the runtime is completed for any percentage up to 100 |
| `NextUp.CompletionAntitoneInThreshold` | Jellyfin.Plugin.PlaylistNextUp/Services/NextUpCalculator.cs:140-141 | whatever is completed at a percentage is completed at every lower one |
| `NextUp.UnknownRuntimeNeverCompleted` | Jellyfin.Plugin.PlaylistNextUp/Services/NextUpCalculator.cs:138 | an item with no runtime, or one ≤ 0, is never completed |
| `NextUp.FindIndex` | Jellyfin.Plugin.PlaylistNextUp/Services/NextUpCalculator.cs:61 | the result is the first index holding the id, or -1 when no item has it |
| `NextUp.ResumeFrom` | Jellyfin.Plugin.PlaylistNextUp/Services/NextUpCalculator.cs:58-81 | no candidate exactly when the list is empty. A candidate copies the snapshot's container and time and names a listed item. A missing last item gives the first item at 0. A completed one gives item min(i+1, count-1) at 0. Otherwise, or with no configuration, the same item at the stored position |
| `NextUp.CompletedLastItemStaysLast` | Jellyfin.Plugin.PlaylistNextUp/Services/NextUpCalculator.cs:74-78 | completing the last item offers that last item again, from 0 |
| `NextUp.CompletionExamples` | Jellyfin.Plugin.PlaylistNextUp/Services/NextUpCalculator.cs:70-81 | with runtime 100 and mark 92, position 93 on A moves to B at 0, and position 50 resumes A at 50 |
| `NextUp.OrderingOf` | Jellyfin.Plugin.PlaylistNextUp/Services/NextUpCalculator.cs:111 | the configured collection ordering, or ReleaseDate when there is no configuration |
| `NextUp.GetOrderedItems` | Jellyfin.Plugin.PlaylistNextUp/Services/NextUpCalculator.cs:90-112 | a playlist gives its children in stored order. A collection gives nothing when the box set is missing, otherwise its children sorted by the configured ordering (ReleaseDate when there is no configuration). A throwing lookup makes the call throw |
| `NextUp.ComputeResume` | Jellyfin.Plugin.PlaylistNextUp/Services/NextUpCalculator.cs:51-88 | no candidate exactly when the ordered lookup throws or the ordered list is empty. Otherwise the candidate is the one ResumeFrom picks from the ordered list, so it copies the snapshot and names an item of that list |
| `NextUp.MissingBoxSetNoCandidate` | Jellyfin.Plugin.PlaylistNextUp/Services/NextUpCalculator.cs:102-103 | a collection whose box set is not found gives no candidate |
| `Store.KeyFormat` | Jellyfin.Plugin.PlaylistNextUp/Services/ProgressStore.cs:62 | the key is 75 characters: the user's Guid text, a colon, the type digit (0 for Playlist, 1 for Collection), a colon, and the container's Guid text |
| `Store.KeyInjective` | Jellyfin.Plugin.PlaylistNextUp/Services/ProgressStore.cs:62 | two triples with the same key are the same triple |
| `Store.Lookup` | Jellyfin.Plugin.PlaylistNextUp/Services/ProgressStore.cs:59-62 | a lookup finds something exactly when the triple's key is stored. What it finds is a stored snapshot, and in a store whose snapshots sit under their own keys it is that triple's snapshot |
| `Store.LastWithKey` | Jellyfin.Plugin.PlaylistNextUp/Services/ProgressStore.cs:73-76 | the result is the last index of a record under the key, or -1 when there is none |
| `Store.PutAllLastWins` | Jellyfin.Plugin.PlaylistNextUp/Services/ProgressStore.cs:73-76 | after a run of upserts, each key holds the last record written to it, or its old entry if none was written |
| `Store.PutAllKeys` | Jellyfin.Plugin.PlaylistNextUp/Services/ProgressStore.cs:73-76 | a run of upserts keeps every old key and adds exactly the keys of the snapshots written |
| `Store.PutAllKeepsKeysMatch` | Jellyfin.Plugin.PlaylistNextUp/Services/ProgressStore.cs:75 | upserts keep every snapshot stored under its own key |
| `Store.PutThenLookup` | Jellyfin.Plugin.PlaylistNextUp/Services/ProgressStore.cs:35-40 | after an upsert, a lookup of the snapshot's own triple returns exactly that snapshot |
| `Store.PutLeavesOtherTriples` | Jellyfin.Plugin.PlaylistNextUp/Services/ProgressStore.cs:37-38 | an upsert leaves every other triple's entry unchanged |
| `Store.PutIdempotent` | Jellyfin.Plugin.PlaylistNextUp/Services/ProgressStore.cs:38 | upserting a snapshot twice leaves the map of upserting it once |
| `Store.PutLastWriteWins` | Jellyfin.Plugin.PlaylistNextUp/Services/ProgressStore.cs:38 | of two upserts for the same triple, the second one wins |
| `Store.LookupFindsTriple` | Jellyfin.Plugin.PlaylistNextUp/Services/ProgressStore.cs:59-62 | in a store whose snapshots sit under their own keys, a lookup returns s exactly when s is stored for that triple |
| `Store.LoadedPrefix` | Jellyfin.Plugin.PlaylistNextUp/Services/ProgressStore.cs:73-81 | Load applies the records before the first null one, in order. A null record stops it there (the catch keeps what was already loaded) |
| `Store.LoadStopsAtNull` | Jellyfin.Plugin.PlaylistNextUp/Services/ProgressStore.cs:73-81 | in a file holding records, then a null, then anything, only the records before the null are loaded |
| `Store.AsRecords` | Jellyfin.Plugin.PlaylistNextUp/Services/ProgressStore.cs:88-90 | Save writes one non-null record per snapshot, in list order |
| `Store.LoadedPrefixOfWritten` | Jellyfin.Plugin.PlaylistNextUp/Services/ProgressStore.cs:73-90 | a file that Save wrote is loaded in full, record by record |
| `Store.LoadOfMirror` | Jellyfin.Plugin.PlaylistNextUp/Services/ProgressStore.cs:64-96 | loading the file Save wrote gives back the map it was written from |
| `Store.LoadOfSaveRoundTrip` | Jellyfin.Plugin.PlaylistNextUp/Services/ProgressStore.cs:84-90 | loading any listing of the stored values, each once and in any order, rebuilds the same map |
| `Store.LoadMissingIsEmpty` | Jellyfin.Plugin.PlaylistNextUp/Services/ProgressStore.cs:66-67 | a missing or unreadable file loads as the empty map |
| `Store.ProgressStore.constructor` | Jellyfin.Plugin.PlaylistNextUp/Services/ProgressStore.cs:24-30 | the new store holds the upserts of the file's records in file order |
| `Store.ProgressStore.Load` | Jellyfin.Plugin.PlaylistNextUp/Services/ProgressStore.cs:64-82 | each record of a readable file overwrites the entry under its key, in file order, up to the first null record. A missing or unreadable file changes nothing |
| `Store.ProgressStore.Save` | Jellyfin.Plugin.PlaylistNextUp/Services/ProgressStore.cs:84-96 | the file then holds one non-null record for every stored snapshot, each once |
| `Store.ProgressStore.Upsert` | Jellyfin.Plugin.PlaylistNextUp/Services/ProgressStore.cs:35-40 | the map gains the snapshot under its key, nothing else changes, and the file then mirrors the new map |
| `Store.ProgressStore.TryGet` | Jellyfin.Plugin.PlaylistNextUp/Services/ProgressStore.cs:59-60 | it succeeds exactly when a snapshot of the triple is stored, and then returns that snapshot |
| `Store.ProgressStore.GetAllForUser` | Jellyfin.Plugin.PlaylistNextUp/Services/ProgressStore.cs:45-54 | the list holds exactly the stored snapshots of the user, each once |
| `Resolver.AddIfMissing` | Jellyfin.Plugin.PlaylistNextUp/Services/ContainerResolver.cs:162-166 | the ref is then listed. It is appended only if no equal ref was there. A list without duplicates keeps none |
| `Resolver.AnyPlaylistHasId` | Jellyfin.Plugin.PlaylistNextUp/Services/ContainerResolver.cs:131-132 | true exactly when a playlist with the id comes before any null entry. It throws exactly when a null entry comes before any playlist with the id |
| `Resolver.AnyPlaylistWithoutNulls` | Jellyfin.Plugin.PlaylistNextUp/Services/ContainerResolver.cs:131-132 | with no null entries it never throws and answers whether some playlist has the id |
| `Resolver.AnyPlaylistNullOrder` | Jellyfin.Plugin.PlaylistNextUp/Services/ContainerResolver.cs:131-132 | [match, null] answers true, while [null, match] throws |
| `Resolver.ParentHint` | Jellyfin.Plugin.PlaylistNextUp/Services/ContainerResolver.cs:125-157 | a playlist hint is the ParentId and only when it is one of the user's playlists, which always gives a hint. A collection hint is the id of the BoxSet that the ParentId lookup returned |
| `Resolver.DirectHint` | Jellyfin.Plugin.PlaylistNextUp/Services/ContainerResolver.cs:110-160 | a playlist hint names the event's PlaylistId or ParentId. A collection hint names its CollectionId or BoxSetId, or comes through its ParentId. Any of the first three ids gives a hint, and no id at all gives none |
| `Resolver.TryResolveFromEventArgs` | Jellyfin.Plugin.PlaylistNextUp/Services/ContainerResolver.cs:110-160 | on a heuristic #0 hit it adds that container (unless listed) and answers true. Otherwise it leaves the list unchanged and answers whether the list was already non-empty |
| `Resolver.PlaylistScan` | Jellyfin.Plugin.PlaylistNextUp/Services/ContainerResolver.cs:63-73 | the scan lists only playlist refs. Each one names a non-null playlist whose children contain the item |
| `Resolver.PlaylistScanComplete` | Jellyfin.Plugin.PlaylistNextUp/Services/ContainerResolver.cs:63-73 | if no children lookup throws, every playlist containing the item is listed |
| `Resolver.PlaylistScanStopsAtFailure` | Jellyfin.Plugin.PlaylistNextUp/Services/ContainerResolver.cs:58-78 | a children lookup that throws at playlist k keeps the refs from the playlists before k and adds nothing after |
| `Resolver.PlaylistScanAppend` | Jellyfin.Plugin.PlaylistNextUp/Services/ContainerResolver.cs:63-73 | when no children lookup throws in a first run of playlists, scanning it followed by more playlists gives its refs followed by theirs, so the refs keep enumeration order |
| `Resolver.PlaylistScanOrderAndRepeats` | Jellyfin.Plugin.PlaylistNextUp/Services/ContainerResolver.cs:63-73 | playlists p, q, p that all list the item give the refs p, q, p: the order is kept and a repeated entry is added again |
| `Resolver.BoxSetRefs` | Jellyfin.Plugin.PlaylistNextUp/Services/ContainerResolver.cs:92-98 | the refs are exactly the collection refs of the BoxSet parents |
| `Resolver.PlaylistHeuristic` | Jellyfin.Plugin.PlaylistNextUp/Services/ContainerResolver.cs:55-79 | heuristic #1 yields only playlist refs, and yields some only with TrackPlaylists, an item and a user |
| `Resolver.CollectionHeuristic` | Jellyfin.Plugin.PlaylistNextUp/Services/ContainerResolver.cs:81-105 | heuristic #2 yields only collection refs, and yields some only with TrackCollections and an item |
| `Resolver.Resolve` | Jellyfin.Plugin.PlaylistNextUp/Services/ContainerResolver.cs:44-108 | a heuristic #0 hit is the whole result. On a miss the result is heuristic #1's refs followed by heuristic #2's. Without a configuration there is at most one ref |
| `Resolver.ResolveContainersForPlayback` | Jellyfin.Plugin.PlaylistNextUp/Services/ContainerResolver.cs:44-108 | the result is the heuristic #0 hit alone, or else heuristic #1's refs followed by heuristic #2's |
| `Resolver.ScanPlaylists` | Jellyfin.Plugin.PlaylistNextUp/Services/ContainerResolver.cs:63-73 | the loop appends the playlist scan's refs to the list |
| `Resolver.AddBoxSetParents` | Jellyfin.Plugin.PlaylistNextUp/Services/ContainerResolver.cs:92-98 | the loop appends the BoxSet parents' refs to the list, in order |
| `Resolver.PlaylistIdDecides` | Jellyfin.Plugin.PlaylistNextUp/Services/ContainerResolver.cs:112-116 | a present PlaylistId gives exactly [Playlist(PlaylistId)] |
| `Resolver.CollectionIdDecides` | Jellyfin.Plugin.PlaylistNextUp/Services/ContainerResolver.cs:118-123 | otherwise, a present CollectionId gives exactly [Collection(CollectionId)], or else a present BoxSetId gives [Collection(BoxSetId)] |
| `Resolver.ParentIdDecides` | Jellyfin.Plugin.PlaylistNextUp/Services/ContainerResolver.cs:125-157 | a ParentId that is one of the user's playlists gives [Playlist(ParentId)]. Else a BoxSet parent gives [Collection(its id)]. Else (a parent that is no BoxSet, a missing parent, or a lookup that throws) both scans decide |
| `Resolver.DirectHintShortCircuits` | Jellyfin.Plugin.PlaylistNextUp/Services/ContainerResolver.cs:52-53 | a heuristic #0 hit gives exactly one container. A miss with neither scan enabled gives none |
| `Resolver.ScansAreGated` | Jellyfin.Plugin.PlaylistNextUp/Services/ContainerResolver.cs:56-82 | no playlist ref without TrackPlaylists, an item and a user. No collection ref without TrackCollections and an item |
| `Resolver.PlaylistsPrecedeCollections` | Jellyfin.Plugin.PlaylistNextUp/Services/ContainerResolver.cs:56-105 | every ref after a collection ref is also a collection ref |
| `Resolver.CollectionScanSurvivesPlaylistFailure` | Jellyfin.Plugin.PlaylistNextUp/Services/ContainerResolver.cs:75-82 | when listing the user's playlists throws, the result is still heuristic #2's refs |
| `Resolver.MissFindsListingPlaylist` | Jellyfin.Plugin.PlaylistNextUp/Services/ContainerResolver.cs:55-79 | on a heuristic #0 miss with playlists tracked, a user and an item, and no children lookup throwing, every playlist of the user that lists the item is resolved |
| `Resolver.MissFindsBoxSetParent` | Jellyfin.Plugin.PlaylistNextUp/Services/ContainerResolver.cs:81-105 | on a heuristic #0 miss with collections tracked and the item found, every BoxSet among its collection parents is resolved |
| `PlaybackMonitor.PositionSeconds` | Jellyfin.Plugin.PlaylistNextUp/EntryPoints/PlaybackMonitorEntryPoint.cs:96 | whole seconds of the position, truncated toward zero as C# long division does |
| `PlaybackMonitor.AllowListAdmits` | Jellyfin.Plugin.PlaylistNextUp/EntryPoints/PlaybackMonitorEntryPoint.cs:91 | an empty allow-list admits everyone, and a list holding the user id's text admits that user. A non-empty list admits only through an entry of the 36 characters of a Guid text |
| `PlaybackMonitor.PassesGates` | Jellyfin.Plugin.PlaylistNextUp/EntryPoints/PlaybackMonitorEntryPoint.cs:84-99 | passing needs a configuration, the plugin enabled and the user admitted. For a positive threshold it is exactly those plus a position of at least threshold·10,000,000 ticks |
| `PlaybackMonitor.SnapshotsFor` | Jellyfin.Plugin.PlaylistNextUp/EntryPoints/PlaybackMonitorEntryPoint.cs:104-106 | one snapshot per container, in order, the i-th built at the clock's i-th reading |
| `PlaybackMonitor.TryCapture` | Jellyfin.Plugin.PlaylistNextUp/EntryPoints/PlaybackMonitorEntryPoint.cs:82-120 | the store ends as the old store plus the upserts of the captured snapshots, in order. With nothing captured, the file is unchanged, otherwise it mirrors the new store |
| `PlaybackMonitor.UpsertSnapshots` | Jellyfin.Plugin.PlaylistNextUp/EntryPoints/PlaybackMonitorEntryPoint.cs:104-108 | the loop upserts one snapshot per container, in order |
| `PlaybackMonitor.DisabledRecordsNothing` | Jellyfin.Plugin.PlaylistNextUp/EntryPoints/PlaybackMonitorEntryPoint.cs:84-86 | no configuration, or a disabled plugin, captures nothing |
| `PlaybackMonitor.UnlistedUserRecordsNothing` | Jellyfin.Plugin.PlaylistNextUp/EntryPoints/PlaybackMonitorEntryPoint.cs:91-92 | a non-empty allow-list with no entry equal to the user id, ignoring case, captures nothing |
| `PlaybackMonitor.AllowListExamples` | Jellyfin.Plugin.PlaylistNextUp/EntryPoints/PlaybackMonitorEntryPoint.cs:91 | an empty allow-list admits every user. A list holding the id in upper case admits that user |
| `PlaybackMonitor.ThresholdInTicks` | Jellyfin.Plugin.PlaylistNextUp/EntryPoints/PlaybackMonitorEntryPoint.cs:95-99 | for a positive threshold, passing it in whole seconds is the same as reaching threshold·10,000,000 ticks |
| `PlaybackMonitor.JustUnderAMinuteRecordsNothing` | Jellyfin.Plugin.PlaylistNextUp/EntryPoints/PlaybackMonitorEntryPoint.cs:95-99 | 599,999,999 ticks is 59 s, so under the default configuration nothing is captured |
| `PlaybackMonitor.MissingPositionRecordsNothing` | Jellyfin.Plugin.PlaylistNextUp/EntryPoints/PlaybackMonitorEntryPoint.cs:95-98 | an event without a position captures nothing under a positive threshold |
| `PlaybackMonitor.CapturedSnapshotsShape` | Jellyfin.Plugin.PlaylistNextUp/EntryPoints/PlaybackMonitorEntryPoint.cs:103-108 | past the gates, there is one snapshot per resolved container, in resolver order. Each is for the event's user and item and stamped with the clock, and its whole seconds reach the threshold |
| `PlaybackMonitor.CaptureRecordsEveryContainer` | Jellyfin.Plugin.PlaylistNextUp/EntryPoints/PlaybackMonitorEntryPoint.cs:103-108 | past the gates, each resolved container's entry for the user then holds the event's item and position |
| `PlaybackMonitor.CaptureLeavesOtherEntries` | Jellyfin.Plugin.PlaylistNextUp/EntryPoints/PlaybackMonitorEntryPoint.cs:103-108 | a capture leaves unchanged the entries of other users and of containers it did not resolve |

## Left out

- The `reason` argument of TryCapture (start, progress or stopped) only
  reaches the log. `PlaybackMonitor.TryCapture` takes it and its
  postcondition does not depend on it.
- The catch in TryCapture (PlaybackMonitorEntryPoint.cs:116-119) is not
  modelled: nothing inside the modelled loop can fail. The resolver catches
  its own lookup failures, and a failed write is caught inside Save.
- Logging everywhere, including the debug log line of TryCapture
  (PlaybackMonitorEntryPoint.cs:110-114).
- Event subscription in StartAsync/StopAsync and the three event handlers
  (PlaybackMonitorEntryPoint.cs:73-80) are left out: each handler only
  calls TryCapture.
- The plugin singleton and service registration (Plugin.cs,
  ServiceRegistrator.cs) are not part of this model. The configuration is a
  parameter instead.
- The HTTP controller (Controllers/PlaylistNextUpController.cs) is routing
  and authorisation. It lists candidates newest first by UpdatedAtUtc, and
  that ordering is not modelled.
- The browser script under web/ (page injection) is left out.
- Reading event fields by reflection, and parsing ids and positions from
  strings (PlaybackEventHelper.cs:40-44, 66-76), are left out. The event
  is a typed record of optional fields.
- File I/O, directory creation and JSON are left out. The file is an
  abstract `StoredFile`, and a JSON `null` reads as an empty record list.
  A write failure in Save (ProgressStore.cs:92-95) is not modelled: after
  every Save the file lists the map.
- The store's ConcurrentDictionary is modelled sequentially, so concurrent
  captures are out of scope.
- `Store.ProgressStore.GetAllForUser`: the order of the returned list (the
  dictionary's enumeration order) is left unspecified. The model promises
  only the contents, each once.
- `NextUp.IsCompleted`: the source compares a `double` percentage. The
  model uses exact integer cross-multiplication, so floating-point rounding
  at the boundary is not captured.
- Sort names are compared ordinally. The culture-aware string comparer of
  the sort and null sort names are not modelled. Enum values outside the
  four named orderings fall to the default branch in the source; the model
  has no such values.
- `PlaybackMonitor.AllowListExamples`: the case-insensitive comparison folds
  only ASCII letters, which covers Guid text. Null allow-list entries are
  not modelled.
- `PlaybackMonitor.TryCapture`: a null AllowedUserIds array is not
  modelled. In the source, reading its Length at
  PlaybackMonitorEntryPoint.cs:91 sits outside the try, so the exception
  reaches the host's event handler. The model's allow-list is always a
  sequence.
- Lazy enumeration of the playlist list is not modelled: a failure while
  enumerating it (rather than while fetching it) cannot be expressed.
- Behaviour of the code that a reader might not expect, which the model
  follows as written:
  - AddIfMissing dedups only the heuristic #0 hit. Scan results are
    appended without a duplicate check.
  - A BoxSet parent found through ParentId is recorded under the id of the
    item the lookup returned.
  - A recorded position is non-negative only when the threshold is positive.
  - A null record in the store's file ends Load (ProgressStore.cs:73-81).
    The records before it stay loaded although the log message says the
    store starts fresh.
  - `playlists.Any` in the ParentId branch (ContainerResolver.cs:132)
    answers true at a matching playlist before it reaches a null entry,
    and throws when a null entry comes first.
