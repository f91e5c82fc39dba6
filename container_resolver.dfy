/*
 * ContainerResolver: which playlists and collections a playback event
 * belongs to. Heuristic #0 reads container ids straight off the event and
 * short-circuits on the first hit; otherwise heuristic #1 scans the user's
 * playlists for the item and heuristic #2 lists the item's box-set parents.
 * A lookup that throws ends its own heuristic and keeps what it had added.
 */
module Resolver {
  import opened Models

  /** AddIfMissing: appends c unless an equal ref (same type and id) is already listed. */
  method AddIfMissing(result: seq<ContainerRef>, c: ContainerRef) returns (r: seq<ContainerRef>)
    ensures c in r
    ensures forall x :: x in r <==> x in result || x == c
    ensures c in result ==> r == result
    ensures c !in result ==> r == result + [c]
    ensures NoDuplicates(result) ==> NoDuplicates(r)
  {
    if c in result {
      r := result;
    } else {
      r := result + [c];
    }
  }

  /**
   * playlists.Any(pl => pl.Id == id): true at the first playlist with the
   * id; reading the id of a null entry before that throws.
   */
  function AnyPlaylistHasId(playlists: seq<Option<LibraryItem>>, id: Guid): (r: Try<bool>)
    ensures r == Returned(true) <==>
      exists i :: 0 <= i < |playlists| && playlists[i].Some? && playlists[i].value.id == id
        && forall j :: 0 <= j < i ==> playlists[j].Some?
    ensures r.Threw? <==>
      exists i :: 0 <= i < |playlists| && playlists[i].None?
        && forall j :: 0 <= j < i ==> playlists[j].Some? && playlists[j].value.id != id
  {
    if playlists == [] then Returned(false)
    else
      match playlists[0]
      case None => Threw
      case Some(pl) =>
        if pl.id == id then Returned(true)
        else
          var tail := playlists[1..];
          assert forall i :: 0 <= i < |tail| ==> tail[i] == playlists[i + 1];
          AnyPlaylistHasId(tail, id)
  }

  /** Without null entries, Any answers whether some playlist has the id, and never throws. */
  lemma AnyPlaylistWithoutNulls(playlists: seq<Option<LibraryItem>>, id: Guid)
    requires forall i :: 0 <= i < |playlists| ==> playlists[i].Some?
    ensures AnyPlaylistHasId(playlists, id)
         == Returned(exists i :: 0 <= i < |playlists| && playlists[i].Some? && playlists[i].value.id == id)
  {
    var r := AnyPlaylistHasId(playlists, id);
    if exists i :: 0 <= i < |playlists| && playlists[i].Some? && playlists[i].value.id == id {
      var i :| 0 <= i < |playlists| && playlists[i].Some? && playlists[i].value.id == id;
      assert forall j :: 0 <= j < i ==> playlists[j].Some?;
    }
  }

  /** A match before the first null entry answers true; a null entry before any match throws. */
  lemma AnyPlaylistNullOrder(pl: LibraryItem)
    ensures AnyPlaylistHasId([Some(pl), None], pl.id) == Returned(true)
    ensures AnyPlaylistHasId([None, Some(pl)], pl.id) == Threw
  {
  }

  /** Whether parentId is one of the user's playlists, by a lookup that did not throw. */
  predicate IsUserPlaylist(userId: Guid, parentId: Guid, lib: Library) {
    match lib.getPlaylists(userId)
    case Threw => false
    case Returned(playlists) => AnyPlaylistHasId(playlists, parentId) == Returned(true)
  }

  /** The ParentId branch of heuristic #0: a playlist of the user, else a box set, else nothing. */
  function ParentHint(parentId: Guid, userId: Option<Guid>, lib: Library): (h: Option<ContainerRef>)
    ensures h.Some? && h.value.containerType == Playlist ==>
      h.value.id == parentId && userId.Some? && IsUserPlaylist(userId.value, parentId, lib)
    ensures h.Some? && h.value.containerType == Collection ==>
      lib.getItemById(parentId).Returned? && lib.getItemById(parentId).value.Some?
        && lib.getItemById(parentId).value.value.isBoxSet && h.value.id == lib.getItemById(parentId).value.value.id
    ensures userId.Some? && IsUserPlaylist(userId.value, parentId, lib) ==> h.Some?
  {
    if userId.Some? && IsUserPlaylist(userId.value, parentId, lib) then
      Some(ContainerRef(Playlist, parentId))
    else
      match lib.getItemById(parentId)
      case Returned(Some(parent)) =>
        if parent.isBoxSet then Some(ContainerRef(Collection, parent.id)) else None
      case _ => None
  }

  /** The container heuristic #0 settles on, if any. */
  function DirectHint(e: PlaybackEvent, lib: Library): (h: Option<ContainerRef>)
    ensures h.Some? && h.value.containerType == Playlist ==>
      ReadGuid(e.playlistId) == Some(h.value.id) || ReadGuid(e.parentId) == Some(h.value.id)
    ensures h.Some? && h.value.containerType == Collection ==>
      ReadGuid(e.collectionId) == Some(h.value.id) || ReadGuid(e.boxSetId) == Some(h.value.id) || ReadGuid(e.parentId).Some?
    ensures ReadGuid(e.playlistId).Some? || ReadGuid(e.collectionId).Some? || ReadGuid(e.boxSetId).Some? ==> h.Some?
    ensures ReadGuid(e.playlistId).None? && ReadGuid(e.collectionId).None? && ReadGuid(e.boxSetId).None? && ReadGuid(e.parentId).None? ==> h.None?
  {
    if ReadGuid(e.playlistId).Some? then Some(ContainerRef(Playlist, e.playlistId.value))
    else if ReadGuid(e.collectionId).Some? then Some(ContainerRef(Collection, e.collectionId.value))
    else if ReadGuid(e.boxSetId).Some? then Some(ContainerRef(Collection, e.boxSetId.value))
    else if ReadGuid(e.parentId).Some? then ParentHint(e.parentId.value, ReadGuid(e.userId), lib)
    else None
  }

  /**
   * TryResolveFromEventArgs: on a hit the container is added to result
   * (unless already there) and the answer is true; otherwise result is
   * untouched and the answer is whether it was already non-empty.
   */
  method TryResolveFromEventArgs(e: PlaybackEvent, result: seq<ContainerRef>, lib: Library) returns (hit: bool, r: seq<ContainerRef>)
    ensures DirectHint(e, lib).Some? ==> hit && forall x :: x in r <==> x in result || x == DirectHint(e, lib).value
    ensures DirectHint(e, lib).Some? && DirectHint(e, lib).value in result ==> r == result
    ensures DirectHint(e, lib).Some? && DirectHint(e, lib).value !in result ==> r == result + [DirectHint(e, lib).value]
    ensures DirectHint(e, lib).None? ==> r == result && hit == (|result| > 0)
  {
    var playlistId := ReadGuid(e.playlistId);
    if playlistId.Some? {
      r := AddIfMissing(result, ContainerRef(Playlist, playlistId.value));
      return true, r;
    }

    var collectionId := ReadGuid(e.collectionId);
    if collectionId.None? {
      collectionId := ReadGuid(e.boxSetId);
    }
    if collectionId.Some? {
      r := AddIfMissing(result, ContainerRef(Collection, collectionId.value));
      return true, r;
    }

    var parentId := ReadGuid(e.parentId);
    if parentId.Some? {
      var userId := ReadGuid(e.userId);
      if userId.Some? {
        match lib.getPlaylists(userId.value) {
          case Returned(playlists) =>
            if AnyPlaylistHasId(playlists, parentId.value) == Returned(true) {
              r := AddIfMissing(result, ContainerRef(Playlist, parentId.value));
              return true, r;
            }
          case Threw =>
        }
      }
      match lib.getItemById(parentId.value) {
        case Returned(Some(parent)) =>
          if parent.isBoxSet {
            r := AddIfMissing(result, ContainerRef(Collection, parent.id));
            return true, r;
          }
        case _ =>
      }
    }
    return |result| > 0, result;
  }

  /** children.Any(i => i.Id == itemId) */
  predicate ContainsItem(children: seq<LibraryItem>, itemId: Guid) {
    exists j :: 0 <= j < |children| && children[j].id == itemId
  }

  /** Whether playlist entry pl lists the item, by a lookup that did not throw. */
  predicate ListsItem(pl: LibraryItem, itemId: Guid, lib: Library) {
    match lib.getItemList(pl.id)
    case Threw => false
    case Returned(children) => ContainsItem(children, itemId)
  }

  /**
   * Heuristic #1 over the remaining playlists: null entries are skipped, each
   * playlist whose children contain the item is added, and a throwing
   * children lookup ends the scan.
   */
  function PlaylistScan(playlists: seq<Option<LibraryItem>>, itemId: Guid, lib: Library): (r: seq<ContainerRef>)
    ensures |r| <= |playlists|
    ensures forall x :: x in r ==> x.containerType == Playlist
    ensures forall x :: x in r ==>
      exists i :: 0 <= i < |playlists| && playlists[i].Some?
        && x.id == playlists[i].value.id && ListsItem(playlists[i].value, itemId, lib)
  {
    if playlists == [] then []
    else
      var rest := PlaylistScan(playlists[1..], itemId, lib);
      assert forall i :: 1 <= i < |playlists| ==> playlists[i] == playlists[1..][i - 1];
      match playlists[0]
      case None => rest
      case Some(pl) =>
        match lib.getItemList(pl.id)
        case Threw => []
        case Returned(children) =>
          (if ContainsItem(children, itemId) then [ContainerRef(Playlist, pl.id)] else []) + rest
  }

  /** With no children lookup throwing, the scan finds every playlist that lists the item. */
  lemma {:induction false} PlaylistScanComplete(playlists: seq<Option<LibraryItem>>, itemId: Guid, lib: Library, i: nat)
    requires forall j :: 0 <= j < |playlists| && playlists[j].Some? ==> lib.getItemList(playlists[j].value.id).Returned?
    requires i < |playlists| && playlists[i].Some? && ListsItem(playlists[i].value, itemId, lib)
    ensures ContainerRef(Playlist, playlists[i].value.id) in PlaylistScan(playlists, itemId, lib)
  {
    if i > 0 {
      assert forall j :: 1 <= j < |playlists| ==> playlists[j] == playlists[1..][j - 1];
      PlaylistScanComplete(playlists[1..], itemId, lib, i - 1);
    }
  }

  /**
   * A children lookup that throws at playlist k ends the scan there: the
   * result is what the playlists before k gave.
   */
  lemma {:induction false} PlaylistScanStopsAtFailure(playlists: seq<Option<LibraryItem>>, itemId: Guid, lib: Library, k: nat)
    requires k < |playlists| && playlists[k].Some? && lib.getItemList(playlists[k].value.id).Threw?
    ensures PlaylistScan(playlists, itemId, lib) == PlaylistScan(playlists[..k], itemId, lib) + PlaylistScan(playlists[k..], itemId, lib)
    ensures PlaylistScan(playlists[k..], itemId, lib) == []
  {
    if k > 0 {
      var tail := playlists[1..];
      assert tail[..k - 1] == playlists[..k][1..];
      assert tail[k - 1..] == playlists[k..];
      PlaylistScanStopsAtFailure(tail, itemId, lib, k - 1);
    }
  }

  /** With no children lookup throwing in the first part, scanning a concatenation scans each part in turn. */
  lemma {:induction false} PlaylistScanAppend(ps: seq<Option<LibraryItem>>, qs: seq<Option<LibraryItem>>, itemId: Guid, lib: Library)
    requires forall j :: 0 <= j < |ps| && ps[j].Some? ==> lib.getItemList(ps[j].value.id).Returned?
    ensures PlaylistScan(ps + qs, itemId, lib) == PlaylistScan(ps, itemId, lib) + PlaylistScan(qs, itemId, lib)
  {
    if ps == [] {
      assert ps + qs == qs;
    } else {
      assert (ps + qs)[1..] == ps[1..] + qs;
      assert (ps + qs)[0] == ps[0];
      assert forall j :: 1 <= j < |ps| ==> ps[j] == ps[1..][j - 1];
      PlaylistScanAppend(ps[1..], qs, itemId, lib);
    }
  }

  /**
   * The scan keeps the enumeration order and repeats a playlist listed
   * twice: p, q, p (all listing the item) give p's ref, q's ref, p's ref.
   */
  lemma PlaylistScanOrderAndRepeats(p: LibraryItem, q: LibraryItem, itemId: Guid, lib: Library)
    requires ListsItem(p, itemId, lib) && ListsItem(q, itemId, lib)
    ensures PlaylistScan([Some(p), Some(q), Some(p)], itemId, lib)
         == [ContainerRef(Playlist, p.id), ContainerRef(Playlist, q.id), ContainerRef(Playlist, p.id)]
  {
    var s := [Some(p), Some(q), Some(p)];
    assert s[1..] == [Some(q), Some(p)] && s[1..][1..] == [Some(p)] && s[1..][1..][1..] == [];
    var rp, rq := ContainerRef(Playlist, p.id), ContainerRef(Playlist, q.id);
    assert PlaylistScan([Some(p)], itemId, lib) == [rp] + PlaylistScan([], itemId, lib) == [rp];
    assert PlaylistScan([Some(q), Some(p)], itemId, lib) == [rq] + PlaylistScan([Some(p)], itemId, lib) == [rq, rp];
    assert PlaylistScan(s, itemId, lib) == [rp] + PlaylistScan([Some(q), Some(p)], itemId, lib);
  }

  /** Heuristic #2 over the item's collection parents: every BoxSet among them, in order. */
  function BoxSetRefs(parents: seq<LibraryItem>): (r: seq<ContainerRef>)
    ensures |r| <= |parents|
    ensures forall x :: x in r <==> exists i :: 0 <= i < |parents| && parents[i].isBoxSet && x == ContainerRef(Collection, parents[i].id)
  {
    if parents == [] then []
    else
      var init := parents[..|parents| - 1];
      var last := parents[|parents| - 1];
      assert forall i :: 0 <= i < |init| ==> init[i] == parents[i];
      BoxSetRefs(init) + (if last.isBoxSet then [ContainerRef(Collection, last.id)] else [])
  }

  /** Heuristic #1: runs when playlists are tracked and both the user and the item are known. */
  function PlaylistHeuristic(e: PlaybackEvent, cfg: Option<PluginConfiguration>, lib: Library): (r: seq<ContainerRef>)
    ensures forall x :: x in r ==> x.containerType == Playlist
    ensures r != [] ==> cfg.Some? && cfg.value.trackPlaylists && ReadGuid(e.itemId).Some? && ReadGuid(e.userId).Some?
  {
    if cfg.Some? && cfg.value.trackPlaylists && ReadGuid(e.itemId).Some? && ReadGuid(e.userId).Some? then
      match lib.getPlaylists(e.userId.value)
      case Threw => []
      case Returned(playlists) => PlaylistScan(playlists, e.itemId.value, lib)
    else []
  }

  /** Heuristic #2: runs when collections are tracked and the item is known. */
  function CollectionHeuristic(e: PlaybackEvent, cfg: Option<PluginConfiguration>, lib: Library): (r: seq<ContainerRef>)
    ensures forall x :: x in r ==> x.containerType == Collection
    ensures r != [] ==> cfg.Some? && cfg.value.trackCollections && ReadGuid(e.itemId).Some?
  {
    if cfg.Some? && cfg.value.trackCollections && ReadGuid(e.itemId).Some? then
      match lib.getItemById(e.itemId.value)
      case Returned(Some(item)) =>
        (match lib.getCollectionFolders(item)
         case Threw => []
         case Returned(parents) => BoxSetRefs(parents))
      case _ => []
    else []
  }

  /** The containers resolved for an event: the heuristic #0 hit alone, or heuristic #1's refs then heuristic #2's. */
  function Resolve(e: PlaybackEvent, cfg: Option<PluginConfiguration>, lib: Library): (r: seq<ContainerRef>)
    ensures DirectHint(e, lib).Some? ==> r == [DirectHint(e, lib).value]
    ensures DirectHint(e, lib).None? ==> r == PlaylistHeuristic(e, cfg, lib) + CollectionHeuristic(e, cfg, lib)
    ensures DirectHint(e, lib).Some? ==> |r| == 1
    ensures cfg.None? ==> |r| <= 1
    ensures forall x :: x in r && x.containerType == Playlist && DirectHint(e, lib).None? ==> x in PlaylistHeuristic(e, cfg, lib)
    ensures forall x :: x in r && x.containerType == Collection && DirectHint(e, lib).None? ==> x in CollectionHeuristic(e, cfg, lib)
  {
    match DirectHint(e, lib)
    case Some(c) => [c]
    case None => PlaylistHeuristic(e, cfg, lib) + CollectionHeuristic(e, cfg, lib)
  }

  /** ResolveContainersForPlayback, with the plugin configuration (None when absent) passed in. */
  method ResolveContainersForPlayback(e: PlaybackEvent, cfg: Option<PluginConfiguration>, lib: Library) returns (result: seq<ContainerRef>)
    ensures result == Resolve(e, cfg, lib)
  {
    result := [];
    var hasUserId := ReadGuid(e.userId).Some?;
    var hasItemId := ReadGuid(e.itemId).Some?;

    var hit;
    hit, result := TryResolveFromEventArgs(e, result, lib);
    if hit {
      return;
    }

    if cfg.Some? && cfg.value.trackPlaylists && hasItemId && hasUserId {
      match lib.getPlaylists(e.userId.value) {
        case Threw =>
        case Returned(playlists) =>
          result := ScanPlaylists(result, playlists, e.itemId.value, lib);
      }
    }
    assert result == PlaylistHeuristic(e, cfg, lib);

    if cfg.Some? && cfg.value.trackCollections && hasItemId {
      match lib.getItemById(e.itemId.value) {
        case Returned(Some(item)) =>
          match lib.getCollectionFolders(item) {
            case Threw =>
            case Returned(parents) =>
              result := AddBoxSetParents(result, parents);
          }
        case _ =>
      }
    }
  }

  /** The foreach of heuristic #1: appends the playlists listing the item, stopping at a throwing lookup. */
  method ScanPlaylists(result: seq<ContainerRef>, playlists: seq<Option<LibraryItem>>, itemId: Guid, lib: Library) returns (r: seq<ContainerRef>)
    ensures r == result + PlaylistScan(playlists, itemId, lib)
  {
    r := result;
    var i := 0;
    while i < |playlists|
      invariant 0 <= i <= |playlists|
      invariant r + PlaylistScan(playlists[i..], itemId, lib) == result + PlaylistScan(playlists, itemId, lib)
    {
      assert playlists[i..][1..] == playlists[i + 1..];
      match playlists[i] {
        case None =>
        case Some(pl) =>
          match lib.getItemList(pl.id) {
            case Threw =>
              break;
            case Returned(children) =>
              if ContainsItem(children, itemId) {
                r := r + [ContainerRef(Playlist, pl.id)];
              }
          }
      }
      i := i + 1;
    }
  }

  /** The foreach of heuristic #2: appends a collection ref for each BoxSet parent, in order. */
  method AddBoxSetParents(result: seq<ContainerRef>, parents: seq<LibraryItem>) returns (r: seq<ContainerRef>)
    ensures r == result + BoxSetRefs(parents)
  {
    r := result;
    for i := 0 to |parents|
      invariant r == result + BoxSetRefs(parents[..i])
    {
      assert parents[..i + 1][..i] == parents[..i];
      if parents[i].isBoxSet {
        r := r + [ContainerRef(Collection, parents[i].id)];
      }
    }
    assert parents[..|parents|] == parents;
  }

  /**
   * On a heuristic #0 miss, with playlists tracked, a user and an item, and
   * no children lookup throwing, every playlist of the user that lists the
   * item is among the resolved containers.
   */
  lemma MissFindsListingPlaylist(e: PlaybackEvent, cfg: Option<PluginConfiguration>, lib: Library, i: nat)
    requires DirectHint(e, lib).None?
    requires cfg.Some? && cfg.value.trackPlaylists && ReadGuid(e.itemId).Some? && ReadGuid(e.userId).Some?
    requires lib.getPlaylists(e.userId.value).Returned?
    requires var pls := lib.getPlaylists(e.userId.value).value;
      forall j :: 0 <= j < |pls| && pls[j].Some? ==> lib.getItemList(pls[j].value.id).Returned?
    requires var pls := lib.getPlaylists(e.userId.value).value;
      i < |pls| && pls[i].Some? && ListsItem(pls[i].value, e.itemId.value, lib)
    ensures ContainerRef(Playlist, lib.getPlaylists(e.userId.value).value[i].value.id) in Resolve(e, cfg, lib)
  {
    PlaylistScanComplete(lib.getPlaylists(e.userId.value).value, e.itemId.value, lib, i);
  }

  /**
   * On a heuristic #0 miss, with collections tracked and the item found,
   * every BoxSet among the item's collection parents is among the resolved
   * containers.
   */
  lemma MissFindsBoxSetParent(e: PlaybackEvent, cfg: Option<PluginConfiguration>, lib: Library, item: LibraryItem, i: nat)
    requires DirectHint(e, lib).None?
    requires cfg.Some? && cfg.value.trackCollections && ReadGuid(e.itemId).Some?
    requires lib.getItemById(e.itemId.value) == Returned(Some(item))
    requires lib.getCollectionFolders(item).Returned?
    requires i < |lib.getCollectionFolders(item).value| && lib.getCollectionFolders(item).value[i].isBoxSet
    ensures ContainerRef(Collection, lib.getCollectionFolders(item).value[i].id) in Resolve(e, cfg, lib)
  {
  }

  /** A present PlaylistId decides alone: the result is that playlist and nothing else. */
  lemma PlaylistIdDecides(e: PlaybackEvent, cfg: Option<PluginConfiguration>, lib: Library)
    requires ReadGuid(e.playlistId).Some?
    ensures Resolve(e, cfg, lib) == [ContainerRef(Playlist, e.playlistId.value)]
  {
  }

  /** Without a PlaylistId, a present CollectionId decides, else a present BoxSetId. */
  lemma CollectionIdDecides(e: PlaybackEvent, cfg: Option<PluginConfiguration>, lib: Library)
    requires ReadGuid(e.playlistId).None?
    requires ReadGuid(e.collectionId).Some? || ReadGuid(e.boxSetId).Some?
    ensures ReadGuid(e.collectionId).Some? ==> Resolve(e, cfg, lib) == [ContainerRef(Collection, e.collectionId.value)]
    ensures ReadGuid(e.collectionId).None? ==> Resolve(e, cfg, lib) == [ContainerRef(Collection, e.boxSetId.value)]
  {
  }

  /**
   * With only a ParentId among the direct ids: one of the user's playlists
   * decides as a playlist; otherwise a BoxSet parent decides as a
   * collection; a parent that is no BoxSet, a missing parent or a lookup
   * that throws falls through to both scans.
   */
  lemma ParentIdDecides(e: PlaybackEvent, cfg: Option<PluginConfiguration>, lib: Library)
    requires ReadGuid(e.playlistId).None? && ReadGuid(e.collectionId).None? && ReadGuid(e.boxSetId).None?
    requires ReadGuid(e.parentId).Some?
    ensures ReadGuid(e.userId).Some? && IsUserPlaylist(e.userId.value, e.parentId.value, lib) ==>
      Resolve(e, cfg, lib) == [ContainerRef(Playlist, e.parentId.value)]
    ensures (ReadGuid(e.userId).None? || !IsUserPlaylist(e.userId.value, e.parentId.value, lib)) ==>
      match lib.getItemById(e.parentId.value)
      case Returned(Some(parent)) =>
        if parent.isBoxSet then Resolve(e, cfg, lib) == [ContainerRef(Collection, parent.id)]
        else Resolve(e, cfg, lib) == PlaylistHeuristic(e, cfg, lib) + CollectionHeuristic(e, cfg, lib)
      case _ => Resolve(e, cfg, lib) == PlaylistHeuristic(e, cfg, lib) + CollectionHeuristic(e, cfg, lib)
  {
  }

  /** A heuristic #0 hit yields exactly one container; a miss leaves a fresh result empty. */
  lemma DirectHintShortCircuits(e: PlaybackEvent, cfg: Option<PluginConfiguration>, lib: Library)
    ensures DirectHint(e, lib).Some? ==> Resolve(e, cfg, lib) == [DirectHint(e, lib).value]
    ensures DirectHint(e, lib).None? && (cfg.None? || (!cfg.value.trackPlaylists && !cfg.value.trackCollections)) ==>
      Resolve(e, cfg, lib) == []
  {
  }

  /** The scans are gated: no playlist ref without tracking, item and user; no collection ref without tracking and item. */
  lemma ScansAreGated(e: PlaybackEvent, cfg: Option<PluginConfiguration>, lib: Library)
    requires DirectHint(e, lib).None?
    ensures !(cfg.Some? && cfg.value.trackPlaylists && ReadGuid(e.itemId).Some? && ReadGuid(e.userId).Some?) ==>
      forall x :: x in Resolve(e, cfg, lib) ==> x.containerType == Collection
    ensures !(cfg.Some? && cfg.value.trackCollections && ReadGuid(e.itemId).Some?) ==>
      forall x :: x in Resolve(e, cfg, lib) ==> x.containerType == Playlist
  {
  }

  /** Every playlist ref precedes every collection ref. */
  lemma PlaylistsPrecedeCollections(e: PlaybackEvent, cfg: Option<PluginConfiguration>, lib: Library, i: nat, j: nat)
    requires i < j < |Resolve(e, cfg, lib)|
    requires Resolve(e, cfg, lib)[i].containerType == Collection
    ensures Resolve(e, cfg, lib)[j].containerType == Collection
  {
    var r := Resolve(e, cfg, lib);
    var ps, cs := PlaylistHeuristic(e, cfg, lib), CollectionHeuristic(e, cfg, lib);
    assert r == ps + cs;
    assert r[j] in cs;
  }

  /** A playlist lookup that throws does not stop heuristic #2. */
  lemma CollectionScanSurvivesPlaylistFailure(e: PlaybackEvent, cfg: Option<PluginConfiguration>, lib: Library)
    requires DirectHint(e, lib).None? && ReadGuid(e.userId).Some? && lib.getPlaylists(e.userId.value).Threw?
    ensures Resolve(e, cfg, lib) == CollectionHeuristic(e, cfg, lib)
  {
  }
}
