/*
 * ProgressStore: the latest snapshot per (user, container type, container
 * id), kept in a map under a string key and mirrored in full to a backing
 * file after every upsert.
 */
module Store {
  import opened Models
  import GuidText

  /** The container type's enum value (Playlist = 0, Collection = 1) as a digit. */
  function TypeCode(t: ContainerType): char {
    match t
    case Playlist => '0'
    case Collection => '1'
  }

  /** Key: "{userId}:{(int)type}:{containerId}". */
  function Key(userId: Guid, t: ContainerType, containerId: Guid): (k: string)
  {
    GuidText.Text(userId) + [':', TypeCode(t), ':'] + GuidText.Text(containerId)
  }

  /** The key is the two 36-character Guid texts around the type digit, each side followed or preceded by a colon. */
  lemma KeyFormat(userId: Guid, t: ContainerType, containerId: Guid)
    ensures |Key(userId, t, containerId)| == 75
    ensures Key(userId, t, containerId)[..36] == GuidText.Text(userId)
    ensures Key(userId, t, containerId)[36] == ':' && Key(userId, t, containerId)[38] == ':'
    ensures Key(userId, t, containerId)[37] == (if t == Playlist then '0' else '1')
    ensures Key(userId, t, containerId)[39..] == GuidText.Text(containerId)
  {
  }

  /** The key tells the triple apart: distinct triples never share a key. */
  lemma KeyInjective(u1: Guid, t1: ContainerType, c1: Guid, u2: Guid, t2: ContainerType, c2: Guid)
    requires Key(u1, t1, c1) == Key(u2, t2, c2)
    ensures u1 == u2 && t1 == t2 && c1 == c2
  {
    var k1, k2 := Key(u1, t1, c1), Key(u2, t2, c2);
    assert k1[..36] == GuidText.Text(u1) && k2[..36] == GuidText.Text(u2);
    assert k1[37] == TypeCode(t1) && k2[37] == TypeCode(t2);
    assert k1[39..] == GuidText.Text(c1) && k2[39..] == GuidText.Text(c2);
    GuidText.TextInjective(u1, u2);
    GuidText.TextInjective(c1, c2);
  }

  function SnapshotKey(s: ProgressSnapshot): string {
    Key(s.userId, s.containerType, s.containerId)
  }

  /** Whether s is the snapshot of user u for container (t, c). */
  predicate HasTriple(s: ProgressSnapshot, u: Guid, t: ContainerType, c: Guid) {
    s.userId == u && s.containerType == t && s.containerId == c
  }

  /** The store's invariant: every snapshot sits under its own key. */
  ghost predicate KeysMatch(m: map<string, ProgressSnapshot>) {
    forall k :: k in m ==> SnapshotKey(m[k]) == k
  }

  function Get(m: map<string, ProgressSnapshot>, k: string): Option<ProgressSnapshot> {
    if k in m then Some(m[k]) else None
  }

  /** TryGet as a function of the map. */
  function Lookup(m: map<string, ProgressSnapshot>, u: Guid, t: ContainerType, c: Guid): (r: Option<ProgressSnapshot>)
    ensures r.Some? <==> Key(u, t, c) in m
    ensures r.Some? ==> r.value in m.Values
    ensures r.Some? && KeysMatch(m) ==> HasTriple(r.value, u, t, c)
  {
    StoredUnderKey(m, u, t, c);
    Get(m, Key(u, t, c))
  }

  /** In a store that keeps its invariant, what sits under a triple's key is that triple's snapshot. */
  lemma StoredUnderKey(m: map<string, ProgressSnapshot>, u: Guid, t: ContainerType, c: Guid)
    ensures Key(u, t, c) in m ==> m[Key(u, t, c)] in m.Values
    ensures Key(u, t, c) in m && KeysMatch(m) ==> HasTriple(m[Key(u, t, c)], u, t, c)
  {
    var k := Key(u, t, c);
    if k in m {
      assert m[k] in m.Values;
      if KeysMatch(m) {
        KeyInjective(u, t, c, m[k].userId, m[k].containerType, m[k].containerId);
      }
    }
  }

  /** Upsert as a function of the map: the snapshot replaces whatever its key held. */
  function Put(m: map<string, ProgressSnapshot>, s: ProgressSnapshot): map<string, ProgressSnapshot> {
    m[SnapshotKey(s) := s]
  }

  /** A sequence of upserts, in order (also what Load does with the file's records). */
  function PutAll(m: map<string, ProgressSnapshot>, items: seq<ProgressSnapshot>): (r: map<string, ProgressSnapshot>)
  {
    if items == [] then m else Put(PutAll(m, items[..|items| - 1]), items[|items| - 1])
  }

  /** One more upsert after the first i of a sequence of upserts. */
  lemma PutAllStep(m: map<string, ProgressSnapshot>, items: seq<ProgressSnapshot>, i: nat)
    requires i < |items|
    ensures PutAll(m, items[..i + 1]) == Put(PutAll(m, items[..i]), items[i])
  {
    assert items[..i + 1][..i] == items[..i];
  }

  /** The keys written by a sequence of upserts. */
  function WrittenKeys(items: seq<ProgressSnapshot>): set<string> {
    set i | 0 <= i < |items| :: SnapshotKey(items[i])
  }

  lemma WrittenKeysSnoc(items: seq<ProgressSnapshot>)
    requires items != []
    ensures WrittenKeys(items) == WrittenKeys(items[..|items| - 1]) + {SnapshotKey(items[|items| - 1])}
  {
    var init := items[..|items| - 1];
    forall k | k in WrittenKeys(items) ensures k in WrittenKeys(init) + {SnapshotKey(items[|items| - 1])} {
      var i :| 0 <= i < |items| && SnapshotKey(items[i]) == k;
      if i < |init| {
        assert init[i] == items[i];
      }
    }
    forall k | k in WrittenKeys(init) ensures k in WrittenKeys(items) {
      var i :| 0 <= i < |init| && SnapshotKey(init[i]) == k;
      assert items[i] == init[i];
    }
  }

  /** A sequence of upserts keeps the old keys and adds the key of every snapshot written. */
  lemma {:induction false} PutAllKeys(m: map<string, ProgressSnapshot>, items: seq<ProgressSnapshot>)
    ensures PutAll(m, items).Keys == m.Keys + WrittenKeys(items)
  {
    if items != [] {
      var init := items[..|items| - 1];
      PutAllKeys(m, init);
      WrittenKeysSnoc(items);
      assert PutAll(m, items) == Put(PutAll(m, init), items[|items| - 1]);
    }
  }

  /** The index of the last item stored under key k, or -1. */
  function LastWithKey(items: seq<ProgressSnapshot>, k: string): (r: int)
    ensures -1 <= r < |items|
    ensures r >= 0 ==> SnapshotKey(items[r]) == k && forall j :: r < j < |items| ==> SnapshotKey(items[j]) != k
    ensures r < 0 ==> forall j :: 0 <= j < |items| ==> SnapshotKey(items[j]) != k
  {
    if items == [] then -1
    else if SnapshotKey(items[|items| - 1]) == k then |items| - 1
    else
      var init := items[..|items| - 1];
      assert forall j :: 0 <= j < |init| ==> init[j] == items[j];
      LastWithKey(init, k)
  }

  /** Under a sequence of upserts, each key ends with the last snapshot written to it. */
  lemma {:induction false} PutAllLastWins(m: map<string, ProgressSnapshot>, items: seq<ProgressSnapshot>, k: string)
    ensures Get(PutAll(m, items), k)
         == if LastWithKey(items, k) < 0 then Get(m, k) else Some(items[LastWithKey(items, k)])
  {
    if items != [] {
      PutAllLastWins(m, items[..|items| - 1], k);
    }
  }

  lemma PutKeepsKeysMatch(m: map<string, ProgressSnapshot>, s: ProgressSnapshot)
    requires KeysMatch(m)
    ensures KeysMatch(Put(m, s))
  {
  }

  lemma {:induction false} PutAllKeepsKeysMatch(m: map<string, ProgressSnapshot>, items: seq<ProgressSnapshot>)
    requires KeysMatch(m)
    ensures KeysMatch(PutAll(m, items))
  {
    if items != [] {
      PutAllKeepsKeysMatch(m, items[..|items| - 1]);
    }
  }

  /** After an upsert, TryGet on the snapshot's own triple returns it. */
  lemma PutThenLookup(m: map<string, ProgressSnapshot>, s: ProgressSnapshot)
    ensures Lookup(Put(m, s), s.userId, s.containerType, s.containerId) == Some(s)
  {
  }

  /** An upsert leaves every other triple's entry as it was. */
  lemma PutLeavesOtherTriples(m: map<string, ProgressSnapshot>, s: ProgressSnapshot, u: Guid, t: ContainerType, c: Guid)
    requires !HasTriple(s, u, t, c)
    ensures Lookup(Put(m, s), u, t, c) == Lookup(m, u, t, c)
  {
    if Key(u, t, c) == SnapshotKey(s) {
      KeyInjective(u, t, c, s.userId, s.containerType, s.containerId);
    }
  }

  /** Upserting the same snapshot twice is upserting it once. */
  lemma PutIdempotent(m: map<string, ProgressSnapshot>, s: ProgressSnapshot)
    ensures Put(Put(m, s), s) == Put(m, s)
  {
  }

  /** Of two upserts for the same triple, the later one wins. */
  lemma PutLastWriteWins(m: map<string, ProgressSnapshot>, s1: ProgressSnapshot, s2: ProgressSnapshot)
    requires HasTriple(s1, s2.userId, s2.containerType, s2.containerId)
    ensures Put(Put(m, s1), s2) == Put(m, s2)
  {
  }

  /** In a store that keeps its invariant, TryGet finds exactly the one stored snapshot of the triple. */
  lemma LookupFindsTriple(m: map<string, ProgressSnapshot>, u: Guid, t: ContainerType, c: Guid, s: ProgressSnapshot)
    requires KeysMatch(m)
    ensures Lookup(m, u, t, c) == Some(s) <==> s in m.Values && HasTriple(s, u, t, c)
  {
    if s in m.Values && HasTriple(s, u, t, c) {
      var k :| k in m && m[k] == s;
    }
    if Lookup(m, u, t, c) == Some(s) {
      KeyInjective(u, t, c, s.userId, s.containerType, s.containerId);
    }
  }

  /** items lists the values of m, each once, in some order. */
  ghost predicate Enumerates(items: seq<ProgressSnapshot>, m: map<string, ProgressSnapshot>) {
    NoDuplicates(items) && forall s :: s in items <==> s in m.Values
  }

  /** In a store that keeps its invariant, a stored snapshot sits under its own key. */
  lemma StoredUnderOwnKey(m: map<string, ProgressSnapshot>, s: ProgressSnapshot)
    requires KeysMatch(m) && s in m.Values
    ensures SnapshotKey(s) in m && m[SnapshotKey(s)] == s
  {
    var k :| k in m && m[k] == s;
  }

  /** A key of the map is written by some record of a listing of its values. */
  lemma StoredKeyListed(m: map<string, ProgressSnapshot>, items: seq<ProgressSnapshot>, k: string)
    requires KeysMatch(m) && Enumerates(items, m) && k in m
    ensures LastWithKey(items, k) >= 0
  {
    assert m[k] in m.Values;
    var j :| 0 <= j < |items| && items[j] == m[k];
  }

  /** One key at a time: loading what Save wrote gives each key its entry back. */
  lemma LoadOfSaveAt(m: map<string, ProgressSnapshot>, items: seq<ProgressSnapshot>, k: string)
    requires KeysMatch(m) && Enumerates(items, m)
    ensures Get(PutAll(map[], items), k) == Get(m, k)
  {
    PutAllLastWins(map[], items, k);
    if k in m {
      StoredKeyListed(m, items, k);
    }
    var r := LastWithKey(items, k);
    if r >= 0 {
      StoredUnderOwnKey(m, items[r]);
    }
  }

  /** Loading what Save wrote, in whatever order it wrote it, rebuilds the map. */
  lemma LoadOfSaveRoundTrip(m: map<string, ProgressSnapshot>, items: seq<ProgressSnapshot>)
    requires KeysMatch(m) && Enumerates(items, m)
    ensures PutAll(map[], items) == m
  {
    var loaded := PutAll(map[], items);
    forall k ensures Get(loaded, k) == Get(m, k) {
      LoadOfSaveAt(m, items, k);
    }
    SameLookupsSameMap(loaded, m);
  }

  /** Two maps that answer every key alike are equal. */
  lemma SameLookupsSameMap(a: map<string, ProgressSnapshot>, b: map<string, ProgressSnapshot>)
    requires forall k :: Get(a, k) == Get(b, k)
    ensures a == b
  {
    forall k ensures (k in a <==> k in b) && (k in a ==> a[k] == b[k]) {
      assert Get(a, k) == Get(b, k);
    }
  }

  /**
   * The backing file: missing, unreadable, or a JSON array of records, each
   * a snapshot or a JSON null (None). A JSON null in place of the array
   * reads as [].
   */
  datatype StoredFile = Missing | Unreadable | Records(records: seq<Option<ProgressSnapshot>>)

  /**
   * The records Load gets through: those before the first null one, whose
   * fields cannot be read.
   */
  function LoadedPrefix(records: seq<Option<ProgressSnapshot>>): (r: seq<ProgressSnapshot>)
    ensures |r| <= |records|
    ensures forall i :: 0 <= i < |r| ==> records[i] == Some(r[i])
    ensures |r| < |records| ==> records[|r|].None?
  {
    if records == [] || records[0].None? then []
    else [records[0].value] + LoadedPrefix(records[1..])
  }

  /** The records Load applies from a file: none when it is missing or unreadable. */
  function RecordsOf(file: StoredFile): seq<ProgressSnapshot> {
    if file.Records? then LoadedPrefix(file.records) else []
  }

  /** The records Save writes for a list of snapshots: one non-null record each, in order. */
  function AsRecords(items: seq<ProgressSnapshot>): (records: seq<Option<ProgressSnapshot>>)
    ensures |records| == |items|
    ensures forall i :: 0 <= i < |items| ==> records[i] == Some(items[i])
  {
    seq(|items|, i requires 0 <= i < |items| => Some(items[i]))
  }

  /** A file Save wrote loads every record it holds, in order. */
  lemma LoadedPrefixOfWritten(items: seq<ProgressSnapshot>)
    ensures LoadedPrefix(AsRecords(items)) == items
  {
    var r := LoadedPrefix(AsRecords(items));
    assert |r| == |items|;
  }

  /** A null record ends the load: the records after it are never applied. */
  lemma LoadStopsAtNull(items: seq<ProgressSnapshot>, rest: seq<Option<ProgressSnapshot>>)
    ensures RecordsOf(Records(AsRecords(items) + [None] + rest)) == items
  {
    var records := AsRecords(items) + [None] + rest;
    var r := LoadedPrefix(records);
    assert records[|items|] == None;
    assert |r| == |items|;
  }

  /** The file mirrors the map m: it holds a non-null record for each stored snapshot, each once. */
  ghost predicate Mirrors(file: StoredFile, m: map<string, ProgressSnapshot>) {
    exists items :: file == Records(AsRecords(items)) && Enumerates(items, m)
  }

  /** Writing a listing of the map's values, each once, gives a file that mirrors it. */
  lemma WrittenMirrors(items: seq<ProgressSnapshot>, m: map<string, ProgressSnapshot>)
    requires Enumerates(items, m)
    ensures Mirrors(Records(AsRecords(items)), m)
  {
  }

  /** Loading a missing or unreadable file leaves the map empty. */
  lemma LoadMissingIsEmpty(file: StoredFile)
    requires !file.Records?
    ensures PutAll(map[], RecordsOf(file)) == map[]
  {
  }

  /** Loading a file that mirrors the map of a store that keeps its invariant gives that map back. */
  lemma LoadOfMirror(file: StoredFile, m: map<string, ProgressSnapshot>)
    requires KeysMatch(m) && Mirrors(file, m)
    ensures PutAll(map[], RecordsOf(file)) == m
  {
    var items :| file == Records(AsRecords(items)) && Enumerates(items, m);
    LoadedPrefixOfWritten(items);
    LoadOfSaveRoundTrip(m, items);
  }

  class ProgressStore {
    var entries: map<string, ProgressSnapshot>
    var file: StoredFile

    ghost predicate Valid()
      reads this
    {
      KeysMatch(entries)
    }

    /** Opens the store over the backing file and loads it. */
    constructor (persisted: StoredFile)
      ensures Valid()
      ensures file == persisted
      ensures entries == PutAll(map[], RecordsOf(persisted))
    {
      entries := map[];
      file := persisted;
      new;
      Load();
    }

    /**
     * Load: each record of the file overwrites the entry under its key, in
     * file order. A null record throws, and the catch keeps the records
     * before it.
     */
    method Load()
      requires Valid()
      modifies this`entries
      ensures Valid()
      ensures entries == PutAll(old(entries), RecordsOf(file))
    {
      if !file.Records? {
        return;
      }
      var records := file.records;
      ghost var start := entries;
      ghost var loaded := LoadedPrefix(records);
      var i := 0;
      while i < |records| && records[i].Some?
        invariant i <= |loaded|
        invariant KeysMatch(entries)
        invariant entries == PutAll(start, loaded[..i])
      {
        var item := records[i].value;
        PutAllStep(start, loaded, i);
        PutKeepsKeysMatch(entries, item);
        entries := entries[SnapshotKey(item) := item];
        i := i + 1;
      }
      assert loaded[..i] == loaded;
    }

    /** Save: writes every stored snapshot, each once, to the backing file. */
    method Save()
      requires Valid()
      modifies this`file
      ensures Valid()
      ensures Mirrors(file, entries)
    {
      var items: seq<ProgressSnapshot> := [];
      var pending := entries.Keys;
      while pending != {}
        invariant pending <= entries.Keys
        invariant NoDuplicates(items)
        invariant forall s :: s in items ==> s in entries.Values && SnapshotKey(s) !in pending
        invariant forall k :: k in entries && k !in pending ==> entries[k] in items
        decreases pending
      {
        var k :| k in pending;
        items := items + [entries[k]];
        pending := pending - {k};
      }
      file := Records(AsRecords(items));
      WrittenMirrors(items, entries);
    }

    /** Upsert: the snapshot replaces the entry under its key; the whole map is then saved. */
    method Upsert(snapshot: ProgressSnapshot)
      requires Valid()
      modifies this
      ensures Valid()
      ensures entries == Put(old(entries), snapshot)
      ensures Mirrors(file, entries)
    {
      var key := Key(snapshot.userId, snapshot.containerType, snapshot.containerId);
      entries := entries[key := snapshot];
      Save();
    }

    /** TryGet: the stored snapshot of the triple, if any. */
    method TryGet(userId: Guid, t: ContainerType, containerId: Guid) returns (r: Option<ProgressSnapshot>)
      requires Valid()
      ensures r.Some? <==> exists s :: s in entries.Values && HasTriple(s, userId, t, containerId)
      ensures r.Some? ==> r.value in entries.Values && HasTriple(r.value, userId, t, containerId)
    {
      var key := Key(userId, t, containerId);
      if key in entries {
        r := Some(entries[key]);
        assert entries[key] in entries.Values;
        KeyInjective(userId, t, containerId, r.value.userId, r.value.containerType, r.value.containerId);
      } else {
        r := None;
      }
    }

    /** GetAllForUser: every stored snapshot of the user, each once, in no particular order. */
    method GetAllForUser(userId: Guid) returns (list: seq<ProgressSnapshot>)
      requires Valid()
      ensures NoDuplicates(list)
      ensures forall s :: s in list <==> s in entries.Values && s.userId == userId
    {
      list := [];
      var pending := entries.Keys;
      while pending != {}
        invariant pending <= entries.Keys
        invariant NoDuplicates(list)
        invariant forall s :: s in list ==> s in entries.Values && s.userId == userId && SnapshotKey(s) !in pending
        invariant forall k :: k in entries && k !in pending && entries[k].userId == userId ==> entries[k] in list
        decreases pending
      {
        var k :| k in pending;
        if entries[k].userId == userId {
          list := list + [entries[k]];
        }
        pending := pending - {k};
      }
    }
  }
}
