/*
 * The order in which a collection's items are offered: LINQ's stable
 * OrderBy(primary).ThenBy(SortName), with the primary key chosen by the
 * configured CollectionOrdering. Sort names are compared ordinally.
 */
module CollectionOrder {
  import opened Models

  /** Ordinal lexicographic order on sort names. */
  predicate NameLe(a: string, b: string)
    decreases |a|
  {
    a == [] || (b != [] && (a[0] < b[0] || (a[0] == b[0] && NameLe(a[1..], b[1..]))))
  }

  lemma {:induction false} NameLeReflexive(a: string)
    ensures NameLe(a, a)
    decreases |a|
  {
    if a != [] { NameLeReflexive(a[1..]); }
  }

  lemma {:induction false} NameLeTotal(a: string, b: string)
    ensures NameLe(a, b) || NameLe(b, a)
    decreases |a|
  {
    if a != [] && b != [] && a[0] == b[0] { NameLeTotal(a[1..], b[1..]); }
  }

  lemma {:induction false} NameLeTransitive(a: string, b: string, c: string)
    requires NameLe(a, b) && NameLe(b, c)
    ensures NameLe(a, c)
    decreases |a|
  {
    if a != [] && a[0] == b[0] && b[0] == c[0] { NameLeTransitive(a[1..], b[1..], c[1..]); }
  }

  lemma {:induction false} NameLeAntisymmetric(a: string, b: string)
    requires NameLe(a, b) && NameLe(b, a)
    ensures a == b
    decreases |a|
  {
    if a != [] {
      NameLeAntisymmetric(a[1..], b[1..]);
      assert a == [a[0]] + a[1..] && b == [b[0]] + b[1..];
    }
  }

  /** The (primary, sort name) pair an ordering sorts by. */
  datatype SortKey = SortKey(primary: int, name: string)

  /**
   * The (OrderBy, ThenBy) key of an item: the sort name always breaks ties;
   * the primary key is the premiere date (ReleaseDate and PremiereDate),
   * nothing (SortName) or the production year, a missing value reading as
   * DateTime.MinValue or 0.
   */
  function KeyOf(ordering: CollectionOrdering, item: LibraryItem): (k: SortKey)
    ensures k.name == item.sortName
  {
    match ordering
    case PremiereDate => SortKey(item.premiereDate.GetOr(MinDate), item.sortName)
    case SortName => SortKey(0, item.sortName)
    case ProductionYear => SortKey(item.productionYear.GetOr(0), item.sortName)
    case _ => SortKey(item.premiereDate.GetOr(MinDate), item.sortName)
  }

  /** The primary key of each ordering; ReleaseDate and PremiereDate sort alike. */
  lemma KeyOfPrimary(ordering: CollectionOrdering, item: LibraryItem)
    ensures ordering == ReleaseDate || ordering == PremiereDate ==> KeyOf(ordering, item).primary == item.premiereDate.GetOr(MinDate)
    ensures ordering == SortName ==> KeyOf(ordering, item).primary == 0
    ensures ordering == ProductionYear ==> KeyOf(ordering, item).primary == item.productionYear.GetOr(0)
  {
  }

  predicate KeyLe(a: SortKey, b: SortKey) {
    a.primary < b.primary || (a.primary == b.primary && NameLe(a.name, b.name))
  }

  lemma KeyLeTotal(a: SortKey, b: SortKey)
    ensures KeyLe(a, b) || KeyLe(b, a)
  {
    NameLeTotal(a.name, b.name);
  }

  lemma KeyLeTransitive(a: SortKey, b: SortKey, c: SortKey)
    requires KeyLe(a, b) && KeyLe(b, c)
    ensures KeyLe(a, c)
  {
    if a.primary == b.primary == c.primary { NameLeTransitive(a.name, b.name, c.name); }
  }

  lemma KeyLeAntisymmetric(a: SortKey, b: SortKey)
    requires KeyLe(a, b) && KeyLe(b, a)
    ensures a == b
  {
    NameLeAntisymmetric(a.name, b.name);
  }

  ghost predicate SortedBy(ordering: CollectionOrdering, s: seq<LibraryItem>) {
    forall i, j :: 0 <= i < j < |s| ==> KeyLe(KeyOf(ordering, s[i]), KeyOf(ordering, s[j]))
  }

  /** The items of s whose key is k, in the order of s. */
  function WithKey(ordering: CollectionOrdering, s: seq<LibraryItem>, k: SortKey): seq<LibraryItem> {
    if s == [] then []
    else (if KeyOf(ordering, s[0]) == k then [s[0]] else []) + WithKey(ordering, s[1..], k)
  }

  /** Stable insertion: x goes before the first item whose key is not below its own. */
  function Insert(ordering: CollectionOrdering, x: LibraryItem, s: seq<LibraryItem>): seq<LibraryItem> {
    if s == [] then [x]
    else if KeyLe(KeyOf(ordering, x), KeyOf(ordering, s[0])) then [x] + s
    else [s[0]] + Insert(ordering, x, s[1..])
  }

  function InsertionSort(ordering: CollectionOrdering, s: seq<LibraryItem>): seq<LibraryItem> {
    if s == [] then [] else Insert(ordering, s[0], InsertionSort(ordering, s[1..]))
  }

  lemma {:induction false} InsertIsPermutation(ordering: CollectionOrdering, x: LibraryItem, s: seq<LibraryItem>)
    ensures multiset(Insert(ordering, x, s)) == multiset(s) + multiset{x}
  {
    if s != [] && !KeyLe(KeyOf(ordering, x), KeyOf(ordering, s[0])) {
      InsertIsPermutation(ordering, x, s[1..]);
      assert s == [s[0]] + s[1..];
    }
  }

  /** A sorted sequence stays sorted under a new head whose key is at most every key in it. */
  lemma ConsSorted(ordering: CollectionOrdering, a: LibraryItem, s: seq<LibraryItem>)
    requires SortedBy(ordering, s)
    requires forall j :: 0 <= j < |s| ==> KeyLe(KeyOf(ordering, a), KeyOf(ordering, s[j]))
    ensures SortedBy(ordering, [a] + s)
  {
    var r := [a] + s;
    forall i, j | 0 <= i < j < |r|
      ensures KeyLe(KeyOf(ordering, r[i]), KeyOf(ordering, r[j]))
    {
      if i == 0 { assert r[j] == s[j - 1]; } else { assert r[i] == s[i - 1] && r[j] == s[j - 1]; }
    }
  }

  /** Every key of a permutation of s plus x is bounded below by a bound on x and on s. */
  lemma InsertBoundedBelow(ordering: CollectionOrdering, x: LibraryItem, s: seq<LibraryItem>, lo: SortKey)
    requires KeyLe(lo, KeyOf(ordering, x))
    requires forall j :: 0 <= j < |s| ==> KeyLe(lo, KeyOf(ordering, s[j]))
    ensures forall j :: 0 <= j < |Insert(ordering, x, s)| ==> KeyLe(lo, KeyOf(ordering, Insert(ordering, x, s)[j]))
  {
    var r := Insert(ordering, x, s);
    InsertIsPermutation(ordering, x, s);
    forall j | 0 <= j < |r|
      ensures KeyLe(lo, KeyOf(ordering, r[j]))
    {
      assert r[j] in multiset(r);
      if r[j] != x {
        assert r[j] in multiset(s);
        var m :| 0 <= m < |s| && s[m] == r[j];
      }
    }
  }

  lemma {:induction false} InsertKeepsSorted(ordering: CollectionOrdering, x: LibraryItem, s: seq<LibraryItem>)
    requires SortedBy(ordering, s)
    ensures SortedBy(ordering, Insert(ordering, x, s))
  {
    var kx := KeyOf(ordering, x);
    if s == [] {
    } else if KeyLe(kx, KeyOf(ordering, s[0])) {
      forall j | 0 <= j < |s| ensures KeyLe(kx, KeyOf(ordering, s[j])) {
        if j > 0 { KeyLeTransitive(kx, KeyOf(ordering, s[0]), KeyOf(ordering, s[j])); }
      }
      ConsSorted(ordering, x, s);
    } else {
      var k0 := KeyOf(ordering, s[0]);
      KeyLeTotal(kx, k0);
      var tail := s[1..];
      assert forall j :: 0 <= j < |tail| ==> tail[j] == s[j + 1];
      InsertKeepsSorted(ordering, x, tail);
      InsertBoundedBelow(ordering, x, tail, k0);
      ConsSorted(ordering, s[0], Insert(ordering, x, tail));
    }
  }

  lemma {:induction false} WithKeyOfCons(ordering: CollectionOrdering, x: LibraryItem, s: seq<LibraryItem>, k: SortKey)
    ensures WithKey(ordering, [x] + s, k) == (if KeyOf(ordering, x) == k then [x] else []) + WithKey(ordering, s, k)
  {
    assert ([x] + s)[1..] == s;
  }

  lemma {:induction false} InsertWithKey(ordering: CollectionOrdering, x: LibraryItem, s: seq<LibraryItem>, k: SortKey)
    ensures WithKey(ordering, Insert(ordering, x, s), k)
         == (if KeyOf(ordering, x) == k then [x] else []) + WithKey(ordering, s, k)
  {
    var kx := KeyOf(ordering, x);
    if s == [] {
      WithKeyOfCons(ordering, x, [], k);
    } else if KeyLe(kx, KeyOf(ordering, s[0])) {
      WithKeyOfCons(ordering, x, s, k);
    } else {
      NameLeReflexive(kx.name);
      assert KeyOf(ordering, s[0]) != kx;
      WithKeyOfCons(ordering, s[0], Insert(ordering, x, s[1..]), k);
      InsertWithKey(ordering, x, s[1..], k);
      WithKeyOfCons(ordering, s[0], s[1..], k);
      assert [s[0]] + s[1..] == s;
    }
  }

  lemma {:induction false} InsertionSortCorrect(ordering: CollectionOrdering, s: seq<LibraryItem>)
    ensures multiset(InsertionSort(ordering, s)) == multiset(s)
    ensures SortedBy(ordering, InsertionSort(ordering, s))
    ensures forall k :: WithKey(ordering, InsertionSort(ordering, s), k) == WithKey(ordering, s, k)
  {
    if s != [] {
      var tail := InsertionSort(ordering, s[1..]);
      InsertionSortCorrect(ordering, s[1..]);
      InsertIsPermutation(ordering, s[0], tail);
      InsertKeepsSorted(ordering, s[0], tail);
      assert s == [s[0]] + s[1..];
      forall k ensures WithKey(ordering, InsertionSort(ordering, s), k) == WithKey(ordering, s, k) {
        InsertWithKey(ordering, s[0], tail, k);
      }
    }
  }

  /**
   * OrderCollectionItems: the collection's items as a permutation of the
   * input, sorted by the ordering's key; items with equal keys keep their
   * input order (LINQ's OrderBy/ThenBy are stable).
   */
  function OrderCollectionItems(items: seq<LibraryItem>, ordering: CollectionOrdering): (r: seq<LibraryItem>)
    ensures multiset(r) == multiset(items)
    ensures SortedBy(ordering, r)
    ensures forall k :: WithKey(ordering, r, k) == WithKey(ordering, items, k)
  {
    InsertionSortCorrect(ordering, items);
    InsertionSort(ordering, items)
  }

  lemma {:induction false} WithKeyHasItem(ordering: CollectionOrdering, s: seq<LibraryItem>, k: SortKey)
    requires WithKey(ordering, s, k) != []
    ensures exists i :: 0 <= i < |s| && KeyOf(ordering, s[i]) == k
  {
    if KeyOf(ordering, s[0]) != k {
      WithKeyHasItem(ordering, s[1..], k);
      var i :| 0 <= i < |s[1..]| && KeyOf(ordering, s[1..][i]) == k;
      assert s[i + 1] == s[1..][i];
    }
  }

  lemma FirstKeyGroupNonEmpty(ordering: CollectionOrdering, s: seq<LibraryItem>)
    ensures s != [] ==> WithKey(ordering, s, KeyOf(ordering, s[0])) != []
  {
  }

  /** Two sorted sequences with the same key groups start with the same item. */
  lemma SameKeyGroupsSameHead(ordering: CollectionOrdering, x: seq<LibraryItem>, y: seq<LibraryItem>)
    requires x != [] && y != []
    requires SortedBy(ordering, x) && SortedBy(ordering, y)
    requires forall k :: WithKey(ordering, x, k) == WithKey(ordering, y, k)
    ensures x[0] == y[0]
  {
    var kx, ky := KeyOf(ordering, x[0]), KeyOf(ordering, y[0]);
    assert WithKey(ordering, y, kx) == WithKey(ordering, x, kx) != [];
    WithKeyHasItem(ordering, y, kx);
    var j :| 0 <= j < |y| && KeyOf(ordering, y[j]) == kx;
    assert KeyLe(ky, kx) by { NameLeReflexive(ky.name); }
    assert WithKey(ordering, x, ky) == WithKey(ordering, y, ky) != [];
    WithKeyHasItem(ordering, x, ky);
    var i :| 0 <= i < |x| && KeyOf(ordering, x[i]) == ky;
    assert KeyLe(kx, ky) by { NameLeReflexive(kx.name); }
    KeyLeAntisymmetric(kx, ky);
    assert x[0] == WithKey(ordering, x, kx)[0] == WithKey(ordering, y, kx)[0] == y[0];
  }

  /** Dropping a common head keeps the key groups equal. */
  lemma SameKeyGroupsOfTails(ordering: CollectionOrdering, x: seq<LibraryItem>, y: seq<LibraryItem>, k: SortKey)
    requires x != [] && y != [] && x[0] == y[0]
    requires WithKey(ordering, x, k) == WithKey(ordering, y, k)
    ensures WithKey(ordering, x[1..], k) == WithKey(ordering, y[1..], k)
  {
    WithKeyOfCons(ordering, x[0], x[1..], k);
    WithKeyOfCons(ordering, y[0], y[1..], k);
    assert [x[0]] + x[1..] == x && [y[0]] + y[1..] == y;
    var p := if KeyOf(ordering, x[0]) == k then [x[0]] else [];
    var tx, ty := WithKey(ordering, x[1..], k), WithKey(ordering, y[1..], k);
    assert p + tx == p + ty;
    assert (p + tx)[|p|..] == tx && (p + ty)[|p|..] == ty;
  }

  /**
   * A sorted sequence is determined by its subsequences of equal keys: two
   * sorted sequences with the same items under every key are equal.
   */
  lemma {:induction false} SortedDeterminedByKeyGroups(ordering: CollectionOrdering, x: seq<LibraryItem>, y: seq<LibraryItem>)
    requires SortedBy(ordering, x) && SortedBy(ordering, y)
    requires forall k :: WithKey(ordering, x, k) == WithKey(ordering, y, k)
    ensures x == y
    decreases |x| + |y|
  {
    if x == [] && y == [] {
    } else if x == [] || y == [] {
      FirstKeyGroupNonEmpty(ordering, x);
      FirstKeyGroupNonEmpty(ordering, y);
      assert false;
    } else {
      SameKeyGroupsSameHead(ordering, x, y);
      forall k ensures WithKey(ordering, x[1..], k) == WithKey(ordering, y[1..], k) {
        SameKeyGroupsOfTails(ordering, x, y, k);
      }
      SortedDeterminedByKeyGroups(ordering, x[1..], y[1..]);
      assert x == [x[0]] + x[1..] && y == [y[0]] + y[1..];
    }
  }

  /** The order depends on the input order only among items with equal keys. */
  lemma OrderIgnoresInputOrder(ordering: CollectionOrdering, a: seq<LibraryItem>, b: seq<LibraryItem>)
    requires forall k :: WithKey(ordering, a, k) == WithKey(ordering, b, k)
    ensures OrderCollectionItems(a, ordering) == OrderCollectionItems(b, ordering)
  {
    SortedDeterminedByKeyGroups(ordering, OrderCollectionItems(a, ordering), OrderCollectionItems(b, ordering));
  }

  /** Under SortName, items named "B" and "A" come out as [A, B] in either input order. */
  lemma SortNameExample(a: LibraryItem, b: LibraryItem)
    requires a.sortName == "A" && b.sortName == "B"
    ensures OrderCollectionItems([b, a], SortName) == [a, b]
    ensures OrderCollectionItems([a, b], SortName) == [a, b]
  {
    var ka, kb := KeyOf(SortName, a), KeyOf(SortName, b);
    assert ka != kb;
    forall k ensures WithKey(SortName, [b, a], k) == WithKey(SortName, [a, b], k) {
      WithKeyOfCons(SortName, b, [a], k);
      WithKeyOfCons(SortName, a, [b], k);
      WithKeyOfCons(SortName, a, [], k);
      WithKeyOfCons(SortName, b, [], k);
      assert [b] + [a] == [b, a] && [a] + [b] == [a, b];
    }
    assert KeyLe(ka, kb);
    assert SortedBy(SortName, [a, b]);
    OrderIgnoresInputOrder(SortName, [b, a], [a, b]);
    SortedDeterminedByKeyGroups(SortName, OrderCollectionItems([a, b], SortName), [a, b]);
  }

  /** Under ReleaseDate, an item without a premiere date comes before every item dated after DateTime.MinValue. */
  lemma MissingPremiereDateFirst(items: seq<LibraryItem>, i: nat, j: nat)
    requires var r := OrderCollectionItems(items, ReleaseDate);
      i < |r| && j < |r| && r[i].premiereDate.None? && r[j].premiereDate.Some? && r[j].premiereDate.value > MinDate
    ensures i < j
  {
  }
}
