/** The journal's entry store: `saveEntry`, `loadEntries`, `deleteEntry` and `moveEntryToFolder`,
    which keep the whole list of entries as one JSON array under the local-storage key
    "elementa_entries". The same four functions appear, line for line, in
    Elementa/src/lib/infra/messenger.js and client/js/infra/messenger.js; this one model covers
    both. Every operation reads the whole list, changes it and writes the whole list back. */
module EntryStore {
  import opened Common

  /** What the key holds: nothing, text that does not parse as a list of entries, or a list. */
  datatype Stored = Absent | Corrupt | Entries(list: seq<Entry>)

  const SaveFailed := "Could not save entry to local storage."
  const DeleteFailed := "Could not delete entry."
  const MoveFailed := "Could not move entry to folder."

  /** `JSON.parse(localStorage.getItem(key) || "[]")`: a missing key reads as the empty list;
      unparsable text throws (`None`). */
  function Parsed(v: Stored): (r: Option<seq<Entry>>)
    ensures r.None? <==> v.Corrupt?
    ensures v.Absent? ==> r == Some([])
  {
    match v
    case Absent => Some([])
    case Corrupt => None
    case Entries(list) => Some(list)
  }

  /** Newest first: ids never increase along the list. */
  predicate SortedDesc(s: seq<Entry>)
  {
    forall i, j :: 0 <= i < j < |s| ==> s[i].id >= s[j].id
  }

  /** The entries carrying `id`, in their order in `s`. */
  function WithId(s: seq<Entry>, id: int): seq<Entry>
  {
    if s == [] then [] else (if s[0].id == id then [s[0]] else []) + WithId(s[1..], id)
  }

  /** One step of a stable sort by descending id: `x` goes before the first entry whose id is
      not larger than its own. */
  function Insert(x: Entry, s: seq<Entry>): seq<Entry>
  {
    if s == [] || s[0].id <= x.id then [x] + s else [s[0]] + Insert(x, s[1..])
  }

  /** `entries.sort((a, b) => b.id - a.id)`. `Array.prototype.sort` is stable, so entries with
      equal ids keep their relative order; this is a stable insertion sort. */
  function SortDesc(s: seq<Entry>): seq<Entry>
  {
    if s == [] then [] else Insert(s[0], SortDesc(s[1..]))
  }

  /** Inserting adds exactly `x`. */
  lemma {:induction false} InsertMultiset(x: Entry, s: seq<Entry>)
    ensures multiset(Insert(x, s)) == multiset(s) + multiset{x}
  {
    if s != [] && s[0].id > x.id {
      InsertMultiset(x, s[1..]);
      assert s == [s[0]] + s[1..];
    }
  }

  /** No entry of `s` is newer than `b`. */
  predicate AtMost(s: seq<Entry>, b: int)
  {
    forall i :: 0 <= i < |s| ==> s[i].id <= b
  }

  /** Inserting an entry no newer than `b` into a list no newer than `b` keeps that bound. */
  lemma {:induction false} InsertAtMost(x: Entry, s: seq<Entry>, b: int)
    requires AtMost(s, b) && x.id <= b
    ensures AtMost(Insert(x, s), b)
  {
    if s != [] && s[0].id > x.id {
      InsertAtMost(x, s[1..], b);
      assert Insert(x, s) == [s[0]] + Insert(x, s[1..]);
    }
  }

  /** A newest-first tail below a head that is at least as new is a newest-first list. */
  lemma SortedCons(y: Entry, t: seq<Entry>)
    requires SortedDesc(t) && AtMost(t, y.id)
    ensures SortedDesc([y] + t)
  {
    var r := [y] + t;
    forall i, j | 0 <= i < j < |r| ensures r[i].id >= r[j].id {
      assert r[j] == t[j - 1];
      if i > 0 {
        assert r[i] == t[i - 1];
      }
    }
  }

  /** Inserting keeps the list newest first. */
  lemma {:induction false} InsertSorted(x: Entry, s: seq<Entry>)
    requires SortedDesc(s)
    ensures SortedDesc(Insert(x, s))
  {
    if s == [] || s[0].id <= x.id {
      SortedCons(x, s);
    } else {
      InsertSorted(x, s[1..]);
      assert AtMost(s[1..], s[0].id) by {
        forall i | 0 <= i < |s[1..]| ensures s[1..][i].id <= s[0].id {
          assert s[1..][i] == s[i + 1];
        }
      }
      InsertAtMost(x, s[1..], s[0].id);
      SortedCons(s[0], Insert(x, s[1..]));
    }
  }

  /** The entries of a list with a given head that carry `k`. */
  lemma WithIdCons(y: Entry, t: seq<Entry>, k: int)
    ensures WithId([y] + t, k) == (if y.id == k then [y] else []) + WithId(t, k)
  {
    assert ([y] + t)[1..] == t;
  }

  /** Inserting puts `x` ahead of every entry that carries the same id and keeps the order of
      the others. */
  lemma {:induction false} InsertWithId(x: Entry, s: seq<Entry>, k: int)
    ensures WithId(Insert(x, s), k) == (if x.id == k then [x] else []) + WithId(s, k)
  {
    if s == [] || s[0].id <= x.id {
      assert Insert(x, s) == [x] + s;
      WithIdCons(x, s, k);
    } else {
      var t := Insert(x, s[1..]);
      var rest := WithId(s[1..], k);
      InsertWithId(x, s[1..], k);
      assert Insert(x, s) == [s[0]] + t;
      WithIdCons(s[0], t, k);
      WithIdCons(s[0], s[1..], k);
      assert [s[0]] + s[1..] == s;
      if s[0].id == k {
        // `x` has a smaller id than `s[0]`, so it does not carry `k`.
        assert x.id != k;
        assert WithId(Insert(x, s), k) == [s[0]] + rest;
      } else if x.id == k {
        assert WithId(Insert(x, s), k) == [x] + rest;
      } else {
        assert WithId(Insert(x, s), k) == rest;
      }
    }
  }

  /** The stored order is a stable sort: it is descending by id, it holds the same entries, and
      for every id the entries carrying it stay in their original order. */
  lemma {:induction false} SortDescSpec(s: seq<Entry>)
    ensures SortedDesc(SortDesc(s))
    ensures multiset(SortDesc(s)) == multiset(s)
    ensures forall k :: WithId(SortDesc(s), k) == WithId(s, k)
  {
    if s != [] {
      SortDescSpec(s[1..]);
      InsertSorted(s[0], SortDesc(s[1..]));
      InsertMultiset(s[0], SortDesc(s[1..]));
      forall k ensures WithId(SortDesc(s), k) == WithId(s, k) {
        InsertWithId(s[0], SortDesc(s[1..]), k);
      }
      assert s == [s[0]] + s[1..];
    }
  }

  /** A list already newest first is left as it is by the sort. */
  lemma {:induction false} SortDescOfSorted(s: seq<Entry>)
    requires SortedDesc(s)
    ensures SortDesc(s) == s
  {
    if s != [] {
      SortDescOfSorted(s[1..]);
      assert s == [s[0]] + s[1..];
    }
  }

  /** `loadEntries`: the parsed list sorted newest first, or the empty list when the key is
      missing or its text does not parse. */
  function Loaded(v: Stored): (r: seq<Entry>)
    ensures SortedDesc(r)
    ensures v.Entries? ==> multiset(r) == multiset(v.list)
    ensures !v.Entries? ==> r == []
  {
    match Parsed(v)
    case None => []
    case Some(list) => SortDescSpec(list); SortDesc(list)
  }

  /** Reading twice, or writing back what was read and reading again, gives the same list. */
  lemma ReloadIsStable(v: Stored)
    ensures Loaded(Entries(Loaded(v))) == Loaded(v)
  {
    SortDescOfSorted(Loaded(v));
  }

  /** No id is carried by two entries of `s`. */
  ghost predicate DistinctIds(s: seq<Entry>)
  {
    forall k :: |WithId(s, k)| <= 1
  }

  /** Strictly newest first: ids decrease along the list. */
  predicate StrictlyDesc(s: seq<Entry>)
  {
    forall i, j :: 0 <= i < j < |s| ==> s[i].id > s[j].id
  }

  /** An entry of `s` is among the entries of `s` that carry its id. */
  lemma {:induction false} WithIdHolds(s: seq<Entry>, i: nat)
    requires i < |s|
    ensures WithId(s, s[i].id) != []
  {
    if i > 0 {
      WithIdHolds(s[1..], i - 1);
      assert s[1..][i - 1] == s[i];
    }
  }

  /** A newest-first list in which no id repeats is strictly newest first. */
  lemma {:induction false} DistinctSortedIsStrict(s: seq<Entry>)
    requires SortedDesc(s) && DistinctIds(s)
    ensures StrictlyDesc(s)
  {
    if s != [] {
      var t := s[1..];
      assert SortedDesc(t) by {
        forall i, j | 0 <= i < j < |t| ensures t[i].id >= t[j].id {
          assert t[i] == s[i + 1] && t[j] == s[j + 1];
        }
      }
      assert DistinctIds(t) by {
        forall k ensures |WithId(t, k)| <= 1 {
          assert |WithId(s, k)| <= 1;
        }
      }
      DistinctSortedIsStrict(t);
      forall i, j | 0 <= i < j < |s| ensures s[i].id > s[j].id {
        if i == 0 {
          WithIdHolds(t, j - 1);
          assert t[j - 1] == s[j];
          assert |WithId(s, s[0].id)| <= 1;
        } else {
          assert s[i] == t[i - 1] && s[j] == t[j - 1];
        }
      }
    }
  }

  /** When no stored id repeats (every save used a fresh id), loading lists the entries
      strictly newest first. */
  lemma LoadDistinctIsStrict(list: seq<Entry>)
    requires DistinctIds(list)
    ensures StrictlyDesc(Loaded(Entries(list)))
  {
    SortDescSpec(list);
    DistinctSortedIsStrict(SortDesc(list));
  }

  /** `entries.filter((entry) => entry.id !== id)`: exactly the entries whose id differs. */
  function Without(s: seq<Entry>, id: int): (r: seq<Entry>)
    ensures |r| <= |s|
    ensures forall x :: x in r <==> x in s && x.id != id
  {
    if s == [] then [] else (if s[0].id != id then [s[0]] else []) + Without(s[1..], id)
  }

  /** Filtering keeps the newest-first order. */
  lemma {:induction false} WithoutSorted(s: seq<Entry>, id: int)
    requires SortedDesc(s)
    ensures SortedDesc(Without(s, id))
  {
    if s != [] {
      WithoutSorted(s[1..], id);
      var t := Without(s[1..], id);
      forall y | y in t ensures y.id <= s[0].id {
        var k :| 0 <= k < |s[1..]| && s[1..][k] == y;
        assert s[k + 1] == y;
      }
    }
  }

  /** An id that no entry carries filters nothing. */
  lemma {:induction false} WithoutAbsent(s: seq<Entry>, id: int)
    requires forall x :: x in s ==> x.id != id
    ensures Without(s, id) == s
  {
    if s != [] {
      assert s[0] in s;
      WithoutAbsent(s[1..], id);
      assert s == [s[0]] + s[1..];
    }
  }

  /** Filtering removes exactly the entries that carry the id. */
  lemma {:induction false} WithoutCount(s: seq<Entry>, id: int)
    ensures |Without(s, id)| + |WithId(s, id)| == |s|
  {
    if s != [] {
      WithoutCount(s[1..], id);
    }
  }

  /** Position `i` holds the first entry of `s` that carries `id`. */
  predicate FirstWithId(s: seq<Entry>, id: int, i: nat)
  {
    i < |s| && s[i].id == id && forall j :: 0 <= j < i ==> s[j].id != id
  }

  /** `entries.findIndex((entry) => entry.id === id)`: the first position holding `id`, or
      `None` (the source's -1) when no entry carries it. */
  function FindIndex(s: seq<Entry>, id: int): (r: Option<nat>)
    ensures r.Some? ==> FirstWithId(s, id, r.value)
    ensures r.None? <==> forall j :: 0 <= j < |s| ==> s[j].id != id
  {
    if s == [] then None
    else if s[0].id == id then Some(0)
    else match FindIndex(s[1..], id)
      case None => None
      case Some(i) => Some(i + 1)
  }

  /** The list `moveEntryToFolder` writes: `None` when no entry carries `id`; otherwise the same
      entries in the same order, where only the first entry carrying `id` has its `folder`
      replaced and no other field or entry changes. */
  function Relocated(s: seq<Entry>, id: int, newFolder: string): (r: Option<seq<Entry>>)
    ensures r.None? <==> forall j :: 0 <= j < |s| ==> s[j].id != id
    ensures r.Some? ==> |r.value| == |s|
    ensures r.Some? ==> exists i: nat :: (FirstWithId(s, id, i)
              && r.value[i] == s[i].(folder := newFolder)
              && forall j :: 0 <= j < |s| && j != i ==> r.value[j] == s[j])
  {
    match FindIndex(s, id)
    case None => None
    case Some(i) =>
      Some(s[i := s[i].(folder := newFolder)])
  }

  /** Moving changes no id, so a newest-first list stays newest first. */
  lemma RelocatedKeepsOrder(s: seq<Entry>, id: int, newFolder: string)
    requires SortedDesc(s) && Relocated(s, id, newFolder).Some?
    ensures SortedDesc(Relocated(s, id, newFolder).value)
  {
    var r := Relocated(s, id, newFolder).value;
    assert forall j :: 0 <= j < |s| ==> r[j].id == s[j].id;
  }

  /** The list a successful save writes: newest first, holding the old entries and the new one,
      with the new entry ahead of every older entry that carries the same id. */
  lemma SavedListSpec(entry: Entry, old_: seq<Entry>)
    ensures SortedDesc(SortDesc([entry] + old_))
    ensures multiset(SortDesc([entry] + old_)) == multiset(old_) + multiset{entry}
    ensures WithId(SortDesc([entry] + old_), entry.id) == [entry] + WithId(old_, entry.id)
  {
    SortDescSpec([entry] + old_);
    assert ([entry] + old_)[1..] == old_;
  }

  /** Saving an entry newer than everything in a newest-first list puts it at the head. */
  lemma NewestSaveGoesFirst(entry: Entry, old_: seq<Entry>)
    requires SortedDesc(old_)
    requires forall x :: x in old_ ==> x.id < entry.id
    ensures SortDesc([entry] + old_) == [entry] + old_
  {
    SortDescOfSorted([entry] + old_);
  }

  /** Filtering out the id of an inserted entry also filters out the insertion. */
  lemma {:induction false} WithoutInsert(x: Entry, s: seq<Entry>)
    ensures Without(Insert(x, s), x.id) == Without(s, x.id)
  {
    if s != [] && s[0].id > x.id {
      WithoutInsert(x, s[1..]);
      assert Insert(x, s) == [s[0]] + Insert(x, s[1..]);
      assert (Insert(x, s))[1..] == Insert(x, s[1..]);
    } else {
      assert (Insert(x, s))[1..] == s;
    }
  }

  /** Deleting right after saving gives back what loading before the save gave, without the
      entries carrying the saved id. */
  lemma DeleteAfterSave(entry: Entry, old_: seq<Entry>)
    ensures Without(Loaded(Entries(SortDesc([entry] + old_))), entry.id)
            == Without(Loaded(Entries(old_)), entry.id)
  {
    SortDescSpec([entry] + old_);
    SortDescOfSorted(SortDesc([entry] + old_));
    assert ([entry] + old_)[1..] == old_;
    WithoutInsert(entry, SortDesc(old_));
  }

  /** Saving an entry whose id no stored entry carries keeps the ids distinct. */
  lemma SaveKeepsDistinct(entry: Entry, old_: seq<Entry>)
    requires DistinctIds(old_) && WithId(old_, entry.id) == []
    ensures DistinctIds(SortDesc([entry] + old_))
  {
    SortDescSpec([entry] + old_);
    forall k ensures |WithId(SortDesc([entry] + old_), k)| <= 1 {
      WithIdCons(entry, old_, k);
    }
  }

  /** A list loads with the same entries per id, so loading keeps the ids distinct. */
  lemma LoadKeepsDistinct(v: Stored)
    requires v.Entries? ==> DistinctIds(v.list)
    ensures DistinctIds(Loaded(v))
  {
    if v.Entries? {
      SortDescSpec(v.list);
    }
  }

  /** Filtering never adds an entry with a given id. */
  lemma {:induction false} WithoutWithId(s: seq<Entry>, id: int, k: int)
    ensures |WithId(Without(s, id), k)| <= |WithId(s, k)|
  {
    if s != [] {
      WithoutWithId(s[1..], id, k);
      if s[0].id != id {
        assert Without(s, id) == [s[0]] + Without(s[1..], id);
        WithIdCons(s[0], Without(s[1..], id), k);
      } else {
        assert Without(s, id) == Without(s[1..], id);
      }
    }
  }

  /** Deleting keeps the ids distinct. */
  lemma DeleteKeepsDistinct(s: seq<Entry>, id: int)
    requires DistinctIds(s)
    ensures DistinctIds(Without(s, id))
  {
    forall k ensures |WithId(Without(s, id), k)| <= 1 {
      WithoutWithId(s, id, k);
    }
  }

  /** Two lists with the same id at every position have as many entries with each id. */
  lemma {:induction false} SameIdsSameCounts(a: seq<Entry>, b: seq<Entry>, k: int)
    requires |a| == |b| && forall j :: 0 <= j < |a| ==> a[j].id == b[j].id
    ensures |WithId(a, k)| == |WithId(b, k)|
  {
    if a != [] {
      SameIdsSameCounts(a[1..], b[1..], k);
    }
  }

  /** Moving keeps the ids distinct. */
  lemma MoveKeepsDistinct(s: seq<Entry>, id: int, newFolder: string)
    requires DistinctIds(s) && Relocated(s, id, newFolder).Some?
    ensures DistinctIds(Relocated(s, id, newFolder).value)
  {
    var r := Relocated(s, id, newFolder).value;
    forall k ensures |WithId(r, k)| <= 1 {
      SameIdsSameCounts(r, s, k);
    }
  }

  /** Two saves with fresh, different ids into a store without repeated ids load strictly
      newest first. */
  lemma TwoFreshSavesLoadStrictly(first: Entry, second: Entry, old_: seq<Entry>)
    requires DistinctIds(old_)
    requires WithId(old_, first.id) == [] && WithId(old_, second.id) == []
    requires first.id != second.id
    ensures StrictlyDesc(Loaded(Entries(SortDesc([second] + SortDesc([first] + old_)))))
  {
    var afterFirst := SortDesc([first] + old_);
    SaveKeepsDistinct(first, old_);
    SortDescSpec([first] + old_);
    WithIdCons(first, old_, second.id);
    SaveKeepsDistinct(second, afterFirst);
    LoadDistinctIsStrict(SortDesc([second] + afterFirst));
  }

  /** The local-storage key "elementa_entries" and the four operations over it. */
  class Journal {
    /** The value under the key. */
    var stored: Stored

    constructor (initial: Stored)
      ensures stored == initial
    {
      stored := initial;
    }

    /** `localStorage.setItem(key, JSON.stringify(list))`, which may throw (quota exceeded,
        storage disabled): then nothing is written. */
    method SetItem(list: seq<Entry>) returns (ok: bool)
      modifies this
      ensures ok ==> stored == Entries(list)
      ensures !ok ==> stored == old(stored)
    {
      ok := *;
      if ok {
        stored := Entries(list);
      }
    }

    /** `loadEntries`: never fails; the stored entries newest first, or none when the key is
        missing or corrupt. */
    method Load() returns (entries: seq<Entry>)
      ensures entries == Loaded(stored)
      ensures SortedDesc(entries)
      ensures stored.Entries? ==> multiset(entries) == multiset(stored.list)
      ensures !stored.Entries? ==> entries == []
    {
      match Parsed(stored)
      case None =>
        entries := [];
      case Some(list) =>
        entries := list;
        entries := SortDesc(entries);
    }

    /** `saveEntry`: unparsable stored text or a failed write rejects with SaveFailed and leaves
        the key as it was; otherwise the entry goes to the head of the stored list, the list is
        sorted newest first and written back. */
    method Save(entry: Entry) returns (r: Outcome)
      modifies this
      ensures old(stored).Corrupt? ==> r == Failed(SaveFailed) && stored == old(stored)
      ensures old(stored).Absent? ==>
                (r == Done && stored == Entries([entry]))
                || (r == Failed(SaveFailed) && stored == old(stored))
      ensures old(stored).Entries? ==>
                (r == Done && stored == Entries(SortDesc([entry] + old(stored).list)))
                || (r == Failed(SaveFailed) && stored == old(stored))
    {
      match Parsed(stored)
      case None =>
        r := Failed(SaveFailed);
      case Some(list) =>
        var entries := list;
        entries := [entry] + entries;
        entries := SortDesc(entries);
        assert list == [] ==> entries == Insert(entry, SortDesc([]));
        var ok := SetItem(entries);
        r := if ok then Done else Failed(SaveFailed);
    }

    /** `deleteEntry`: writes the loaded list without the entries carrying `id` (a missing id
        is no error; a corrupt key is rewritten as the empty list); a failed write rejects with
        DeleteFailed and leaves the key as it was. */
    method Delete(id: int) returns (r: Outcome)
      modifies this
      ensures (r == Done && stored == Entries(Without(Loaded(old(stored)), id)))
              || (r == Failed(DeleteFailed) && stored == old(stored))
    {
      var entries := Load();
      var updated := Without(entries, id);
      var ok := SetItem(updated);
      r := if ok then Done else Failed(DeleteFailed);
    }

    /** `moveEntryToFolder`: when no loaded entry carries `id` it rejects with MoveFailed and
        writes nothing; otherwise it sets the folder of the first such entry and writes the
        loaded list back, and a failed write rejects with MoveFailed. */
    method MoveToFolder(id: int, newFolder: string) returns (r: Outcome)
      modifies this
      ensures Relocated(Loaded(old(stored)), id, newFolder).None? ==>
                r == Failed(MoveFailed) && stored == old(stored)
      ensures Relocated(Loaded(old(stored)), id, newFolder).Some? ==>
                (r == Done && stored == Entries(Relocated(Loaded(old(stored)), id, newFolder).value))
                || (r == Failed(MoveFailed) && stored == old(stored))
    {
      var entries := Load();
      var entryIndex := FindIndex(entries, id);
      if entryIndex.None? {
        r := Failed(MoveFailed);
        return;
      }
      var i := entryIndex.value;
      entries := entries[i := entries[i].(folder := newFolder)];
      var ok := SetItem(entries);
      r := if ok then Done else Failed(MoveFailed);
    }
  }

  /** Saving entry 2 and then entry 1 into an empty store lists entry 2 first; moving entry 2
      to "water" then changes its folder and keeps its element. */
  lemma SaveAndMoveScenario(hot: Entry, cool: Entry)
    requires hot == Entry(2, "fire", "hot", "fire", "T2")
    requires cool == Entry(1, "water", "cool", "water", "T1")
    ensures SortDesc([hot] + []) == [hot]
    ensures SortDesc([cool] + [hot]) == [hot, cool]
    ensures Loaded(Entries([hot, cool])) == [hot, cool]
    ensures Relocated([hot, cool], 2, "water") == Some([hot.(folder := "water"), cool])
  {
    assert [cool] + [hot] == [cool, hot];
    assert SortDesc([cool, hot]) == Insert(cool, SortDesc([hot]));
    SortDescOfSorted([hot, cool]);
    assert FindIndex([hot, cool], 2) == Some(0);
    assert [hot, cool][0 := hot.(folder := "water")] == [hot.(folder := "water"), cool];
  }
}
