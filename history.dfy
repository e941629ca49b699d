/**
 * `usePromptHistory`: a newest-first list of saved prompts, capped at
 * `maxItems` and mirrored under the storage key `prompt-history`.
 */
module History {
  import opened Wrappers
  import opened Seqs
  import opened JsValues
  import opened LocalStorage

  const DefaultMaxItems := 50
  const StorageKey := "prompt-history"

  /** The fields a caller passes to `addToHistory`, kept as given. */
  datatype HistoryItem = HistoryItem(modality: string, model: string, inputs: Form, prompt: string)

  /** A saved entry: the caller's item plus the fields `addToHistory` assigns. */
  datatype HistoryEntry = HistoryEntry(id: string, timestamp: string, favorite: bool, item: HistoryItem)

  /** `history-${Date.now()}` for the clock reading `now`. */
  function HistoryId(now: int): string {
    "history-" + IntToString(now)
  }

  /** The entry `addToHistory` builds: a new entry is never a favourite. */
  function NewEntry(item: HistoryItem, id: string, timestamp: string): (e: HistoryEntry)
    ensures e.id == id && e.timestamp == timestamp && !e.favorite && e.item == item
  {
    HistoryEntry(id, timestamp, false, item)
  }

  // ---------------------------------------------------------------- updaters

  /** `[newItem, ...prev].slice(0, maxItems)`. */
  function AddEntry(prev: seq<HistoryEntry>, entry: HistoryEntry, maxItems: int): seq<HistoryEntry> {
    SliceTo([entry] + prev, maxItems)
  }

  /** `prev.filter((item) => item.id !== id)`. */
  function RemoveById(prev: seq<HistoryEntry>, id: string): seq<HistoryEntry> {
    Filter(prev, (e: HistoryEntry) => e.id != id)
  }

  function Toggled(e: HistoryEntry, id: string): HistoryEntry {
    if e.id == id then e.(favorite := !e.favorite) else e
  }

  /** `prev.map(...)` flipping `favorite` on the entries with that id. */
  function ToggleFavorite(prev: seq<HistoryEntry>, id: string): (r: seq<HistoryEntry>)
    ensures |r| == |prev|
    ensures forall i :: 0 <= i < |prev| ==> r[i] == Toggled(prev[i], id)
  {
    seq(|prev|, i requires 0 <= i < |prev| => Toggled(prev[i], id))
  }

  /** `history.filter((item) => item.favorite)`. */
  function Favorites(history: seq<HistoryEntry>): seq<HistoryEntry> {
    Filter(history, (e: HistoryEntry) => e.favorite)
  }

  // ---------------------------------------------------------------- adding

  /**
   * With a positive cap the new entry comes first, followed by the newest
   * `maxItems - 1` earlier entries, and the length is `min(|prev| + 1, maxItems)`.
   */
  lemma AddEntryNewestFirst(prev: seq<HistoryEntry>, entry: HistoryEntry, maxItems: int)
    requires maxItems >= 1
    ensures var r := AddEntry(prev, entry, maxItems);
      && |r| == (if |prev| + 1 <= maxItems then |prev| + 1 else maxItems)
      && r[0] == entry
      && r[1..] == prev[..|r| - 1]
  {
    var r := AddEntry(prev, entry, maxItems);
    assert r == ([entry] + prev)[..|r|];
    assert r[1..] == prev[..|r| - 1];
  }

  /** A new entry is never a favourite: after adding one, the favourites are those of the older entries kept. */
  lemma AddEntryFavorites(prev: seq<HistoryEntry>, item: HistoryItem, id: string, timestamp: string, maxItems: int)
    requires maxItems >= 1
    ensures var r := AddEntry(prev, NewEntry(item, id, timestamp), maxItems);
      Favorites(r) == Favorites(prev[..|r| - 1])
  {
    var e := NewEntry(item, id, timestamp);
    var r := AddEntry(prev, e, maxItems);
    AddEntryNewestFirst(prev, e, maxItems);
    assert r == [e] + prev[..|r| - 1];
    FilterAppend([e], prev[..|r| - 1], (x: HistoryEntry) => x.favorite);
  }

  /** At the cap the oldest entry is dropped, and the length stays `maxItems`. */
  lemma AddEntryEvictsOldest(prev: seq<HistoryEntry>, entry: HistoryEntry, maxItems: int)
    requires maxItems >= 1 && |prev| == maxItems
    ensures |AddEntry(prev, entry, maxItems)| == maxItems
    ensures AddEntry(prev, entry, maxItems) == [entry] + prev[..maxItems - 1]
  {
    var r := AddEntry(prev, entry, maxItems);
    AddEntryNewestFirst(prev, entry, maxItems);
    assert r == [r[0]] + r[1..];
  }

  /** A non-negative cap is never exceeded, however long the list was. */
  lemma AddEntryWithinCap(prev: seq<HistoryEntry>, entry: HistoryEntry, maxItems: int)
    requires maxItems >= 0
    ensures |AddEntry(prev, entry, maxItems)| <= maxItems
  {
  }

  /** Adding to an empty history gives the new entry alone. */
  lemma AddToEmpty(entry: HistoryEntry, maxItems: int)
    requires maxItems >= 1
    ensures AddEntry([], entry, maxItems) == [entry]
  {
  }

  /** Several additions in order, oldest first. */
  function AddAll(prev: seq<HistoryEntry>, entries: seq<HistoryEntry>, maxItems: int): seq<HistoryEntry>
    decreases |entries|
  {
    if entries == [] then prev else AddAll(AddEntry(prev, entries[0], maxItems), entries[1..], maxItems)
  }

  /** A run of additions leaves the newest `maxItems` of them, newest first, ahead of the old list. */
  lemma {:induction false} AddAllNewestFirst(prev: seq<HistoryEntry>, entries: seq<HistoryEntry>, maxItems: int)
    requires maxItems >= 1 && |prev| <= maxItems
    ensures AddAll(prev, entries, maxItems) == SliceTo(Reverse(entries) + prev, maxItems)
    decreases |entries|
  {
    if entries == [] {
      assert Reverse(entries) + prev == prev;
    } else {
      var e, rest := entries[0], entries[1..];
      var next := AddEntry(prev, e, maxItems);
      AddEntryWithinCap(prev, e, maxItems);
      AddAllNewestFirst(next, rest, maxItems);
      SliceToAppendSliceTo(Reverse(rest), [e] + prev, maxItems);
      assert Reverse(entries) == Reverse(rest) + [e];
      assert Reverse(rest) + ([e] + prev) == Reverse(entries) + prev;
    }
  }

  /** After `maxItems + 1` additions to an empty history the first one is gone. */
  lemma OldestEvicted(entries: seq<HistoryEntry>, maxItems: int)
    requires maxItems >= 1 && |entries| == maxItems + 1 && Distinct(entries)
    ensures |AddAll([], entries, maxItems)| == maxItems
    ensures entries[0] !in AddAll([], entries, maxItems)
    ensures forall i :: 1 <= i < |entries| ==> entries[i] in AddAll([], entries, maxItems)
  {
    AddAllNewestFirst([], entries, maxItems);
    var rev := Reverse(entries);
    assert rev + [] == rev;
    var r := AddAll([], entries, maxItems);
    assert r == rev[..maxItems];
    forall j | 0 <= j < |r| ensures r[j] != entries[0] {
      assert r[j] == entries[|entries| - 1 - j];
    }
    forall i | 1 <= i < |entries| ensures entries[i] in r {
      assert r[|entries| - 1 - i] == entries[i];
    }
  }

  // ---------------------------------------------------------------- removing

  /** An entry survives exactly when its id differs, and then as many times as it occurred. */
  lemma RemoveByIdMembers(prev: seq<HistoryEntry>, id: string, e: HistoryEntry)
    ensures e in RemoveById(prev, id) <==> e in prev && e.id != id
    ensures multiset(RemoveById(prev, id))[e] == if e.id != id then multiset(prev)[e] else 0
  {
    FilterMembers(prev, (x: HistoryEntry) => x.id != id, e);
    FilterMultiset(prev, (x: HistoryEntry) => x.id != id, e);
  }

  /** The survivors keep their order. */
  lemma RemoveByIdKeepsOrder(prev: seq<HistoryEntry>, id: string)
    ensures IsSublist(RemoveById(prev, id), prev)
  {
    FilterIsSublist(prev, (x: HistoryEntry) => x.id != id);
  }

  /** Removing an id that no entry carries is a no-op. */
  lemma RemoveAbsentId(prev: seq<HistoryEntry>, id: string)
    requires forall i :: 0 <= i < |prev| ==> prev[i].id != id
    ensures RemoveById(prev, id) == prev
  {
    FilterKeepsAll(prev, (x: HistoryEntry) => x.id != id);
  }

  // ---------------------------------------------------------------- favourites

  /** Toggling the same id twice restores the list. */
  lemma ToggleTwice(prev: seq<HistoryEntry>, id: string)
    ensures ToggleFavorite(ToggleFavorite(prev, id), id) == prev
  {
  }

  /** Toggling changes only `favorite`, and only on entries with that id. */
  lemma ToggleKeepsOtherFields(prev: seq<HistoryEntry>, id: string)
    ensures var r := ToggleFavorite(prev, id);
      forall i :: 0 <= i < |prev| ==>
        && r[i].id == prev[i].id && r[i].timestamp == prev[i].timestamp && r[i].item == prev[i].item
        && (r[i].favorite != prev[i].favorite <==> prev[i].id == id)
  {
  }

  /**
   * The favourites after a toggle: the favourites with another id, and the
   * non-favourite entries with that id, now marked.
   */
  lemma ToggleFavoritesView(prev: seq<HistoryEntry>, id: string, e: HistoryEntry)
    ensures e in Favorites(ToggleFavorite(prev, id)) <==>
      e.favorite && ((e.id != id && e in prev) || (e.id == id && e.(favorite := false) in prev))
  {
    var r := ToggleFavorite(prev, id);
    FilterMembers(r, (x: HistoryEntry) => x.favorite, e);
    if e in r && e.favorite {
      var i :| 0 <= i < |r| && r[i] == e;
      if prev[i].id == id {
        assert prev[i] == e.(favorite := false);
      } else {
        assert prev[i] == e;
      }
    }
    if e.favorite && e.id != id && e in prev {
      var i :| 0 <= i < |prev| && prev[i] == e;
      assert r[i] == e;
    }
    if e.favorite && e.id == id && e.(favorite := false) in prev {
      var i :| 0 <= i < |prev| && prev[i] == e.(favorite := false);
      assert r[i] == e;
    }
  }

  /** Toggling an id that no entry carries is a no-op. */
  lemma ToggleAbsentId(prev: seq<HistoryEntry>, id: string)
    requires forall i :: 0 <= i < |prev| ==> prev[i].id != id
    ensures ToggleFavorite(prev, id) == prev
  {
  }

  /** The favourites view holds exactly the favourite entries, in history order. */
  lemma FavoritesView(history: seq<HistoryEntry>, e: HistoryEntry)
    ensures e in Favorites(history) <==> e in history && e.favorite
    ensures IsSublist(Favorites(history), history)
  {
    FilterMembers(history, (x: HistoryEntry) => x.favorite, e);
    FilterIsSublist(history, (x: HistoryEntry) => x.favorite);
  }

  /** Removing an entry and then taking favourites is taking favourites and then removing it. */
  lemma RemoveThenFavorites(history: seq<HistoryEntry>, id: string)
    ensures Favorites(RemoveById(history, id)) == RemoveById(Favorites(history), id)
  {
    var keep := (x: HistoryEntry) => x.id != id;
    var fav := (x: HistoryEntry) => x.favorite;
    var both := (x: HistoryEntry) => x.id != id && x.favorite;
    FilterFilter(history, keep, fav, both);
    FilterFilter(history, fav, keep, both);
  }

  // ---------------------------------------------------------------- the hook

  /** The hook's state: the list, kept in a storage cell under `prompt-history`. */
  class HistoryStore {
    const maxItems: int
    const cell: StoredCell<seq<HistoryEntry>>

    /** `usePromptHistory(maxItems = 50)`: an unreadable or absent item starts an empty history. */
    constructor(maxItems: Option<int>, load: LoadResult<seq<HistoryEntry>>)
      ensures this.maxItems == maxItems.GetOr(DefaultMaxItems)
      ensures fresh(cell) && cell.key == StorageKey
      ensures cell.value == InitialState(load, []) && cell.persisted == None
    {
      this.maxItems := maxItems.GetOr(DefaultMaxItems);
      cell := new StoredCell(StorageKey, load, []);
    }

    /** `addToHistory(item)` at clock reading `now`; returns the id it stored. */
    method AddToHistory(item: HistoryItem, now: int, timestamp: string, writeOk: bool) returns (id: string)
      modifies cell
      ensures id == HistoryId(now)
      ensures cell.value == AddEntry(old(cell.value), NewEntry(item, id, timestamp), maxItems)
      ensures cell.value != [] ==> cell.value[0].id == id && !cell.value[0].favorite
      ensures maxItems >= 0 ==> |cell.value| <= maxItems
      ensures cell.persisted == if writeOk then Some(cell.value) else old(cell.persisted)
    {
      var newItem := NewEntry(item, HistoryId(now), timestamp);
      var max := maxItems;
      cell.SetValue(Updater(prev => AddEntry(prev, newItem, max)), writeOk);
      id := newItem.id;
    }

    /** `removeFromHistory(id)`. */
    method RemoveFromHistory(id: string, writeOk: bool)
      modifies cell
      ensures cell.value == RemoveById(old(cell.value), id)
      ensures cell.persisted == if writeOk then Some(cell.value) else old(cell.persisted)
    {
      cell.SetValue(Updater(prev => RemoveById(prev, id)), writeOk);
    }

    /** `toggleFavorite(id)`. */
    method ToggleFavoriteOf(id: string, writeOk: bool)
      modifies cell
      ensures cell.value == ToggleFavorite(old(cell.value), id)
      ensures cell.persisted == if writeOk then Some(cell.value) else old(cell.persisted)
    {
      cell.SetValue(Updater(prev => ToggleFavorite(prev, id)), writeOk);
    }

    /** `clearHistory()`. */
    method ClearHistory(writeOk: bool)
      modifies cell
      ensures cell.value == []
      ensures cell.persisted == if writeOk then Some([]) else old(cell.persisted)
    {
      cell.SetValue(NewValue([]), writeOk);
    }

    /** `getFavorites()`. */
    method GetFavorites() returns (favorites: seq<HistoryEntry>)
      ensures favorites == Favorites(cell.value)
    {
      favorites := Favorites(cell.value);
    }
  }
}
