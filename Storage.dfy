/** The persistence adapter: the last search query is kept in the browser's
    key-value store under one fixed key, and the adapter reads, writes and
    removes that one entry only. */
module Storage {

  /** The one key the adapter uses. */
  const SearchHistoryKey: string := "@post_explorer_search_query"

  /** What a read of the key yields: the stored string, or `""` when nothing is
      stored under the key. */
  function ReadQuery(entries: map<string, string>): (query: string)
    ensures SearchHistoryKey in entries ==> query == entries[SearchHistoryKey]
    ensures SearchHistoryKey !in entries ==> query == ""
  {
    if SearchHistoryKey in entries then entries[SearchHistoryKey] else ""
  }

  /** The adapter together with the store behind it. `entries` is the whole
      key-value store, so that "every other entry is left alone" can be said. */
  class SearchStorage {
    var entries: map<string, string>

    constructor (initial: map<string, string>)
      ensures entries == initial
    {
      entries := initial;
    }

    /** `saveSearchQuery(query)`: stores `query` under the key. */
    method SaveSearchQuery(query: string)
      modifies this
      ensures entries == old(entries)[SearchHistoryKey := query]
    {
      entries := entries[SearchHistoryKey := query];
    }

    /** `getSearchQuery()`: reads the key without changing the store; an absent
        entry reads as the empty string. */
    method GetSearchQuery() returns (query: string)
      ensures SearchHistoryKey in entries ==> query == entries[SearchHistoryKey]
      ensures SearchHistoryKey !in entries ==> query == ""
      ensures query == ReadQuery(entries)
    {
      if SearchHistoryKey in entries {
        query := entries[SearchHistoryKey];
      } else {
        query := "";
      }
    }

    /** `clearSearchHistory()`: removes the key's entry. */
    method ClearSearchHistory()
      modifies this
      ensures entries == old(entries) - {SearchHistoryKey}
    {
      entries := entries - {SearchHistoryKey};
    }
  }

  // ---------------------------------------------------------------- lemmas

  /** A read right after a save returns the saved string. */
  lemma ReadAfterSave(entries: map<string, string>, query: string)
    ensures ReadQuery(entries[SearchHistoryKey := query]) == query
  {
  }

  /** A read right after a clear returns the empty string. */
  lemma ReadAfterClear(entries: map<string, string>)
    ensures ReadQuery(entries - {SearchHistoryKey}) == ""
  {
  }

  /** Saving twice is the same as saving the second value once. */
  lemma LastWriteWins(entries: map<string, string>, a: string, b: string)
    ensures entries[SearchHistoryKey := a][SearchHistoryKey := b] == entries[SearchHistoryKey := b]
  {
  }

  /** A save neither adds, removes nor changes any entry under another key. */
  lemma SaveKeepsOtherKeys(entries: map<string, string>, query: string, k: string)
    requires k != SearchHistoryKey
    ensures k in entries[SearchHistoryKey := query] <==> k in entries
    ensures k in entries ==> entries[SearchHistoryKey := query][k] == entries[k]
  {
  }

  /** A clear neither adds, removes nor changes any entry under another key. */
  lemma ClearKeepsOtherKeys(entries: map<string, string>, k: string)
    requires k != SearchHistoryKey
    ensures k in entries - {SearchHistoryKey} <==> k in entries
    ensures k in entries ==> (entries - {SearchHistoryKey})[k] == entries[k]
  {
  }

  /** A store's own history: saves of `a` then `b`, a read in between and at the
      end. The read leaves the store as it was, and the last save is what a
      read returns. */
  method SaveReadSave(store: SearchStorage, a: string, b: string) returns (first: string, second: string)
    modifies store
    ensures first == a && second == b
    ensures store.entries == old(store.entries)[SearchHistoryKey := b]
  {
    store.SaveSearchQuery(a);
    first := store.GetSearchQuery();
    store.SaveSearchQuery(b);
    second := store.GetSearchQuery();
  }
}
