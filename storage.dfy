/**
 * The `localStorage` cache both pages keep: every item is the JSON text of
 * `{data, timestamp}`, written with the current time and discarded when it is
 * older than 24 hours or cannot be parsed. The store is a class over a map
 * from key to stored item; the clock is a parameter.
 */
module Storage {
  import opened Optional

  /** The freshness window: an item at most this many milliseconds old is served. */
  const FreshnessMs := 86400000

  /** `{data, timestamp}`, as `setCachedData` writes it. */
  datatype Record<D> = Record(data: D, timestamp: int)

  /**
   * The text stored under a key, as `JSON.parse` sees it: a record, text that
   * does not parse into one (parsing throws), or the empty string (falsy, so
   * it is never parsed).
   */
  datatype Blob<D> = Valid(record: Record<D>) | Corrupt | Blank

  /** What reading one key comes to: nothing there, a fresh record, or an item to delete. */
  datatype Lookup<D> = Miss | Hit(record: Record<D>) | Evict

  predicate IsFresh<D>(r: Record<D>, now: int) {
    now - r.timestamp <= FreshnessMs
  }

  /** The decision `getCachedData` takes on the item under its key at time `now`. */
  function Classify<D>(item: Option<Blob<D>>, now: int): Lookup<D> {
    match item
    case None => Miss
    case Some(Blank) => Miss
    case Some(Corrupt) => Evict
    case Some(Valid(r)) => if now - r.timestamp > FreshnessMs then Evict else Hit(r)
  }

  /** A missing key reads as nothing and leaves the store alone. */
  lemma MissingKeyIsMiss<D>(now: int)
    ensures Classify<D>(None, now) == Miss
  {
  }

  /** Exactly 24 hours old is still fresh; one millisecond more and the item is deleted. */
  lemma FreshnessBoundary<D>(data: D, written: int)
    ensures Classify(Some(Valid(Record(data, written))), written + FreshnessMs) == Hit(Record(data, written))
    ensures Classify(Some(Valid(Record(data, written))), written + FreshnessMs + 1) == Evict
  {
  }

  /** Hits are exactly the parseable records inside the window; evictions are the rest of the stored text. */
  lemma ClassifyCases<D>(item: Option<Blob<D>>, now: int)
    ensures Classify(item, now).Hit? <==> item.Some? && item.value.Valid? && IsFresh(item.value.record, now)
    ensures Classify(item, now).Hit? ==> Classify(item, now).record == item.value.record
    ensures Classify(item, now).Evict? <==>
              item.Some? && (item.value.Corrupt? || (item.value.Valid? && !IsFresh(item.value.record, now)))
  {
  }

  /** What writing `data` at `written` and reading it back at `now`, within the window, gives. */
  lemma WriteThenRead<D>(items: map<string, Blob<D>>, key: string, data: D, written: int, now: int)
    requires now - written <= FreshnessMs
    ensures var after := items[key := Valid(Record(data, written))];
            Classify(Some(after[key]), now) == Hit(Record(data, written))
  {
  }

  class Store<D> {
    /** The stored items, by key. */
    var items: map<string, Blob<D>>

    constructor (initial: map<string, Blob<D>>)
      ensures items == initial
    {
      items := initial;
    }

    /** `localStorage.getItem(key)`. */
    function Item(key: string): Option<Blob<D>>
      reads this
    {
      if key in items then Some(items[key]) else None
    }

    /** Deletes the item under `key` when reading it calls for that, and says what was read. */
    method Read(key: string, now: int) returns (l: Lookup<D>)
      modifies this
      ensures l == Classify(old(Item(key)), now)
      ensures items == if l.Evict? then old(items) - {key} else old(items)
    {
      l := Classify(Item(key), now);
      if l.Evict? {
        items := items - {key};
      }
    }

    /** script.js's `getCachedData`: the stored data when fresh, else null; stale or corrupt items are removed. */
    method GetData(key: string, now: int) returns (r: Option<D>)
      modifies this
      ensures old(Item(key)).None? ==> r.None? && items == old(items)
      ensures r.Some? <==> Classify(old(Item(key)), now).Hit?
      ensures r.Some? ==> r.value == old(items)[key].record.data
      ensures items == if Classify(old(Item(key)), now).Evict? then old(items) - {key} else old(items)
    {
      var l := Read(key, now);
      r := if l.Hit? then Some(l.record.data) else None;
    }

    /** contacts.js's `getCachedData`: the whole fresh record, else null; stale or corrupt items are removed. */
    method GetRecord(key: string, now: int) returns (r: Option<Record<D>>)
      modifies this
      ensures old(Item(key)).None? ==> r.None? && items == old(items)
      ensures r.Some? <==> Classify(old(Item(key)), now).Hit?
      ensures r.Some? ==> r.value == old(items)[key].record
      ensures items == if Classify(old(Item(key)), now).Evict? then old(items) - {key} else old(items)
    {
      var l := Read(key, now);
      r := if l.Hit? then Some(l.record) else None;
    }

    /** `setCachedData`: stores `data` stamped with `now`; no other key changes. */
    method SetData(key: string, data: D, now: int)
      modifies this
      ensures items == old(items)[key := Valid(Record(data, now))]
    {
      items := items[key := Valid(Record(data, now))];
    }
  }

  /** Writing and then reading within the window gives back what was written (script.js's reader). */
  method RoundTrip<D>(store: Store<D>, key: string, data: D, written: int, now: int) returns (r: Option<D>)
    requires now - written <= FreshnessMs
    modifies store
    ensures r == Some(data)
    ensures store.items == old(store.items)[key := Valid(Record(data, written))]
  {
    store.SetData(key, data, written);
    r := store.GetData(key, now);
  }
}
