/**
 * The dashboard page's `loadDashboard`: show today's roster from the cache at
 * once if there is one, fetch both sheets, cache them under today's key and
 * render them. The two fetches are abstract outcomes and the clock readings
 * are parameters; the screen is what the doctor list shows.
 */
module Dashboard {
  import opened Optional
  import opened Storage
  import opened Calendar
  import opened Roster

  /** How one `fetch` of a sheet turns out. */
  datatype SheetResponse =
    | Unreachable               // `fetch` rejects
    | NotOk                     // `res.ok` is false
    | Malformed                 // `res.json()` rejects, or the body is `null`
    | Ok(values: Option<Table>) // the body's `values`, when it has one

  /** `fetchSheetData`: null for every failure, the rows otherwise, and `[]` for a body without rows. */
  function FetchSheetData(res: SheetResponse): (rows: Option<Table>)
    ensures rows.None? <==> !res.Ok?
    ensures res.Ok? ==> rows.value == (if res.values.Some? then res.values.value else [])
  {
    match res
    case Ok(values) => Some(if values.Some? then values.value else [])
    case _ => None
  }

  /** `{ timetable, contacts }`, the value cached under a day's key. */
  datatype Dataset = Dataset(timetable: Table, contacts: Table)

  /** What the doctor list shows. */
  datatype Screen =
    | Untouched      // before the first load
    | Spinner        // `showLoading`
    | LoadingText    // "Loading..." while there is nothing cached
    | Shown(board: Board)
    | UnableToLoad   // "Unable to load data. Please try again later."
    | FailedToLoad   // "Failed to load data. Please try again later."

  /** The cache key of the on-call day that contains `t`. */
  function DateKey(t: LocalTime): string
    requires ValidTime(t)
  {
    FormatDDMMYYYY(OnCallDay(t))
  }

  /**
   * Where one load ends up: the screen, the dataset written to the cache (if
   * any), whether the "last updated" line was refreshed, and whether the load
   * threw before reaching its `try`.
   */
  datatype LoadResult = LoadResult(screen: Screen, saved: Option<Dataset>, stamped: bool, threw: bool)

  /**
   * One `loadDashboard` run, given what the cache held for today, today's key
   * and what `fetchSheetData` gave for the two sheets.
   */
  function LoadPlan(cached: Option<Dataset>, todayStr: string, timetable: Option<Table>, contacts: Option<Table>): LoadResult {
    var first := if cached.Some? then Dashboard(cached.value.timetable, cached.value.contacts, todayStr) else Crashed;
    if cached.Some? && first == Crashed then
      LoadResult(Spinner, None, false, true)
    else
      var fallback := if cached.Some? then Shown(first) else LoadingText;
      if timetable.None? || contacts.None? then
        LoadResult(if cached.Some? then fallback else UnableToLoad, None, false, false)
      else
        var board := Dashboard(timetable.value, contacts.value, todayStr);
        var data := Dataset(timetable.value, contacts.value);
        if board == Crashed then LoadResult(if cached.Some? then fallback else FailedToLoad, Some(data), false, false)
        else LoadResult(Shown(board), Some(data), true, false)
  }

  /** What the cache read at the start of a load hands over: the data of a fresh record. */
  function CachedData(l: Lookup<Dataset>): Option<Dataset> {
    if l.Hit? then Some(l.record.data) else None
  }

  class DashboardPage {
    /** The page's `localStorage`. */
    const store: Store<Dataset>
    var screen: Screen
    /** The time the footer's "Last updated" line was last set, if ever. */
    var lastUpdated: Option<int>

    constructor (store: Store<Dataset>)
      ensures this.store == store && screen == Untouched && lastUpdated == None
    {
      this.store := store;
      screen := Untouched;
      lastUpdated := None;
    }

    /**
     * `loadDashboard` at wall-clock time `t`, reading the cache at `now`, with
     * the two fetch outcomes, and writing the cache and footer at `fetchedAt`.
     * `threw` is true when the render of the cached data throws, which ends the
     * load before any fetch.
     */
    method LoadDashboard(t: LocalTime, now: int, timetableRes: SheetResponse, contactsRes: SheetResponse, fetchedAt: int)
      returns (threw: bool)
      requires ValidTime(t)
      modifies this, store
      ensures var key := DateKey(t);
              var l := Classify(old(store.Item(key)), now);
              var plan := LoadPlan(CachedData(l), key, FetchSheetData(timetableRes), FetchSheetData(contactsRes));
              var kept := if l.Evict? then old(store.items) - {key} else old(store.items);
              && screen == plan.screen
              && threw == plan.threw
              && store.items == (if plan.saved.Some? then kept[key := Valid(Record(plan.saved.value, fetchedAt))] else kept)
              && lastUpdated == (if plan.stamped then Some(fetchedAt) else old(lastUpdated))
    {
      screen := Spinner;
      var todayStr := DateKey(t);
      ghost var l := Classify(store.Item(todayStr), now);
      ghost var kept := if l.Evict? then store.items - {todayStr} else store.items;
      var cached := store.GetData(todayStr, now);
      assert cached == CachedData(l) && store.items == kept;
      if cached.Some? {
        var board := RenderDashboard(cached.value.timetable, cached.value.contacts, todayStr);
        if board == Crashed {
          return true;
        }
        screen := Shown(board);
      } else {
        screen := LoadingText;
      }
      threw := false;
      Refresh(todayStr, cached, timetableRes, contactsRes, fetchedAt);
    }

    /**
     * The `try` block of `loadDashboard`: fetch both sheets, and when both
     * arrive cache them under today's key, then render them and refresh the
     * footer.
     */
    method Refresh(todayStr: string, cached: Option<Dataset>, timetableRes: SheetResponse, contactsRes: SheetResponse,
                   fetchedAt: int)
      requires cached.Some? ==> Dashboard(cached.value.timetable, cached.value.contacts, todayStr) != Crashed
      requires screen == if cached.Some? then Shown(Dashboard(cached.value.timetable, cached.value.contacts, todayStr))
                         else LoadingText
      modifies this, store
      ensures var plan := LoadPlan(cached, todayStr, FetchSheetData(timetableRes), FetchSheetData(contactsRes));
              && screen == plan.screen
              && store.items == (if plan.saved.Some? then old(store.items)[todayStr := Valid(Record(plan.saved.value, fetchedAt))]
                                 else old(store.items))
              && lastUpdated == (if plan.stamped then Some(fetchedAt) else old(lastUpdated))
    {
      var timetable := FetchSheetData(timetableRes);
      var contacts := FetchSheetData(contactsRes);
      if timetable.None? || contacts.None? {
        if cached.None? {
          screen := UnableToLoad;
        }
        return;
      }
      store.SetData(todayStr, Dataset(timetable.value, contacts.value), fetchedAt);
      var board := RenderDashboard(timetable.value, contacts.value, todayStr);
      if board == Crashed {
        if cached.None? {
          screen := FailedToLoad;
        }
        return;
      }
      screen := Shown(board);
      lastUpdated := Some(fetchedAt);
    }
  }

  // ---------------------------------------------------------------------
  // What a load does
  // ---------------------------------------------------------------------

  /**
   * When either fetch fails the cache is not written and the footer is not
   * touched; the error text appears exactly when nothing was cached, and a
   * cached roster stays on screen.
   */
  lemma FetchFailureKeepsCache(cached: Option<Dataset>, todayStr: string, timetable: Option<Table>, contacts: Option<Table>)
    requires timetable.None? || contacts.None?
    ensures var plan := LoadPlan(cached, todayStr, timetable, contacts);
            && plan.saved.None? && !plan.stamped
            && (plan.screen == UnableToLoad <==> cached.None?)
            && (cached.Some? && !plan.threw ==>
                  plan.screen == Shown(Dashboard(cached.value.timetable, cached.value.contacts, todayStr)))
  {
  }

  /**
   * When both fetches succeed (and the cached render, if any, did not throw)
   * the cache is written under today's key before the render, so it is
   * written even when that render throws.
   */
  lemma BothFetchedAreCached(cached: Option<Dataset>, todayStr: string, timetable: Table, contacts: Table)
    ensures var plan := LoadPlan(cached, todayStr, Some(timetable), Some(contacts));
            plan.threw || plan.saved == Some(Dataset(timetable, contacts))
    ensures var plan := LoadPlan(cached, todayStr, Some(timetable), Some(contacts));
            !plan.threw ==>
              (plan.stamped <==> timetable != [])
              && (timetable != [] ==> plan.screen == Shown(Dashboard(timetable, contacts, todayStr)))
              && (timetable == [] ==> (plan.screen == FailedToLoad <==> cached.None?))
  {
  }

  /** A load throws exactly when there is cached data for today and its timetable is empty. */
  lemma LoadThrowsIff(cached: Option<Dataset>, todayStr: string, timetable: Option<Table>, contacts: Option<Table>)
    ensures LoadPlan(cached, todayStr, timetable, contacts).threw <==> cached.Some? && cached.value.timetable == []
    ensures LoadPlan(cached, todayStr, timetable, contacts).threw ==>
              LoadPlan(cached, todayStr, timetable, contacts) == LoadResult(Spinner, None, false, true)
  {
  }

  /** A sheet body without `values` counts as a successful, empty sheet, not as a failure. */
  lemma EmptySheetIsSuccess(values: Option<Table>)
    ensures FetchSheetData(Ok(values)).Some?
    ensures values.None? ==> FetchSheetData(Ok(values)) == Some([])
  {
  }

  /**
   * A load that gets a timetable without rows caches it; a later load that
   * finds it cached throws, whatever the backend answers then.
   */
  lemma EmptyTimetableIsCached(todayStr: string, contacts: Table, timetable': Option<Table>, contacts': Option<Table>)
    ensures LoadPlan(None, todayStr, FetchSheetData(Ok(None)), Some(contacts)) ==
            LoadResult(FailedToLoad, Some(Dataset([], contacts)), false, false)
    ensures LoadPlan(Some(Dataset([], contacts)), todayStr, timetable', contacts').threw
  {
  }

  /**
   * A timetable response without rows is cached like any other; within the
   * freshness window every later load on that day then throws at the cached
   * render, before fetching, and leaves the spinner up, whatever the backend
   * answers.
   */
  method EmptyTimetableSticks(page: DashboardPage, t: LocalTime, now: int, contactsRows: Table, fetchedAt: int,
                              later: int, timetableRes: SheetResponse, contactsRes: SheetResponse)
      returns (firstThrew: bool, secondThrew: bool)
    requires ValidTime(t) && later - fetchedAt <= FreshnessMs
    requires DateKey(t) !in page.store.items
    modifies page, page.store
    ensures !firstThrew && page.screen == Spinner && secondThrew
  {
    firstThrew := page.LoadDashboard(t, now, Ok(None), Ok(Some(contactsRows)), fetchedAt);
    secondThrew := page.LoadDashboard(t, later, timetableRes, contactsRes, fetchedAt);
  }
}
