/**
 * The contacts page: `fetchContacts` tries three sources in turn (a fresh
 * cached list, then the published snapshot, then the live backend) and
 * `renderDepartments` groups the list it settles on by department. The two
 * fetches are abstract outcomes and the clock readings are parameters.
 */
module Contacts {
  import opened Optional
  import opened Storage

  datatype Contact = Contact(name: string, phone: string, department: string)

  /** The `localStorage` key the list is cached under. */
  const ContactsKey := "contactsData"

  // ---------------------------------------------------------------------
  // Responses and what `data.contacts || data` makes of them
  // ---------------------------------------------------------------------

  /** A parsed JSON body: `null`, an object whose `contacts` member is a list or absent, or a bare list. */
  datatype Body =
    | Null
    | Object(contacts: Option<seq<Contact>>)
    | Array(items: seq<Contact>)

  /** How one `fetch` turns out. */
  datatype Response =
    | Unreachable   // `fetch` rejects
    | NotOk         // `res.ok` is false
    | Malformed     // `res.json()` rejects
    | Ok(body: Body)

  /** What the `contacts && contacts.length > 0` test makes of a body. */
  datatype Payload = Throws | Rejected | Accepted(list: seq<Contact>)

  /**
   * `const contacts = data.contacts || data`, then the non-empty test: reading
   * a member of `null` throws, an object without a `contacts` list has no
   * `length`, and an empty list is not enough.
   */
  function Extract(body: Body): (p: Payload)
    ensures p.Throws? <==> body.Null?
    ensures p.Accepted? ==> p.list != []
  {
    match body
    case Null => Throws
    case Object(contacts) =>
      if contacts.Some? && contacts.value != [] then Accepted(contacts.value) else Rejected
    case Array(items) =>
      if items != [] then Accepted(items) else Rejected
  }

  /** The snapshot step: a list only when the response is OK and accepted; everything else is ignored or swallowed. */
  function SnapshotList(res: Response): Option<seq<Contact>> {
    if res.Ok? && Extract(res.body).Accepted? then Some(Extract(res.body).list) else None
  }

  /** How the live step ends: it throws (into the failure handler), does nothing, or renders a list. */
  datatype LiveStep = LiveFailed | LiveIgnored | LiveAccepted(list: seq<Contact>)

  function Live(res: Response): LiveStep {
    if !res.Ok? then LiveFailed
    else match Extract(res.body)
      case Throws => LiveFailed
      case Rejected => LiveIgnored
      case Accepted(list) => LiveAccepted(list)
  }

  lemma SnapshotListIff(res: Response, list: seq<Contact>)
    ensures SnapshotList(res) == Some(list) <==>
              res.Ok? && list != [] && (res.body == Array(list) || res.body == Object(Some(list)))
  {
  }

  lemma LiveIff(res: Response)
    ensures Live(res).LiveFailed? <==> !res.Ok? || res.body.Null?
    ensures Live(res).LiveAccepted? <==> SnapshotList(res).Some?
    ensures Live(res).LiveAccepted? ==> SnapshotList(res) == Some(Live(res).list)
  {
  }

  // ---------------------------------------------------------------------
  // renderDepartments
  // ---------------------------------------------------------------------

  type Departments = map<string, seq<Contact>>

  /** One `forEach` step: create the department's array if it has none, then push. */
  function AddContact(m: Departments, c: Contact): Departments {
    m[c.department := (if c.department in m then m[c.department] else []) + [c]]
  }

  /** `deptMap` after the `forEach` over `contacts`. */
  function DeptMap(contacts: seq<Contact>): Departments {
    if contacts == [] then map[]
    else AddContact(DeptMap(contacts[..|contacts| - 1]), contacts[|contacts| - 1])
  }

  /** The contacts of one department, in list order: the reference the grouping is checked against. */
  function Filter(contacts: seq<Contact>, dept: string): (r: seq<Contact>)
    ensures |r| <= |contacts|
    ensures forall k | 0 <= k < |r| :: r[k].department == dept
  {
    if contacts == [] then []
    else
      var last := contacts[|contacts| - 1];
      Filter(contacts[..|contacts| - 1], dept) + (if last.department == dept then [last] else [])
  }

  /** What the departments container shows. */
  datatype View =
    | Loader                    // `showLoading`
    | NoContacts                // "No contacts available."
    | Grouped(groups: Departments)
    | FailedView                // "Failed to load contacts (no backend, no snapshot available)."

  /** The view `renderDepartments` produces for a list. */
  function DepartmentsView(contacts: seq<Contact>): View {
    if contacts == [] then NoContacts else Grouped(DeptMap(contacts))
  }

  method GroupByDepartment(contacts: seq<Contact>) returns (deptMap: Departments)
    ensures deptMap == DeptMap(contacts)
  {
    deptMap := map[];
    for i := 0 to |contacts|
      invariant deptMap == DeptMap(contacts[..i])
    {
      assert contacts[..i + 1][..i] == contacts[..i];
      var c := contacts[i];
      if c.department !in deptMap {
        deptMap := deptMap[c.department := []];
      }
      deptMap := deptMap[c.department := deptMap[c.department] + [c]];
    }
    assert contacts[..|contacts|] == contacts;
  }

  method RenderDepartments(contacts: seq<Contact>) returns (view: View)
    ensures view == DepartmentsView(contacts)
  {
    if |contacts| == 0 {
      return NoContacts;
    }
    var deptMap := GroupByDepartment(contacts);
    view := Grouped(deptMap);
  }

  /**
   * The departments are exactly those some contact names, and each holds the
   * contacts of that department in list order.
   */
  lemma {:induction false} DeptMapShape(contacts: seq<Contact>)
    ensures forall dept :: dept in DeptMap(contacts) <==>
              exists i | 0 <= i < |contacts| :: contacts[i].department == dept
    ensures forall dept | dept in DeptMap(contacts) :: DeptMap(contacts)[dept] == Filter(contacts, dept)
  {
    if contacts != [] {
      var init := contacts[..|contacts| - 1];
      var last := contacts[|contacts| - 1];
      DeptMapShape(init);
      assert forall i | 0 <= i < |init| :: init[i] == contacts[i];
      forall dept
        ensures dept in DeptMap(contacts) <==> exists i | 0 <= i < |contacts| :: contacts[i].department == dept
      {
        if dept in DeptMap(init) {
          var i :| 0 <= i < |init| && init[i].department == dept;
          assert contacts[i].department == dept;
        }
      }
      forall dept | dept in DeptMap(contacts)
        ensures DeptMap(contacts)[dept] == Filter(contacts, dept)
      {
        if dept != last.department {
          assert dept in DeptMap(init);
        } else if dept !in DeptMap(init) {
          assert forall i | 0 <= i < |init| :: init[i].department != dept;
          FilterNone(init, dept);
        }
      }
    }
  }

  /** A department no contact names gets no contacts. */
  lemma {:induction false} FilterNone(contacts: seq<Contact>, dept: string)
    requires forall i | 0 <= i < |contacts| :: contacts[i].department != dept
    ensures Filter(contacts, dept) == []
  {
    if contacts != [] {
      var init := contacts[..|contacts| - 1];
      assert forall i | 0 <= i < |init| :: init[i] == contacts[i];
      FilterNone(init, dept);
    }
  }

  /**
   * Every contact lands in its own department, as often as it occurs in the
   * list, and in no other.
   */
  lemma {:induction false} FilterCounts(contacts: seq<Contact>, dept: string, c: Contact)
    ensures multiset(Filter(contacts, dept))[c] == if c.department == dept then multiset(contacts)[c] else 0
  {
    if contacts != [] {
      var init := contacts[..|contacts| - 1];
      var last := contacts[|contacts| - 1];
      FilterCounts(init, dept, c);
      assert contacts == init + [last];
    }
  }

  /** Each contact of a non-empty list is shown under its department, and every group holds only its own department. */
  lemma EachContactPlaced(contacts: seq<Contact>, i: nat)
    requires i < |contacts|
    ensures DepartmentsView(contacts).Grouped?
    ensures var groups := DepartmentsView(contacts).groups;
            contacts[i].department in groups
            && multiset(groups[contacts[i].department])[contacts[i]] == multiset(contacts)[contacts[i]]
            && forall dept | dept in groups :: forall k | 0 <= k < |groups[dept]| :: groups[dept][k].department == dept
  {
    DeptMapShape(contacts);
    FilterCounts(contacts, contacts[i].department, contacts[i]);
  }

  // ---------------------------------------------------------------------
  // fetchContacts
  // ---------------------------------------------------------------------

  /** The "Data Source" line. */
  datatype Tag =
    | NoTag                     // before the first update
    | CachedTag(timestamp: int) // "Cached (<time of the cached record>)"
    | SnapshotTag               // "Snapshot (GitHub)"
    | LiveTag(at: int)          // "Live (<now>)"
    | FailedTag                 // "❌ Failed"

  /** Where one run ends up: the view, the tag, and the record last written to the cache, if any. */
  datatype Outcome = Outcome(view: View, tag: Tag, saved: Option<Record<seq<Contact>>>)

  /** The snapshot step: an accepted list is shown, tagged and cached; anything else leaves `o` as it was. */
  function AfterSnapshot(o: Outcome, snapshot: Response, snapshotAt: int): Outcome {
    match SnapshotList(snapshot)
    case Some(list) => Outcome(DepartmentsView(list), SnapshotTag, Some(Record(list, snapshotAt)))
    case None => o
  }

  /**
   * The live step: an accepted list is shown, tagged and cached; a response
   * without one changes nothing; a failure shows the failure message unless a
   * snapshot was used.
   */
  function AfterLive(o: Outcome, snapshotUsed: bool, live: Response, liveAt: int): Outcome {
    match Live(live)
    case LiveAccepted(list) => Outcome(DepartmentsView(list), LiveTag(liveAt), Some(Record(list, liveAt)))
    case LiveIgnored => o
    case LiveFailed => if snapshotUsed then o else Outcome(FailedView, FailedTag, o.saved)
  }

  /**
   * One `fetchContacts` run, given the record the cache read handed over, the
   * two responses, the times of the two cache writes and the tag shown
   * before the run.
   */
  function FetchPlan(cached: Option<Record<seq<Contact>>>, snapshot: Response, snapshotAt: int,
                     live: Response, liveAt: int, priorTag: Tag): Outcome
  {
    if cached.Some? then
      Outcome(DepartmentsView(cached.value.data), CachedTag(cached.value.timestamp), None)
    else
      var afterSnapshot := AfterSnapshot(Outcome(Loader, priorTag, None), snapshot, snapshotAt);
      AfterLive(afterSnapshot, SnapshotList(snapshot).Some?, live, liveAt)
  }

  /** What the cache read at the start of a run hands over: a fresh record. */
  function CachedRecord(l: Lookup<seq<Contact>>): Option<Record<seq<Contact>>> {
    if l.Hit? then Some(l.record) else None
  }

  class ContactsPage {
    /** The page's `localStorage`. */
    const store: Store<seq<Contact>>
    var view: View
    var tag: Tag

    constructor (store: Store<seq<Contact>>)
      ensures this.store == store && view == Loader && tag == NoTag
    {
      this.store := store;
      view := Loader;
      tag := NoTag;
    }

    /** The page shows `o`, and the cache is `base` with `o`'s record written under the key. */
    ghost predicate Shows(o: Outcome, base: map<string, Blob<seq<Contact>>>)
      reads this, store
    {
      && view == o.view
      && tag == o.tag
      && store.items == (if o.saved.Some? then base[ContactsKey := Valid(o.saved.value)] else base)
    }

    /**
     * `fetchContacts`, reading the cache at `now`; a snapshot write is stamped
     * `snapshotAt`, and a live write and the live tag `liveAt`.
     */
    method FetchContacts(now: int, snapshot: Response, snapshotAt: int, live: Response, liveAt: int)
      modifies this, store
      ensures var l := Classify(old(store.Item(ContactsKey)), now);
              var kept := if l.Evict? then old(store.items) - {ContactsKey} else old(store.items);
              Shows(FetchPlan(CachedRecord(l), snapshot, snapshotAt, live, liveAt, old(tag)), kept)
    {
      view := Loader;
      ghost var l := Classify(store.Item(ContactsKey), now);
      ghost var kept := if l.Evict? then store.items - {ContactsKey} else store.items;
      var cached := store.GetRecord(ContactsKey, now);
      assert cached == CachedRecord(l) && store.items == kept;
      if cached.Some? {
        view := RenderDepartments(cached.value.data);
        tag := CachedTag(cached.value.timestamp);
        return;
      }
      ghost var start := Outcome(Loader, tag, None);
      var snapshotUsed := TrySnapshot(snapshot, snapshotAt, start, kept);
      TryLive(live, liveAt, snapshotUsed, AfterSnapshot(start, snapshot, snapshotAt), kept);
    }

    /** The snapshot `try` block; `used` is `snapshotUsed`. */
    method TrySnapshot(snapshot: Response, snapshotAt: int, ghost o: Outcome, ghost base: map<string, Blob<seq<Contact>>>)
      returns (used: bool)
      requires Shows(o, base)
      modifies this, store
      ensures used == SnapshotList(snapshot).Some?
      ensures Shows(AfterSnapshot(o, snapshot, snapshotAt), base)
    {
      used := false;
      if snapshot.Ok? {
        var contacts := Extract(snapshot.body);
        if contacts.Accepted? {
          view := RenderDepartments(contacts.list);
          tag := SnapshotTag;
          store.SetData(ContactsKey, contacts.list, snapshotAt);
          used := true;
        }
      }
    }

    /** The live `try` block and its `catch`. */
    method TryLive(live: Response, liveAt: int, snapshotUsed: bool, ghost o: Outcome, ghost base: map<string, Blob<seq<Contact>>>)
      requires Shows(o, base)
      modifies this, store
      ensures Shows(AfterLive(o, snapshotUsed, live, liveAt), base)
    {
      var failed := false;
      if live.Ok? {
        var contacts := Extract(live.body);
        if contacts.Accepted? {
          view := RenderDepartments(contacts.list);
          tag := LiveTag(liveAt);
          store.SetData(ContactsKey, contacts.list, liveAt);
        } else if contacts.Throws? {
          failed := true;
        }
      } else {
        failed := true;
      }
      if failed && !snapshotUsed {
        view := FailedView;
        tag := FailedTag;
      }
    }
  }

  // ---------------------------------------------------------------------
  // What a run does
  // ---------------------------------------------------------------------

  /** A cached record is shown with its own timestamp and ends the run: no fetch counts and nothing is written. */
  lemma CacheHitStopsEarly(record: Record<seq<Contact>>, snapshot: Response, snapshotAt: int, live: Response, liveAt: int,
                           priorTag: Tag, snapshot': Response, snapshotAt': int, live': Response, liveAt': int)
    ensures FetchPlan(Some(record), snapshot, snapshotAt, live, liveAt, priorTag).saved.None?
    ensures FetchPlan(Some(record), snapshot, snapshotAt, live, liveAt, priorTag).tag == CachedTag(record.timestamp)
    ensures FetchPlan(Some(record), snapshot, snapshotAt, live, liveAt, priorTag) ==
            FetchPlan(Some(record), snapshot', snapshotAt', live', liveAt', priorTag)
  {
  }

  /**
   * An accepted snapshot is shown, tagged and cached; unless the live list
   * replaces it, that is where the run ends.
   */
  lemma SnapshotAccepted(snapshot: Response, snapshotAt: int, live: Response, liveAt: int, priorTag: Tag)
    requires SnapshotList(snapshot).Some?
    requires !Live(live).LiveAccepted?
    ensures var list := SnapshotList(snapshot).value;
            FetchPlan(None, snapshot, snapshotAt, live, liveAt, priorTag) ==
            Outcome(DepartmentsView(list), SnapshotTag, Some(Record(list, snapshotAt)))
  {
  }

  /** An accepted live list wins over the snapshot: it is shown, tagged with the time and is what the cache holds. */
  lemma LiveWins(snapshot: Response, snapshotAt: int, live: Response, liveAt: int, priorTag: Tag)
    requires Live(live).LiveAccepted?
    ensures var list := Live(live).list;
            FetchPlan(None, snapshot, snapshotAt, live, liveAt, priorTag) ==
            Outcome(DepartmentsView(list), LiveTag(liveAt), Some(Record(list, liveAt)))
  {
  }

  /**
   * The failure message appears exactly when the cache missed, no snapshot
   * was accepted and the live step threw; it then also sets the failed tag.
   */
  lemma FailureIff(cached: Option<Record<seq<Contact>>>, snapshot: Response, snapshotAt: int,
                   live: Response, liveAt: int, priorTag: Tag)
    ensures var o := FetchPlan(cached, snapshot, snapshotAt, live, liveAt, priorTag);
            o.view == FailedView <==> cached.None? && SnapshotList(snapshot).None? && Live(live).LiveFailed?
    ensures var o := FetchPlan(cached, snapshot, snapshotAt, live, liveAt, priorTag);
            o.view == FailedView ==> o.tag == FailedTag && o.saved.None?
  {
    if cached.Some? {
      var o := FetchPlan(cached, snapshot, snapshotAt, live, liveAt, priorTag);
      assert o.view == DepartmentsView(cached.value.data);
    }
  }

  /** A live response that is OK but has no non-empty list leaves the run as the snapshot step left it. */
  lemma LiveEmptyChangesNothing(snapshot: Response, snapshotAt: int, live: Response, liveAt: int, priorTag: Tag)
    requires Live(live) == LiveIgnored
    ensures live.Ok? && !live.body.Null?
    ensures var o := FetchPlan(None, snapshot, snapshotAt, live, liveAt, priorTag);
            SnapshotList(snapshot).None? ==> o == Outcome(Loader, priorTag, None)
  {
  }

  /**
   * A snapshot that cannot be fetched or read, or whose body is `null`, has
   * the same effect as one that is not OK: the error is swallowed and the live
   * step decides.
   */
  lemma SnapshotErrorSwallowed(snapshot: Response, snapshotAt: int, live: Response, liveAt: int, priorTag: Tag)
    requires snapshot.Unreachable? || snapshot.Malformed? || snapshot == Ok(Null)
    ensures FetchPlan(None, snapshot, snapshotAt, live, liveAt, priorTag) ==
            FetchPlan(None, NotOk, snapshotAt, live, liveAt, priorTag)
    ensures Live(live).LiveAccepted? ==>
              FetchPlan(None, snapshot, snapshotAt, live, liveAt, priorTag).view == DepartmentsView(Live(live).list)
  {
  }

  /**
   * Whatever a run cached is what the next run within the freshness window
   * shows, from the cache and tagged with the time of that write.
   */
  lemma SavedListIsServed(o: Outcome, items: map<string, Blob<seq<Contact>>>, later: int,
                          snapshot: Response, snapshotAt: int, live: Response, liveAt: int, priorTag: Tag)
    requires o.saved.Some? && later - o.saved.value.timestamp <= FreshnessMs
    ensures var l := Classify(Some(items[ContactsKey := Valid(o.saved.value)][ContactsKey]), later);
            FetchPlan(CachedRecord(l), snapshot, snapshotAt, live, liveAt, priorTag) ==
            Outcome(DepartmentsView(o.saved.value.data), CachedTag(o.saved.value.timestamp), None)
  {
  }
}
