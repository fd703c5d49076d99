# On-call roster: a Dafny model of the page logic

The repository is a small web app with two pages. The dashboard (`script.js`)
shows which doctors are on call today, grouped by department, with call and
WhatsApp links. The contacts page (`contacts.js`) lists every contact by
department. Both pages read Google-Sheets data through a backend, and both
cache what they fetched in `localStorage` for 24 hours.

This project models the logic under the pages' DOM code:

- `option.dfy`: the `Option` type.
- `text.dfy`: the JavaScript string operations the pages use. These are
  `trim` and the `\s` class, `split` on one character, ASCII `toUpperCase`,
  and decimal numerals, with round-trip lemmas.
- `calendar.dfy`: the on-call day and its cache key.
  - Before 08:00 the day is still the previous calendar day.
  - The day is written as `DD/MM/YYYY`.
  - Reading the key back gives the date, so two days never share a key.
- `storage.dfy`: the TTL cache as a `Store` class over a map from key to
  stored item. Both `getCachedData` variants and `setCachedData` are here.
  - A stored item is a parsed record, text that does not parse, or the empty
    string.
  - The clock reading is a parameter.
- `links.dfy`: the `tel:` and `https://wa.me/6` link strings of both pages.
- `roster.dfy`: the data half of `renderDashboard`.
  - It finds today's row of the timetable.
  - It builds the department → name → phone map from adjacent column pairs
    whose name header matches `/^(.+?)\s+NAME$/i` and whose phone header is
    not empty.
  - It splits each duty cell into names, groups them by the first word of the
    column header and the rest (or `General`), and looks up their phones.
  - The loops are methods proved equal to prefix folds. The lemmas about the
    folds say what the groups contain.
- `dashboard.dfy`: `fetchSheetData`'s outcome mapping and `loadDashboard`.
  - `loadDashboard` is a method on a page object holding the screen, the
    footer time and the store.
  - It is proved against `LoadPlan`, a function of the cache read and the two
    fetch outcomes.
- `contacts.dfy`: `fetchContacts` and `renderDepartments` of the contacts
  page.
  - `fetchContacts` tries the cache, then the snapshot, then the live backend.
    It is a method on a page object holding the view, the "Data Source" tag
    and the store.
  - It is proved against `FetchPlan`, one step function per source.
  - `renderDepartments`' grouping loop is proved equal to a fold, and each
    group is proved equal to the filter of the list by department.

Fetches are abstract outcome values: unreachable, not OK, unreadable, or a
parsed body. Clock readings are integer parameters of the operations that
read the clock.

The model follows the code as written, including these behaviours:

- On the contacts page a fresh cache hit ends `fetchContacts`. No snapshot or
  live fetch follows it (contacts.js:86-90).
- A live response that is OK but has no non-empty list neither renders nor
  reports a failure. The failure message appears only when the live step
  throws and no snapshot was used (contacts.js:111-129).
- A body of the shape `{values: rows}` is not recognised by the contacts page.
  It has no `length`, so it is never accepted (contacts.js:98-99, 115-116).
- The dashboard's `tel:` link keeps the phone as it is. Only the contacts
  page removes whitespace from it (script.js:201, contacts.js:176).

`renderDashboard` throws when the timetable has no rows, because of
`timetable[0].slice(1)`. `fetchSheetData` turns a sheet body without `values`
into `[]`, and `loadDashboard` caches it like any other successful fetch. A later
load on the same day then finds that entry, throws while rendering it, and
never fetches again until the entry is 24 hours old. `LoadThrowsIff`,
`EmptyTimetableIsCached` and `EmptyTimetableSticks` state this behaviour.

## Model

| member | source | states |
|---|---|---|
| Storage.MissingKeyIsMiss | script.js:47-48 | reading a key with no item gives nothing |
| Storage.FreshnessBoundary | script.js:52-57 | an item exactly 86 400 000 ms old is still served; one millisecond older is evicted |
| Storage.ClassifyCases | script.js:46-61 | a read hits exactly for a parsed, fresh item and returns its record; it evicts exactly a corrupt or stale item; otherwise it misses |
| Storage.WriteThenRead | script.js:64-66 | an item written at `t` is served whole by any read at `t'` with `t' - t <= 86 400 000` |
| Storage.Store.Read | script.js:46-61 | the read's outcome, and the store loses exactly the evicted key |
| Storage.Store.GetData | script.js:46-62 | null for a missing key with the store unchanged; the stored data exactly when the item is fresh; a stale or corrupt item is removed and no other key changes |
| Storage.Store.GetRecord | contacts.js:54-69 | as `GetData`, but a hit returns the whole `{data, timestamp}` record |
| Storage.Store.SetData | script.js:64-66 | the key now holds the data stamped with the current time; every other key is unchanged |
| Storage.RoundTrip | script.js:46-66 | writing then reading within the window returns the data written |
| Calendar.YearLength | script.js:7 | the month lengths add up to 366 days in a leap year and 365 otherwise |
| Calendar.NextDayCounts | script.js:7 | the next day is one further in the year, except that the year's last day is followed by 1 January of the next year |
| Calendar.PreviousDay | script.js:7 | `setDate(getDate() - 1)` gives a valid date whose next day is the input, across month and year ends |
| Calendar.PreviousDayOfNextDay | script.js:7 | stepping forward then back returns the same day |
| Calendar.OnCallDay | script.js:6-8 | before 08:00 the on-call day is the day before today; from 08:00 it is today |
| Calendar.Pad2 | script.js:18-19 | `padStart(2, '0')` gives at least two digits, exactly two below 100 |
| Calendar.Pad2RoundTrip | script.js:18-19 | the padded numeral reads back as the number |
| Calendar.FormatDDMMYYYY | script.js:17-22 | the key has two-digit day and month, each followed by '/' |
| Calendar.FormatParseRoundTrip | script.js:17-22 | parsing the key gives back the date |
| Calendar.FormatInjective | script.js:17-22 | two dates share a key exactly when they are the same date |
| Text.TrimShape | script.js:151 | `trim` is no longer than its input, leaves no whitespace at either end, and is empty exactly for all-whitespace input |
| Text.SplitOn | script.js:177 | `split` gives at least one part, none containing the separator; the first part runs up to the first separator |
| Text.SplitJoin | script.js:177 | joining the parts with the separator gives back the input |
| Text.NatToString | script.js:18-20 | `String(n)` is a non-empty digit string, one digit exactly below 10, starting with '0' only for zero (no leading zero) |
| Text.DigitsRoundTrip | script.js:18-20 | the numeral of `n` reads back as `n` |
| Text.IntRoundTrip | script.js:20 | the year's numeral, sign included, reads back as the year |
| Links.StripWhitespace | contacts.js:176 | `replace(/\s+/g, '')` leaves no whitespace and is no longer than its input |
| Links.DigitsOnly | script.js:202 | `replace(/\D/g, '')` leaves only digits and is no longer than its input |
| Links.StripWhitespaceCounts | contacts.js:176 | every character that is not whitespace is kept as often as the phone holds it, and nothing else is |
| Links.DigitsOnlyCounts | contacts.js:177 | every digit is kept as often as the phone holds it, and nothing else is |
| Links.StripWhitespaceAppend | contacts.js:176 | the whitespace is removed from each piece of the phone on its own |
| Links.DigitsOnlyAppend | contacts.js:177 | the digits are picked from each piece of the phone on its own |
| Links.StripWhitespaceSnoc | contacts.js:176 | a character at the end is kept, at the end, exactly when it is not whitespace, so the kept characters stay in the phone's order |
| Links.DigitsOnlySnoc | contacts.js:177 | a character at the end is kept, at the end, exactly when it is a digit, so the digits stay in the phone's order |
| Links.TelLink | contacts.js:176 | the link is `tel:` followed by the phone with its whitespace removed (what is kept is given by the lemmas above) |
| Links.WhatsAppLink | contacts.js:177 | the link is `https://wa.me/6` followed by the phone's digits only, in order |
| Links.DigitsOfStripped | contacts.js:176-177 | removing whitespace first does not change the digits kept |
| Links.TelAndWhatsAppAgree | contacts.js:176-177 | the WhatsApp link built from the `tel:` number equals the one built from the phone |
| Links.DoctorLinks | script.js:201-202 | both links are `#` exactly when the phone is "Unknown"; otherwise `tel:` keeps the phone unchanged and the WhatsApp link keeps its digits |
| Links.ContactLinks | contacts.js:176-177 | the contact's links are the stripped `tel:` link and the WhatsApp link, and both dial the same digits |
| Links.SameLinksWithoutWhitespace | script.js:201-202 | for a known phone without whitespace the dashboard's links equal the contacts page's |
| Roster.FindRowFrom | script.js:129 | the first row at or after `start` whose first cell is the key, or none when no row there has it |
| Roster.FindRow | script.js:129 | `find` returns the first row keyed by today's date, or none exactly when no row is |
| Roster.LazySplit | script.js:148 | the lazy group takes the shortest split at which the rest is whitespace then NAME |
| Roster.DeptOfHeaderMatches | script.js:148-151 | a header names a department exactly when the regular expression matches; the department is the trimmed, upper-cased shortest group |
| Roster.PairEntry | script.js:158-161 | a row contributes exactly when both its name and phone cells exist and are not blank, and then it contributes the trimmed name and the trimmed phone |
| Roster.FillPair | script.js:156-164 | the inner loop over the rows below the header adds each row's entry, in row order |
| Roster.AddPair | script.js:143-164 | one outer-loop pass: a skipped pair leaves the map unchanged; a qualifying pair creates or extends its department's entry |
| Roster.BuildContactsMap | script.js:137-166 | the loops build exactly the contacts map of the sheet; an empty sheet gives an empty map |
| Roster.PairPhonesSound | script.js:156-164 | every stored phone came from some row of its column pair |
| Roster.PairPhonesComplete | script.js:156-164 | every row with a name and a phone leaves that name in the map |
| Roster.PairPhonesLastWins | script.js:161-162 | a name keeps the phone of the last row that gives it |
| Roster.ContactsMapUpToKeys | script.js:142-153 | the departments are exactly those named by a qualifying header pair |
| Roster.ContactsMapUpToSound | script.js:142-164 | every phone in the map was read under a header pair of its department |
| Roster.ContactsMapUpToComplete | script.js:142-164 | every row entry under a qualifying pair appears under its department |
| Roster.ContactsMapShape | script.js:139-166 | for a whole sheet: the departments are those of qualifying header pairs, no stored phone is empty, and no row entry is lost |
| Roster.MedicalHeader | script.js:148-151 | "MEDICAL NAME" names department MEDICAL |
| Roster.MedicalExample | script.js:136-166 | a one-pair sheet maps MEDICAL / Dr. A to that row's phone |
| Roster.SplitLines | script.js:174 | `split(/\r?\n/)` always gives at least one line |
| Roster.SplitLinesJoin | script.js:174 | no line holds a line feed, and joining the lines with the breaks they were split at (`\r\n` or `\n`) gives back the cell |
| Roster.JoinLinesSplit | script.js:174 | splitting lines joined with `\r\n` or `\n` gives back those lines and breaks, when no line holds a line feed and none before a bare `\n` ends in `\r` |
| Roster.TrimmedNames | script.js:174 | the names are non-empty and no more numerous than the lines |
| Roster.TrimmedNamesOne | script.js:174 | one line gives its trimmed text, or nothing when the trimmed text is empty |
| Roster.TrimmedNamesAppend | script.js:174 | the names of two runs of lines are the names of the first followed by those of the second |
| Roster.TrimmedNamesShape | script.js:174-175 | each name is trimmed and non-empty, and a cell has no names exactly when every line is blank |
| Roster.FirstWord | script.js:177-178 | `split(' ')[0]` is the header up to its first space |
| Roster.HeaderKey | script.js:177-180 | the department is the upper-cased first word of the header; the sub-department key is the trimmed rest of the header, or `General` when that rest is blank |
| Roster.WithPhones | script.js:185-188 | each name, in order, is paired with its phone under the column's department |
| Roster.GroupAllShape | script.js:168-189 | a department appears exactly when some column under it has doctors; a sub-department likewise; each group lists the doctors of its columns in column order |
| Roster.PushDoctors | script.js:185-188 | the push loop appends the named doctors with their phones, in order |
| Roster.FileDoctors | script.js:177-188 | one column's doctors are appended to `grouped[main][subkey]`, created when missing |
| Roster.AddColumnPass | script.js:170-188 | one `forEach` pass: a blank cell or a cell without names changes nothing; otherwise the column is filed |
| Roster.GroupDoctors | script.js:168-189 | the `forEach` over the headers builds exactly the grouping of today's columns |
| Roster.ColumnsPhoned | script.js:185-187 | every doctor of a column carries the phone looked up under that column's department |
| Roster.GatherPhoned | script.js:185-187 | every doctor in a group carries the phone looked up under the group's department |
| Roster.PhoneOfShape | script.js:186 | a shown phone is never empty; it is "Unknown" exactly when no phone is stored for the name under the department, or the stored phone is empty or is itself the text "Unknown" |
| Roster.NoDoctorsIff | script.js:170-189 | the grouping is empty exactly when no duty cell of today's row yields a name |
| Roster.SubHeading | script.js:196-198 | a sub-department heading is shown exactly when the key is not `General` |
| Roster.RenderDashboard | script.js:125-189 | the render computes the board of `Dashboard` |
| Roster.DashboardShape | script.js:125-189 | it throws only for an empty timetable; "no schedule" exactly when no row is keyed by today; "no doctors" exactly when every duty cell is blank; otherwise the groups satisfy `GroupAllShape` and every shown phone is the looked-up one |
| Dashboard.FetchSheetData | script.js:74-88 | every fetch failure gives null; success gives the rows, or `[]` when the body has none |
| Dashboard.DashboardPage.LoadDashboard | script.js:91-123 | the screen, whether the load threw, the store and the footer time are those `LoadPlan` gives for the cache read and the two fetches |
| Dashboard.DashboardPage.Refresh | script.js:105-122 | the `try` block leaves the screen, the store and the footer time `LoadPlan` gives, writing only today's key |
| Dashboard.FetchFailureKeepsCache | script.js:111-115 | when either fetch fails nothing is written and the footer is untouched; the error text appears exactly when nothing was cached; a cached board stays on screen |
| Dashboard.BothFetchedAreCached | script.js:116-122 | when both fetches succeed the dataset is cached even if its render throws; the footer is refreshed exactly when the render succeeds |
| Dashboard.LoadThrowsIff | script.js:98-100 | a load throws, leaving the spinner and writing nothing, exactly when today's cached timetable is empty |
| Dashboard.EmptySheetIsSuccess | script.js:83 | a body without `values` is a success with no rows |
| Dashboard.EmptyTimetableIsCached | script.js:98-117 | an empty timetable is cached with the failure text shown, and any later load that finds it throws |
| Dashboard.EmptyTimetableSticks | script.js:98-117 | two loads within the window: the first caches an empty timetable, the second throws with the spinner up |
| Contacts.Extract | contacts.js:98-99 | `data.contacts \|\| data` throws exactly for a `null` body, and accepts only a non-empty list |
| Contacts.SnapshotListIff | contacts.js:94-105 | the snapshot is used exactly when the response is OK and its body is a non-empty list, bare or under `contacts` |
| Contacts.LiveIff | contacts.js:111-120 | the live step fails exactly when the response is not OK or the body is `null`, and is accepted exactly when a snapshot would be |
| Contacts.Filter | contacts.js:153-157 | one department's contacts, in list order, never more than the list |
| Contacts.GroupByDepartment | contacts.js:153-157 | the `forEach` push loop builds the department map of the list |
| Contacts.RenderDepartments | contacts.js:144-157 | an empty list shows "No contacts available"; otherwise the department map |
| Contacts.DeptMapShape | contacts.js:153-157 | the departments are exactly those of some contact; each holds that department's contacts in list order |
| Contacts.FilterNone | contacts.js:153-157 | a department no contact names gets no contacts |
| Contacts.FilterCounts | contacts.js:153-157 | each contact appears in its own department's group as often as in the list, and in no other group |
| Contacts.EachContactPlaced | contacts.js:148-157 | in a non-empty list each contact is shown under its department, and every group holds only its own department |
| Contacts.ContactsPage.FetchContacts | contacts.js:81-130 | the view, the tag and the store are those `FetchPlan` gives for the cache read and the two responses |
| Contacts.ContactsPage.TrySnapshot | contacts.js:92-108 | reports whether the snapshot was used, and applies the snapshot step to the view, tag and store |
| Contacts.ContactsPage.TryLive | contacts.js:110-129 | applies the live step, including the failure branch, to the view, tag and store |
| Contacts.CacheHitStopsEarly | contacts.js:84-90 | a cache hit is shown with its own timestamp, nothing is written, and neither response matters |
| Contacts.SnapshotAccepted | contacts.js:94-104 | an accepted snapshot is shown, tagged Snapshot and cached, unless the live list replaces it |
| Contacts.LiveWins | contacts.js:113-119 | an accepted live list is shown, tagged Live with its time and cached, whatever the snapshot did |
| Contacts.FailureIff | contacts.js:121-128 | the failure message appears exactly when the cache missed, no snapshot was used and the live step threw; it comes with the failed tag and no write |
| Contacts.LiveEmptyChangesNothing | contacts.js:116-120 | an OK live response without a non-empty list leaves the run as the snapshot step left it |
| Contacts.SnapshotErrorSwallowed | contacts.js:106-112 | a snapshot that throws has the same effect as one that is not OK, and the live step still runs |
| Contacts.SavedListIsServed | contacts.js:84-90 | whatever a run cached is what the next run within the window shows, from the cache |

## Left out

- `service-worker.js` is not part of this model. It is event-handler plumbing over the Cache Storage and Clients APIs.
- HTML strings, `innerHTML` updates, click handlers and the update toast are not modelled. The model stops at the data a view is built from.
- `showLoading` and its 60-second timer are not modelled, and neither is the text it shows when the timer fires.
- `fetch`, `res.json`, `Promise.all` and logging are not modelled. Each fetch is an outcome value, and the two dashboard fetches are not concurrent in the model.
- Every `Date.now()` or `new Date()` read is a parameter. On the dashboard one value stands for the footer's reading and the cache write of the same load (script.js:116-118). On the contacts page one value, `liveAt`, stands for both the Live tag's `new Date()` and the live cache write's `Date.now()` (contacts.js:118-119).
- `toLocaleDateString` and `toLocaleString` are not modelled. The tags keep the raw timestamp instead of its locale text.
- `JSON.stringify` and `JSON.parse` are not modelled. A stored item is a parsed record, unparseable text, or the empty string. A parsed value of another shape is not modelled.
- Bodies whose `contacts` or `values` member is not a list of records are not modelled, and neither are cells that are not strings. In particular, two throws on the contacts page are not modelled. A bare JSON string body passes `contacts && contacts.length > 0`, and then `renderDepartments` throws at `contacts.forEach` (contacts.js:98-100, 115-117, 154). A contact without a string `phone` makes `c.phone.replace` throw (contacts.js:176).
- Text.Upper: `toUpperCase` is modelled for ASCII letters only. Other letters are left as they are.
- The order of object keys, and so the order in which departments are rendered, is not modelled. Groups are maps.
- Keys that collide with `Object.prototype` members, such as a department named `constructor`, are not modelled.
- `localStorage` quota errors on write are not modelled.
- The missing-container checks are not modelled: `loadDashboard`'s early return when `#doctor-list` is absent, and `updateDataSource`'s missing element.
- The header date line (script.js:9-15) is locale formatting and is not modelled.
