/**
 * The data half of the dashboard's `renderDashboard`: find today's row of the
 * timetable sheet, turn the contacts sheet into a department -> name -> phone
 * map, split each duty cell into doctor names and group them by department
 * and sub-department with their phones. Sheets are tables of cell strings, as
 * the spreadsheet API returns them: a row may be shorter than the header row.
 */
module Roster {
  import opened Optional
  import opened Text
  import Links

  type Row = seq<string>
  type Table = seq<Row>

  /** `row[i]`: `undefined` past the end of the row. */
  function Cell(row: Row, i: int): Option<string> {
    if 0 <= i < |row| then Some(row[i]) else None
  }

  /** A cell JavaScript treats as true: present and not the empty string. */
  predicate Truthy(cell: Option<string>) {
    cell.Some? && cell.value != ""
  }

  /** `row.slice(1)`. */
  function Tail(row: Row): Row {
    if row == [] then [] else row[1..]
  }

  // ---------------------------------------------------------------------
  // Today's row
  // ---------------------------------------------------------------------

  /** `row[0] === key`. */
  predicate Keyed(row: Row, key: string) {
    |row| > 0 && row[0] == key
  }

  /** `timetable.find(row => row[0] === key)`, as an index, searching from `start`. */
  function FindRowFrom(timetable: Table, key: string, start: nat): (r: Option<nat>)
    decreases |timetable| - start
    ensures r.Some? ==> start <= r.value < |timetable| && Keyed(timetable[r.value], key)
    ensures r.Some? ==> forall k | start <= k < r.value :: !Keyed(timetable[k], key)
    ensures r.None? ==> forall k | start <= k < |timetable| :: !Keyed(timetable[k], key)
  {
    if start >= |timetable| then None
    else if Keyed(timetable[start], key) then Some(start)
    else FindRowFrom(timetable, key, start + 1)
  }

  /** The first row keyed by `key`, the header row included. */
  function FindRow(timetable: Table, key: string): (r: Option<nat>)
    ensures r.Some? ==> r.value < |timetable| && Keyed(timetable[r.value], key)
    ensures r.Some? ==> forall k | 0 <= k < r.value :: !Keyed(timetable[k], key)
    ensures r.None? ==> forall k | 0 <= k < |timetable| :: !Keyed(timetable[k], key)
  {
    FindRowFrom(timetable, key, 0)
  }

  // ---------------------------------------------------------------------
  // The contacts sheet: header pairs "<DEPT> NAME", "<DEPT> PHONE"
  // ---------------------------------------------------------------------

  const NameWord := "NAME"

  /**
   * `/^(.+?)\s+NAME$/i` matches `h` with its group holding the first `k`
   * characters: a non-empty run without line terminators, then at least one
   * whitespace character up to a final "NAME" in any letter case.
   */
  predicate SplitsAt(h: string, k: int) {
    && |h| >= 4 && 1 <= k < |h| - 4
    && EqualsIgnoreCase(h[|h| - 4..], NameWord)
    && (forall j | 0 <= j < k :: !IsLineTerminator(h[j]))
    && (forall j | k <= j < |h| - 4 :: IsWhitespace(h[j]))
  }

  /** The lazy `.+?`: the shortest group length from `k` on that lets the pattern match. */
  function LazySplit(h: string, k: nat): (r: Option<nat>)
    decreases |h| - k
    ensures r.Some? ==> k <= r.value && SplitsAt(h, r.value)
    ensures r.Some? ==> forall j | k <= j < r.value :: !SplitsAt(h, j)
    ensures r.None? ==> forall j | k <= j :: !SplitsAt(h, j)
  {
    if k + 4 >= |h| then None
    else if SplitsAt(h, k) then Some(k)
    else LazySplit(h, k + 1)
  }

  /** `nameHeader.match(/^(.+?)\s+NAME$/i)`, then `deptMatch[1].trim().toUpperCase()`. */
  function DeptOfHeader(h: string): Option<string> {
    match LazySplit(h, 1)
    case Some(k) => Some(Upper(Trim(h[..k])))
    case None => None
  }

  /** A header names a department exactly when the pattern matches, and the group is the shortest match. */
  lemma DeptOfHeaderMatches(h: string)
    ensures DeptOfHeader(h).Some? <==> exists k :: SplitsAt(h, k)
    ensures DeptOfHeader(h).Some? ==>
              exists k :: SplitsAt(h, k) && (forall j | 0 <= j < k :: !SplitsAt(h, j))
                          && DeptOfHeader(h).value == Upper(Trim(h[..k]))
  {
    var r := LazySplit(h, 1);
    if r.None? {
      forall k | SplitsAt(h, k) ensures false {
      }
    }
  }

  /** The department a column pair starting at `i` feeds, if its two headers qualify. */
  function PairDept(header: Row, i: nat): Option<string> {
    var nameHeader := Cell(header, i);
    var phoneHeader := Cell(header, i + 1);
    if Truthy(nameHeader) && Truthy(phoneHeader) then DeptOfHeader(nameHeader.value) else None
  }

  /**
   * `row[i]?.trim()` and `row[i + 1]?.trim()`, when both are non-empty: a row
   * contributes exactly when both its cells exist and are not blank, and then
   * it contributes the two trimmed cells.
   */
  function PairEntry(row: Row, i: nat): (e: Option<(string, string)>)
    ensures e.Some? <==> i + 1 < |row| && !AllWhitespace(row[i]) && !AllWhitespace(row[i + 1])
    ensures e.Some? ==> e.value == (Trim(row[i]), Trim(row[i + 1])) && e.value.0 != "" && e.value.1 != ""
  {
    match (Cell(row, i), Cell(row, i + 1))
    case (Some(n), Some(p)) =>
      TrimShape(n);
      TrimShape(p);
      var name := Trim(n);
      var phone := Trim(p);
      if name != "" && phone != "" then Some((name, phone)) else None
    case _ => None
  }

  /** What the rows contribute under one column pair: later rows overwrite earlier ones of the same name. */
  function PairPhones(rows: Table, i: nat): map<string, string>
    decreases |rows|
  {
    if rows == [] then map[]
    else
      var m := PairPhones(rows[..|rows| - 1], i);
      match PairEntry(rows[|rows| - 1], i)
      case Some((name, phone)) => m[name := phone]
      case None => m
  }

  /** `contactsMap[dept][name] = phone`. */
  type ContactsMap = map<string, map<string, string>>

  /** The number of column pairs `for (i = 0; i < headerRow.length; i += 2)` visits. */
  function PairCount(header: Row): nat {
    (|header| + 1) / 2
  }

  /** The department entry a column pair adds, as `contactsMap` holds it after the pair. */
  function WithPair(cmap: ContactsMap, contacts: Table, i: nat): ContactsMap
    requires |contacts| > 0
  {
    match PairDept(contacts[0], i)
    case None => cmap
    case Some(dept) => cmap[dept := (if dept in cmap then cmap[dept] else map[]) + PairPhones(contacts[1..], i)]
  }

  /** `contactsMap` after the first `p` column pairs. */
  function ContactsMapUpTo(contacts: Table, p: nat): ContactsMap
    requires |contacts| > 0
  {
    if p == 0 then map[]
    else
      WithPair(ContactsMapUpTo(contacts, p - 1), contacts, 2 * (p - 1))
  }

  /** The whole `contactsMap` of a contacts sheet; an empty sheet gives an empty map. */
  function ContactsMapOf(contacts: Table): ContactsMap {
    if contacts == [] then map[] else ContactsMapUpTo(contacts, PairCount(contacts[0]))
  }

  /** One more row under a column pair updates the pair's phones by that row's entry, if any. */
  lemma PairPhonesSnoc(phones: map<string, string>, rows: Table, row: Row, i: nat)
    ensures phones + PairPhones(rows + [row], i) ==
            match PairEntry(row, i)
            case Some((name, phone)) => (phones + PairPhones(rows, i))[name := phone]
            case None => phones + PairPhones(rows, i)
  {
    assert (rows + [row])[..|rows|] == rows;
  }

  /** The inner loop over the rows below the header for the column pair at `i`, filling one department's entry. */
  method FillPair(phones: map<string, string>, contacts: Table, i: nat) returns (r: map<string, string>)
    requires |contacts| > 0
    ensures r == phones + PairPhones(contacts[1..], i)
  {
    r := phones;
    var j := 1;
    assert phones + PairPhones(contacts[1..1], i) == phones;
    while j < |contacts|
      invariant 1 <= j <= |contacts|
      invariant r == phones + PairPhones(contacts[1..j], i)
    {
      var row := contacts[j];
      var name := Cell(row, i);
      var phone := Cell(row, i + 1);
      assert contacts[1..j + 1] == contacts[1..j] + [row];
      PairPhonesSnoc(phones, contacts[1..j], row, i);
      if name.Some? && phone.Some? && Trim(name.value) != "" && Trim(phone.value) != "" {
        r := r[Trim(name.value) := Trim(phone.value)];
      }
      j := j + 1;
    }
    assert contacts[1..j] == contacts[1..];
  }

  /** One pass of the outer loop: the column pair whose name header is at `i`. */
  method AddPair(cmap: ContactsMap, contacts: Table, i: nat) returns (r: ContactsMap)
    requires |contacts| > 0
    ensures r == WithPair(cmap, contacts, i)
  {
    r := cmap;
    var headerRow := contacts[0];
    var nameHeader := Cell(headerRow, i);
    var phoneHeader := Cell(headerRow, i + 1);
    if !Truthy(nameHeader) || !Truthy(phoneHeader) {
      return;
    }
    var deptMatch := DeptOfHeader(nameHeader.value);
    if deptMatch.None? {
      return;
    }
    var dept := deptMatch.value;
    ghost var base := if dept in cmap then cmap[dept] else map[];
    if dept !in r {
      r := r[dept := map[]];
    }
    assert r[dept] == base;
    var phones := FillPair(r[dept], contacts, i);
    r := r[dept := phones];
    assert r == cmap[dept := base + PairPhones(contacts[1..], i)];
  }

  /** The contacts-map loop of `renderDashboard`. */
  method BuildContactsMap(contacts: Table) returns (cmap: ContactsMap)
    ensures cmap == ContactsMapOf(contacts)
  {
    cmap := map[];
    if |contacts| > 0 {
      var headerRow := contacts[0];
      var i, pairs := 0, 0;
      while i < |headerRow|
        invariant i == 2 * pairs && i <= |headerRow| + 1
        invariant cmap == ContactsMapUpTo(contacts, pairs)
      {
        cmap := AddPair(cmap, contacts, i);
        i, pairs := i + 2, pairs + 1;
      }
      assert pairs == PairCount(headerRow);
    }
  }

  // ---------------------------------------------------------------------
  // What the contacts map holds
  // ---------------------------------------------------------------------

  /** Every phone under a column pair was read from some row of that pair. */
  lemma {:induction false} PairPhonesSound(rows: Table, i: nat, name: string)
    requires name in PairPhones(rows, i)
    ensures exists j | 0 <= j < |rows| :: PairEntry(rows[j], i) == Some((name, PairPhones(rows, i)[name]))
  {
    var prefix := rows[..|rows| - 1];
    var last := |rows| - 1;
    var e := PairEntry(rows[last], i);
    if e.Some? && e.value.0 == name {
      assert PairEntry(rows[last], i) == Some((name, PairPhones(rows, i)[name]));
    } else {
      PairPhonesSound(prefix, i, name);
      var j :| 0 <= j < |prefix| && PairEntry(prefix[j], i) == Some((name, PairPhones(prefix, i)[name]));
      assert rows[j] == prefix[j];
    }
  }

  /** A row with a name and a phone always leaves that name in its pair's phones. */
  lemma {:induction false} PairPhonesComplete(rows: Table, i: nat, j: nat)
    requires j < |rows| && PairEntry(rows[j], i).Some?
    ensures PairEntry(rows[j], i).value.0 in PairPhones(rows, i)
  {
    var prefix := rows[..|rows| - 1];
    if j < |rows| - 1 {
      assert prefix[j] == rows[j];
      PairPhonesComplete(prefix, i, j);
    }
  }

  /** The phone kept for a name is the one on the last row that gives that name. */
  lemma {:induction false} PairPhonesLastWins(rows: Table, i: nat, j: nat, name: string, phone: string)
    requires j < |rows| && PairEntry(rows[j], i) == Some((name, phone))
    requires forall k | j < k < |rows| :: PairEntry(rows[k], i).None? || PairEntry(rows[k], i).value.0 != name
    ensures name in PairPhones(rows, i) && PairPhones(rows, i)[name] == phone
  {
    var prefix := rows[..|rows| - 1];
    if j < |rows| - 1 {
      forall k | j < k < |prefix|
        ensures PairEntry(prefix[k], i).None? || PairEntry(prefix[k], i).value.0 != name
      {
        assert prefix[k] == rows[k];
      }
      assert prefix[j] == rows[j];
      PairPhonesLastWins(prefix, i, j, name, phone);
    }
  }

  lemma WithPairKeys(cmap: ContactsMap, contacts: Table, i: nat, dept: string)
    requires |contacts| > 0
    ensures dept in WithPair(cmap, contacts, i) <==> dept in cmap || PairDept(contacts[0], i) == Some(dept)
  {
  }

  /** The departments of the map are exactly those named by a qualifying header pair. */
  lemma {:induction false} ContactsMapUpToKeys(contacts: Table, p: nat, dept: string)
    requires |contacts| > 0
    ensures dept in ContactsMapUpTo(contacts, p) <==>
            exists q | 0 <= q < p :: PairDept(contacts[0], 2 * q) == Some(dept)
  {
    if p > 0 {
      var m := ContactsMapUpTo(contacts, p - 1);
      var pd := PairDept(contacts[0], 2 * (p - 1));
      ContactsMapUpToKeys(contacts, p - 1, dept);
      WithPairKeys(m, contacts, 2 * (p - 1), dept);
      if exists q | 0 <= q < p :: PairDept(contacts[0], 2 * q) == Some(dept) {
        var q :| 0 <= q < p && PairDept(contacts[0], 2 * q) == Some(dept);
        if q == p - 1 {
          assert 2 * q == 2 * (p - 1);
          assert pd == Some(dept);
        }
      }
    }
  }

  /** Every phone in the map was read from a row under a header pair of its department. */
  lemma {:induction false} ContactsMapUpToSound(contacts: Table, p: nat, dept: string, name: string)
    requires |contacts| > 0
    requires dept in ContactsMapUpTo(contacts, p) && name in ContactsMapUpTo(contacts, p)[dept]
    ensures exists q, j | 0 <= q < p && 1 <= j < |contacts| ::
              PairDept(contacts[0], 2 * q) == Some(dept)
              && PairEntry(contacts[j], 2 * q) == Some((name, ContactsMapUpTo(contacts, p)[dept][name]))
  {
    var m := ContactsMapUpTo(contacts, p - 1);
    var phone := ContactsMapUpTo(contacts, p)[dept][name];
    var i := 2 * (p - 1);
    var rows := contacts[1..];
    assert ContactsMapUpTo(contacts, p) == WithPair(m, contacts, i);
    if PairDept(contacts[0], i) == Some(dept) && name in PairPhones(rows, i) {
      PairPhonesSound(rows, i, name);
      var j :| 0 <= j < |rows| && PairEntry(rows[j], i) == Some((name, PairPhones(rows, i)[name]));
      assert contacts[j + 1] == rows[j];
      assert PairDept(contacts[0], 2 * (p - 1)) == Some(dept)
             && PairEntry(contacts[j + 1], 2 * (p - 1)) == Some((name, phone));
    } else {
      assert dept in m && name in m[dept] && m[dept][name] == phone;
      ContactsMapUpToSound(contacts, p - 1, dept, name);
    }
  }

  /** Every row with a name and a phone under a qualifying header pair puts that name in its department. */
  lemma {:induction false} ContactsMapUpToComplete(contacts: Table, p: nat, q: nat, j: nat, dept: string)
    requires |contacts| > 0 && q < p && 1 <= j < |contacts|
    requires PairDept(contacts[0], 2 * q) == Some(dept) && PairEntry(contacts[j], 2 * q).Some?
    ensures dept in ContactsMapUpTo(contacts, p)
    ensures PairEntry(contacts[j], 2 * q).value.0 in ContactsMapUpTo(contacts, p)[dept]
  {
    var name := PairEntry(contacts[j], 2 * q).value.0;
    if q == p - 1 {
      assert contacts[1..][j - 1] == contacts[j];
      PairPhonesComplete(contacts[1..], 2 * q, j - 1);
    } else {
      ContactsMapUpToComplete(contacts, p - 1, q, j, dept);
      var m := ContactsMapUpTo(contacts, p - 1);
      match PairDept(contacts[0], 2 * (p - 1))
      case None =>
      case Some(d) =>
        assert d == dept ==> name in (if d in m then m[d] else map[]);
    }
  }

  /** The contacts map of a whole sheet: its departments, where each phone came from, and that no row is lost. */
  lemma ContactsMapShape(contacts: Table, dept: string)
    requires |contacts| > 0
    ensures dept in ContactsMapOf(contacts) <==>
            exists q | 0 <= q < PairCount(contacts[0]) :: PairDept(contacts[0], 2 * q) == Some(dept)
    ensures dept in ContactsMapOf(contacts) ==> forall name | name in ContactsMapOf(contacts)[dept] ::
              ContactsMapOf(contacts)[dept][name] != ""
    ensures forall q, j | 0 <= q < PairCount(contacts[0]) && 1 <= j < |contacts| ::
              PairDept(contacts[0], 2 * q) == Some(dept) && PairEntry(contacts[j], 2 * q).Some? ==>
              dept in ContactsMapOf(contacts) && PairEntry(contacts[j], 2 * q).value.0 in ContactsMapOf(contacts)[dept]
  {
    var p := PairCount(contacts[0]);
    ContactsMapUpToKeys(contacts, p, dept);
    if dept in ContactsMapOf(contacts) {
      forall name | name in ContactsMapOf(contacts)[dept]
        ensures ContactsMapOf(contacts)[dept][name] != ""
      {
        ContactsMapUpToSound(contacts, p, dept, name);
      }
    }
    forall q, j | 0 <= q < p && 1 <= j < |contacts| &&
                  PairDept(contacts[0], 2 * q) == Some(dept) && PairEntry(contacts[j], 2 * q).Some?
      ensures dept in ContactsMapOf(contacts) && PairEntry(contacts[j], 2 * q).value.0 in ContactsMapOf(contacts)[dept]
    {
      ContactsMapUpToComplete(contacts, p, q, j, dept);
    }
  }

  /** The lazy group of "MEDICAL NAME" is its first seven characters. */
  lemma MedicalSplit()
    ensures LazySplit("MEDICAL NAME", 1) == Some(7)
  {
    var h := "MEDICAL NAME";
    forall k | 1 <= k < 7 ensures !SplitsAt(h, k) {
      assert !IsWhitespace(h[k]);
    }
    assert SplitsAt(h, 7) by {
      assert Upper(h[8..]) == Upper(NameWord);
    }
  }

  /** The header "MEDICAL NAME" names the MEDICAL department. */
  lemma MedicalHeader()
    ensures DeptOfHeader("MEDICAL NAME") == Some("MEDICAL")
  {
    var h := "MEDICAL NAME";
    MedicalSplit();
    assert h[..7] == "MEDICAL";
    TrimKeeps("MEDICAL");
    assert Upper("MEDICAL") == "MEDICAL";
  }

  /** The rows below a one-pair header with a single entry give that entry. */
  lemma SingleRowPhones(row: Row, name: string, phone: string)
    requires PairEntry(row, 0) == Some((name, phone))
    ensures PairPhones([row], 0) == map[name := phone]
  {
    assert [row][..0] == [];
  }

  /** A sheet with one column pair holds what that pair adds. */
  lemma OnePairSheet(contacts: Table)
    requires |contacts| > 0 && PairCount(contacts[0]) == 1
    ensures ContactsMapOf(contacts) == WithPair(map[], contacts, 0)
  {
    assert ContactsMapUpTo(contacts, 0) == map[];
  }

  lemma MedicalPairDept()
    ensures PairDept(["MEDICAL NAME", "MEDICAL PHONE"], 0) == Some("MEDICAL")
  {
    MedicalHeader();
  }

  lemma DoctorAEntry()
    ensures PairEntry(["Dr. A", "0123456789"], 0) == Some(("Dr. A", "0123456789"))
  {
    TrimKeeps("Dr. A");
    TrimKeeps("0123456789");
  }

  /** The sheet `[["MEDICAL NAME", "MEDICAL PHONE"], ["Dr. A", "0123456789"]]` gives Dr. A's phone under MEDICAL. */
  lemma MedicalExample()
    ensures ContactsMapOf([["MEDICAL NAME", "MEDICAL PHONE"], ["Dr. A", "0123456789"]])
            == map["MEDICAL" := map["Dr. A" := "0123456789"]]
  {
    var header: Row := ["MEDICAL NAME", "MEDICAL PHONE"];
    var row: Row := ["Dr. A", "0123456789"];
    var contacts := [header, row];
    var phones := map["Dr. A" := "0123456789"];
    MedicalPairDept();
    DoctorAEntry();
    SingleRowPhones(row, "Dr. A", "0123456789");
    assert contacts[1..] == [row];
    assert map[] + phones == phones;
    OnePairSheet(contacts);
  }

  // ---------------------------------------------------------------------
  // Duty cells and grouping
  // ---------------------------------------------------------------------

  /** The sub-department key of a header with nothing after its first word. */
  const GeneralSubgroup := "General"

  datatype Doctor = Doctor(name: string, phone: string)

  /** `grouped[main][subkey]`. */
  datatype GroupKey = GroupKey(main: string, sub: string)

  type Grouped = map<string, map<string, seq<Doctor>>>

  predicate EndsWithCarriageReturn(s: string) {
    s != [] && s[|s| - 1] == '\r'
  }

  function DropCarriageReturn(s: string): string {
    if EndsWithCarriageReturn(s) then s[..|s| - 1] else s
  }

  /** Each part but the last without the carriage return it ends with, if any. */
  function DropCarriageReturns(parts: seq<string>): (lines: seq<string>)
    ensures |lines| == |parts|
  {
    if |parts| <= 1 then parts
    else [DropCarriageReturn(parts[0])] + DropCarriageReturns(parts[1..])
  }

  /** For each part but the last, whether it ended with a carriage return. */
  function CarriageReturns(parts: seq<string>): (crs: seq<bool>)
    ensures |parts| >= 1 ==> |crs| == |parts| - 1
  {
    if |parts| <= 1 then []
    else [EndsWithCarriageReturn(parts[0])] + CarriageReturns(parts[1..])
  }

  /** `cell.split(/\r?\n/)`: split at each line feed, a carriage return just before it going with it. */
  function SplitLines(cell: string): (lines: seq<string>)
    ensures |lines| >= 1
  {
    DropCarriageReturns(SplitOn(cell, '\n'))
  }

  /** Which line break of `cell` was `\r\n` rather than `\n`, in order. */
  function LineBreaks(cell: string): (crlf: seq<bool>)
    ensures |crlf| == |SplitLines(cell)| - 1
  {
    CarriageReturns(SplitOn(cell, '\n'))
  }

  /** The lines joined again, `crlf[k]` choosing `\r\n` over `\n` after line `k`. */
  function JoinLines(lines: seq<string>, crlf: seq<bool>): string
    requires |lines| >= 1 && |crlf| == |lines| - 1
  {
    if |lines| == 1 then lines[0]
    else lines[0] + (if crlf[0] then "\r\n" else "\n") + JoinLines(lines[1..], crlf[1..])
  }

  lemma {:induction false} JoinDropped(parts: seq<string>)
    requires |parts| >= 1
    ensures JoinLines(DropCarriageReturns(parts), CarriageReturns(parts)) == JoinWith(parts, '\n')
  {
    if |parts| > 1 {
      JoinDropped(parts[1..]);
      var p := parts[0];
      if EndsWithCarriageReturn(p) {
        assert p[..|p| - 1] + "\r\n" == p + "\n";
      }
    }
  }

  /** No line holds a line feed, and putting back each line break, `\r\n` or `\n`, gives back the cell. */
  lemma SplitLinesJoin(cell: string)
    ensures forall k | 0 <= k < |SplitLines(cell)| :: '\n' !in SplitLines(cell)[k]
    ensures JoinLines(SplitLines(cell), LineBreaks(cell)) == cell
  {
    var parts := SplitOn(cell, '\n');
    NoLineFeed(parts);
    JoinDropped(parts);
    SplitJoin(cell, '\n');
  }

  /** Dropping carriage returns never brings in a line feed. */
  lemma {:induction false} NoLineFeed(parts: seq<string>)
    requires forall p <- parts :: '\n' !in p
    ensures forall k | 0 <= k < |parts| :: '\n' !in DropCarriageReturns(parts)[k]
  {
    if |parts| > 1 {
      NoLineFeed(parts[1..]);
      assert parts[0] in parts;
      assert forall k | 1 <= k < |parts| :: DropCarriageReturns(parts)[k] == DropCarriageReturns(parts[1..])[k - 1];
    }
  }

  /**
   * Splitting lines joined with `\r\n` or `\n` gives back the lines and the
   * breaks, provided no line holds a line feed and no line followed by a bare
   * `\n` ends with a carriage return (which the split would take as part of
   * the break).
   */
  lemma {:induction false} JoinLinesSplit(lines: seq<string>, crlf: seq<bool>)
    requires |lines| >= 1 && |crlf| == |lines| - 1
    requires forall k | 0 <= k < |lines| :: '\n' !in lines[k]
    requires forall k | 0 <= k < |crlf| :: !crlf[k] ==> !EndsWithCarriageReturn(lines[k])
    ensures SplitLines(JoinLines(lines, crlf)) == lines
    ensures LineBreaks(JoinLines(lines, crlf)) == crlf
  {
    var l := lines[0];
    if |lines| == 1 {
      SplitOnNoSeparator(l, '\n');
    } else {
      var rest := JoinLines(lines[1..], crlf[1..]);
      JoinLinesSplit(lines[1..], crlf[1..]);
      var p := if crlf[0] then l + "\r" else l;
      assert JoinLines(lines, crlf) == p + ['\n'] + rest;
      SplitOnAfterPart(p, rest, '\n');
      var parts := [p] + SplitOn(rest, '\n');
      assert parts[1..] == SplitOn(rest, '\n');
      assert DropCarriageReturn(p) == l;
      assert [l] + lines[1..] == lines;
      assert [crlf[0]] + crlf[1..] == crlf;
    }
  }

  /** `.map(d => d.trim()).filter(Boolean)`: the trimmed lines that are not empty, in order. */
  function TrimmedNames(lines: seq<string>): (names: seq<string>)
    ensures |names| <= |lines|
    ensures forall k | 0 <= k < |names| :: names[k] != ""
  {
    if lines == [] then []
    else
      var t := Trim(lines[0]);
      (if t != "" then [t] else []) + TrimmedNames(lines[1..])
  }

  /** One line gives its trimmed text, or nothing when that is empty. */
  lemma TrimmedNamesOne(line: string)
    ensures TrimmedNames([line]) == if Trim(line) != "" then [Trim(line)] else []
  {
  }

  /** The names of two runs of lines are the names of each, in order: each line is handled on its own. */
  lemma {:induction false} TrimmedNamesAppend(a: seq<string>, b: seq<string>)
    ensures TrimmedNames(a + b) == TrimmedNames(a) + TrimmedNames(b)
  {
    if a != [] {
      assert (a + b)[1..] == a[1..] + b;
      TrimmedNamesAppend(a[1..], b);
    } else {
      assert a + b == b;
    }
  }

  /** The doctor names in one duty cell. */
  function DoctorNames(cell: string): seq<string> {
    TrimmedNames(SplitLines(cell))
  }

  /** Each name is trimmed and non-empty, and a cell gives no names exactly when every line is blank. */
  lemma {:induction false} TrimmedNamesShape(lines: seq<string>)
    ensures forall k | 0 <= k < |TrimmedNames(lines)| ::
              TrimmedNames(lines)[k] != "" && Trim(TrimmedNames(lines)[k]) == TrimmedNames(lines)[k]
    ensures TrimmedNames(lines) == [] <==> forall k | 0 <= k < |lines| :: AllWhitespace(lines[k])
  {
    if lines != [] {
      var t := Trim(lines[0]);
      TrimShape(lines[0]);
      TrimmedNamesShape(lines[1..]);
      if t != "" {
        TrimKeeps(t);
      }
      assert forall k | 1 <= k < |lines| :: lines[k] == lines[1..][k - 1];
    }
  }

  /** `dept.split(' ')[0]`: the header up to its first space. */
  function FirstWord(h: string): (w: string)
    ensures |w| <= |h| && w == h[..|w|] && ' ' !in w
    ensures |w| == |h| || h[|w|] == ' '
  {
    SplitOn(h, ' ')[0]
  }

  /** `main = parts[0].toUpperCase()`, `sub = dept.slice(main.length).trim()`, `subkey = sub || 'General'`. */
  function HeaderKey(h: string): (key: GroupKey)
    ensures key.sub != ""
    ensures key.main == Upper(FirstWord(h))
    ensures AllWhitespace(h[|FirstWord(h)|..]) ==> key.sub == GeneralSubgroup
    ensures !AllWhitespace(h[|FirstWord(h)|..]) ==> key.sub == Trim(h[|FirstWord(h)|..])
  {
    var main := Upper(FirstWord(h));
    var sub := Trim(h[|main|..]);
    TrimShape(h[|main|..]);
    GroupKey(main, if sub != "" then sub else GeneralSubgroup)
  }

  /** `(contactsMap[main] && contactsMap[main][name]) || 'Unknown'`. */
  function PhoneOf(cmap: ContactsMap, main: string, name: string): string {
    if main in cmap && name in cmap[main] && cmap[main][name] != "" then cmap[main][name] else Links.UnknownPhone
  }

  /** Each name paired with its phone under department `main`, in order. */
  function WithPhones(names: seq<string>, cmap: ContactsMap, main: string): (doctors: seq<Doctor>)
    ensures |doctors| == |names|
    ensures forall k | 0 <= k < |names| :: doctors[k] == Doctor(names[k], PhoneOf(cmap, main, names[k]))
  {
    seq(|names|, k requires 0 <= k < |names| => Doctor(names[k], PhoneOf(cmap, main, names[k])))
  }

  /** The doctors the duty cell under header `i` adds, with their phones, in cell order. */
  function ColumnDoctors(headers: Row, row: Row, cmap: ContactsMap, i: nat): seq<Doctor>
    requires i < |headers|
  {
    var cell := Cell(row, i + 1);
    if !Truthy(cell) then []
    else
      WithPhones(DoctorNames(cell.value), cmap, HeaderKey(headers[i]).main)
  }

  /** What one header column contributes: its group key and its doctors. */
  datatype Column = Column(key: GroupKey, doctors: seq<Doctor>)

  /** What the duty cell under header `i` contributes. */
  function ColumnAt(headers: Row, row: Row, cmap: ContactsMap, i: nat): Column
    requires i < |headers|
  {
    Column(HeaderKey(headers[i]), ColumnDoctors(headers, row, cmap, i))
  }

  /** Every header column of today's row, in header order. */
  function Columns(headers: Row, row: Row, cmap: ContactsMap): (cols: seq<Column>)
    ensures |cols| == |headers|
  {
    seq(|headers|, i requires 0 <= i < |headers| => ColumnAt(headers, row, cmap, i))
  }

  lemma ColumnsAt(headers: Row, row: Row, cmap: ContactsMap, i: nat)
    requires i < |headers|
    ensures Columns(headers, row, cmap)[i] == ColumnAt(headers, row, cmap, i)
  {
  }

  /** Column `i` adds at least one doctor, under `key`. */
  predicate Contributes(cols: seq<Column>, i: nat, key: GroupKey)
    requires i < |cols|
  {
    cols[i].doctors != [] && cols[i].key == key
  }

  /** Column `i` adds at least one doctor, under department `main`. */
  predicate ContributesMain(cols: seq<Column>, i: nat, main: string)
    requires i < |cols|
  {
    cols[i].doctors != [] && cols[i].key.main == main
  }

  /** The doctors of the columns whose key is `key`, column after column. */
  function Gather(cols: seq<Column>, key: GroupKey): seq<Doctor> {
    if cols == [] then []
    else
      var last := cols[|cols| - 1];
      Gather(cols[..|cols| - 1], key) + (if last.key == key then last.doctors else [])
  }

  /** `grouped` after one more column has pushed its doctors under its key. */
  function AddColumn(g: Grouped, col: Column): Grouped {
    if col.doctors == [] then g
    else
      var subs := if col.key.main in g then g[col.key.main] else map[];
      var current := if col.key.sub in subs then subs[col.key.sub] else [];
      g[col.key.main := subs[col.key.sub := current + col.doctors]]
  }

  /** `grouped` once every column has been visited, in order. */
  function GroupAll(cols: seq<Column>): Grouped {
    if cols == [] then map[] else AddColumn(GroupAll(cols[..|cols| - 1]), cols[|cols| - 1])
  }

  /** A department appears exactly when some column contributed doctors to it. */
  ghost predicate MainsAs(g: Grouped, cols: seq<Column>) {
    forall main :: main in g <==> exists i | 0 <= i < |cols| :: ContributesMain(cols, i, main)
  }

  /** A sub-department appears exactly when some column contributed doctors to it. */
  ghost predicate SubsAs(g: Grouped, cols: seq<Column>) {
    forall main, sub | main in g :: sub in g[main] <==> exists i | 0 <= i < |cols| :: Contributes(cols, i, GroupKey(main, sub))
  }

  /** Each group holds the doctors of its columns, column after column and in cell order. */
  ghost predicate ValuesAs(g: Grouped, cols: seq<Column>) {
    forall main, sub | main in g && sub in g[main] :: g[main][sub] == Gather(cols, GroupKey(main, sub))
  }

  /** `g` is the grouping of `cols`. */
  ghost predicate GroupedAs(g: Grouped, cols: seq<Column>) {
    MainsAs(g, cols) && SubsAs(g, cols) && ValuesAs(g, cols)
  }

  /** A key no column has contributed to has gathered nothing. */
  lemma {:induction false} GatherUntouched(cols: seq<Column>, key: GroupKey)
    requires forall i | 0 <= i < |cols| :: !Contributes(cols, i, key)
    ensures Gather(cols, key) == []
  {
    if cols != [] {
      var init := cols[..|cols| - 1];
      assert !Contributes(cols, |cols| - 1, key);
      forall i | 0 <= i < |init|
        ensures !Contributes(init, i, key)
      {
        assert init[i] == cols[i] && !Contributes(cols, i, key);
      }
      GatherUntouched(init, key);
    }
  }

  lemma MainsStep(g: Grouped, cols: seq<Column>, c: Column)
    requires MainsAs(g, cols)
    ensures MainsAs(AddColumn(g, c), cols + [c])
  {
    var g', cols' := AddColumn(g, c), cols + [c];
    forall main
      ensures main in g' <==> exists j | 0 <= j < |cols'| :: ContributesMain(cols', j, main)
    {
      if main in g' && main !in g {
        assert ContributesMain(cols', |cols|, main);
      }
      if main in g {
        var j :| 0 <= j < |cols| && ContributesMain(cols, j, main);
        assert ContributesMain(cols', j, main);
      }
      if exists j | 0 <= j < |cols'| :: ContributesMain(cols', j, main) {
        var j :| 0 <= j < |cols'| && ContributesMain(cols', j, main);
        if j < |cols| {
          assert ContributesMain(cols, j, main);
        }
      }
    }
  }

  lemma SubsStep(g: Grouped, cols: seq<Column>, c: Column)
    requires MainsAs(g, cols) && SubsAs(g, cols)
    ensures SubsAs(AddColumn(g, c), cols + [c])
  {
    var g', cols' := AddColumn(g, c), cols + [c];
    forall main, sub | main in g'
      ensures sub in g'[main] <==> exists j | 0 <= j < |cols'| :: Contributes(cols', j, GroupKey(main, sub))
    {
      var key := GroupKey(main, sub);
      if sub in g'[main] && !(main in g && sub in g[main]) {
        assert Contributes(cols', |cols|, key);
      }
      if main in g && sub in g[main] {
        var j :| 0 <= j < |cols| && Contributes(cols, j, key);
        assert Contributes(cols', j, key);
      }
      if exists j | 0 <= j < |cols'| :: Contributes(cols', j, key) {
        var j :| 0 <= j < |cols'| && Contributes(cols', j, key);
        if j < |cols| {
          assert Contributes(cols, j, key);
          assert ContributesMain(cols, j, main);
        }
      }
    }
  }

  /** A key that is not yet in `grouped` has gathered nothing from the columns seen. */
  lemma FreshKeyGathered(g: Grouped, cols: seq<Column>, key: GroupKey)
    requires MainsAs(g, cols) && SubsAs(g, cols)
    requires !(key.main in g && key.sub in g[key.main])
    ensures Gather(cols, key) == []
  {
    forall j | 0 <= j < |cols|
      ensures !Contributes(cols, j, key)
    {
      if Contributes(cols, j, key) {
        assert ContributesMain(cols, j, key.main);
      }
    }
    GatherUntouched(cols, key);
  }

  lemma ValuesStep(g: Grouped, cols: seq<Column>, c: Column)
    requires MainsAs(g, cols) && SubsAs(g, cols) && ValuesAs(g, cols)
    ensures ValuesAs(AddColumn(g, c), cols + [c])
  {
    var g', cols' := AddColumn(g, c), cols + [c];
    assert cols'[..|cols'| - 1] == cols;
    forall main, sub | main in g' && sub in g'[main]
      ensures g'[main][sub] == Gather(cols', GroupKey(main, sub))
    {
      var key := GroupKey(main, sub);
      assert Gather(cols', key) == Gather(cols, key) + (if c.key == key then c.doctors else []);
      if main in g && sub in g[main] {
        assert g[main][sub] == Gather(cols, key);
      } else {
        FreshKeyGathered(g, cols, key);
      }
    }
  }

  lemma GroupedNext(g: Grouped, cols: seq<Column>, c: Column)
    requires GroupedAs(g, cols)
    ensures GroupedAs(AddColumn(g, c), cols + [c])
  {
    MainsStep(g, cols, c);
    SubsStep(g, cols, c);
    ValuesStep(g, cols, c);
  }

  /**
   * The grouping holds exactly the departments and sub-departments some column
   * contributed doctors to, each with those columns' doctors in column order.
   */
  lemma {:induction false} GroupAllShape(cols: seq<Column>)
    ensures GroupedAs(GroupAll(cols), cols)
  {
    if cols != [] {
      var init := cols[..|cols| - 1];
      GroupAllShape(init);
      GroupedNext(GroupAll(init), init, cols[|cols| - 1]);
      assert init + [cols[|cols| - 1]] == cols;
    }
  }

  /** The `doctors.forEach` push: each name with its phone, appended in order. */
  method PushDoctors(list: seq<Doctor>, names: seq<string>, cmap: ContactsMap, main: string)
    returns (r: seq<Doctor>)
    ensures r == list + WithPhones(names, cmap, main)
  {
    r := list;
    var k := 0;
    while k < |names|
      invariant k <= |names|
      invariant |r| == |list| + k && r[..|list|] == list
      invariant forall m | 0 <= m < k :: r[|list| + m] == Doctor(names[m], PhoneOf(cmap, main, names[m]))
    {
      r := r + [Doctor(names[k], PhoneOf(cmap, main, names[k]))];
      k := k + 1;
    }
    assert r == list + WithPhones(names, cmap, main);
  }

  /** Files the non-empty names of one duty cell under the department and sub-department of `dept`. */
  method FileDoctors(grouped: Grouped, dept: string, names: seq<string>, cmap: ContactsMap)
    returns (g: Grouped)
    requires names != []
    ensures g == AddColumn(grouped, Column(HeaderKey(dept), WithPhones(names, cmap, HeaderKey(dept).main)))
  {
    var main := Upper(FirstWord(dept));
    var sub := Trim(dept[|main|..]);
    var subkey := if sub != "" then sub else GeneralSubgroup;
    assert HeaderKey(dept) == GroupKey(main, subkey);
    // `grouped[main] ||= {}`, `grouped[main][subkey] ||= []`, then push each doctor
    var subs := if main in grouped then grouped[main] else map[];
    var list := if subkey in subs then subs[subkey] else [];
    list := PushDoctors(list, names, cmap, main);
    g := grouped[main := subs[subkey := list]];
  }

  /** One call of the `headers.forEach` callback: the duty cell under header `i`. */
  method AddColumnPass(grouped: Grouped, headers: Row, todayRow: Row, cmap: ContactsMap, i: nat)
    returns (g: Grouped)
    requires i < |headers|
    ensures g == AddColumn(grouped, ColumnAt(headers, todayRow, cmap, i))
  {
    var cell := Cell(todayRow, i + 1);
    if !Truthy(cell) {
      return grouped;
    }
    var doctors := DoctorNames(cell.value);
    if |doctors| == 0 {
      return grouped;
    }
    g := FileDoctors(grouped, headers[i], doctors, cmap);
  }

  /** The grouping loop of `renderDashboard`. */
  method GroupDoctors(headers: Row, todayRow: Row, cmap: ContactsMap) returns (grouped: Grouped)
    ensures grouped == GroupAll(Columns(headers, todayRow, cmap))
  {
    ghost var cols := Columns(headers, todayRow, cmap);
    grouped := map[];
    var i := 0;
    while i < |headers|
      invariant i <= |headers|
      invariant grouped == GroupAll(cols[..i])
    {
      assert cols[..i + 1][..i] == cols[..i];
      ColumnsAt(headers, todayRow, cmap, i);
      grouped := AddColumnPass(grouped, headers, todayRow, cmap, i);
      i := i + 1;
    }
    assert cols[..i] == cols;
  }

  // ---------------------------------------------------------------------
  // What the groups hold
  // ---------------------------------------------------------------------

  /** Every doctor of every column carries the phone looked up under that column's department. */
  ghost predicate PhonedFrom(cols: seq<Column>, cmap: ContactsMap) {
    forall i, d | 0 <= i < |cols| && d in cols[i].doctors :: d.phone == PhoneOf(cmap, cols[i].key.main, d.name)
  }

  lemma ColumnsPhoned(headers: Row, row: Row, cmap: ContactsMap)
    ensures PhonedFrom(Columns(headers, row, cmap), cmap)
  {
    var cols := Columns(headers, row, cmap);
    forall i, d | 0 <= i < |cols| && d in cols[i].doctors
      ensures d.phone == PhoneOf(cmap, cols[i].key.main, d.name)
    {
      ColumnsAt(headers, row, cmap, i);
      var names := if Truthy(Cell(row, i + 1)) then DoctorNames(Cell(row, i + 1).value) else [];
      var k :| 0 <= k < |cols[i].doctors| && cols[i].doctors[k] == d;
      assert d == Doctor(names[k], PhoneOf(cmap, cols[i].key.main, names[k]));
    }
  }

  /** Whatever a group gathered was looked up under the group's own department. */
  lemma {:induction false} GatherPhoned(cols: seq<Column>, cmap: ContactsMap, key: GroupKey)
    requires PhonedFrom(cols, cmap)
    ensures forall d | d in Gather(cols, key) :: d.phone == PhoneOf(cmap, key.main, d.name)
  {
    if cols != [] {
      var init := cols[..|cols| - 1];
      assert PhonedFrom(init, cmap) by {
        forall i, d | 0 <= i < |init| && d in init[i].doctors
          ensures d.phone == PhoneOf(cmap, init[i].key.main, d.name)
        {
          assert init[i] == cols[i];
        }
      }
      GatherPhoned(init, cmap, key);
      var last := cols[|cols| - 1];
      forall d | d in Gather(cols, key)
        ensures d.phone == PhoneOf(cmap, key.main, d.name)
      {
        if d !in Gather(init, key) {
          assert last.key == key && d in last.doctors;
        }
      }
    }
  }

  /** A phone shown next to a doctor is never empty: a stored number, or "Unknown". */
  lemma PhoneOfShape(cmap: ContactsMap, main: string, name: string)
    ensures PhoneOf(cmap, main, name) != ""
    ensures PhoneOf(cmap, main, name) == Links.UnknownPhone <==>
            main !in cmap || name !in cmap[main] || cmap[main][name] in {"", Links.UnknownPhone}
  {
  }

  /** The duty cells of today's row give no doctor at all exactly when the grouping is empty. */
  lemma NoDoctorsIff(headers: Row, row: Row, cmap: ContactsMap)
    ensures GroupAll(Columns(headers, row, cmap)) == map[] <==>
            forall i | 0 <= i < |headers| :: ColumnDoctors(headers, row, cmap, i) == []
  {
    var cols := Columns(headers, row, cmap);
    var g := GroupAll(cols);
    GroupAllShape(cols);
    if g == map[] {
      forall i | 0 <= i < |headers|
        ensures ColumnDoctors(headers, row, cmap, i) == []
      {
        ColumnsAt(headers, row, cmap, i);
        if ColumnDoctors(headers, row, cmap, i) != [] {
          assert ContributesMain(cols, i, cols[i].key.main);
        }
      }
    } else {
      var main :| main in g;
      var i :| 0 <= i < |cols| && ContributesMain(cols, i, main);
      ColumnsAt(headers, row, cmap, i);
    }
  }

  /** The heading shown above a sub-department: none for "General". */
  function SubHeading(sub: string): (heading: Option<string>)
    ensures heading.None? <==> sub == GeneralSubgroup
    ensures heading.Some? ==> heading.value == sub
  {
    if sub != GeneralSubgroup then Some(sub) else None
  }

  // ---------------------------------------------------------------------
  // renderDashboard
  // ---------------------------------------------------------------------

  /** What the doctor list shows after a render, or that the render threw. */
  datatype Board =
    | Crashed                   // `timetable[0].slice(1)` on an empty timetable throws a TypeError
    | NoSchedule(day: string)   // "No on-call schedule found for today (day)."
    | NoDoctors                 // "No doctors on-call today."
    | Roster(groups: Grouped)   // one card per department

  /** The board `renderDashboard(timetable, contacts)` leaves for the date key `todayStr`. */
  function Dashboard(timetable: Table, contacts: Table, todayStr: string): Board {
    if timetable == [] then Crashed
    else match FindRow(timetable, todayStr)
      case None => NoSchedule(todayStr)
      case Some(k) =>
        var g := GroupAll(Columns(Tail(timetable[0]), timetable[k], ContactsMapOf(contacts)));
        if g == map[] then NoDoctors else Roster(g)
  }

  /** `renderDashboard`: today's row, the contacts map, then the grouping. */
  method RenderDashboard(timetable: Table, contacts: Table, todayStr: string) returns (board: Board)
    ensures board == Dashboard(timetable, contacts, todayStr)
  {
    if |timetable| == 0 {
      return Crashed;
    }
    var headers := Tail(timetable[0]);
    var found := FindRow(timetable, todayStr);
    if found.None? {
      return NoSchedule(todayStr);
    }
    var todayRow := timetable[found.value];
    var cmap := BuildContactsMap(contacts);
    var grouped := GroupDoctors(headers, todayRow, cmap);
    board := if grouped == map[] then NoDoctors else Roster(grouped);
  }

  /**
   * What a render shows: it throws only on an empty timetable; it reports a
   * missing schedule exactly when no row is keyed by today's date; otherwise
   * every department and sub-department shown had doctors on duty in today's
   * row, every doctor on duty is shown, in column order, each with the phone
   * the contacts sheet gives for that name under that department, and the
   * "no doctors" message appears exactly when every duty cell is blank.
   */
  lemma DashboardShape(timetable: Table, contacts: Table, todayStr: string)
    ensures Dashboard(timetable, contacts, todayStr) == Crashed <==> timetable == []
    ensures Dashboard(timetable, contacts, todayStr).NoSchedule? <==>
            timetable != [] && forall k | 0 <= k < |timetable| :: !Keyed(timetable[k], todayStr)
    ensures timetable != [] && FindRow(timetable, todayStr).Some? ==>
              var headers, row, cmap := Tail(timetable[0]), timetable[FindRow(timetable, todayStr).value], ContactsMapOf(contacts);
              var b := Dashboard(timetable, contacts, todayStr);
              && (b == NoDoctors <==> forall i | 0 <= i < |headers| :: ColumnDoctors(headers, row, cmap, i) == [])
              && (b.Roster? ==> GroupedAs(b.groups, Columns(headers, row, cmap)))
              && (b.Roster? ==> forall main, sub, d | main in b.groups && sub in b.groups[main] && d in b.groups[main][sub] ::
                                  d.phone == PhoneOf(cmap, main, d.name))
  {
    if timetable != [] {
      var r := FindRow(timetable, todayStr);
      if r.None? {
      } else {
        assert Keyed(timetable[r.value], todayStr);
        var headers, row, cmap := Tail(timetable[0]), timetable[r.value], ContactsMapOf(contacts);
        var cols := Columns(headers, row, cmap);
        NoDoctorsIff(headers, row, cmap);
        GroupAllShape(cols);
        ColumnsPhoned(headers, row, cmap);
        var g := GroupAll(cols);
        forall main: string, sub: string, d: Doctor | main in g && sub in g[main] && d in g[main][sub]
          ensures d.phone == PhoneOf(cmap, main, d.name)
        {
          GatherPhoned(cols, cmap, GroupKey(main, sub));
        }
      }
    }
  }
}
