/**
 * frontend/src/feature-module/mainMenu/employeeDashboard/employee-list.tsx:
 * the totals cards, the search, selections and sort behind `filtered`, the
 * pager state, the CSV export and the avatar URL.
 */
module EmployeeListPage {
  import opened Wrappers
  import Seqs
  import opened Text
  import opened EmployeeBrowse

  // ---------------------------------------------------------------------------
  // Totals

  datatype Totals = Totals(total: nat, active: nat, inactive: nat)

  function IsActive(): ClientEmployee -> bool { (e: ClientEmployee) => e.isActive }
  function IsInactive(): ClientEmployee -> bool { (e: ClientEmployee) => !e.isActive }

  /** `totals` without `newHires`: the list size, the active employees, and the rest. */
  function ListTotals(employees: seq<ClientEmployee>): (t: Totals)
    ensures t.total == |employees| && t.active == Seqs.Count(employees, IsActive())
    ensures t.active + t.inactive == t.total
  {
    Seqs.CountIsFilterLength(employees, IsActive());
    var active := |Seqs.Filter(employees, IsActive())|;
    Totals(|employees|, active, |employees| - active)
  }

  /** The inactive card counts exactly the inactive employees. */
  lemma InactiveAreTheRest(employees: seq<ClientEmployee>)
    ensures ListTotals(employees).inactive == Seqs.Count(employees, IsInactive())
  {
    Seqs.CountComplement(employees, IsActive(), IsInactive());
  }

  // ---------------------------------------------------------------------------
  // filtered

  /** The search condition for an already lower-cased query. */
  predicate SearchHit(q: string, e: ClientEmployee) {
    Contains(Lower(FullName(e)), q) || Contains(Lower(e.email), q) || Contains(Lower(e.empCode), q)
  }

  /**
   * The search applies only when `search.trim()` is non-empty, but it matches
   * `search.toLowerCase()`, spaces included.
   */
  predicate SearchKeeps(search: string, e: ClientEmployee) {
    Trim(search) == [] || SearchHit(Lower(search), e)
  }

  predicate ListMatches(search: string, sel: Selection, e: ClientEmployee) {
    SearchKeeps(search, e) && Selected(sel, e)
  }

  function ListMatchesBy(search: string, sel: Selection): ClientEmployee -> bool {
    (e: ClientEmployee) => ListMatches(search, sel, e)
  }

  function SearchHitBy(q: string): ClientEmployee -> bool { (e: ClientEmployee) => SearchHit(q, e) }

  /** The sort select: "recent", "joining_desc" or "joining_asc". */
  datatype ListSort = Recent | JoiningDesc | JoiningAsc

  function JoiningKey(parse: string -> Option<int>): ClientEmployee -> int {
    (e: ClientEmployee) => Timestamp(parse, e.joiningDate)
  }

  function CreatedKey(parse: string -> Option<int>): ClientEmployee -> int {
    (e: ClientEmployee) => Timestamp(parse, e.createdAt)
  }

  /** The comparator each sort choice passes to `list.sort`. */
  function ListOrder(sort: ListSort, parse: string -> Option<int>): (ClientEmployee, ClientEmployee) -> bool {
    match sort
    case Recent => Seqs.ByKey(CreatedKey(parse), true)
    case JoiningDesc => Seqs.ByKey(JoiningKey(parse), true)
    case JoiningAsc => Seqs.ByKey(JoiningKey(parse), false)
  }

  /**
   * `filtered`: a copy of the employees, narrowed by the search when set and
   * by each selection, then sorted.
   */
  method Filtered(employees: seq<ClientEmployee>, search: string, sel: Selection, sort: ListSort,
                  parse: string -> Option<int>)
    returns (list: seq<ClientEmployee>)
    ensures list == Seqs.SortBy(Seqs.Filter(employees, ListMatchesBy(search, sel)), ListOrder(sort, parse))
  {
    list := employees;
    if Trim(search) != [] {
      var q := Lower(search);
      list := Seqs.Filter(list, SearchHitBy(q));
      list := NarrowBySelection(list, sel);
      Seqs.FilterFilter(employees, SearchHitBy(q), SelectedBy(sel), ListMatchesBy(search, sel));
    } else {
      list := NarrowBySelection(list, sel);
      Seqs.FilterCongruent(employees, SelectedBy(sel), ListMatchesBy(search, sel));
    }
    list := Seqs.SortBy(list, ListOrder(sort, parse));
  }

  /** `filtered` holds exactly the matching employees, in comparator order. */
  lemma FilteredIsSortedSelection(employees: seq<ClientEmployee>, search: string, sel: Selection, sort: ListSort,
                                  parse: string -> Option<int>)
    ensures var list := Seqs.SortBy(Seqs.Filter(employees, ListMatchesBy(search, sel)), ListOrder(sort, parse));
      Seqs.Sorted(list, ListOrder(sort, parse))
      && forall e :: e in list <==> e in employees && ListMatches(search, sel, e)
  {
    var kept := Seqs.Filter(employees, ListMatchesBy(search, sel));
    match sort {
      case Recent => Seqs.ByKeyIsOrder(CreatedKey(parse), true);
      case JoiningDesc => Seqs.ByKeyIsOrder(JoiningKey(parse), true);
      case JoiningAsc => Seqs.ByKeyIsOrder(JoiningKey(parse), false);
    }
    Seqs.SortByOrders(kept, ListOrder(sort, parse));
    Seqs.FilterContains(employees, ListMatchesBy(search, sel));
  }

  /** With "recent", later-created employees come first. */
  lemma RecentIsNewestFirst(employees: seq<ClientEmployee>, search: string, sel: Selection,
                            parse: string -> Option<int>, i: nat, j: nat)
    requires var list := Seqs.SortBy(Seqs.Filter(employees, ListMatchesBy(search, sel)), ListOrder(Recent, parse));
      i < j < |list|
    ensures var list := Seqs.SortBy(Seqs.Filter(employees, ListMatchesBy(search, sel)), ListOrder(Recent, parse));
      Timestamp(parse, list[j].createdAt) <= Timestamp(parse, list[i].createdAt)
  {
    FilteredIsSortedSelection(employees, search, sel, Recent, parse);
  }

  /**
   * The untrimmed query: " ann" passes the blank check, yet it does not match
   * an employee named "Ann" whose trimmed query "ann" would.
   */
  lemma UntrimmedQueryMisses()
    ensures var e := ClientEmployee(1, "E1", "Ann", None, "a@b", None, None, None, None, true, None);
      Trim(" ann") == "ann" && !SearchKeeps(" ann", e) && SearchHit("ann", e)
  {
    var e := ClientEmployee(1, "E1", "Ann", None, "a@b", None, None, None, None, true, None);
    SpacedQuery();
    AnnName(e);
    ShorterNotContained(Lower(e.email), " ann");
    ShorterNotContained(Lower(e.empCode), " ann");
  }

  lemma SpacedQuery()
    ensures Trim(" ann") == "ann" && Lower(" ann") == " ann"
  {
    assert " ann"[0] == ' ' && " ann"[1..] == "ann";
    assert !IsSpace("ann"[0]) && !IsSpace("ann"[2]);
    assert TrimStart(" ann") == "ann";
    assert TrimEnd("ann") == "ann";
    assert Lower(" ann") == " ann" by {
      assert forall i :: 0 <= i < 4 ==> LowerChar(" ann"[i]) == " ann"[i];
    }
  }

  lemma AnnName(e: ClientEmployee)
    requires e.firstName == "Ann" && e.lastName.None?
    ensures Contains(Lower(FullName(e)), "ann") && !Contains(Lower(FullName(e)), " ann")
  {
    var name := Lower(FullName(e));
    assert name == "ann " by {
      assert FullName(e) == "Ann ";
    }
    assert StartsWith(name, "ann");
    assert name[0] != " ann"[0];
    assert !StartsWith(name, " ann");
    ShorterNotContained(name[1..], " ann");
  }

  lemma {:induction false} ShorterNotContained(s: string, sub: string)
    requires |s| < |sub|
    ensures !Contains(s, sub)
    decreases |s|
  {
    if s != [] {
      ShorterNotContained(s[1..], sub);
    }
  }

  // ---------------------------------------------------------------------------
  // Pager state

  const RowsPerPage: nat := 10

  /** The list's filter, sort and page state. */
  class ListView {
    var search: string
    var sel: Selection
    var sort: ListSort
    var page: int

    ghost predicate Valid()
      reads this
    {
      page >= 1
    }

    constructor ()
      ensures Valid()
      ensures search == [] && sel == Selection([], [], All) && sort == Recent && page == 1
    {
      search := [];
      sel := Selection([], [], All);
      sort := Recent;
      page := 1;
    }

    /** Typing in the search box goes back to page 1. */
    method SetSearch(s: string)
      modifies this
      ensures search == s && page == 1 && sel == old(sel) && sort == old(sort)
      ensures Valid()
    {
      search := s;
      page := 1;
    }

    /** Any selection change goes back to page 1. */
    method SetSelection(s: Selection)
      modifies this
      ensures sel == s && page == 1 && search == old(search) && sort == old(sort)
      ensures Valid()
    {
      sel := s;
      page := 1;
    }

    /** A sort change keeps the page. */
    method SetSort(s: ListSort)
      modifies this
      ensures sort == s && page == old(page) && search == old(search) && sel == old(sel)
    {
      sort := s;
    }

    method PrevPage()
      modifies this
      requires Valid()
      ensures page == Prev(old(page)) && Valid()
      ensures search == old(search) && sel == old(sel) && sort == old(sort)
    {
      page := Prev(page);
    }

    /** Next, against the page count of the current `filtered` length. */
    method NextPage(filteredCount: nat)
      modifies this
      requires Valid()
      ensures page == Next(old(page), PageCount(filteredCount, RowsPerPage)) && Valid()
      ensures search == old(search) && sel == old(sel) && sort == old(sort)
    {
      page := Next(page, PageCount(filteredCount, RowsPerPage));
    }
  }

  // ---------------------------------------------------------------------------
  // CSV export

  /** The seven keys of an exported row, in order. */
  const CsvHeader: seq<string> := ["id", "emp_code", "name", "email", "department", "designation", "joining_date"]

  /** An exported row's values, as `String(v)` renders them. */
  function CsvValues(e: ClientEmployee): (r: seq<string>)
    ensures |r| == |CsvHeader|
  {
    [NatToString(e.id), e.empCode, Trim(FullName(e)), e.email,
     if e.department.Some? then e.department.value.name else "",
     if e.designation.Some? then e.designation.value.title else "",
     e.joiningDate.GetOr("")]
  }

  /** `.replace(/"/g, '""')`. */
  function EscapeQuotes(v: string): (r: string)
    ensures forall c :: c in r ==> c in v
    ensures |r| >= |v|
  {
    if v == [] then []
    else (if v[0] == '"' then "\"\"" else [v[0]]) + EscapeQuotes(v[1..])
  }

  /** A value wrapped in double quotes with inner quotes doubled. */
  function Quote(v: string): (r: string)
    ensures |r| >= 2 && r[0] == '"' && r[|r| - 1] == '"'
    ensures r[1..|r| - 1] == EscapeQuotes(v)
  {
    "\"" + EscapeQuotes(v) + "\""
  }

  function Prepend(c: char, rest: Option<string>): Option<string> {
    if rest.Some? then Some([c] + rest.value) else None
  }

  /** Reading the inside of a quoted field: a doubled quote is one quote, a lone quote is an error. */
  function Unescape(s: string): Option<string>
    decreases |s|
  {
    if s == [] then Some([])
    else if s[0] != '"' then Prepend(s[0], Unescape(s[1..]))
    else if |s| >= 2 && s[1] == '"' then Prepend('"', Unescape(s[2..]))
    else None
  }

  /** Reading a quoted field as section 2 rule 7 of RFC 4180 defines it. */
  function Unquote(field: string): Option<string> {
    if |field| >= 2 && field[0] == '"' && field[|field| - 1] == '"' then Unescape(field[1..|field| - 1]) else None
  }

  lemma {:induction false} UnescapeEscape(v: string)
    ensures Unescape(EscapeQuotes(v)) == Some(v)
    decreases |v|
  {
    if v != [] {
      UnescapeEscape(v[1..]);
      var s := EscapeQuotes(v);
      if v[0] == '"' {
        assert s[0] == '"' && s[1] == '"' && s[2..] == EscapeQuotes(v[1..]);
      } else {
        assert s[0] == v[0] && s[1..] == EscapeQuotes(v[1..]);
      }
      assert v == [v[0]] + v[1..];
    }
  }

  /** Every exported value reads back unchanged. */
  lemma QuoteRoundTrip(v: string)
    ensures Unquote(Quote(v)) == Some(v)
  {
    UnescapeEscape(v);
  }

  function Record(values: seq<string>): string {
    Join(seq(|values|, i requires 0 <= i < |values| => Quote(values[i])), ",")
  }

  function Records(list: seq<ClientEmployee>): (r: seq<string>)
    ensures |r| == |list|
    ensures forall i :: 0 <= i < |list| ==> r[i] == Record(CsvValues(list[i]))
  {
    seq(|list|, i requires 0 <= i < |list| => Record(CsvValues(list[i])))
  }

  /**
   * `exportCSV`: nothing for an empty list; otherwise the unquoted header
   * line, then one line per employee, joined with "\n".
   */
  function ExportCsv(list: seq<ClientEmployee>): (r: Option<string>)
    ensures r.None? <==> list == []
    ensures r.Some? ==> r.value == Join([Join(CsvHeader, ",")] + Records(list), "\n")
  {
    if list == [] then None else Some(Join([Join(CsvHeader, ",")] + Records(list), "\n"))
  }

  predicate NoLineBreaks(e: ClientEmployee) {
    forall k :: 0 <= k < |CsvValues(e)| ==> '\n' !in CsvValues(e)[k]
  }

  lemma RecordOnOneLine(e: ClientEmployee)
    requires NoLineBreaks(e)
    ensures '\n' !in Record(CsvValues(e))
  {
    var values := CsvValues(e);
    var quoted := seq(|values|, i requires 0 <= i < |values| => Quote(values[i]));
    forall k | 0 <= k < |quoted| ensures '\n' !in quoted[k] {
      assert quoted[k] == "\"" + EscapeQuotes(values[k]) + "\"";
    }
    JoinExcludes(quoted, ",", '\n');
  }

  /**
   * When no value holds a line break, the file splits back into the header
   * line followed by exactly one line per exported employee, in order.
   */
  lemma ExportLines(list: seq<ClientEmployee>)
    requires list != []
    requires forall i :: 0 <= i < |list| ==> NoLineBreaks(list[i])
    ensures Split(ExportCsv(list).value, '\n') == [Join(CsvHeader, ",")] + Records(list)
    ensures |Split(ExportCsv(list).value, '\n')| == |list| + 1
  {
    LinesHaveNoBreaks(list);
    SplitJoin([Join(CsvHeader, ",")] + Records(list), '\n');
  }

  lemma LinesHaveNoBreaks(list: seq<ClientEmployee>)
    requires forall i :: 0 <= i < |list| ==> NoLineBreaks(list[i])
    ensures forall k :: 0 <= k < |list| + 1 ==> '\n' !in ([Join(CsvHeader, ",")] + Records(list))[k]
  {
    HeaderOnOneLine();
    var records := Records(list);
    forall k | 0 <= k < |list| ensures '\n' !in records[k] {
      RecordOnOneLine(list[k]);
    }
  }

  lemma HeaderOnOneLine()
    ensures '\n' !in Join(CsvHeader, ",")
  {
    var h := CsvHeader;
    assert forall k :: 0 <= k < |h| ==> '\n' !in h[k];
    JoinExcludes(h, ",", '\n');
  }

  // ---------------------------------------------------------------------------
  // Avatar

  const ApiBase: string := "http://localhost:8000"
  const DefaultAvatar: string := "/assets/images/avatar.png"

  /** `avatarSrc`: an absolute photo URL as is, a relative one under the API host, else the default image. */
  function AvatarSrc(photo: Option<string>): (r: string)
    ensures r == DefaultAvatar <==> photo.None? || photo.value == []
    ensures photo.Some? && photo.value != [] ==> |photo.value| <= |r| && r[|r| - |photo.value|..] == photo.value
    ensures photo.Some? && StartsWith(photo.value, "http") ==> r == photo.value
    ensures photo.Some? && photo.value != [] && !StartsWith(photo.value, "http") ==> r == ApiBase + photo.value
  {
    if photo.None? || photo.value == [] then DefaultAvatar
    else if StartsWith(photo.value, "http") then
      assert photo.value[0] == "http"[0];
      photo.value
    else
      assert (ApiBase + photo.value)[0] == 'h';
      ApiBase + photo.value
  }
}
