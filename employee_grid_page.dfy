/**
 * frontend/src/feature-module/mainMenu/employeeDashboard/employee-grid.tsx:
 * the card grid's smart search, selections and sorts behind `filtered`, the
 * page state with its reset effect, the employee load and the avatar URL.
 */
module EmployeeGridPage {
  import opened Wrappers
  import Seqs
  import opened Text
  import opened EmployeeBrowse

  // ---------------------------------------------------------------------------
  // filtered

  /** The search box's query: trimmed and lower-cased. */
  function Query(search: string): string {
    Lower(Trim(search))
  }

  function DeptName(e: ClientEmployee): string {
    if e.department.Some? then e.department.value.name else ""
  }

  function DesigTitle(e: ClientEmployee): string {
    if e.designation.Some? then e.designation.value.title else ""
  }

  /**
   * The smart search: the query is a substring of the full name, the email,
   * the department name or the designation title, or a prefix of the code.
   */
  predicate SmartHit(q: string, e: ClientEmployee) {
    Contains(Lower(FullName(e)), q)
    || Contains(Lower(e.email), q)
    || Contains(Lower(DeptName(e)), q)
    || Contains(Lower(DesigTitle(e)), q)
    || StartsWith(Lower(e.empCode), q)
  }

  predicate GridMatches(search: string, sel: Selection, e: ClientEmployee) {
    (Query(search) == [] || SmartHit(Query(search), e)) && Selected(sel, e)
  }

  function GridMatchesBy(search: string, sel: Selection): ClientEmployee -> bool {
    (e: ClientEmployee) => GridMatches(search, sel, e)
  }

  function SmartHitBy(q: string): ClientEmployee -> bool { (e: ClientEmployee) => SmartHit(q, e) }

  /** The sort select. */
  datatype GridSort = Recent | NameAsc | NameDesc | JoiningAsc | JoiningDesc

  /** "recent": `created_at ?? joining_date ?? ""`, with an unparseable date as 0. */
  function RecentKey(parse: string -> Option<int>): ClientEmployee -> int {
    (e: ClientEmployee) => Timestamp(parse, if e.createdAt.Some? then e.createdAt else e.joiningDate)
  }

  function JoiningKey(parse: string -> Option<int>): ClientEmployee -> int {
    (e: ClientEmployee) => Timestamp(parse, e.joiningDate)
  }

  /**
   * The comparator each sort choice passes to `list.sort`; first names
   * compare by `localeCompare`, the collation `collate`.
   */
  function GridOrder(sort: GridSort, parse: string -> Option<int>, collate: (string, string) -> bool)
    : (ClientEmployee, ClientEmployee) -> bool
  {
    match sort
    case NameAsc => (a: ClientEmployee, b: ClientEmployee) => collate(a.firstName, b.firstName)
    case NameDesc => (a: ClientEmployee, b: ClientEmployee) => collate(b.firstName, a.firstName)
    case JoiningAsc => Seqs.ByKey(JoiningKey(parse), false)
    case JoiningDesc => Seqs.ByKey(JoiningKey(parse), true)
    case Recent => Seqs.ByKey(RecentKey(parse), true)
  }

  /** Under a collation, each sort choice's comparator is a total preorder. */
  lemma GridOrderIsOrder(sort: GridSort, parse: string -> Option<int>, collate: (string, string) -> bool)
    requires IsCollation(collate)
    ensures Seqs.Total(GridOrder(sort, parse, collate)) && Seqs.Transitive(GridOrder(sort, parse, collate))
  {
    var le := GridOrder(sort, parse, collate);
    match sort {
      case NameAsc =>
        forall a: ClientEmployee, b: ClientEmployee ensures le(a, b) || le(b, a) {
          assert collate(a.firstName, b.firstName) || collate(b.firstName, a.firstName);
        }
        forall a: ClientEmployee, b: ClientEmployee, c: ClientEmployee | le(a, b) && le(b, c) ensures le(a, c) {
          assert collate(a.firstName, b.firstName) && collate(b.firstName, c.firstName);
        }
      case NameDesc =>
        forall a: ClientEmployee, b: ClientEmployee ensures le(a, b) || le(b, a) {
          assert collate(a.firstName, b.firstName) || collate(b.firstName, a.firstName);
        }
        forall a: ClientEmployee, b: ClientEmployee, c: ClientEmployee | le(a, b) && le(b, c) ensures le(a, c) {
          assert collate(c.firstName, b.firstName) && collate(b.firstName, a.firstName);
        }
      case JoiningAsc => Seqs.ByKeyIsOrder(JoiningKey(parse), false);
      case JoiningDesc => Seqs.ByKeyIsOrder(JoiningKey(parse), true);
      case Recent => Seqs.ByKeyIsOrder(RecentKey(parse), true);
    }
  }

  /** `filtered`: a copy narrowed by the search when the query is set and by each selection, then sorted. */
  method Filtered(employees: seq<ClientEmployee>, search: string, sel: Selection, sort: GridSort,
                  parse: string -> Option<int>, collate: (string, string) -> bool)
    returns (list: seq<ClientEmployee>)
    ensures list == Seqs.SortBy(Seqs.Filter(employees, GridMatchesBy(search, sel)), GridOrder(sort, parse, collate))
  {
    var q := Query(search);
    list := employees;
    if q != [] {
      list := Seqs.Filter(list, SmartHitBy(q));
      list := NarrowBySelection(list, sel);
      Seqs.FilterFilter(employees, SmartHitBy(q), SelectedBy(sel), GridMatchesBy(search, sel));
    } else {
      list := NarrowBySelection(list, sel);
      Seqs.FilterCongruent(employees, SelectedBy(sel), GridMatchesBy(search, sel));
    }
    list := Seqs.SortBy(list, GridOrder(sort, parse, collate));
  }

  /** `filtered` holds exactly the matching employees, in comparator order. */
  lemma FilteredIsSortedSelection(employees: seq<ClientEmployee>, search: string, sel: Selection, sort: GridSort,
                                  parse: string -> Option<int>, collate: (string, string) -> bool)
    requires IsCollation(collate)
    ensures var list := Seqs.SortBy(Seqs.Filter(employees, GridMatchesBy(search, sel)), GridOrder(sort, parse, collate));
      Seqs.Sorted(list, GridOrder(sort, parse, collate))
      && forall e :: e in list <==> e in employees && GridMatches(search, sel, e)
  {
    GridOrderIsOrder(sort, parse, collate);
    Seqs.SortByOrders(Seqs.Filter(employees, GridMatchesBy(search, sel)), GridOrder(sort, parse, collate));
    Seqs.FilterContains(employees, GridMatchesBy(search, sel));
  }

  /** A blank search keeps every employee that passes the selections. */
  lemma BlankSearchKeepsSelected(search: string, sel: Selection, e: ClientEmployee)
    requires IsBlank(search)
    ensures GridMatches(search, sel, e) <==> Selected(sel, e)
  {
    TrimEmptyIffBlank(search);
  }

  // ---------------------------------------------------------------------------
  // Page state

  /** The grid's search, selections, sort, page size and page. */
  class GridView {
    var employees: seq<ClientEmployee>
    var search: string
    var sel: Selection
    var sort: GridSort
    var rowsPerPage: nat
    var page: int

    ghost predicate Valid()
      reads this
    {
      page >= 1 && rowsPerPage > 0
    }

    constructor ()
      ensures Valid()
      ensures employees == [] && search == [] && sel == Selection([], [], All) && sort == Recent
      ensures rowsPerPage == 12 && page == 1
    {
      employees := [];
      search := [];
      sel := Selection([], [], All);
      sort := Recent;
      rowsPerPage := 12;
      page := 1;
    }

    /**
     * The page-reset effect: when the page size, the search, a selection or
     * the sort changes, the grid goes back to page 1; otherwise the page stays.
     */
    method Update(newSearch: string, newSel: Selection, newSort: GridSort, newRowsPerPage: nat)
      modifies this
      requires Valid() && newRowsPerPage > 0
      ensures search == newSearch && sel == newSel && sort == newSort && rowsPerPage == newRowsPerPage
      ensures employees == old(employees)
      ensures page == if (newSearch, newSel, newSort, newRowsPerPage) != old((search, sel, sort, rowsPerPage))
                      then 1 else old(page)
      ensures Valid()
    {
      if (newSearch, newSel, newSort, newRowsPerPage) != (search, sel, sort, rowsPerPage) {
        page := 1;
      }
      search := newSearch;
      sel := newSel;
      sort := newSort;
      rowsPerPage := newRowsPerPage;
    }

    method PrevPage()
      modifies this
      requires Valid()
      ensures page == Prev(old(page)) && Valid()
      ensures search == old(search) && sel == old(sel) && sort == old(sort) && rowsPerPage == old(rowsPerPage)
      ensures employees == old(employees)
    {
      page := Prev(page);
    }

    /** Next, against the page count of the current `filtered` length. */
    method NextPage(filteredCount: nat)
      modifies this
      requires Valid()
      ensures Valid() && rowsPerPage == old(rowsPerPage)
      ensures page == Next(old(page), PageCount(filteredCount, rowsPerPage))
      ensures search == old(search) && sel == old(sel) && sort == old(sort)
      ensures employees == old(employees)
    {
      page := Next(page, PageCount(filteredCount, rowsPerPage));
    }

    /** `loadEmployees`: the normalised body, or an empty list when the request fails. */
    method LoadEmployees(response: Option<EmployeesBody>)
      modifies this
      ensures employees == if response.Some? then Normalise(response.value) else []
      ensures search == old(search) && sel == old(sel) && sort == old(sort)
      ensures rowsPerPage == old(rowsPerPage) && page == old(page)
    {
      if response.Some? {
        employees := Normalise(response.value);
      } else {
        employees := [];
      }
    }
  }

  // ---------------------------------------------------------------------------
  // Avatar

  const DefaultAvatar: string := "/assets/images/avatar.png"

  /** `.replace(/\/$/, "")`: one trailing '/' removed. */
  function StripTrailingSlash(base: string): (r: string)
    ensures base != [] && base[|base| - 1] == '/' ==> r + "/" == base
    ensures base == [] || base[|base| - 1] != '/' ==> r == base
  {
    if base != [] && base[|base| - 1] == '/' then base[..|base| - 1] else base
  }

  /**
   * `avatarSrc`: an absolute photo URL as is, a relative one under the API
   * base URL less one trailing '/', else the default image.
   */
  function AvatarSrc(baseUrl: string, photo: Option<string>): (r: string)
    ensures photo.None? || photo.value == [] ==> r == DefaultAvatar
    ensures photo.Some? && StartsWith(photo.value, "http") ==> r == photo.value
    ensures photo.Some? && photo.value != [] && !StartsWith(photo.value, "http") ==>
      r == StripTrailingSlash(baseUrl) + photo.value
  {
    if photo.None? || photo.value == [] then DefaultAvatar
    else if StartsWith(photo.value, "http") then photo.value
    else StripTrailingSlash(baseUrl) + photo.value
  }

  /** With a base ending in '/', a relative path starting with '/' is joined with a single slash. */
  lemma AvatarSingleSlash(host: string, path: string)
    requires host != [] && host[|host| - 1] != '/'
    requires path != [] && path[0] == '/' && !StartsWith(path, "http")
    ensures AvatarSrc(host + "/", Some(path)) == host + path
  {
    assert (host + "/")[..|host + "/"| - 1] == host;
  }
}
