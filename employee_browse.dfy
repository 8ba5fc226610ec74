/**
 * What the employee list (employee-list.tsx) and the employee grid
 * (employee-grid.tsx) screens share: the employee record as the employee
 * endpoint returns it, the department, designation and status selections,
 * and the paging arithmetic with its Prev and Next buttons.
 */
module EmployeeBrowse {
  import opened Wrappers
  import Seqs
  import opened Text

  datatype DeptRef = DeptRef(id: nat, name: string)
  datatype DesigRef = DesigRef(id: nat, title: string)

  /**
   * An employee as the screens receive it: the nested department and
   * designation, and the optional fields as Option (None for null or missing).
   */
  datatype ClientEmployee = ClientEmployee(
    id: nat,
    empCode: string,
    firstName: string,
    lastName: Option<string>,
    email: string,
    joiningDate: Option<string>,
    createdAt: Option<string>,
    department: Option<DeptRef>,
    designation: Option<DesigRef>,
    isActive: bool,
    photo: Option<string>)

  /** `${e.first_name} ${e.last_name ?? ""}`. */
  function FullName(e: ClientEmployee): string {
    e.firstName + " " + e.lastName.GetOr("")
  }

  /**
   * `new Date(s ?? "").getTime()`, where `parse` stands for the date parser
   * and an unparseable date counts as 0.
   */
  function Timestamp(parse: string -> Option<int>, s: Option<string>): int {
    parse(s.GetOr("")).GetOr(0)
  }

  /** The status select: "all", "active" or "inactive". */
  datatype StatusChoice = All | ActiveOnly | InactiveOnly

  /** The three selections; "" selects every department or designation. */
  datatype Selection = Selection(dept: string, desig: string, status: StatusChoice)

  /** `String(e.department?.id ?? "")`. */
  function DeptKey(e: ClientEmployee): string {
    if e.department.Some? then NatToString(e.department.value.id) else ""
  }

  /** `String(e.designation?.id ?? "")`. */
  function DesigKey(e: ClientEmployee): string {
    if e.designation.Some? then NatToString(e.designation.value.id) else ""
  }

  predicate StatusKeeps(status: StatusChoice, e: ClientEmployee) {
    match status
    case All => true
    case ActiveOnly => e.isActive
    case InactiveOnly => !e.isActive
  }

  /** An employee passes the selections that are set. */
  predicate Selected(sel: Selection, e: ClientEmployee) {
    (sel.dept == [] || DeptKey(e) == sel.dept)
    && (sel.desig == [] || DesigKey(e) == sel.desig)
    && StatusKeeps(sel.status, e)
  }

  function SelectedBy(sel: Selection): ClientEmployee -> bool {
    (e: ClientEmployee) => Selected(sel, e)
  }

  function DeptIs(key: string): ClientEmployee -> bool { (e: ClientEmployee) => DeptKey(e) == key }
  function DesigIs(key: string): ClientEmployee -> bool { (e: ClientEmployee) => DesigKey(e) == key }
  function StatusIs(status: StatusChoice): ClientEmployee -> bool { (e: ClientEmployee) => StatusKeeps(status, e) }

  /**
   * The department, designation and status steps of `filtered`: each one set
   * narrows the list by `list = list.filter(...)`; together they are one
   * filter by all the selections.
   */
  method NarrowBySelection(list: seq<ClientEmployee>, sel: Selection) returns (r: seq<ClientEmployee>)
    ensures r == Seqs.Filter(list, SelectedBy(sel))
  {
    r := list;
    // The selections applied so far: `r` is `list` filtered by them.
    ghost var applied := Selection([], [], All);
    Seqs.FilterKeepsAll(list, SelectedBy(applied));
    if sel.dept != [] {
      Seqs.FilterFilter(list, SelectedBy(applied), DeptIs(sel.dept), SelectedBy(applied.(dept := sel.dept)));
      r := Seqs.Filter(r, DeptIs(sel.dept));
      applied := applied.(dept := sel.dept);
    }
    if sel.desig != [] {
      Seqs.FilterFilter(list, SelectedBy(applied), DesigIs(sel.desig), SelectedBy(applied.(desig := sel.desig)));
      r := Seqs.Filter(r, DesigIs(sel.desig));
      applied := applied.(desig := sel.desig);
    }
    if sel.status == ActiveOnly {
      Seqs.FilterFilter(list, SelectedBy(applied), StatusIs(ActiveOnly), SelectedBy(applied.(status := ActiveOnly)));
      r := Seqs.Filter(r, StatusIs(ActiveOnly));
      applied := applied.(status := ActiveOnly);
    }
    if sel.status == InactiveOnly {
      Seqs.FilterFilter(list, SelectedBy(applied), StatusIs(InactiveOnly), SelectedBy(applied.(status := InactiveOnly)));
      r := Seqs.Filter(r, StatusIs(InactiveOnly));
      applied := applied.(status := InactiveOnly);
    }
    assert applied == sel;
  }

  /**
   * Selecting the option of department (or designation) `k` keeps exactly
   * the employees whose nested department (designation) has id `k`; one
   * without a department (designation) is dropped.
   */
  lemma SelectionMeansId(e: ClientEmployee, k: nat)
    ensures DeptKey(e) == NatToString(k) <==> e.department.Some? && e.department.value.id == k
    ensures DesigKey(e) == NatToString(k) <==> e.designation.Some? && e.designation.value.id == k
  {
    if e.department.Some? && DeptKey(e) == NatToString(k) {
      NatToStringInjective(e.department.value.id, k);
    }
    if e.designation.Some? && DesigKey(e) == NatToString(k) {
      NatToStringInjective(e.designation.value.id, k);
    }
  }

  /** The body of the employee endpoint's answer: an array, an object with or without `results`, or nothing. */
  datatype EmployeesBody = ArrayBody(items: seq<ClientEmployee>) | ObjectBody(results: Option<seq<ClientEmployee>>) | NoBody

  /** `Array.isArray(data) ? data : data?.results ? data.results : []`. */
  function Normalise(body: EmployeesBody): (r: seq<ClientEmployee>)
    ensures body.ArrayBody? ==> r == body.items
    ensures body.ObjectBody? && body.results.Some? ==> r == body.results.value
    ensures body.NoBody? || (body.ObjectBody? && body.results.None?) ==> r == []
  {
    match body
    case ArrayBody(items) => items
    case ObjectBody(results) => results.GetOr([])
    case NoBody => []
  }

  // ---------------------------------------------------------------------------
  // Paging

  /** `Math.max(1, Math.ceil(n / rowsPerPage))`. */
  function PageCount(n: nat, rowsPerPage: nat): (r: nat)
    requires rowsPerPage > 0
    ensures r >= 1
    ensures n <= r * rowsPerPage
    ensures n == 0 || (r - 1) * rowsPerPage < n
  {
    if n == 0 then 1 else (n + rowsPerPage - 1) / rowsPerPage
  }

  /**
   * `list.slice((page - 1) * rowsPerPage, page * rowsPerPage)`, with the
   * bounds clamped to the list as `slice` does.
   */
  function Page<T>(list: seq<T>, page: nat, rowsPerPage: nat): (r: seq<T>)
    requires page >= 1
    ensures |r| <= rowsPerPage
    ensures (page - 1) * rowsPerPage <= |list| ==>
      r == list[(page - 1) * rowsPerPage .. if page * rowsPerPage <= |list| then page * rowsPerPage else |list|]
    ensures (page - 1) * rowsPerPage >= |list| ==> r == []
  {
    var start := if (page - 1) * rowsPerPage <= |list| then (page - 1) * rowsPerPage else |list|;
    var end := if page * rowsPerPage <= |list| then page * rowsPerPage else |list|;
    list[start..end]
  }

  /**
   * Every row is shown on some page within the page count: row `i` is at
   * position `i mod rowsPerPage` of page `i / rowsPerPage + 1`.
   */
  lemma PagesCoverList<T>(list: seq<T>, rowsPerPage: nat, i: nat)
    requires rowsPerPage > 0 && i < |list|
    ensures var p := i / rowsPerPage + 1;
      1 <= p <= PageCount(|list|, rowsPerPage)
      && i % rowsPerPage < |Page(list, p, rowsPerPage)|
      && Page(list, p, rowsPerPage)[i % rowsPerPage] == list[i]
  {
    var q, r := i / rowsPerPage, i % rowsPerPage;
    DivMod(i, rowsPerPage);
    PageIndexInRange(|list|, rowsPerPage, i);
    PageAt(list, rowsPerPage, q, r);
  }

  /** Row `i` is at offset `i % d` after `i / d` whole pages of `d` rows. */
  lemma DivMod(i: nat, d: nat)
    requires d > 0
    ensures i == (i / d) * d + i % d && 0 <= i % d < d
  {
  }

  /** Position `r` of page `q + 1` is row `q * rowsPerPage + r`. */
  lemma PageAt<T>(list: seq<T>, rowsPerPage: nat, q: nat, r: nat)
    requires r < rowsPerPage && q * rowsPerPage + r < |list|
    ensures r < |Page(list, q + 1, rowsPerPage)|
    ensures Page(list, q + 1, rowsPerPage)[r] == list[q * rowsPerPage + r]
  {
    var start := q * rowsPerPage;
    assert (q + 1 - 1) * rowsPerPage == start;
    assert (q + 1) * rowsPerPage == start + rowsPerPage;
  }

  /** The page of row `i` is within the page count. */
  lemma PageIndexInRange(n: nat, rowsPerPage: nat, i: nat)
    requires rowsPerPage > 0 && i < n
    ensures i / rowsPerPage + 1 <= PageCount(n, rowsPerPage)
  {
    var q, c := i / rowsPerPage, PageCount(n, rowsPerPage);
    assert q * rowsPerPage <= i;
    MulMonoLt(q, c, rowsPerPage);
  }

  /** Multiplying by a positive factor keeps a strict order, read backwards. */
  lemma MulMonoLt(x: nat, y: nat, d: nat)
    requires d > 0 && x * d < y * d
    ensures x < y
  {
    assert (y - x) * d == y * d - x * d;
  }

  /** Prev: `Math.max(1, page - 1)`. */
  function Prev(page: int): (r: int)
    ensures r >= 1
    ensures page > 1 ==> r == page - 1
    ensures page <= 1 ==> r == 1
  {
    if page - 1 > 1 then page - 1 else 1
  }

  /** Next: `Math.min(pageCount, page + 1)`. */
  function Next(page: int, pageCount: nat): (r: int)
    ensures r <= pageCount
    ensures page < pageCount ==> r == page + 1
    ensures page >= pageCount ==> r == pageCount
  {
    if page + 1 < pageCount then page + 1 else pageCount
  }

  /** Prev and Next keep a page that is within [1, pageCount] within it. */
  lemma PrevNextStayInRange(page: int, pageCount: nat)
    requires 1 <= page <= pageCount
    ensures 1 <= Prev(page) <= pageCount && 1 <= Next(page, pageCount) <= pageCount
    ensures page > 1 ==> Next(Prev(page), pageCount) == page
    ensures page < pageCount ==> Prev(Next(page, pageCount)) == page
  {
  }
}
