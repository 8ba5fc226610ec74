/**
 * frontend/src/feature-module/mainMenu/employeeDashboard/departments.tsx:
 * the department list with its search, per-department employee counts and
 * sort, the add and edit payloads, the form state and the count display.
 */
module DepartmentsPage {
  import opened Wrappers
  import Seqs
  import opened Text
  import opened EmployeeModels
  import EmployeeViews

  /** A listed department with the `emp_count` the page attaches to it. */
  datatype DeptRow = DeptRow(dept: Department, empCount: nat)

  datatype SortKey = ByName | ByCount
  datatype SortDir = Asc | Desc

  /** The search box's query: trimmed and lower-cased. */
  function Query(search: string): string {
    Lower(Trim(search))
  }

  /** `d.name` or `d.description || ""` contains the query, ignoring case. */
  predicate SearchKeeps(query: string, d: Department) {
    Contains(Lower(d.name), query) || Contains(Lower(d.description.GetOr("")), query)
  }

  function SearchFilter(query: string): Department -> bool {
    (d: Department) => SearchKeeps(query, d)
  }

  /** A blank search keeps every department. */
  lemma BlankSearchKeepsAll(depts: seq<Department>, search: string)
    requires IsBlank(search)
    ensures Seqs.Filter(depts, SearchFilter(Query(search))) == depts
  {
    TrimEmptyIffBlank(search);
    forall i | 0 <= i < |depts| ensures SearchFilter(Query(search))(depts[i]) {
      ContainsEmpty(Lower(depts[i].name));
    }
    Seqs.FilterKeepsAll(depts, SearchFilter(Query(search)));
  }

  // ---------------------------------------------------------------------------
  // Count lookup

  /**
   * `counts[d.id] ?? 0` as written: the object key is `String(d.id)`, while
   * `department_counts` keys its answer by department name.
   */
  function EmpCountById(counts: map<string, nat>, d: Department): nat {
    if NatToString(d.id) in counts then counts[NatToString(d.id)] else 0
  }

  /** The lookup the two ends evidently agree on: by department name. */
  function EmpCount(counts: map<string, nat>, d: Department): nat {
    if d.name in counts then counts[d.name] else 0
  }

  predicate AllDigits(s: string) {
    forall i :: 0 <= i < |s| ==> IsDigit(s[i])
  }

  /**
   * As written, when the counts come from `department_counts` (keyed by
   * names) and no department name is a decimal numeral, every department
   * shows 0 employees.
   */
  lemma IdLookupShowsZero(depts: seq<Department>, counts: map<string, nat>, d: Department)
    requires counts.Keys == set i | 0 <= i < |depts| :: depts[i].name
    requires forall i :: 0 <= i < |depts| ==> !AllDigits(depts[i].name)
    ensures EmpCountById(counts, d) == 0
  {
  }

  /**
   * Looked up by name, the count shown for each department is the number of
   * employees referencing it, as `department_counts` computes it.
   */
  lemma NameLookupShowsCount(depts: seq<Department>, emps: seq<Employee>, i: nat)
    requires Seqs.Injective(depts, DepartmentName()) && i < |depts|
    ensures forall counts: map<string, nat> ::
      (counts.Keys == (set k | 0 <= k < |depts| :: depts[k].name)
       && (forall k :: 0 <= k < |depts| ==> counts[depts[k].name] == Seqs.Count(emps, EmployeeViews.InDept(depts[k].id))))
      ==> EmpCount(counts, depts[i]) == Seqs.Count(emps, EmployeeViews.InDept(depts[i].id))
  {
  }

  // ---------------------------------------------------------------------------
  // processed: filter, annotate, sort

  /**
   * Attaches `emp_count` to each department, read out of `counts` by
   * `lookup`: `EmpCountById` as the page is written, `EmpCount` corrected.
   */
  function Annotate(list: seq<Department>, counts: map<string, nat>, lookup: (map<string, nat>, Department) -> nat)
    : (r: seq<DeptRow>)
    ensures |r| == |list|
    ensures forall i :: 0 <= i < |list| ==> r[i].dept == list[i] && r[i].empCount == lookup(counts, list[i])
  {
    seq(|list|, i requires 0 <= i < |list| => DeptRow(list[i], lookup(counts, list[i])))
  }

  /**
   * The comparator as a "may come first" relation: `localeCompare` of the
   * names (the collation `collate`) or the difference of the counts,
   * negated for "desc".
   */
  function RowOrder(key: SortKey, dir: SortDir, collate: (string, string) -> bool): (DeptRow, DeptRow) -> bool {
    match (key, dir)
    case (ByName, Asc) => (a: DeptRow, b: DeptRow) => collate(a.dept.name, b.dept.name)
    case (ByName, Desc) => (a: DeptRow, b: DeptRow) => collate(b.dept.name, a.dept.name)
    case (ByCount, Asc) => (a: DeptRow, b: DeptRow) => a.empCount <= b.empCount
    case (ByCount, Desc) => (a: DeptRow, b: DeptRow) => b.empCount <= a.empCount
  }

  /**
   * `processed`: the matching departments with their counts, in the chosen
   * order; the page itself reads the counts with `EmpCountById`.
   */
  function Processed(depts: seq<Department>, counts: map<string, nat>, search: string, key: SortKey, dir: SortDir,
                     lookup: (map<string, nat>, Department) -> nat, collate: (string, string) -> bool)
    : (r: seq<DeptRow>)
    ensures multiset(r) == multiset(Annotate(Seqs.Filter(depts, SearchFilter(Query(search))), counts, lookup))
  {
    Seqs.SortBy(Annotate(Seqs.Filter(depts, SearchFilter(Query(search))), counts, lookup), RowOrder(key, dir, collate))
  }

  /** Under a collation, each of the four comparators is a total preorder. */
  lemma RowOrderIsOrder(key: SortKey, dir: SortDir, collate: (string, string) -> bool)
    requires IsCollation(collate)
    ensures Seqs.Total(RowOrder(key, dir, collate)) && Seqs.Transitive(RowOrder(key, dir, collate))
  {
    var le := RowOrder(key, dir, collate);
    if key == ByName {
      forall a: DeptRow, b: DeptRow ensures le(a, b) || le(b, a) {
        assert collate(a.dept.name, b.dept.name) || collate(b.dept.name, a.dept.name);
      }
      forall a: DeptRow, b: DeptRow, c: DeptRow | le(a, b) && le(b, c) ensures le(a, c) {
        if dir == Asc {
          assert collate(a.dept.name, b.dept.name) && collate(b.dept.name, c.dept.name);
        } else {
          assert collate(c.dept.name, b.dept.name) && collate(b.dept.name, a.dept.name);
        }
      }
    }
  }

  /**
   * The rows are exactly the matching departments, each with its looked-up
   * count, and they are in comparator order.
   */
  lemma ProcessedIsSortedSelection(depts: seq<Department>, counts: map<string, nat>, search: string,
                                   key: SortKey, dir: SortDir,
                                   lookup: (map<string, nat>, Department) -> nat, collate: (string, string) -> bool)
    requires IsCollation(collate)
    ensures var r := Processed(depts, counts, search, key, dir, lookup, collate);
      (forall i, j :: 0 <= i < j < |r| ==> RowOrder(key, dir, collate)(r[i], r[j]))
      && (forall row :: row in r <==>
            (row.dept in depts && SearchKeeps(Query(search), row.dept) && row.empCount == lookup(counts, row.dept)))
  {
    var kept := Seqs.Filter(depts, SearchFilter(Query(search)));
    var rows := Annotate(kept, counts, lookup);
    var r := Processed(depts, counts, search, key, dir, lookup, collate);
    RowOrderIsOrder(key, dir, collate);
    Seqs.SortBySorted(rows, RowOrder(key, dir, collate));
    Seqs.AdjacentSortedIsSorted(r, RowOrder(key, dir, collate));
    Seqs.FilterContains(depts, SearchFilter(Query(search)));
    forall row ensures row in r <==> row in rows {
      assert row in r <==> row in multiset(r);
    }
    forall row ensures row in rows <==> row.dept in kept && row.empCount == lookup(counts, row.dept) {
      if row.dept in kept && row.empCount == lookup(counts, row.dept) {
        var i :| 0 <= i < |kept| && kept[i] == row.dept;
        assert rows[i] == row;
      }
    }
  }

  /**
   * The page as written, fed by `department_counts` (keyed by names, none of
   * them a decimal numeral): every listed department shows 0 employees.
   */
  lemma ProcessedAsWrittenShowsZero(depts: seq<Department>, counts: map<string, nat>, search: string,
                                    key: SortKey, dir: SortDir, collate: (string, string) -> bool)
    requires counts.Keys == set i | 0 <= i < |depts| :: depts[i].name
    requires forall i :: 0 <= i < |depts| ==> !AllDigits(depts[i].name)
    ensures forall row :: row in Processed(depts, counts, search, key, dir, EmpCountById, collate) ==> row.empCount == 0
  {
    var r := Processed(depts, counts, search, key, dir, EmpCountById, collate);
    var rows := Annotate(Seqs.Filter(depts, SearchFilter(Query(search))), counts, EmpCountById);
    forall row | row in r ensures row.empCount == 0 {
      assert row in multiset(r);
      var i :| 0 <= i < |rows| && rows[i] == row;
      IdLookupShowsZero(depts, counts, row.dept);
    }
  }

  // ---------------------------------------------------------------------------
  // Payloads, form state and display

  datatype DeptPayload = DeptPayload(name: string, description: string)

  const NameRequired: string := "Department name is required"

  /** `handleAdd`: a blank name is refused; otherwise both fields are sent trimmed. */
  function AddPayload(nameInput: string, descInput: string): (r: Result<DeptPayload, string>)
    ensures r.Failure? <==> IsBlank(nameInput)
    ensures r.Failure? ==> r.error == NameRequired
    ensures r.Success? ==> r.value == DeptPayload(Trim(nameInput), Trim(descInput)) && r.value.name != []
  {
    TrimEmptyIffBlank(nameInput);
    if Trim(nameInput) == [] then Failure(NameRequired)
    else Success(DeptPayload(Trim(nameInput), Trim(descInput)))
  }

  /**
   * The edit request: none without a department being edited; otherwise its
   * id with both fields trimmed, and, unlike adding, no blank-name check.
   */
  function EditPayload(editing: Option<Department>, nameInput: string, descInput: string)
    : (r: Option<(nat, DeptPayload)>)
    ensures r.None? <==> editing.None?
    ensures r.Some? ==> r.value.0 == editing.value.id && r.value.1.name == Trim(nameInput)
                        && r.value.1.description == Trim(descInput)
  {
    if editing.None? then None else Some((editing.value.id, DeptPayload(Trim(nameInput), Trim(descInput))))
  }

  /** An edit goes out even where adding would refuse the name. */
  lemma EditSkipsBlankCheck(d: Department, nameInput: string, descInput: string)
    requires IsBlank(nameInput)
    ensures AddPayload(nameInput, descInput).Failure?
    ensures EditPayload(Some(d), nameInput, descInput) == Some((d.id, DeptPayload([], Trim(descInput))))
  {
    TrimEmptyIffBlank(nameInput);
  }

  /** `Active` when the department has employees. */
  function StatusLabel(empCount: nat): (r: string)
    ensures r == "Active" <==> empCount > 0
    ensures r == "Active" || r == "Inactive"
  {
    if empCount > 0 then "Active" else "Inactive"
  }

  /** `String(emp_count).padStart(2, "0")`. */
  function CountText(empCount: nat): (r: string)
    ensures |r| >= 2
    ensures empCount >= 10 ==> r == NatToString(empCount)
  {
    PadStart(NatToString(empCount), 2, '0')
  }

  /** The padded count still reads as the count. */
  lemma CountTextReadsBack(empCount: nat)
    ensures ParseNat(CountText(empCount)) == Some(empCount)
  {
    var s := NatToString(empCount);
    ParseNatToString(empCount);
    if empCount < 10 {
      var r := CountText(empCount);
      assert r == ['0'] + s;
      assert r[..|r| - 1] == ['0'];
      assert DigitsValue(['0']) == DigitsValue([]) * 10 + DigitValue('0');
    }
  }

  /** The page's state: the fetched lists and the form inputs. */
  class DepartmentsState {
    var departments: seq<Department>
    var counts: map<string, nat>
    var nameInput: string
    var descInput: string
    var editing: Option<Department>

    constructor ()
      ensures departments == [] && counts == map[] && nameInput == [] && descInput == [] && editing.None?
    {
      departments := [];
      counts := map[];
      nameInput := [];
      descInput := [];
      editing := None;
    }

    /**
     * `loadAll`: a failed department request empties both lists; a failed
     * count request alone leaves the counts empty, so every count shows 0.
     */
    method LoadAll(deptResponse: Option<seq<Department>>, countResponse: Option<map<string, nat>>)
      modifies this
      ensures departments == deptResponse.GetOr([])
      ensures counts == if deptResponse.None? then map[] else countResponse.GetOr(map[])
      ensures nameInput == old(nameInput) && descInput == old(descInput) && editing == old(editing)
      ensures countResponse.None? ==> forall d :: EmpCountById(counts, d) == 0 && EmpCount(counts, d) == 0
    {
      if deptResponse.None? {
        departments := [];
        counts := map[];
      } else {
        departments := deptResponse.value;
        counts := countResponse.GetOr(map[]);
      }
    }

    /** `openEdit`: the inputs take the department's name and its description or "". */
    method OpenEdit(d: Department)
      modifies this
      ensures editing == Some(d) && nameInput == d.name && descInput == d.description.GetOr("")
      ensures departments == old(departments) && counts == old(counts)
    {
      editing := Some(d);
      nameInput := d.name;
      descInput := d.description.GetOr("");
    }

    /**
     * `handleEditSubmit`: nothing without a department being edited; no blank
     * check; after a successful request the inputs and the editing state are
     * cleared. Returns the id and payload that were sent.
     */
    method EditSubmit(succeeded: bool) returns (sent: Option<(nat, DeptPayload)>)
      modifies this
      ensures sent == EditPayload(old(editing), old(nameInput), old(descInput))
      ensures sent.Some? && succeeded ==> editing.None? && nameInput == [] && descInput == []
      ensures sent.None? || !succeeded ==>
        editing == old(editing) && nameInput == old(nameInput) && descInput == old(descInput)
      ensures departments == old(departments) && counts == old(counts)
    {
      sent := EditPayload(editing, nameInput, descInput);
      if sent.Some? && succeeded {
        CloseForm();
      }
    }

    /** Empties both inputs and ends editing, as a successful edit does. */
    method CloseForm()
      modifies this
      ensures nameInput == [] && descInput == [] && editing.None?
      ensures departments == old(departments) && counts == old(counts)
    {
      ClearInputs();
      editing := None;
    }

    /** `handleAdd`: a valid payload is sent; after success the inputs are cleared. */
    method Add(succeeded: bool) returns (sent: Result<DeptPayload, string>)
      modifies this
      ensures sent == AddPayload(old(nameInput), old(descInput))
      ensures sent.Success? && succeeded ==> nameInput == [] && descInput == []
      ensures sent.Failure? || !succeeded ==> nameInput == old(nameInput) && descInput == old(descInput)
      ensures departments == old(departments) && counts == old(counts) && editing == old(editing)
    {
      sent := AddPayload(nameInput, descInput);
      if sent.Success? && succeeded {
        ClearInputs();
      }
    }

    /** Empties both inputs, as both submit handlers do after a successful request. */
    method ClearInputs()
      modifies this
      ensures nameInput == [] && descInput == []
      ensures departments == old(departments) && counts == old(counts) && editing == old(editing)
    {
      nameInput := [];
      descInput := [];
    }
  }
}
