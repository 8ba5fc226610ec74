/**
 * backend/employees/views.py: the employee list's query filters, the
 * `birthdays`, `upcoming_birthdays` and `new_hires` date windows, the
 * `count` summary and the per-department `department_counts` table.
 * "Today" is a parameter.
 */
module EmployeeViews {
  import opened Wrappers
  import Seqs
  import opened Dates
  import opened EmployeeModels

  /** Every element of a filtered, reordered table is a row of it that passes the filter. */
  lemma OrderedFilterContains(rows: seq<Employee>, p: Employee -> bool)
    ensures forall e :: e in Seqs.Filter(Ordered(rows), p) <==> e in rows && p(e)
  {
    Seqs.FilterContains(Ordered(rows), p);
    forall e ensures e in Ordered(rows) <==> e in rows {
      assert e in Ordered(rows) <==> e in multiset(Ordered(rows));
    }
  }

  // ---------------------------------------------------------------------------
  // get_queryset

  /**
   * The query parameters. `department` and `designation` are already
   * converted to integers, None standing for absent or empty; `active` and
   * `employment_type` are the raw strings, None when absent.
   */
  datatype EmployeeQuery = EmployeeQuery(
    department: Option<int>,
    designation: Option<int>,
    active: Option<string>,
    employmentType: Option<string>)

  predicate RefIs(r: Option<nat>, id: int) {
    r.Some? && r.value == id
  }

  /** The status condition `active` imposes: Some(true) keeps active rows, Some(false) inactive ones. */
  function StatusWanted(active: Option<string>): (w: Option<bool>)
    ensures w == Some(true) <==> active == Some("true") || active == Some("1")
    ensures w == Some(false) <==> active == Some("false") || active == Some("0")
  {
    if active == Some("true") || active == Some("1") then Some(true)
    else if active == Some("false") || active == Some("0") then Some(false)
    else None
  }

  predicate MatchesEmployee(q: EmployeeQuery, e: Employee) {
    (q.department.None? || RefIs(e.department, q.department.value))
    && (q.designation.None? || RefIs(e.designation, q.designation.value))
    && (StatusWanted(q.active).None? || e.isActive == StatusWanted(q.active).value)
    && (q.employmentType.None? || q.employmentType.value == [] || EmploymentTypeCode(e.employmentType) == q.employmentType.value)
  }

  function MatchesEmployeeQuery(q: EmployeeQuery): Employee -> bool {
    (e: Employee) => MatchesEmployee(q, e)
  }

  function InDepartment(id: int): Employee -> bool { (e: Employee) => RefIs(e.department, id) }
  function InDesignation(id: int): Employee -> bool { (e: Employee) => RefIs(e.designation, id) }
  function ActiveIs(b: bool): Employee -> bool { (e: Employee) => e.isActive == b }
  function TypeIs(t: string): Employee -> bool { (e: Employee) => EmploymentTypeCode(e.employmentType) == t }

  /**
   * Adding one parameter `b` to the parameters `a` already applied narrows
   * by that parameter's own condition `p`.
   */
  ghost predicate Narrows(a: EmployeeQuery, b: EmployeeQuery, p: Employee -> bool) {
    forall e :: MatchesEmployee(b, e) == (MatchesEmployee(a, e) && p(e))
  }

  lemma DepartmentNarrows(a: EmployeeQuery, id: int)
    requires a.department.None?
    ensures Narrows(a, a.(department := Some(id)), InDepartment(id))
  {
  }

  lemma DesignationNarrows(a: EmployeeQuery, id: int)
    requires a.designation.None?
    ensures Narrows(a, a.(designation := Some(id)), InDesignation(id))
  {
  }

  lemma ActiveNarrows(a: EmployeeQuery, active: Option<string>)
    requires a.active.None? && StatusWanted(active).Some?
    ensures Narrows(a, a.(active := active), ActiveIs(StatusWanted(active).value))
  {
  }

  lemma TypeNarrows(a: EmployeeQuery, t: string)
    requires a.employmentType.None? && t != []
    ensures Narrows(a, a.(employmentType := Some(t)), TypeIs(t))
  {
  }

  /**
   * `get_queryset`: narrows the ordered table once per present parameter;
   * the result is one filter by all the present conditions together.
   */
  method GetQueryset(rows: seq<Employee>, q: EmployeeQuery) returns (qs: seq<Employee>)
    ensures qs == Seqs.Filter(Ordered(rows), MatchesEmployeeQuery(q))
  {
    qs := ApplyFilters(Ordered(rows), q);
  }

  /** The successive `qs = qs.filter(...)` steps of `get_queryset`, on any starting list. */
  method ApplyFilters(base: seq<Employee>, q: EmployeeQuery) returns (qs: seq<Employee>)
    ensures qs == Seqs.Filter(base, MatchesEmployeeQuery(q))
  {
    qs := base;
    // The parameters applied so far: `qs` is the base filtered by them.
    ghost var applied := EmployeeQuery(None, None, None, None);
    Seqs.FilterKeepsAll(base, MatchesEmployeeQuery(applied));
    if q.department.Some? {
      DepartmentNarrows(applied, q.department.value);
      Seqs.FilterFilter(base, MatchesEmployeeQuery(applied), InDepartment(q.department.value),
        MatchesEmployeeQuery(applied.(department := q.department)));
      qs := Seqs.Filter(qs, InDepartment(q.department.value));
      applied := applied.(department := q.department);
    }
    assert qs == Seqs.Filter(base, MatchesEmployeeQuery(applied));
    if q.designation.Some? {
      DesignationNarrows(applied, q.designation.value);
      Seqs.FilterFilter(base, MatchesEmployeeQuery(applied), InDesignation(q.designation.value),
        MatchesEmployeeQuery(applied.(designation := q.designation)));
      qs := Seqs.Filter(qs, InDesignation(q.designation.value));
      applied := applied.(designation := q.designation);
    }
    assert qs == Seqs.Filter(base, MatchesEmployeeQuery(applied));
    // `active in ["true", "1"]` and `active in ["false", "0"]`, as StatusWanted states them
    if StatusWanted(q.active) == Some(true) {
      ActiveNarrows(applied, q.active);
      Seqs.FilterFilter(base, MatchesEmployeeQuery(applied), ActiveIs(true),
        MatchesEmployeeQuery(applied.(active := q.active)));
      qs := Seqs.Filter(qs, ActiveIs(true));
      applied := applied.(active := q.active);
    }
    assert qs == Seqs.Filter(base, MatchesEmployeeQuery(applied));
    if StatusWanted(q.active) == Some(false) {
      ActiveNarrows(applied, q.active);
      Seqs.FilterFilter(base, MatchesEmployeeQuery(applied), ActiveIs(false),
        MatchesEmployeeQuery(applied.(active := q.active)));
      qs := Seqs.Filter(qs, ActiveIs(false));
      applied := applied.(active := q.active);
    }
    if StatusWanted(q.active).None? {
      // any other value of `active` imposes nothing
      SameFilter(base, applied, applied.(active := q.active));
      applied := applied.(active := q.active);
    }
    if q.employmentType.Some? && q.employmentType.value != [] {
      TypeNarrows(applied, q.employmentType.value);
      Seqs.FilterFilter(base, MatchesEmployeeQuery(applied), TypeIs(q.employmentType.value),
        MatchesEmployeeQuery(applied.(employmentType := q.employmentType)));
      qs := Seqs.Filter(qs, TypeIs(q.employmentType.value));
      applied := applied.(employmentType := q.employmentType);
    } else {
      // an absent or empty `employment_type` imposes nothing
      SameFilter(base, applied, applied.(employmentType := q.employmentType));
      applied := applied.(employmentType := q.employmentType);
    }
    assert applied == q;
  }

  /** Two parameter sets that impose the same condition select the same rows. */
  lemma SameFilter(base: seq<Employee>, a: EmployeeQuery, b: EmployeeQuery)
    requires forall e :: MatchesEmployee(a, e) == MatchesEmployee(b, e)
    ensures Seqs.Filter(base, MatchesEmployeeQuery(a)) == Seqs.Filter(base, MatchesEmployeeQuery(b))
  {
    Seqs.FilterCongruent(base, MatchesEmployeeQuery(a), MatchesEmployeeQuery(b));
  }

  /**
   * The status filter: "true" or "1" keeps exactly the active employees,
   * "false" or "0" exactly the inactive ones, and any other value (or none)
   * keeps both.
   */
  lemma StatusFilter(rows: seq<Employee>, active: Option<string>)
    ensures var q := EmployeeQuery(None, None, active, None);
      forall e :: e in Seqs.Filter(Ordered(rows), MatchesEmployeeQuery(q)) <==>
        e in rows
        && (active == Some("true") || active == Some("1") ==> e.isActive)
        && (active == Some("false") || active == Some("0") ==> !e.isActive)
  {
    OrderedFilterContains(rows, MatchesEmployeeQuery(EmployeeQuery(None, None, active, None)));
  }

  /** The department, designation and type filters combine conjunctively. */
  lemma FiltersConjoin(rows: seq<Employee>, dept: nat, desig: nat, t: string)
    requires t != []
    ensures var q := EmployeeQuery(Some(dept), Some(desig), None, Some(t));
      forall e :: e in Seqs.Filter(Ordered(rows), MatchesEmployeeQuery(q)) <==>
        e in rows && e.department == Some(dept) && e.designation == Some(desig)
        && EmploymentTypeCode(e.employmentType) == t
  {
    OrderedFilterContains(rows, MatchesEmployeeQuery(EmployeeQuery(Some(dept), Some(desig), None, Some(t))));
  }

  // ---------------------------------------------------------------------------
  // count

  datatype Counts = Counts(total: nat, active: nat, inactive: nat)

  function IsActive(): Employee -> bool { (e: Employee) => e.isActive }
  function IsInactive(): Employee -> bool { (e: Employee) => !e.isActive }

  /** `count`: `is_active` is a non-null boolean, so the two counts add up to the total. */
  function EmployeeCounts(rows: seq<Employee>): (c: Counts)
    ensures c.total == |rows| == c.active + c.inactive
    ensures c.active == |Seqs.Filter(rows, IsActive())|
    ensures c.inactive == |Seqs.Filter(rows, IsInactive())|
  {
    Seqs.CountComplement(rows, IsActive(), IsInactive());
    Seqs.CountIsFilterLength(rows, IsActive());
    Seqs.CountIsFilterLength(rows, IsInactive());
    Counts(|rows|, Seqs.Count(rows, IsActive()), Seqs.Count(rows, IsInactive()))
  }

  // ---------------------------------------------------------------------------
  // department_counts

  function InDept(id: nat): Employee -> bool { (e: Employee) => e.department == Some(id) }

  /**
   * `department_counts`: one entry per department, keyed by its name and
   * valued by the number of employees referencing it.
   */
  method DepartmentCounts(depts: seq<Department>, emps: seq<Employee>) returns (data: map<string, nat>)
    requires Seqs.Injective(depts, DepartmentName())
    ensures data.Keys == set i | 0 <= i < |depts| :: depts[i].name
    ensures forall i :: 0 <= i < |depts| ==> data[depts[i].name] == Seqs.Count(emps, InDept(depts[i].id))
  {
    data := map[];
    var i := 0;
    while i < |depts|
      invariant 0 <= i <= |depts|
      invariant data.Keys == set k | 0 <= k < i :: depts[k].name
      invariant forall k :: 0 <= k < i ==> data[depts[k].name] == Seqs.Count(emps, InDept(depts[k].id))
    {
      assert forall k :: 0 <= k < i ==> depts[k].name != depts[i].name;
      data := data[depts[i].name := Seqs.Count(emps, InDept(depts[i].id))];
      i := i + 1;
    }
  }

  /** The ids of a list of departments. */
  function DeptIds(depts: seq<Department>): (ids: set<nat>)
    ensures forall i :: 0 <= i < |depts| ==> depts[i].id in ids
    ensures forall x :: x in ids ==> exists i :: 0 <= i < |depts| && depts[i].id == x
  {
    set i | 0 <= i < |depts| :: depts[i].id
  }

  function InAnyOf(ids: set<nat>): Employee -> bool {
    (e: Employee) => e.department.Some? && e.department.value in ids
  }

  /** The per-department counts added up over a list of departments. */
  function CountedTotal(depts: seq<Department>, emps: seq<Employee>): nat {
    if depts == [] then 0 else Seqs.Count(emps, InDept(depts[0].id)) + CountedTotal(depts[1..], emps)
  }

  function DeptId(): Department -> nat { (d: Department) => d.id }

  /**
   * The counts add up to the number of employees whose department is one of
   * the listed ones: each such employee is counted once, and employees
   * without a department are counted nowhere.
   */
  lemma {:induction false} CountsCoverEachEmployeeOnce(depts: seq<Department>, emps: seq<Employee>)
    requires Seqs.Injective(depts, DeptId())
    ensures CountedTotal(depts, emps) == Seqs.Count(emps, InAnyOf(DeptIds(depts)))
  {
    if depts == [] {
      Seqs.CountNone(emps, InAnyOf(DeptIds(depts)));
    } else {
      var rest := depts[1..];
      assert Seqs.Injective(rest, DeptId()) by {
        forall i, j | 0 <= i < j < |rest| ensures rest[i].id != rest[j].id {
          assert rest[i] == depts[i + 1] && rest[j] == depts[j + 1];
        }
      }
      CountsCoverEachEmployeeOnce(rest, emps);
      assert depts[0].id !in DeptIds(rest) by {
        forall i | 0 <= i < |rest| ensures rest[i].id != depts[0].id {
          assert rest[i] == depts[i + 1];
        }
      }
      assert DeptIds(depts) == {depts[0].id} + DeptIds(rest) by {
        forall x | x in DeptIds(depts) ensures x in {depts[0].id} + DeptIds(rest) {
          var i :| 0 <= i < |depts| && depts[i].id == x;
          if i > 0 { assert rest[i - 1] == depts[i]; }
        }
      }
      Seqs.CountDisjointUnion(emps, InDept(depts[0].id), InAnyOf(DeptIds(rest)), InAnyOf(DeptIds(depts)));
    }
  }

  // ---------------------------------------------------------------------------
  // birthdays, upcoming_birthdays, new_hires

  function HasBirthDate(): Employee -> bool { (e: Employee) => e.dateOfBirth.Some? }

  /** `date_of_birth.replace(year=y)` fails for this employee. */
  predicate LeapDayClash(e: Employee, y: int) {
    e.dateOfBirth.Some? && ReplaceYear(e.dateOfBirth.value, y).None?
  }

  /** The birthday moved into year `y` lies in [today, end]. */
  predicate AnniversaryIn(dob: Date, y: int, today: Date, end: Date) {
    match ReplaceYear(dob, y)
    case Some(d) => NoLater(today, d) && NoLater(d, end)
    case None => false
  }

  /** The condition of `birthdays`: the birthday moved into the current year is within [today, end]. */
  function InWindow(today: Date, end: Date): Employee -> bool {
    (e: Employee) => e.dateOfBirth.Some? && AnniversaryIn(e.dateOfBirth.value, today.year, today, end)
  }

  /**
   * `birthdays`: walks the employees that have a birth date, in the default
   * order, and keeps those whose birthday this year is between today and
   * seven days on. A 29 February birthday in a common year makes
   * `replace` raise, and the whole request fails.
   */
  method Birthdays(rows: seq<Employee>, today: Date) returns (r: Result<seq<Employee>, string>)
    requires Valid(today)
    ensures r.Failure? <==> exists e :: e in rows && LeapDayClash(e, today.year)
    ensures r.Success? ==> r.value == Seqs.Filter(Seqs.Filter(Ordered(rows), HasBirthDate()), InWindow(today, AddDays(today, 7)))
  {
    var end := AddDays(today, 7);
    var candidates := Seqs.Filter(Ordered(rows), HasBirthDate());
    Seqs.FilterMembers(Ordered(rows), HasBirthDate());
    r := CollectBirthdays(candidates, today, end);
    ClashAmongCandidates(rows, today.year);
  }

  /** A clash in the table is a clash among the rows that have a birth date, and back. */
  lemma ClashAmongCandidates(rows: seq<Employee>, y: int)
    ensures (exists e :: e in Seqs.Filter(Ordered(rows), HasBirthDate()) && LeapDayClash(e, y))
      <==> (exists e :: e in rows && LeapDayClash(e, y))
  {
    OrderedFilterContains(rows, HasBirthDate());
  }

  /** The `for emp in ...` loop of `birthdays` over the employees with a birth date. */
  method CollectBirthdays(candidates: seq<Employee>, today: Date, end: Date) returns (r: Result<seq<Employee>, string>)
    requires forall k :: 0 <= k < |candidates| ==> candidates[k].dateOfBirth.Some?
    ensures r.Failure? <==> exists e :: e in candidates && LeapDayClash(e, today.year)
    ensures r.Success? ==> r.value == Seqs.Filter(candidates, InWindow(today, end))
  {
    var results: seq<Employee> := [];
    var i := 0;
    while i < |candidates|
      invariant 0 <= i <= |candidates|
      invariant results == Seqs.Filter(candidates[..i], InWindow(today, end))
      invariant forall k :: 0 <= k < i ==> !LeapDayClash(candidates[k], today.year)
    {
      var emp := candidates[i];
      Seqs.FilterAppend(candidates[..i], [emp], InWindow(today, end));
      assert candidates[..i + 1] == candidates[..i] + [emp];
      var moved := ReplaceYear(emp.dateOfBirth.value, today.year);
      if moved.None? {
        assert LeapDayClash(emp, today.year);
        return Failure("day is out of range for month");
      }
      assert InWindow(today, end)(emp) <==> NoLater(today, moved.value) && NoLater(moved.value, end);
      assert Seqs.Filter([emp], InWindow(today, end)) == if InWindow(today, end)(emp) then [emp] else [];
      if NoLater(today, moved.value) && NoLater(moved.value, end) {
        results := results + [emp];
      }
      i := i + 1;
    }
    assert candidates[..i] == candidates;
    forall e | e in candidates ensures !LeapDayClash(e, today.year) {
      var k :| 0 <= k < |candidates| && candidates[k] == e;
    }
    r := Success(results);
  }

  /**
   * As written, the window misses early-January birthdays in late December:
   * on 28 December 2025 a 2 January birthday is five days away, but moved
   * into 2025 it falls before today.
   */
  lemma YearEndBirthdayMissed()
    ensures var today := Date(2025, 12, 28);
      var e := NewEmployee(1, "E1", "A", "a@example.com", 0).(dateOfBirth := Some(Date(1990, 1, 2)));
      AddDays(today, 5) == Date(2026, 1, 2) && !InWindow(today, AddDays(today, 7))(e)
  {
  }

  /** The evidently intended window: the birthday in this year or the next lies in [today, end]. */
  function InComingWeek(today: Date, end: Date): Employee -> bool {
    (e: Employee) => e.dateOfBirth.Some?
      && (AnniversaryIn(e.dateOfBirth.value, today.year, today, end)
          || AnniversaryIn(e.dateOfBirth.value, today.year + 1, today, end))
  }

  /** Birthdays in the coming week, counting across the new year and skipping 29 February in common years. */
  function UpcomingWeek(rows: seq<Employee>, today: Date): seq<Employee>
    requires Valid(today)
  {
    Seqs.Filter(Seqs.Filter(Ordered(rows), HasBirthDate()), InComingWeek(today, AddDays(today, 7)))
  }

  /**
   * The corrected window is complete: whenever one of the next seven days
   * (today included) has the employee's birth month and day, the employee is
   * listed.
   */
  lemma UpcomingWeekComplete(rows: seq<Employee>, today: Date, e: Employee, k: nat)
    requires Valid(today) && k <= 7 && e in rows && e.dateOfBirth.Some?
    requires AddDays(today, k).month == e.dateOfBirth.value.month && AddDays(today, k).day == e.dateOfBirth.value.day
    ensures e in UpcomingWeek(rows, today)
  {
    var t := AddDays(today, k);
    var end := AddDays(today, 7);
    AddDaysMonotone(today, k, 7);
    AddFewDays(today, k);
    assert ReplaceYear(e.dateOfBirth.value, t.year) == Some(t);
    assert InComingWeek(today, end)(e);
    OrderedFilterContains(rows, HasBirthDate());
    Seqs.FilterContains(Seqs.Filter(Ordered(rows), HasBirthDate()), InComingWeek(today, end));
  }

  /** `upcoming_birthdays`: the employees whose birth month is the current month. */
  function BornThisMonth(today: Date): Employee -> bool {
    (e: Employee) => e.dateOfBirth.Some? && e.dateOfBirth.value.month == today.month
  }

  function UpcomingBirthdays(rows: seq<Employee>, today: Date): seq<Employee> {
    Seqs.Filter(Ordered(rows), BornThisMonth(today))
  }

  lemma UpcomingBirthdaysMembers(rows: seq<Employee>, today: Date)
    ensures forall e :: e in UpcomingBirthdays(rows, today) <==>
      e in rows && e.dateOfBirth.Some? && e.dateOfBirth.value.month == today.month
  {
    OrderedFilterContains(rows, BornThisMonth(today));
  }

  /** `new_hires`: joined on or after the day thirty days before today. */
  function JoinedSince(cutoff: Date): Employee -> bool {
    (e: Employee) => e.joiningDate.Some? && NoLater(cutoff, e.joiningDate.value)
  }

  function NewHires(rows: seq<Employee>, today: Date): seq<Employee>
    requires Valid(today)
  {
    Seqs.Filter(Ordered(rows), JoinedSince(SubDays(today, 30)))
  }

  lemma NewHiresMembers(rows: seq<Employee>, today: Date)
    requires Valid(today)
    ensures forall e :: e in NewHires(rows, today) <==>
      e in rows && e.joiningDate.Some? && NoLater(SubDays(today, 30), e.joiningDate.value)
    ensures AddDays(SubDays(today, 30), 30) == today
  {
    OrderedFilterContains(rows, JoinedSince(SubDays(today, 30)));
    AddSubDays(today, 30);
  }
}
