/**
 * backend/payroll/views.py: the salary component list in name order, the
 * payroll list with its optional `employee`/`month`/`year` query filters over
 * the newest-first base ordering, and the save → `calculate()` → save
 * sequence of create, update and `recalculate`.
 */
module PayrollViews {
  import opened Wrappers
  import Seqs
  import Text
  import opened PayrollModels
  import opened PayrollSerializer

  // ---------------------------------------------------------------------------
  // SalaryComponentViewSet: order_by('name'), under the database's collation `collate`

  function ByName(collate: (string, string) -> bool): (SalaryComponent, SalaryComponent) -> bool {
    (a: SalaryComponent, b: SalaryComponent) => collate(a.name, b.name)
  }

  function ListComponents(all: seq<SalaryComponent>, collate: (string, string) -> bool): (r: seq<SalaryComponent>)
    ensures multiset(r) == multiset(all)
  {
    Seqs.SortBy(all, ByName(collate))
  }

  /** The component list is ordered by name, pairwise. */
  lemma ListComponentsSorted(all: seq<SalaryComponent>, collate: (string, string) -> bool)
    requires Text.IsCollation(collate)
    ensures forall i, j :: 0 <= i < j < |ListComponents(all, collate)| ==>
      collate(ListComponents(all, collate)[i].name, ListComponents(all, collate)[j].name)
  {
    forall a, b ensures ByName(collate)(a, b) || ByName(collate)(b, a) {
      assert collate(a.name, b.name) || collate(b.name, a.name);
    }
    forall a, b, c | ByName(collate)(a, b) && ByName(collate)(b, c) ensures ByName(collate)(a, c) {
      assert collate(a.name, b.name) && collate(b.name, c.name);
    }
    Seqs.SortBySorted(all, ByName(collate));
    Seqs.AdjacentSortedIsSorted(ListComponents(all, collate), ByName(collate));
  }

  // ---------------------------------------------------------------------------
  // EmployeePayrollViewSet.get_queryset

  /** order_by('-created_at'): `a` may come before `b` when it is no older. */
  function NewestFirst(): (EmployeePayroll, EmployeePayroll) -> bool {
    Seqs.ByKey((p: EmployeePayroll) => p.createdAt, true)
  }

  /** The unfiltered queryset: every payroll, newest created first. */
  function BaseQueryset(rows: seq<EmployeePayroll>): (r: seq<EmployeePayroll>)
    ensures multiset(r) == multiset(rows)
  {
    Seqs.SortBy(rows, NewestFirst())
  }

  lemma BaseQuerysetNewestFirst(rows: seq<EmployeePayroll>)
    ensures forall i, j :: 0 <= i < j < |BaseQueryset(rows)| ==>
      BaseQueryset(rows)[i].createdAt >= BaseQueryset(rows)[j].createdAt
  {
    Seqs.SortBySorted(rows, NewestFirst());
    Seqs.AdjacentSortedIsSorted(BaseQueryset(rows), NewestFirst());
  }

  /**
   * The query parameters `employee`, `month` and `year`, already converted to
   * integers; None stands for a parameter that is absent or empty, both of
   * which are falsy. "0" is a non-empty string, so Some(0) still filters.
   */
  datatype PayrollQuery = PayrollQuery(employee: Option<int>, month: Option<int>, year: Option<int>)

  predicate MatchesParam(param: Option<int>, value: int) {
    param.None? || param.value == value
  }

  predicate Matches(q: PayrollQuery, p: EmployeePayroll) {
    MatchesParam(q.employee, p.employee) && MatchesParam(q.month, p.month) && MatchesParam(q.year, p.year)
  }

  function MatchesQuery(q: PayrollQuery): EmployeePayroll -> bool {
    (p: EmployeePayroll) => Matches(q, p)
  }

  function EmployeeIs(e: int): EmployeePayroll -> bool {
    (p: EmployeePayroll) => p.employee == e
  }

  function MonthIs(m: int): EmployeePayroll -> bool {
    (p: EmployeePayroll) => p.month == m
  }

  function YearIs(y: int): EmployeePayroll -> bool {
    (p: EmployeePayroll) => p.year == y
  }

  /**
   * `get_queryset`: starts from the ordered base and narrows `qs` once for
   * each present parameter. The result is one filter of the base by all
   * present conditions together.
   */
  method GetQueryset(rows: seq<EmployeePayroll>, q: PayrollQuery) returns (qs: seq<EmployeePayroll>)
    ensures qs == Seqs.Filter(BaseQueryset(rows), MatchesQuery(q))
  {
    var base := BaseQueryset(rows);
    qs := base;
    ghost var sofar: EmployeePayroll -> bool := (p: EmployeePayroll) => true;
    Seqs.FilterKeepsAll(base, sofar);
    if q.employee.Some? {
      ghost var next := (p: EmployeePayroll) => p.employee == q.employee.value;
      Seqs.FilterFilter(base, sofar, EmployeeIs(q.employee.value), next);
      qs := Seqs.Filter(qs, EmployeeIs(q.employee.value));
      sofar := next;
    }
    if q.month.Some? {
      ghost var next := (p: EmployeePayroll) => sofar(p) && p.month == q.month.value;
      Seqs.FilterFilter(base, sofar, MonthIs(q.month.value), next);
      qs := Seqs.Filter(qs, MonthIs(q.month.value));
      sofar := next;
    }
    if q.year.Some? {
      ghost var next := (p: EmployeePayroll) => sofar(p) && p.year == q.year.value;
      Seqs.FilterFilter(base, sofar, YearIs(q.year.value), next);
      qs := Seqs.Filter(qs, YearIs(q.year.value));
      sofar := next;
    }
    Seqs.FilterCongruent(base, sofar, MatchesQuery(q));
  }

  /** With no query parameters the list is every payroll, newest first. */
  lemma NoQueryIsEverything(rows: seq<EmployeePayroll>)
    ensures Seqs.Filter(BaseQueryset(rows), MatchesQuery(PayrollQuery(None, None, None))) == BaseQueryset(rows)
  {
    Seqs.FilterKeepsAll(BaseQueryset(rows), MatchesQuery(PayrollQuery(None, None, None)));
  }

  /**
   * The filtered list keeps the base order (it is a subsequence of the
   * ordered queryset), holds only matching rows and misses none of them.
   */
  lemma QuerysetIsOrderedSelection(rows: seq<EmployeePayroll>, q: PayrollQuery)
    ensures Seqs.Subsequence(Seqs.Filter(BaseQueryset(rows), MatchesQuery(q)), BaseQueryset(rows))
    ensures forall p :: p in Seqs.Filter(BaseQueryset(rows), MatchesQuery(q)) <==> p in rows && Matches(q, p)
  {
    var base := BaseQueryset(rows);
    Seqs.FilterIsSubsequence(base, MatchesQuery(q));
    Seqs.FilterMembers(base, MatchesQuery(q));
    assert forall p :: p in base <==> p in rows by {
      forall p ensures p in base <==> p in rows {
        assert p in base <==> p in multiset(base);
      }
    }
  }

  // ---------------------------------------------------------------------------
  // perform_create, perform_update and recalculate

  /** The position of the payroll with primary key `id`, if there is one. */
  function FindById(rows: seq<EmployeePayroll>, id: nat): (r: Option<nat>)
    ensures r.Some? ==> r.value < |rows| && rows[r.value].id == id
    ensures r.None? ==> forall i :: 0 <= i < |rows| ==> rows[i].id != id
  {
    if rows == [] then None
    else if rows[0].id == id then Some(0)
    else
      match FindById(rows[1..], id)
      case None => None
      case Some(k) => Some(k + 1)
  }

  /**
   * In a table whose primary keys are distinct, the row found for `id` is the
   * only row with that key: `get_object()` names one payroll.
   */
  lemma {:induction false} FindByIdUnique(rows: seq<EmployeePayroll>, id: nat, i: nat)
    requires Seqs.Injective(rows, PayrollId) && i < |rows| && rows[i].id == id
    ensures FindById(rows, id) == Some(i)
  {
    if i > 0 {
      assert rows[0].id != id by { assert PayrollId(rows[0]) != PayrollId(rows[i]); }
      assert Seqs.Injective(rows[1..], PayrollId) by {
        forall j, k | 0 <= j < k < |rows[1..]| ensures PayrollId(rows[1..][j]) != PayrollId(rows[1..][k]) {
          assert rows[1..][j] == rows[j + 1] && rows[1..][k] == rows[k + 1];
        }
      }
      FindByIdUnique(rows[1..], id, i - 1);
    }
  }

  /**
   * `payroll.calculate(); payroll.save()` on row `i`. `calculate` is not
   * defined by the payroll model, so it is a parameter here; `save()` keeps
   * the primary key.
   */
  method CalculateAndSave(table: PayrollTable, i: nat, calculate: EmployeePayroll -> EmployeePayroll)
    returns (saved: EmployeePayroll)
    requires table.Valid() && i < |table.rows|
    modifies table
    ensures saved == calculate(old(table.rows[i])).(id := old(table.rows[i].id))
    ensures table.Valid() && table.nextId == old(table.nextId)
    ensures table.rows == old(table.rows)[i := saved]
  {
    saved := calculate(table.rows[i]).(id := table.rows[i].id);
    table.Replace(i, saved);
  }

  /** `perform_create`: `serializer.save()` (the serializer's `create`), then calculate and save. */
  method PerformCreate(table: PayrollTable, reg: Registry, d: PayrollData, requested: seq<nat>, now: int,
                       calculate: EmployeePayroll -> EmployeePayroll)
    returns (saved: EmployeePayroll)
    requires table.Valid()
    requires forall i :: 0 <= i < |requested| ==> requested[i] in reg
    modifies table
    ensures table.Valid() && table.nextId == old(table.nextId) + 1
    ensures saved == calculate(CreatedRow(reg, d, requested, old(table.nextId), now)).(id := old(table.nextId))
    ensures table.rows == old(table.rows) + [saved]
  {
    var created := Create(table, reg, d, requested, now);
    saved := CalculateAndSave(table, |table.rows| - 1, calculate);
  }

  /**
   * `perform_update`: a full update without `employee`, `month` or `year` is
   * refused and changes nothing; otherwise `serializer.save()` writes the
   * fields the request carries onto row `i`, then calculate and save.
   */
  method PerformUpdate(table: PayrollTable, i: nat, u: PayrollUpdate, partial: bool,
                       calculate: EmployeePayroll -> EmployeePayroll)
    returns (r: Option<EmployeePayroll>)
    requires table.Valid() && i < |table.rows|
    modifies table
    ensures table.Valid() && table.nextId == old(table.nextId)
    ensures r.None? <==> !UpdateAccepted(u, partial)
    ensures r.None? ==> table.rows == old(table.rows)
    ensures r.Some? ==>
      r.value == calculate(ApplyUpdate(old(table.rows[i]), u)).(id := old(table.rows[i].id))
      && table.rows == old(table.rows)[i := r.value]
  {
    if !UpdateAccepted(u, partial) {
      return None;
    }
    var updated := ApplyUpdate(table.rows[i], u);
    table.Replace(i, updated);
    var saved := CalculateAndSave(table, i, calculate);
    r := Some(saved);
  }

  /**
   * `get_object()` looks the key up in the filtered queryset: with distinct
   * primary keys it finds a row there exactly when the table's row with
   * that key matches the query parameters, and it is that row.
   */
  lemma FoundInQueryset(rows: seq<EmployeePayroll>, q: PayrollQuery, pk: nat)
    requires Seqs.Injective(rows, PayrollId)
    ensures var qs := Seqs.Filter(BaseQueryset(rows), MatchesQuery(q));
      var found := FindById(rows, pk);
      (FindById(qs, pk).Some? <==> found.Some? && Matches(q, rows[found.value]))
      && (FindById(qs, pk).Some? ==> qs[FindById(qs, pk).value] == rows[found.value])
  {
    var qs := Seqs.Filter(BaseQueryset(rows), MatchesQuery(q));
    QuerysetIsOrderedSelection(rows, q);
    var found := FindById(rows, pk);
    if FindById(qs, pk).Some? {
      var p := qs[FindById(qs, pk).value];
      assert p in qs;
      var k :| 0 <= k < |rows| && rows[k] == p;
      FindByIdUnique(rows, pk, k);
    }
    if found.Some? && Matches(q, rows[found.value]) {
      assert rows[found.value] in qs;
    }
  }

  /**
   * `recalculate`: `get_object()` looks the payroll up by primary key in
   * the queryset narrowed by the request's `employee`, `month` and `year`
   * parameters; a key that is missing or whose row does not match is "not
   * found" and changes nothing. Otherwise the row is calculated and saved,
   * and the saved row is returned.
   */
  method Recalculate(table: PayrollTable, pk: nat, q: PayrollQuery, calculate: EmployeePayroll -> EmployeePayroll)
    returns (r: Option<EmployeePayroll>)
    requires table.Valid()
    modifies table
    ensures table.Valid() && table.nextId == old(table.nextId)
    ensures var found := FindById(old(table.rows), pk);
      found.None? || !Matches(q, old(table.rows)[found.value]) ==> r.None? && table.rows == old(table.rows)
    ensures var found := FindById(old(table.rows), pk);
      found.Some? && Matches(q, old(table.rows)[found.value]) ==>
        r == Some(calculate(old(table.rows[found.value])).(id := pk))
        && table.rows == old(table.rows)[found.value := r.value]
  {
    var qs := GetQueryset(table.rows, q);
    FoundInQueryset(table.rows, q, pk);
    if FindById(qs, pk).None? {
      return None;
    }
    var i := FindById(table.rows, pk).value;
    var saved := CalculateAndSave(table, i, calculate);
    r := Some(saved);
  }
}
