/**
 * backend/payroll/models.py: salary components, payroll records and the
 * payroll table, with the CASCADE rule that deletes an employee's payrolls.
 * Amounts are DecimalField(decimal_places=2) values, held as whole cents.
 */
module PayrollModels {
  import opened Wrappers
  import Seqs

  /** A decimal amount with two places, in cents. */
  type Money = int

  datatype ComponentType = Earning | Deduction

  /** The stored value of each `COMPONENT_TYPES` choice. */
  function ComponentTypeCode(t: ComponentType): string {
    match t
    case Earning => "earning"
    case Deduction => "deduction"
  }

  /** The choices field accepts exactly the two stored codes. */
  function ParseComponentType(s: string): (r: Option<ComponentType>)
    ensures r.Some? <==> s == "earning" || s == "deduction"
    ensures r.Some? ==> ComponentTypeCode(r.value) == s
  {
    if s == "earning" then Some(Earning)
    else if s == "deduction" then Some(Deduction)
    else None
  }

  /** A salary component carries a flat amount only. */
  datatype SalaryComponent = SalaryComponent(id: nat, name: string, componentType: ComponentType, amount: Money)

  /** `SalaryComponent.__str__`: "name (component_type)". */
  function ComponentLabel(c: SalaryComponent): (r: string)
    ensures |r| == |c.name| + |ComponentTypeCode(c.componentType)| + 3
    ensures r[..|c.name|] == c.name
    ensures r[|c.name|..|c.name| + 2] == " ("
    ensures r[|r| - 1] == ')'
  {
    c.name + " (" + ComponentTypeCode(c.componentType) + ")"
  }

  /**
   * One payroll row. `month` is a plain integer (the 1-12 range is not
   * enforced); `components` is the many-to-many set of component ids;
   * `createdAt` is the auto_now_add timestamp.
   */
  datatype EmployeePayroll = EmployeePayroll(
    id: nat,
    employee: nat,
    month: int,
    year: int,
    basicSalary: Money,
    hra: Money,
    components: set<nat>,
    grossSalary: Money,
    totalDeductions: Money,
    netSalary: Money,
    createdAt: int)

  /** A new row with every field that has a default left at it. */
  function NewPayroll(id: nat, employee: nat, month: int, year: int, createdAt: int): (p: EmployeePayroll)
    ensures p.basicSalary == 0 && p.hra == 0
    ensures p.grossSalary == 0 && p.totalDeductions == 0 && p.netSalary == 0
    ensures p.components == {}
    ensures p.employee == employee && p.month == month && p.year == year
  {
    EmployeePayroll(id, employee, month, year, 0, 0, {}, 0, 0, 0, createdAt)
  }

  /** The rows that survive deleting employee `e`. */
  function NotOf(e: nat): EmployeePayroll -> bool {
    (p: EmployeePayroll) => p.employee != e
  }

  /** Every row id is below `n`, so `n` is free for the next insert. */
  predicate IdsBelow(rows: seq<EmployeePayroll>, n: nat) {
    forall i :: 0 <= i < |rows| ==> rows[i].id < n
  }

  /** Deleting rows never brings back an id at or above the counter. */
  lemma {:induction false} FilterKeepsIdsBelow(rows: seq<EmployeePayroll>, p: EmployeePayroll -> bool, n: nat)
    requires IdsBelow(rows, n)
    ensures IdsBelow(Seqs.Filter(rows, p), n)
  {
    if rows != [] {
      assert forall i :: 0 <= i < |rows| - 1 ==> rows[1..][i] == rows[i + 1];
      FilterKeepsIdsBelow(rows[1..], p, n);
    }
  }

  /** The primary key of a row. */
  function PayrollId(p: EmployeePayroll): nat {
    p.id
  }

  /** Appending a row whose id is above every id in the table keeps ids distinct. */
  lemma AppendFreshKeepsInjective(rows: seq<EmployeePayroll>, n: nat, p: EmployeePayroll)
    requires IdsBelow(rows, n) && Seqs.Injective(rows, PayrollId) && p.id == n
    ensures IdsBelow(rows + [p], n + 1) && Seqs.Injective(rows + [p], PayrollId)
  {
    var s := rows + [p];
    forall i, j | 0 <= i < j < |s| ensures PayrollId(s[i]) != PayrollId(s[j]) {
      if j == |rows| { assert s[i] == rows[i]; }
      else { assert s[i] == rows[i] && s[j] == rows[j]; }
    }
  }

  /**
   * The payroll table, as the database holds it: primary keys are distinct
   * and all below the auto-id counter.
   */
  class PayrollTable {
    var rows: seq<EmployeePayroll>
    var nextId: nat

    ghost predicate Valid()
      reads this
    {
      IdsBelow(rows, nextId) && Seqs.Injective(rows, PayrollId)
    }

    constructor ()
      ensures Valid() && rows == [] && nextId == 1
    {
      rows := [];
      nextId := 1;
    }

    /**
     * `on_delete=models.CASCADE`: deleting employee `e` deletes exactly the
     * payrolls that reference it and keeps the others in order.
     */
    method DeleteEmployeePayrolls(e: nat)
      requires Valid()
      modifies this
      ensures Valid() && nextId == old(nextId)
      ensures rows == Seqs.Filter(old(rows), NotOf(e))
    {
      var all := rows;
      var kept: seq<EmployeePayroll> := [];
      var i := 0;
      while i < |all|
        invariant 0 <= i <= |all|
        invariant kept == Seqs.Filter(all[..i], NotOf(e))
        invariant unchanged(this)
      {
        Seqs.FilterAppend(all[..i], [all[i]], NotOf(e));
        assert all[..i + 1] == all[..i] + [all[i]];
        if all[i].employee != e {
          kept := kept + [all[i]];
        }
        i := i + 1;
      }
      assert all[..i] == all;
      FilterKeepsIdsBelow(all, NotOf(e), nextId);
      Seqs.FilterKeepsInjective(all, NotOf(e), PayrollId);
      rows := kept;
    }

    /** Appends a row under the next id (the database's auto id). */
    method Insert(p: EmployeePayroll) returns (saved: EmployeePayroll)
      requires Valid()
      modifies this
      ensures Valid() && nextId == old(nextId) + 1
      ensures saved == p.(id := old(nextId))
      ensures rows == old(rows) + [saved]
    {
      saved := p.(id := nextId);
      AppendFreshKeepsInjective(rows, nextId, saved);
      rows := rows + [saved];
      nextId := nextId + 1;
    }

    /** `save()` of an existing row at index `i`. */
    method Replace(i: nat, p: EmployeePayroll)
      requires Valid() && i < |rows| && p.id == rows[i].id
      modifies this
      ensures Valid() && nextId == old(nextId)
      ensures rows == old(rows)[i := p]
    {
      var updated := rows[i := p];
      forall j, k | 0 <= j < k < |updated| ensures PayrollId(updated[j]) != PayrollId(updated[k]) {
        assert PayrollId(updated[j]) == PayrollId(rows[j]);
        assert PayrollId(updated[k]) == PayrollId(rows[k]);
      }
      rows := updated;
    }
  }
}
