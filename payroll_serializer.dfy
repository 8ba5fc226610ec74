/**
 * backend/payroll/serializers.py: `EmployeePayrollSerializer.validate`, the
 * duplicate guard, and `create`, which stores a payroll, attaches its
 * components and fills in gross, deductions and net from their amounts.
 */
module PayrollSerializer {
  import opened Wrappers
  import opened PayrollModels

  /**
   * The scalar fields of a validated create request; a basic salary or HRA
   * the body leaves out arrives as 0, the column default.
   */
  datatype PayrollData = PayrollData(employee: nat, month: int, year: int, basicSalary: Money, hra: Money)

  /**
   * The writable fields a validated update request carries, None for a field
   * the body leaves out. `employee`, `month` and `year` have no default, so a
   * full update (PUT) must carry them; a partial one (PATCH) may leave out
   * anything.
   */
  datatype PayrollUpdate = PayrollUpdate(
    employee: Option<nat>, month: Option<int>, year: Option<int>,
    basicSalary: Option<Money>, hra: Option<Money>, components: Option<seq<nat>>,
    grossSalary: Option<Money>, totalDeductions: Option<Money>, netSalary: Option<Money>)

  /** A full update that lacks a required field is refused ("This field is required."). */
  predicate UpdateAccepted(u: PayrollUpdate, partial: bool) {
    partial || (u.employee.Some? && u.month.Some? && u.year.Some?)
  }

  /**
   * `ModelSerializer.update`, which the payroll serializer inherits: every
   * field the request carries is written onto the row, the component set is
   * replaced by the requested one when the request carries it, and every
   * other field, the key and the creation time keep their stored values.
   */
  function ApplyUpdate(p: EmployeePayroll, u: PayrollUpdate): (r: EmployeePayroll)
    ensures r.id == p.id && r.createdAt == p.createdAt
    ensures r.employee == (if u.employee.Some? then u.employee.value else p.employee)
    ensures r.month == (if u.month.Some? then u.month.value else p.month)
    ensures r.year == (if u.year.Some? then u.year.value else p.year)
    ensures r.basicSalary == (if u.basicSalary.Some? then u.basicSalary.value else p.basicSalary)
    ensures r.hra == (if u.hra.Some? then u.hra.value else p.hra)
    ensures r.components == (if u.components.Some? then ComponentSet(u.components.value) else p.components)
    ensures r.grossSalary == (if u.grossSalary.Some? then u.grossSalary.value else p.grossSalary)
    ensures r.totalDeductions == (if u.totalDeductions.Some? then u.totalDeductions.value else p.totalDeductions)
    ensures r.netSalary == (if u.netSalary.Some? then u.netSalary.value else p.netSalary)
  {
    p.(employee := u.employee.GetOr(p.employee), month := u.month.GetOr(p.month), year := u.year.GetOr(p.year),
       basicSalary := u.basicSalary.GetOr(p.basicSalary), hra := u.hra.GetOr(p.hra),
       components := if u.components.Some? then ComponentSet(u.components.value) else p.components,
       grossSalary := u.grossSalary.GetOr(p.grossSalary), totalDeductions := u.totalDeductions.GetOr(p.totalDeductions),
       netSalary := u.netSalary.GetOr(p.netSalary))
  }

  /** An update that carries no field leaves the row as it is. */
  lemma EmptyUpdateKeepsRow(p: EmployeePayroll)
    ensures ApplyUpdate(p, PayrollUpdate(None, None, None, None, None, None, None, None, None)) == p
  {
  }

  /**
   * Applying an update twice is applying it once, and an update that
   * carries the row's own values gives the row back.
   */
  lemma UpdateIdempotent(p: EmployeePayroll, u: PayrollUpdate)
    ensures ApplyUpdate(ApplyUpdate(p, u), u) == ApplyUpdate(p, u)
    ensures u == PayrollUpdate(Some(p.employee), Some(p.month), Some(p.year), Some(p.basicSalary), Some(p.hra),
                               None, Some(p.grossSalary), Some(p.totalDeductions), Some(p.netSalary))
            ==> ApplyUpdate(p, u) == p
  {
  }

  /** The salary components the database holds, by id. */
  type Registry = map<nat, SalaryComponent>

  const DuplicateMessage: string := "Payroll already exists for this employee for this month."

  /** `p` is a payroll for the same employee, month and year as `d`. */
  predicate SameSlot(p: EmployeePayroll, d: PayrollData) {
    p.employee == d.employee && p.month == d.month && p.year == d.year
  }

  /** `EmployeePayroll.objects.filter(employee=..., month=..., year=...).exists()`. */
  function HasPayrollFor(rows: seq<EmployeePayroll>, d: PayrollData): (b: bool)
    ensures b <==> exists i :: 0 <= i < |rows| && SameSlot(rows[i], d)
  {
    if rows == [] then false
    else if SameSlot(rows[0], d) then true
    else
      assert forall i :: 1 <= i < |rows| ==> rows[i] == rows[1..][i - 1];
      HasPayrollFor(rows[1..], d)
  }

  /**
   * `validate`: on create (`self.instance is None`) a second payroll for the
   * same employee, month and year is rejected; otherwise the data passes
   * through unchanged. The month is not range-checked.
   */
  function Validate(rows: seq<EmployeePayroll>, creating: bool, d: PayrollData): (r: Result<PayrollData, string>)
    ensures r.Failure? <==> creating && exists i :: 0 <= i < |rows| && SameSlot(rows[i], d)
    ensures r.Failure? ==> r.error == DuplicateMessage
    ensures r.Success? ==> r.value == d
  {
    if creating && HasPayrollFor(rows, d) then Failure(DuplicateMessage) else Success(d)
  }

  // ---------------------------------------------------------------------------
  // Sums of component amounts over a set of component ids

  /** What component `c` adds to the sum of the components of type `t`. */
  function Share(c: SalaryComponent, t: ComponentType): Money {
    if c.componentType == t then c.amount else 0
  }

  /**
   * `sum(c.amount for c in payroll.components.filter(component_type=t))`:
   * the attached components form a set, so each one counts once.
   */
  ghost function SetSum(reg: Registry, s: set<nat>, t: ComponentType): Money
    requires s <= reg.Keys
  {
    if s == {} then 0
    else
      var x :| x in s;
      Share(reg[x], t) + SetSum(reg, s - {x}, t)
  }

  /** The sum does not depend on which element is taken first. */
  lemma {:induction false} SetSumRemove(reg: Registry, s: set<nat>, t: ComponentType, y: nat)
    requires s <= reg.Keys && y in s
    ensures SetSum(reg, s, t) == Share(reg[y], t) + SetSum(reg, s - {y}, t)
    decreases |s|
  {
    var x :| x in s && SetSum(reg, s, t) == Share(reg[x], t) + SetSum(reg, s - {x}, t);
    if x != y {
      assert s - {x} - {y} == s - {y} - {x};
      SetSumRemove(reg, s - {x}, t, y);
      SetSumRemove(reg, s - {y}, t, x);
    }
  }

  /** Sums over disjoint sets add up. */
  lemma {:induction false} SetSumUnion(reg: Registry, a: set<nat>, b: set<nat>, t: ComponentType)
    requires a <= reg.Keys && b <= reg.Keys && a !! b
    ensures SetSum(reg, a + b, t) == SetSum(reg, a, t) + SetSum(reg, b, t)
    decreases |a|
  {
    if a != {} {
      var x :| x in a;
      SetSumRemove(reg, a, t, x);
      SetSumRemove(reg, a + b, t, x);
      assert (a + b) - {x} == (a - {x}) + b;
      SetSumUnion(reg, a - {x}, b, t);
    } else {
      assert a + b == b;
    }
  }

  /**
   * The loop behind Python's `sum(...)`: adds up the amounts of the
   * components of type `t`, visiting the set in any order.
   */
  method SumAmounts(reg: Registry, comps: set<nat>, t: ComponentType) returns (total: Money)
    requires comps <= reg.Keys
    ensures total == SetSum(reg, comps, t)
  {
    total := 0;
    var rest := comps;
    while rest != {}
      invariant rest <= comps
      invariant total + SetSum(reg, rest, t) == SetSum(reg, comps, t)
      decreases |rest|
    {
      var c :| c in rest;
      SetSumRemove(reg, rest, t, c);
      total := total + Share(reg[c], t);
      rest := rest - {c};
    }
  }

  /** The components a request names (`initial_data.get('components', [])`), as a set. */
  function ComponentSet(requested: seq<nat>): (s: set<nat>)
    ensures forall i :: 0 <= i < |requested| ==> requested[i] in s
    ensures forall x :: x in s ==> x in requested
  {
    set i | 0 <= i < |requested| :: requested[i]
  }

  /** Gross pay: basic salary, HRA and every attached earning. */
  ghost function Gross(reg: Registry, d: PayrollData, comps: set<nat>): Money
    requires comps <= reg.Keys
  {
    d.basicSalary + d.hra + SetSum(reg, comps, Earning)
  }

  /**
   * Attaching one more earning raises gross and net by its amount; attaching
   * one more deduction lowers net by its amount and leaves gross alone.
   */
  lemma AddComponent(reg: Registry, d: PayrollData, comps: set<nat>, y: nat)
    requires comps <= reg.Keys && y in reg && y !in comps
    ensures reg[y].componentType == Earning ==>
      Gross(reg, d, comps + {y}) == Gross(reg, d, comps) + reg[y].amount
      && SetSum(reg, comps + {y}, Deduction) == SetSum(reg, comps, Deduction)
    ensures reg[y].componentType == Deduction ==>
      Gross(reg, d, comps + {y}) == Gross(reg, d, comps)
      && SetSum(reg, comps + {y}, Deduction) == SetSum(reg, comps, Deduction) + reg[y].amount
  {
    SetSumRemove(reg, comps + {y}, Earning, y);
    SetSumRemove(reg, comps + {y}, Deduction, y);
    assert comps + {y} - {y} == comps;
  }

  /**
   * The row `create` leaves in the table under primary key `id`: the
   * request's fields, the requested components as a set, and gross,
   * deductions and net computed over them.
   */
  ghost function CreatedRow(reg: Registry, d: PayrollData, requested: seq<nat>, id: nat, now: int)
    : (p: EmployeePayroll)
    requires forall i :: 0 <= i < |requested| ==> requested[i] in reg
    ensures p.id == id && p.createdAt == now
    ensures p.employee == d.employee && p.month == d.month && p.year == d.year
    ensures p.basicSalary == d.basicSalary && p.hra == d.hra
    ensures p.components == ComponentSet(requested)
    ensures p.grossSalary == Gross(reg, d, p.components)
    ensures p.totalDeductions == SetSum(reg, p.components, Deduction)
    ensures p.netSalary == p.grossSalary - p.totalDeductions
  {
    var comps := ComponentSet(requested);
    var gross := Gross(reg, d, comps);
    var deductions := SetSum(reg, comps, Deduction);
    EmployeePayroll(id, d.employee, d.month, d.year, d.basicSalary, d.hra, comps, gross, deductions,
                    gross - deductions, now)
  }

  /**
   * `create`: stores the row with the request's fields (totals at their
   * defaults), attaches the requested components as a set, then writes gross,
   * deductions and net and saves again.
   */
  method Create(table: PayrollTable, reg: Registry, d: PayrollData, requested: seq<nat>, now: int)
    returns (saved: EmployeePayroll)
    requires table.Valid()
    requires forall i :: 0 <= i < |requested| ==> requested[i] in reg
    modifies table
    ensures table.Valid() && table.nextId == old(table.nextId) + 1
    ensures table.rows == old(table.rows) + [saved]
    ensures saved == CreatedRow(reg, d, requested, old(table.nextId), now)
    ensures saved.id == old(table.nextId) && saved.createdAt == now
    ensures saved.employee == d.employee && saved.month == d.month && saved.year == d.year
    ensures saved.basicSalary == d.basicSalary && saved.hra == d.hra
    ensures saved.components == ComponentSet(requested)
    ensures saved.grossSalary == Gross(reg, d, saved.components)
    ensures saved.totalDeductions == SetSum(reg, saved.components, Deduction)
    ensures saved.netSalary == saved.grossSalary - saved.totalDeductions
    ensures requested == [] ==>
      saved.grossSalary == d.basicSalary + d.hra && saved.totalDeductions == 0 && saved.netSalary == saved.grossSalary
  {
    var row := NewPayroll(0, d.employee, d.month, d.year, now).(basicSalary := d.basicSalary, hra := d.hra);
    saved := table.Insert(row);
    var comps := ComponentSet(requested);
    saved := saved.(components := comps);
    var earnings := SumAmounts(reg, comps, Earning);
    var deductions := SumAmounts(reg, comps, Deduction);
    var gross := saved.basicSalary + saved.hra + earnings;
    saved := saved.(grossSalary := gross, totalDeductions := deductions, netSalary := gross - deductions);
    table.Replace(|table.rows| - 1, saved);
  }
}
