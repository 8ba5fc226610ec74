/**
 * frontend/src/feature-module/mainMenu/payroll/AddPayroll.jsx: the payroll
 * creation form, its field updates, the component checkbox toggle and the
 * month options. The toggle is shared with EmployeePayrollForm.jsx, which
 * does the same thing.
 */
module AddPayrollPage {
  import opened Wrappers
  import Seqs

  // ---------------------------------------------------------------------------
  // Component toggle

  function Other<T(==,!new)>(id: T): T -> bool { (x: T) => x != id }

  /**
   * `toggleComponent(id)`: a checked id is removed (every occurrence of it,
   * the rest in order); an unchecked one is appended at the end.
   */
  function ToggleComponent<T(==,!new)>(components: seq<T>, id: T): (r: seq<T>)
    ensures forall x :: x in r <==> (if x == id then id !in components else x in components)
    ensures id in components ==> Seqs.Subsequence(r, components)
    ensures id !in components ==> r == components + [id]
    ensures forall x :: x != id ==> multiset(r)[x] == multiset(components)[x]
  {
    if id in components then
      Seqs.FilterContains(components, Other(id));
      Seqs.FilterKeepsMultiplicity(components, Other(id));
      Seqs.FilterIsSubsequence(components, Other(id));
      Seqs.Filter(components, Other(id))
    else components + [id]
  }

  /** Toggling the same id twice gives back the same checked set. */
  lemma ToggleTwiceSameSet<T(!new)>(components: seq<T>, id: T)
    ensures forall x :: x in ToggleComponent(ToggleComponent(components, id), id) <==> x in components
  {
  }

  /** Checking an unchecked id and unchecking it again gives back the very same list. */
  lemma CheckThenUncheck<T(!new)>(components: seq<T>, id: T)
    requires id !in components
    ensures ToggleComponent(ToggleComponent(components, id), id) == components
  {
    Seqs.FilterAppend(components, [id], Other(id));
    Seqs.FilterKeepsAll(components, Other(id));
    assert Seqs.Filter([id], Other(id)) == [];
  }

  /** On a list without repeats, the toggle keeps it without repeats. */
  lemma ToggleKeepsDistinct<T(!new)>(components: seq<T>, id: T)
    requires Seqs.Injective(components, (x: T) => x)
    ensures Seqs.Injective(ToggleComponent(components, id), (x: T) => x)
  {
    if id in components {
      Seqs.FilterKeepsInjective(components, Other(id), (x: T) => x);
    }
  }

  // ---------------------------------------------------------------------------
  // Form

  /** The form: five input strings and the checked component ids. */
  datatype PayrollForm = PayrollForm(employee: string, month: string, year: string, basicSalary: string,
                                     hra: string, components: seq<nat>)

  /** The named inputs `updateForm` serves. */
  datatype Field = Employee | Month | Year | BasicSalary | Hra

  function FieldValue(form: PayrollForm, f: Field): string {
    match f
    case Employee => form.employee
    case Month => form.month
    case Year => form.year
    case BasicSalary => form.basicSalary
    case Hra => form.hra
  }

  const InitialForm: PayrollForm := PayrollForm("", "", "", "", "", [])

  /** `updateForm`: the input named `f` takes `value`; every other field, and the components, stay. */
  function UpdateForm(form: PayrollForm, f: Field, value: string): (r: PayrollForm)
    ensures FieldValue(r, f) == value
    ensures forall g :: g != f ==> FieldValue(r, g) == FieldValue(form, g)
    ensures r.components == form.components
  {
    match f
    case Employee => form.(employee := value)
    case Month => form.(month := value)
    case Year => form.(year := value)
    case BasicSalary => form.(basicSalary := value)
    case Hra => form.(hra := value)
  }

  /** The initial form has every input empty and nothing checked. */
  lemma InitialFormEmpty()
    ensures forall f :: FieldValue(InitialForm, f) == [] && InitialForm.components == []
  {
  }

  /** `[...Array(12)].map((_, i) => i + 1)`: the month select's options. */
  function MonthOptions(): (r: seq<nat>)
    ensures |r| == 12 && forall i :: 0 <= i < 12 ==> r[i] == i + 1
  {
    seq(12, i => i + 1)
  }

  /** The options are exactly the months 1 to 12. */
  lemma MonthOptionsAreMonths(m: int)
    ensures m in MonthOptions() <==> 1 <= m <= 12
  {
    var r := MonthOptions();
    if 1 <= m <= 12 {
      assert r[m - 1] == m;
    }
  }

  // ---------------------------------------------------------------------------
  // Page state

  /** The page's lists and form. */
  class AddPayrollState {
    var employees: seq<nat>
    var components: seq<nat>
    var form: PayrollForm

    constructor ()
      ensures employees == [] && components == [] && form == InitialForm
    {
      employees := [];
      components := [];
      form := InitialForm;
    }

    /** A successful load replaces the list; a failed one leaves it. */
    method LoadEmployees(response: Option<seq<nat>>)
      modifies this
      ensures employees == if response.Some? then response.value else old(employees)
      ensures components == old(components) && form == old(form)
    {
      if response.Some? {
        employees := response.value;
      }
    }

    method LoadComponents(response: Option<seq<nat>>)
      modifies this
      ensures components == if response.Some? then response.value else old(components)
      ensures employees == old(employees) && form == old(form)
    {
      if response.Some? {
        components := response.value;
      }
    }

    method Update(f: Field, value: string)
      modifies this
      ensures form == UpdateForm(old(form), f, value)
      ensures employees == old(employees) && components == old(components)
    {
      form := UpdateForm(form, f, value);
    }

    /** The checkbox: only the form's components change. */
    method Toggle(id: nat)
      modifies this
      ensures form == old(form).(components := ToggleComponent(old(form).components, id))
      ensures employees == old(employees) && components == old(components)
    {
      form := form.(components := ToggleComponent(form.components, id));
    }
  }
}
