/**
 * frontend/src/feature-module/accounts/employee-payroll/EmployeePayrollForm.jsx:
 * the create/edit payroll form: the employee list it normalises and labels,
 * the stored payroll it loads into the form, the component toggle, the month
 * select, and the create-or-update request it sends.
 */
module EmployeePayrollForm {
  import opened Wrappers
  import opened Text
  import AddPayrollPage

  /** A JSON scalar as the form holds it: the API's numbers and strings, and what the inputs type. */
  datatype JsValue = Num(n: int) | Str(s: string) | Null

  /** JavaScript truthiness of a scalar. */
  predicate Truthy(v: JsValue) {
    match v
    case Num(n) => n != 0
    case Str(s) => s != []
    case Null => false
  }

  /**
   * The form: employee, month, year, basic salary, HRA, and the checked
   * component ids, where None stands for an `undefined` entry.
   */
  datatype PayrollFormData = PayrollFormData(employee: JsValue, month: JsValue, year: JsValue,
                                             basicSalary: JsValue, hra: JsValue, components: seq<Option<nat>>)

  /** `form.components.includes(c.id)`: the box of component `id` is checked. */
  predicate Checked(form: PayrollFormData, id: nat) {
    Some(id) in form.components
  }

  /** The form before anything is loaded; the year is the current one. */
  function InitialForm(currentYear: int): (r: PayrollFormData)
    ensures r.year == Num(currentYear) && r.components == []
    ensures r.employee == Str("") && r.month == Str("") && r.basicSalary == Str("") && r.hra == Str("")
  {
    PayrollFormData(Str(""), Str(""), Num(currentYear), Str(""), Str(""), [])
  }

  // ---------------------------------------------------------------------------
  // Employees

  /** An employee as the employee endpoint returns it; None for null or missing. */
  datatype EmployeeOption = EmployeeOption(id: nat, name: Option<string>, firstName: Option<string>,
                                           lastName: Option<string>)

  /** The employee endpoint's body. */
  datatype EmployeesBody = ArrayBody(items: seq<EmployeeOption>) | ResultsBody(results: seq<EmployeeOption>)
                         | ObjectBody | NullBody

  /** What the page keeps as its employee list: a list, or a non-array object. */
  datatype EmployeeList = ListOf(items: seq<EmployeeOption>) | NotAList

  /**
   * `data.results || data || []`. An object's `results` array wins (an empty
   * array is truthy too); an array has no `results` and is kept; an object
   * without `results` is kept as it is, which is not a list; a null body
   * throws before anything is stored.
   */
  function NormaliseEmployees(body: EmployeesBody): (r: Option<EmployeeList>)
    ensures r.None? <==> body.NullBody?
    ensures body.ResultsBody? ==> r == Some(ListOf(body.results))
    ensures body.ArrayBody? ==> r == Some(ListOf(body.items))
    ensures body.ObjectBody? ==> r == Some(NotAList)
  {
    match body
    case ResultsBody(results) => Some(ListOf(results))
    case ArrayBody(items) => Some(ListOf(items))
    case ObjectBody => Some(NotAList)
    case NullBody => None
  }

  /** `emp.name || \`${emp.first_name || ""} ${emp.last_name || ""}\``. */
  function Label(emp: EmployeeOption): (r: string)
    ensures emp.name.Some? && emp.name.value != [] ==> r == emp.name.value
    ensures emp.name.None? || emp.name.value == [] ==>
      r == emp.firstName.GetOr("") + " " + emp.lastName.GetOr("")
  {
    if emp.name.Some? && emp.name.value != [] then emp.name.value
    else emp.firstName.GetOr("") + " " + emp.lastName.GetOr("")
  }

  /**
   * Without a name, the label is never empty: it holds the separating
   * space even when both name parts are missing.
   */
  lemma LabelNeverEmpty(emp: EmployeeOption)
    ensures |Label(emp)| >= 1
    ensures emp.name.None? && emp.firstName.None? && emp.lastName.None? ==> Label(emp) == " "
  {
  }

  // ---------------------------------------------------------------------------
  // Loading a stored payroll

  /**
   * An entry of the stored payroll's `components`: the payroll serializer
   * sends the components' primary keys; a nested object is the other shape
   * the page is written for.
   */
  datatype ComponentEntry = PrimaryKey(key: nat) | Nested(id: nat)

  /** A stored payroll as the detail endpoint returns it. */
  datatype PayrollRecord = PayrollRecord(employee: JsValue, month: JsValue, year: JsValue, basicSalary: JsValue,
                                         hra: JsValue, components: Option<seq<ComponentEntry>>)

  /** `c.id` for each entry, as written: a primary key has no `id`, so it reads as undefined (None). */
  function IdsAsWritten(entries: seq<ComponentEntry>): (r: seq<Option<nat>>)
    ensures |r| == |entries|
    ensures forall i :: 0 <= i < |r| ==> r[i] == if entries[i].Nested? then Some(entries[i].id) else None
  {
    seq(|entries|, i requires 0 <= i < |entries| => if entries[i].Nested? then Some(entries[i].id) else None)
  }

  /**
   * As written, a payroll stored with components loads with no box checked:
   * every entry the serializer sends becomes undefined.
   */
  lemma AsWrittenLosesComponents(keys: seq<nat>)
    ensures var loaded := IdsAsWritten(seq(|keys|, i requires 0 <= i < |keys| => PrimaryKey(keys[i])));
      |loaded| == |keys| && forall id: nat :: Some(id) !in loaded
  {
  }

  /** Each entry's component id, whichever shape it comes in. */
  function ComponentIds(entries: seq<ComponentEntry>): (r: seq<nat>)
    ensures |r| == |entries|
    ensures forall i :: 0 <= i < |r| ==> r[i] == if entries[i].Nested? then entries[i].id else entries[i].key
  {
    seq(|entries|, i requires 0 <= i < |entries| => if entries[i].Nested? then entries[i].id else entries[i].key)
  }

  /** Loading the serializer's primary keys keeps exactly those ids, in order. */
  lemma ComponentIdsKeepKeys(keys: seq<nat>)
    ensures ComponentIds(seq(|keys|, i requires 0 <= i < |keys| => PrimaryKey(keys[i]))) == keys
  {
  }

  /** `v || ""`. */
  function OrBlank(v: JsValue): (r: JsValue)
    ensures Truthy(v) ==> r == v
    ensures !Truthy(v) ==> r == Str("")
  {
    if Truthy(v) then v else Str("")
  }

  /**
   * `loadData`: employee, month and year as stored, basic salary and HRA
   * blanked when falsy (a numeric 0 included), and `c.id` of each stored
   * component in order, none when the list is missing.
   */
  function LoadedForm(d: PayrollRecord): (r: PayrollFormData)
    ensures r.employee == d.employee && r.month == d.month && r.year == d.year
    ensures r.basicSalary == OrBlank(d.basicSalary) && r.hra == OrBlank(d.hra)
    ensures |r.components| == |d.components.GetOr([])|
    ensures forall id: nat :: Checked(r, id) <==> Nested(id) in d.components.GetOr([])
  {
    var entries := d.components.GetOr([]);
    var ids := IdsAsWritten(entries);
    assert forall id: nat :: Some(id) in ids <==> Nested(id) in entries by {
      forall id: nat ensures Some(id) in ids <==> Nested(id) in entries {
        if Some(id) in ids {
          var i :| 0 <= i < |ids| && ids[i] == Some(id);
          assert entries[i] == Nested(id);
        }
        if Nested(id) in entries {
          var i :| 0 <= i < |entries| && entries[i] == Nested(id);
          assert ids[i] == Some(id);
        }
      }
    }
    PayrollFormData(d.employee, d.month, d.year, OrBlank(d.basicSalary), OrBlank(d.hra), ids)
  }

  /**
   * A stored payroll as the payroll serializer sends it, its components as
   * primary keys, loads with no component box checked.
   */
  lemma LoadedKeysCheckNothing(d: PayrollRecord, keys: seq<nat>, id: nat)
    requires d.components == Some(seq(|keys|, i requires 0 <= i < |keys| => PrimaryKey(keys[i])))
    ensures !Checked(LoadedForm(d), id)
  {
    assert Nested(id) !in d.components.value;
  }

  /** A zero salary loads as an empty input, while the decimal string "0.00" is kept. */
  lemma ZeroSalaryLoadsBlank(d: PayrollRecord)
    requires d.basicSalary == Num(0) && d.hra == Str("0.00")
    ensures LoadedForm(d).basicSalary == Str("") && LoadedForm(d).hra == Str("0.00")
  {
  }

  // ---------------------------------------------------------------------------
  // Month

  const MonthNames: seq<string> :=
    ["January", "February", "March", "April", "May", "June",
     "July", "August", "September", "October", "November", "December"]

  /**
   * What the payroll's integer `month` field accepts from a form value: a
   * number, or a string of decimal digits.
   */
  predicate IntegerFieldAccepts(v: JsValue) {
    v.Num? || (v.Str? && ParseNat(v.s).Some?)
  }

  /** The month options as written: each option's value is the month's English name. */
  function MonthValuesAsWritten(): (r: seq<JsValue>)
    ensures |r| == 12 && forall i :: 0 <= i < 12 ==> r[i] == Str(MonthNames[i])
  {
    seq(12, i requires 0 <= i < 12 => Str(MonthNames[i]))
  }

  /** Every month value as written is refused by the integer field. */
  lemma MonthNamesRefused(i: nat)
    requires i < 12
    ensures !IntegerFieldAccepts(MonthValuesAsWritten()[i])
  {
    var name := MonthNames[i];
    assert !IsDigit(name[0]);
  }

  /** The month options corrected: the value is the month's number, the label its name. */
  function MonthOptions(): (r: seq<(JsValue, string)>)
    ensures |r| == 12 && forall i :: 0 <= i < 12 ==> r[i] == (Str(NatToString(i + 1)), MonthNames[i])
  {
    seq(12, i requires 0 <= i < 12 => (Str(NatToString(i + 1)), MonthNames[i]))
  }

  /** Every corrected month value is accepted, and reads back as a month from 1 to 12. */
  lemma MonthOptionsAccepted(i: nat)
    requires i < 12
    ensures IntegerFieldAccepts(MonthOptions()[i].0)
    ensures ParseNat(MonthOptions()[i].0.s) == Some(i + 1)
  {
    ParseNatToString(i + 1);
  }

  // ---------------------------------------------------------------------------
  // Submit

  datatype Request = Put(url: string, body: PayrollFormData) | Post(url: string, body: PayrollFormData)

  const ApiPayrolls: string := "/employee-payroll/"

  /** With a route id the form PUTs to that payroll, otherwise it POSTs a new one; the body is the form. */
  function SubmitRequest(routeId: Option<string>, form: PayrollFormData): (r: Request)
    ensures r.body == form
    ensures r.Put? <==> routeId.Some? && routeId.value != []
    ensures r.Put? ==> r.url == ApiPayrolls + routeId.value + "/"
    ensures r.Post? ==> r.url == ApiPayrolls
  {
    if routeId.Some? && routeId.value != [] then Put(ApiPayrolls + routeId.value + "/", form) else Post(ApiPayrolls, form)
  }

  /** The form field an input edits. */
  function FormField(form: PayrollFormData, f: AddPayrollPage.Field): JsValue {
    match f
    case Employee => form.employee
    case Month => form.month
    case Year => form.year
    case BasicSalary => form.basicSalary
    case Hra => form.hra
  }

  /**
   * The inline `setForm({...form, k: e.target.value})` handlers: the edited
   * field takes the typed string; the other fields and the components stay.
   */
  function SetField(form: PayrollFormData, f: AddPayrollPage.Field, value: string): (r: PayrollFormData)
    ensures FormField(r, f) == Str(value)
    ensures forall g :: g != f ==> FormField(r, g) == FormField(form, g)
    ensures r.components == form.components
  {
    match f
    case Employee => form.(employee := Str(value))
    case Month => form.(month := Str(value))
    case Year => form.(year := Str(value))
    case BasicSalary => form.(basicSalary := Str(value))
    case Hra => form.(hra := Str(value))
  }

  // ---------------------------------------------------------------------------
  // Page state

  /** The form page's lists and form. */
  class PayrollFormState {
    var employees: EmployeeList
    var componentIds: seq<nat>
    var form: PayrollFormData

    constructor (currentYear: int)
      ensures employees == ListOf([]) && componentIds == [] && form == InitialForm(currentYear)
    {
      employees := ListOf([]);
      componentIds := [];
      form := InitialForm(currentYear);
    }

    /**
     * `loadMeta`: both requests together; when both succeed and the body is
     * not null, both lists are stored, otherwise neither.
     */
    method LoadMeta(response: Option<(EmployeesBody, seq<nat>)>)
      modifies this
      ensures response.Some? && !response.value.0.NullBody? ==>
        Some(employees) == NormaliseEmployees(response.value.0) && componentIds == response.value.1
      ensures response.None? || response.value.0.NullBody? ==>
        employees == old(employees) && componentIds == old(componentIds)
      ensures form == old(form)
    {
      if response.Some? {
        var normalised := NormaliseEmployees(response.value.0);
        if normalised.Some? {
          employees := normalised.value;
          componentIds := response.value.1;
        }
      }
    }

    /** `loadData`: a fetched payroll replaces the whole form; a failed fetch leaves it. */
    method LoadData(response: Option<PayrollRecord>)
      modifies this
      ensures form == if response.Some? then LoadedForm(response.value) else old(form)
      ensures employees == old(employees) && componentIds == old(componentIds)
    {
      if response.Some? {
        form := LoadedForm(response.value);
      }
    }

    method Set(f: AddPayrollPage.Field, value: string)
      modifies this
      ensures form == SetField(old(form), f, value)
      ensures employees == old(employees) && componentIds == old(componentIds)
    {
      form := SetField(form, f, value);
    }

    /** The month select, with the corrected options: option `i` stores month `i + 1` as a numeral. */
    method SelectMonth(i: nat)
      requires i < 12
      modifies this
      ensures form == old(form).(month := MonthOptions()[i].0)
      ensures IntegerFieldAccepts(form.month)
      ensures employees == old(employees) && componentIds == old(componentIds)
    {
      MonthOptionsAccepted(i);
      form := form.(month := MonthOptions()[i].0);
    }

    /** `handleToggleComponent`: only the form's components change. */
    method Toggle(compId: nat)
      modifies this
      ensures form == old(form).(components := AddPayrollPage.ToggleComponent(old(form).components, Some(compId)))
      ensures Checked(form, compId) <==> !Checked(old(form), compId)
      ensures forall id: nat :: id != compId ==> (Checked(form, id) <==> Checked(old(form), id))
      ensures employees == old(employees) && componentIds == old(componentIds)
    {
      form := form.(components := AddPayrollPage.ToggleComponent(form.components, Some(compId)));
    }

    /** `handleSubmit`: the request for the current form. */
    method Submit(routeId: Option<string>) returns (request: Request)
      ensures request == SubmitRequest(routeId, form)
    {
      request := SubmitRequest(routeId, form);
    }
  }
}
