/**
 * backend/employees/models.py: departments, designations and employees, their
 * choice fields and defaults, the unique columns, the newest-first default
 * ordering, and the SET_NULL rules that run when a referenced row is deleted.
 * Deleting an employee also removes its payrolls (the CASCADE declared in
 * backend/payroll/models.py).
 */
module EmployeeModels {
  import opened Wrappers
  import Seqs
  import Text
  import opened Dates
  import PayrollModels

  datatype Department = Department(id: nat, name: string, description: Option<string>)

  datatype Designation = Designation(id: nat, title: string, description: Option<string>)

  // ---------------------------------------------------------------------------
  // Choice fields

  datatype Role = Doctor | Nurse | Admin | HR | Technician | Receptionist | Pharmacist | Other

  function RoleCode(r: Role): string {
    match r
    case Doctor => "Doctor"
    case Nurse => "Nurse"
    case Admin => "Admin"
    case HR => "HR"
    case Technician => "Technician"
    case Receptionist => "Receptionist"
    case Pharmacist => "Pharmacist"
    case Other => "Other"
  }

  /** A role value passes the choices check exactly when it is one of the eight codes. */
  function ParseRole(s: string): (r: Option<Role>)
    ensures r.Some? ==> RoleCode(r.value) == s
    ensures forall x: Role :: RoleCode(x) == s ==> r == Some(x)
  {
    if s == "Doctor" then Some(Doctor)
    else if s == "Nurse" then Some(Nurse)
    else if s == "Admin" then Some(Admin)
    else if s == "HR" then Some(HR)
    else if s == "Technician" then Some(Technician)
    else if s == "Receptionist" then Some(Receptionist)
    else if s == "Pharmacist" then Some(Pharmacist)
    else if s == "Other" then Some(Other)
    else None
  }

  datatype EmploymentType = FullTime | PartTime | Contract | Intern

  function EmploymentTypeCode(t: EmploymentType): string {
    match t
    case FullTime => "Full-Time"
    case PartTime => "Part-Time"
    case Contract => "Contract"
    case Intern => "Intern"
  }

  function ParseEmploymentType(s: string): (r: Option<EmploymentType>)
    ensures r.Some? ==> EmploymentTypeCode(r.value) == s
    ensures forall x: EmploymentType :: EmploymentTypeCode(x) == s ==> r == Some(x)
  {
    if s == "Full-Time" then Some(FullTime)
    else if s == "Part-Time" then Some(PartTime)
    else if s == "Contract" then Some(Contract)
    else if s == "Intern" then Some(Intern)
    else None
  }

  datatype MaritalStatus = Single | Married | Divorced | Widowed

  function MaritalStatusCode(m: MaritalStatus): string {
    match m
    case Single => "Single"
    case Married => "Married"
    case Divorced => "Divorced"
    case Widowed => "Widowed"
  }

  function ParseMaritalStatus(s: string): (r: Option<MaritalStatus>)
    ensures r.Some? ==> MaritalStatusCode(r.value) == s
    ensures forall x: MaritalStatus :: MaritalStatusCode(x) == s ==> r == Some(x)
  {
    if s == "Single" then Some(Single)
    else if s == "Married" then Some(Married)
    else if s == "Divorced" then Some(Divorced)
    else if s == "Widowed" then Some(Widowed)
    else None
  }

  // ---------------------------------------------------------------------------
  // Employees

  /**
   * An employee row, with the fields the views and screens read. Nullable
   * columns are Options; `last_name` is blank-able but not nullable.
   */
  datatype Employee = Employee(
    id: nat,
    empCode: string,
    firstName: string,
    middleName: Option<string>,
    lastName: string,
    email: string,
    dateOfBirth: Option<Date>,
    role: Role,
    department: Option<nat>,
    designation: Option<nat>,
    joiningDate: Option<Date>,
    employmentType: EmploymentType,
    reportingTo: Option<nat>,
    maritalStatus: MaritalStatus,
    photo: Option<string>,
    isActive: bool,
    createdAt: int)

  /** A new employee with the required fields given and every default applied. */
  function NewEmployee(id: nat, empCode: string, firstName: string, email: string, createdAt: int): (e: Employee)
    ensures e.role == Other && e.employmentType == FullTime && e.maritalStatus == Single && e.isActive
    ensures e.lastName == "" && e.middleName.None?
    ensures e.department.None? && e.designation.None? && e.reportingTo.None?
    ensures e.dateOfBirth.None? && e.joiningDate.None? && e.photo.None?
    ensures e.empCode == empCode && e.firstName == firstName && e.email == email
  {
    Employee(id, empCode, firstName, None, "", email, None, Other, None, None, None, FullTime, None, Single, None, true, createdAt)
  }

  /** `Employee.__str__`: "first last (emp_code)". */
  function EmployeeLabel(e: Employee): (r: string)
    ensures |r| == |e.firstName| + |e.lastName| + |e.empCode| + 4
    ensures r[..|e.firstName| + 1] == e.firstName + " "
    ensures r[|e.firstName| + 1..|e.firstName| + 1 + |e.lastName|] == e.lastName
    ensures r[|r| - |e.empCode| - 3..] == " (" + e.empCode + ")"
  {
    e.firstName + " " + e.lastName + " (" + e.empCode + ")"
  }

  /** Meta.ordering = ['-created_at']: `a` may come before `b` when it is no older. */
  function NewestFirst(): (Employee, Employee) -> bool {
    Seqs.ByKey((e: Employee) => e.createdAt, true)
  }

  /** `Employee.objects.all()` in the default ordering. */
  function Ordered(rows: seq<Employee>): (r: seq<Employee>)
    ensures multiset(r) == multiset(rows)
  {
    Seqs.SortBy(rows, NewestFirst())
  }

  lemma OrderedNewestFirst(rows: seq<Employee>)
    ensures forall i, j :: 0 <= i < j < |Ordered(rows)| ==> Ordered(rows)[i].createdAt >= Ordered(rows)[j].createdAt
  {
    Seqs.SortBySorted(rows, NewestFirst());
    Seqs.AdjacentSortedIsSorted(Ordered(rows), NewestFirst());
  }

  // ---------------------------------------------------------------------------
  // Foreign keys with on_delete=SET_NULL

  /** The three nullable references an employee row holds. */
  datatype Reference = DepartmentRef | DesignationRef | ReportingToRef

  function Ref(e: Employee, f: Reference): Option<nat> {
    match f
    case DepartmentRef => e.department
    case DesignationRef => e.designation
    case ReportingToRef => e.reportingTo
  }

  /** The row with reference `f` set to null and every other field kept. */
  function ClearRef(e: Employee, f: Reference): (r: Employee)
    ensures Ref(r, f).None?
    ensures forall g :: g != f ==> Ref(r, g) == Ref(e, g)
    ensures r == e.(department := r.department, designation := r.designation, reportingTo := r.reportingTo)
  {
    match f
    case DepartmentRef => e.(department := None)
    case DesignationRef => e.(designation := None)
    case ReportingToRef => e.(reportingTo := None)
  }

  /** The update the database applies to one row when the row `id` referenced through `f` goes away. */
  function Nulled(e: Employee, f: Reference, id: nat): Employee {
    if Ref(e, f) == Some(id) then ClearRef(e, f) else e
  }

  function DepartmentName(): Department -> string { (d: Department) => d.name }
  function DesignationTitle(): Designation -> string { (d: Designation) => d.title }
  function EmployeeCode(): Employee -> string { (e: Employee) => e.empCode }
  function EmployeeEmail(): Employee -> string { (e: Employee) => e.email }

  function DepartmentIsNot(id: nat): Department -> bool { (d: Department) => d.id != id }
  function DesignationIsNot(id: nat): Designation -> bool { (d: Designation) => d.id != id }
  function EmployeeIsNot(id: nat): Employee -> bool { (e: Employee) => e.id != id }

  /** The three tables of the employees app. */
  class Directory {
    var departments: seq<Department>
    var designations: seq<Designation>
    var employees: seq<Employee>

    /** The unique columns: department name, designation title, emp_code and email. */
    ghost predicate Valid()
      reads this
    {
      Seqs.Injective(departments, DepartmentName())
      && Seqs.Injective(designations, DesignationTitle())
      && Seqs.Injective(employees, EmployeeCode())
      && Seqs.Injective(employees, EmployeeEmail())
    }

    constructor ()
      ensures Valid() && departments == [] && designations == [] && employees == []
    {
      departments := [];
      designations := [];
      employees := [];
    }

    /** Inserting a department; a name already in use is refused (IntegrityError). */
    method AddDepartment(d: Department) returns (ok: bool)
      requires Valid()
      modifies this
      ensures Valid()
      ensures ok <==> forall i :: 0 <= i < |old(departments)| ==> old(departments)[i].name != d.name
      ensures departments == if ok then old(departments) + [d] else old(departments)
      ensures designations == old(designations) && employees == old(employees)
    {
      ok := forall i :: 0 <= i < |departments| ==> departments[i].name != d.name;
      if ok {
        departments := departments + [d];
      }
    }

    /** Inserting a designation; a title already in use is refused. */
    method AddDesignation(d: Designation) returns (ok: bool)
      requires Valid()
      modifies this
      ensures Valid()
      ensures ok <==> forall i :: 0 <= i < |old(designations)| ==> old(designations)[i].title != d.title
      ensures designations == if ok then old(designations) + [d] else old(designations)
      ensures departments == old(departments) && employees == old(employees)
    {
      ok := forall i :: 0 <= i < |designations| ==> designations[i].title != d.title;
      if ok {
        designations := designations + [d];
      }
    }

    /** Inserting an employee; an emp_code or email already in use is refused. */
    method AddEmployee(e: Employee) returns (ok: bool)
      requires Valid()
      modifies this
      ensures Valid()
      ensures ok <==> forall i :: 0 <= i < |old(employees)| ==>
        old(employees)[i].empCode != e.empCode && old(employees)[i].email != e.email
      ensures employees == if ok then old(employees) + [e] else old(employees)
      ensures departments == old(departments) && designations == old(designations)
    {
      ok := forall i :: 0 <= i < |employees| ==> employees[i].empCode != e.empCode && employees[i].email != e.email;
      if ok {
        employees := employees + [e];
      }
    }

    /**
     * SET_NULL: every employee whose reference `f` is `id` gets null there;
     * every other employee, and every other field, is left as it was.
     */
    method ClearReferences(f: Reference, id: nat)
      requires Valid()
      modifies this
      ensures Valid()
      ensures departments == old(departments) && designations == old(designations)
      ensures |employees| == |old(employees)|
      ensures forall i :: 0 <= i < |employees| ==> employees[i] == Nulled(old(employees)[i], f, id)
      ensures forall i :: 0 <= i < |employees| ==> Ref(employees[i], f) != Some(id)
    {
      var i := 0;
      while i < |employees|
        invariant 0 <= i <= |employees| == |old(employees)|
        invariant departments == old(departments) && designations == old(designations)
        invariant forall k :: 0 <= k < i ==> employees[k] == Nulled(old(employees)[k], f, id)
        invariant forall k :: i <= k < |employees| ==> employees[k] == old(employees)[k]
        invariant forall k :: 0 <= k < |employees| ==>
          employees[k].empCode == old(employees)[k].empCode && employees[k].email == old(employees)[k].email
      {
        if Ref(employees[i], f) == Some(id) {
          employees := employees[i := ClearRef(employees[i], f)];
        }
        i := i + 1;
      }
    }

    /** Deleting a department: its row goes and its employees lose their department. */
    method DeleteDepartment(id: nat)
      requires Valid()
      modifies this
      ensures Valid()
      ensures departments == Seqs.Filter(old(departments), DepartmentIsNot(id))
      ensures designations == old(designations) && |employees| == |old(employees)|
      ensures forall i :: 0 <= i < |employees| ==> employees[i] == Nulled(old(employees)[i], DepartmentRef, id)
    {
      ClearReferences(DepartmentRef, id);
      Seqs.FilterKeepsInjective(departments, DepartmentIsNot(id), DepartmentName());
      departments := Seqs.Filter(departments, DepartmentIsNot(id));
    }

    /** Deleting a designation: its row goes and its employees lose their designation. */
    method DeleteDesignation(id: nat)
      requires Valid()
      modifies this
      ensures Valid()
      ensures designations == Seqs.Filter(old(designations), DesignationIsNot(id))
      ensures departments == old(departments) && |employees| == |old(employees)|
      ensures forall i :: 0 <= i < |employees| ==> employees[i] == Nulled(old(employees)[i], DesignationRef, id)
    {
      ClearReferences(DesignationRef, id);
      Seqs.FilterKeepsInjective(designations, DesignationIsNot(id), DesignationTitle());
      designations := Seqs.Filter(designations, DesignationIsNot(id));
    }

    /**
     * Deleting an employee: the row goes, its subordinates lose their
     * `reporting_to`, and its payrolls are deleted with it.
     */
    method DeleteEmployee(id: nat, payrolls: PayrollModels.PayrollTable)
      requires Valid() && payrolls.Valid()
      modifies this, payrolls
      ensures Valid() && payrolls.Valid()
      ensures departments == old(departments) && designations == old(designations)
      ensures exists cleared: seq<Employee> ::
        |cleared| == |old(employees)|
        && (forall i :: 0 <= i < |cleared| ==> cleared[i] == Nulled(old(employees)[i], ReportingToRef, id))
        && employees == Seqs.Filter(cleared, EmployeeIsNot(id))
      ensures payrolls.rows == Seqs.Filter(old(payrolls.rows), PayrollModels.NotOf(id))
      ensures payrolls.nextId == old(payrolls.nextId)
    {
      ClearReferences(ReportingToRef, id);
      ghost var cleared := employees;
      Seqs.FilterKeepsInjective(employees, EmployeeIsNot(id), EmployeeCode());
      Seqs.FilterKeepsInjective(employees, EmployeeIsNot(id), EmployeeEmail());
      employees := Seqs.Filter(employees, EmployeeIsNot(id));
      payrolls.DeleteEmployeePayrolls(id);
    }
  }
}
