/**
 * frontend/src/feature-module/mainMenu/employeeDashboard/employee-add.tsx:
 * the add/edit employee form: its permission matrix over the fixed module
 * list (defaults, toggling, select-all, loading a stored matrix), the form
 * defaults and the loaded record, and the multipart payload and request it
 * submits.
 */
module EmployeeAddPage {
  import opened Wrappers
  import opened Text

  /** The modules a permission matrix has rows for, in display order. */
  const Modules: seq<string> :=
    ["Holidays", "Leaves", "Clients", "Projects", "Tasks", "Chats", "Assets", "TimingSheets", "Payroll", "Attendance", "Reports"]

  /** The six flags of a row. */
  datatype Flag = Read | Write | Create | Delete | Import | Export

  const Flags: seq<Flag> := [Read, Write, Create, Delete, Import, Export]

  /** The flag's key in the stored JSON. */
  function FlagKey(k: Flag): string {
    match k
    case Read => "read"
    case Write => "write"
    case Create => "create"
    case Delete => "delete"
    case Import => "import"
    case Export => "export"
  }

  datatype PermissionSet = PermissionSet(read: bool, write: bool, create: bool, delete: bool, importing: bool, exporting: bool)

  function Get(p: PermissionSet, k: Flag): bool {
    match k
    case Read => p.read
    case Write => p.write
    case Create => p.create
    case Delete => p.delete
    case Import => p.importing
    case Export => p.exporting
  }

  /** `{ ...p, [k]: v }`. */
  function SetFlag(p: PermissionSet, k: Flag, v: bool): (r: PermissionSet)
    ensures Get(r, k) == v
    ensures forall k' :: k' != k ==> Get(r, k') == Get(p, k')
  {
    match k
    case Read => p.(read := v)
    case Write => p.(write := v)
    case Create => p.(create := v)
    case Delete => p.(delete := v)
    case Import => p.(importing := v)
    case Export => p.(exporting := v)
  }

  function AllFlags(v: bool): (r: PermissionSet)
    ensures forall k :: Get(r, k) == v
  {
    PermissionSet(v, v, v, v, v, v)
  }

  type Permissions = map<string, PermissionSet>

  /** Every module with every flag set to `v`: the default matrix (false) and select-all. */
  function Uniform(v: bool): (r: Permissions)
    ensures r.Keys == set m | m in Modules
    ensures forall m :: m in r ==> forall k :: Get(r[m], k) == v
  {
    map m | m in Modules :: AllFlags(v)
  }

  /** The `MODULES.forEach(m => p[m] = {...})` loop that builds a uniform matrix. */
  method FillAll(v: bool) returns (p: Permissions)
    ensures p == Uniform(v)
  {
    p := map[];
    var i := 0;
    while i < |Modules|
      invariant 0 <= i <= |Modules|
      invariant p == map m | m in Modules[..i] :: AllFlags(v)
    {
      assert Modules[..i + 1] == Modules[..i] + [Modules[i]];
      p := p[Modules[i] := AllFlags(v)];
      i := i + 1;
    }
    assert Modules[..i] == Modules;
  }

  /**
   * `togglePermission(m, k, v)`: flag `k` of module `m` becomes `v`; a module
   * without a row starts from an all-false row.
   */
  function Toggle(prev: Permissions, m: string, k: Flag, v: bool): (r: Permissions)
    ensures r.Keys == prev.Keys + {m}
    ensures Get(r[m], k) == v
    ensures forall k' :: k' != k ==> Get(r[m], k') == (if m in prev then Get(prev[m], k') else false)
    ensures forall m' :: m' in prev && m' != m ==> r[m'] == prev[m']
  {
    var row := if m in prev then prev[m] else AllFlags(false);
    prev[m := SetFlag(row, k, v)]
  }

  /** Toggling a flag back to its old value restores the matrix. */
  lemma ToggleBackRestores(prev: Permissions, m: string, k: Flag, v: bool)
    requires m in prev
    ensures Toggle(Toggle(prev, m, k, v), m, k, Get(prev[m], k)) == prev
  {
    var row := prev[m];
    var once := Toggle(prev, m, k, v);
    assert once == prev[m := SetFlag(row, k, v)];
    SetFlagBack(row, k, v);
    assert Toggle(once, m, k, Get(row, k)) == prev[m := row];
  }

  /** Setting a flag and then setting it back to its old value gives the same row. */
  lemma SetFlagBack(p: PermissionSet, k: Flag, v: bool)
    ensures SetFlag(SetFlag(p, k, v), k, Get(p, k)) == p
  {
    match k
    case Read =>
    case Write =>
    case Create =>
    case Delete =>
    case Import =>
    case Export =>
  }

  // ---------------------------------------------------------------------------
  // Loading a stored matrix

  /**
   * A stored matrix after `JSON.parse`: per module key, the truthiness of
   * each flag key that is present.
   */
  type StoredMatrix = map<string, map<string, bool>>

  /** `!!parsed[m]?.[k]`. */
  function Stored(parsed: StoredMatrix, m: string, k: Flag): bool {
    m in parsed && FlagKey(k) in parsed[m] && parsed[m][FlagKey(k)]
  }

  function RowFrom(parsed: StoredMatrix, m: string): (r: PermissionSet)
    ensures forall k :: Get(r, k) == Stored(parsed, m, k)
  {
    PermissionSet(Stored(parsed, m, Read), Stored(parsed, m, Write), Stored(parsed, m, Create),
                  Stored(parsed, m, Delete), Stored(parsed, m, Import), Stored(parsed, m, Export))
  }

  /** The loaded matrix: a row per listed module, read from the stored one. */
  function Mapped(parsed: StoredMatrix): (r: Permissions)
    ensures r.Keys == set m | m in Modules
    ensures forall m, k :: m in r ==> Get(r[m], k) == Stored(parsed, m, k)
  {
    map m | m in Modules :: RowFrom(parsed, m)
  }

  /** The `MODULES.forEach` loop that builds `mapped`. */
  method MapStored(parsed: StoredMatrix) returns (p: Permissions)
    ensures p == Mapped(parsed)
  {
    p := map[];
    var i := 0;
    while i < |Modules|
      invariant 0 <= i <= |Modules|
      invariant p == map m | m in Modules[..i] :: RowFrom(parsed, m)
    {
      assert Modules[..i + 1] == Modules[..i] + [Modules[i]];
      p := p[Modules[i] := RowFrom(parsed, Modules[i])];
      i := i + 1;
    }
    assert Modules[..i] == Modules;
  }

  /** Keys of the stored matrix outside the module list do not survive loading. */
  lemma LoadDropsUnknownModules(parsed: StoredMatrix, m: string)
    requires m in parsed && m !in Modules
    ensures m !in Mapped(parsed)
  {
  }

  predicate AnyFlag(p: PermissionSet) {
    p.read || p.write || p.create || p.delete || p.importing || p.exporting
  }

  /** `MODULES.every(m => Object.values(mapped[m]).some(Boolean))`. */
  predicate EveryModuleHasAFlag(p: Permissions) {
    forall m :: m in Modules ==> m in p && AnyFlag(p[m])
  }

  /**
   * After loading, "select all" is ticked as soon as every module has one
   * flag set, although other flags may be clear.
   */
  lemma SelectAllWithClearFlags(parsed: StoredMatrix)
    requires forall m :: m in Modules ==> m in parsed && parsed[m] == map["read" := true]
    ensures EveryModuleHasAFlag(Mapped(parsed))
    ensures forall m :: m in Modules ==> !Get(Mapped(parsed)[m], Write)
  {
    var r := Mapped(parsed);
    forall m | m in Modules ensures m in r && AnyFlag(r[m]) && !Get(r[m], Write) {
      assert Get(r[m], Read) == Stored(parsed, m, Read);
      assert Get(r[m], Write) == Stored(parsed, m, Write);
    }
  }

  /** The uniform matrices agree with "select all": every module has a flag exactly when `v`. */
  lemma UniformSelectsAll(v: bool)
    ensures EveryModuleHasAFlag(Uniform(v)) <==> v
  {
    var r := Uniform(v);
    assert "Holidays" in Modules;
    assert Get(r["Holidays"], Read) == v;
  }

  // ---------------------------------------------------------------------------
  // Form data

  /** A form value: a string, a boolean, or null/undefined. */
  datatype FormValue = Text(s: string) | Bool(b: bool) | Null

  /** `String(v)`. */
  function Render(v: FormValue): string
    requires !v.Null?
  {
    match v
    case Text(s) => s
    case Bool(b) => if b then "true" else "false"
  }

  type Form = seq<(string, FormValue)>

  /** The form's keys in order. */
  const FormKeys: seq<string> :=
    ["emp_code", "first_name", "middle_name", "last_name", "email", "phone", "address", "joining_date",
     "employment_type", "role", "department", "designation", "salary", "is_active"]

  /** The form before anything is loaded. */
  const InitialForm: Form :=
    [("emp_code", Text("")), ("first_name", Text("")), ("middle_name", Text("")), ("last_name", Text("")),
     ("email", Text("")), ("phone", Text("")), ("address", Text("")), ("joining_date", Text("")),
     ("employment_type", Text("Full-Time")), ("role", Text("Other")), ("department", Text("")),
     ("designation", Text("")), ("salary", Text("")), ("is_active", Bool(true))]

  /** The stored matrix field of a fetched employee. */
  datatype PermissionsField = Absent | Unparseable | Parsed(matrix: StoredMatrix)

  /** A fetched employee as the form reads it; None for null or missing. */
  datatype EmployeeRecord = EmployeeRecord(
    empCode: Option<string>, firstName: Option<string>, middleName: Option<string>, lastName: Option<string>,
    email: Option<string>, phone: Option<string>, address: Option<string>, joiningDate: Option<string>,
    employmentType: Option<string>, role: Option<string>, department: Option<nat>, designation: Option<nat>,
    salary: Option<string>, isActive: Option<bool>, permissions: PermissionsField)

  function RefText(id: Option<nat>): string {
    if id.Some? then NatToString(id.value) else ""
  }

  /** The form filled from a fetched employee. */
  function LoadedForm(emp: EmployeeRecord): (r: Form)
    ensures |r| == |FormKeys| && forall i :: 0 <= i < |r| ==> r[i].0 == FormKeys[i] && !r[i].1.Null?
    ensures r[8].1 == Text(emp.employmentType.GetOr("Full-Time")) && r[9].1 == Text(emp.role.GetOr("Other"))
    ensures r[10].1 == Text(RefText(emp.department)) && r[11].1 == Text(RefText(emp.designation))
    ensures r[13].1 == Bool(emp.isActive.GetOr(true))
  {
    [("emp_code", Text(emp.empCode.GetOr(""))), ("first_name", Text(emp.firstName.GetOr(""))),
     ("middle_name", Text(emp.middleName.GetOr(""))), ("last_name", Text(emp.lastName.GetOr(""))),
     ("email", Text(emp.email.GetOr(""))), ("phone", Text(emp.phone.GetOr(""))),
     ("address", Text(emp.address.GetOr(""))), ("joining_date", Text(emp.joiningDate.GetOr(""))),
     ("employment_type", Text(emp.employmentType.GetOr("Full-Time"))), ("role", Text(emp.role.GetOr("Other"))),
     ("department", Text(RefText(emp.department))), ("designation", Text(RefText(emp.designation))),
     ("salary", Text(emp.salary.GetOr(""))), ("is_active", Bool(emp.isActive.GetOr(true)))]
  }

  /** Loading a record with every field missing gives back the initial form. */
  lemma EmptyRecordLoadsInitialForm(p: PermissionsField)
    ensures LoadedForm(EmployeeRecord(None, None, None, None, None, None, None, None, None, None, None, None,
                                      None, None, p)) == InitialForm
  {
  }

  // ---------------------------------------------------------------------------
  // Submit

  datatype Entry = TextEntry(key: string, value: string) | FileEntry(key: string, file: string)

  function EntriesOf(form: Form): seq<Entry>
    decreases |form|
  {
    if form == [] then []
    else
      var last := form[|form| - 1];
      EntriesOf(form[..|form| - 1]) + (if last.1.Null? then [] else [TextEntry(last.0, Render(last.1))])
  }

  /**
   * `handleSubmit`'s payload: every form field that is not null or undefined,
   * as a string, then the photo when one was chosen, then the matrix as JSON.
   */
  method BuildPayload(form: Form, photo: Option<string>, permissionsJson: string) returns (payload: seq<Entry>)
    ensures payload == EntriesOf(form) + (if photo.Some? then [FileEntry("photo", photo.value)] else [])
                       + [TextEntry("permissions", permissionsJson)]
  {
    payload := [];
    var i := 0;
    while i < |form|
      invariant 0 <= i <= |form|
      invariant payload == EntriesOf(form[..i])
    {
      assert form[..i + 1][..i] == form[..i];
      var (k, v) := form[i];
      if !v.Null? {
        payload := payload + [TextEntry(k, Render(v))];
      }
      i := i + 1;
    }
    assert form[..i] == form;
    if photo.Some? {
      payload := payload + [FileEntry("photo", photo.value)];
    }
    payload := payload + [TextEntry("permissions", permissionsJson)];
  }

  /** A form without nulls sends every field, in order, rendered as a string. */
  lemma {:induction false} EntriesOfComplete(form: Form)
    requires forall i :: 0 <= i < |form| ==> !form[i].1.Null?
    ensures |EntriesOf(form)| == |form|
    ensures forall i :: 0 <= i < |form| ==> EntriesOf(form)[i] == TextEntry(form[i].0, Render(form[i].1))
    decreases |form|
  {
    if form != [] {
      EntriesOfComplete(form[..|form| - 1]);
    }
  }

  /** A null field is left out of the payload. */
  lemma {:induction false} NullFieldsLeftOut(form: Form, key: string)
    requires forall i :: 0 <= i < |form| && form[i].0 == key ==> form[i].1.Null?
    ensures forall i :: 0 <= i < |EntriesOf(form)| ==> EntriesOf(form)[i].key != key
    decreases |form|
  {
    if form != [] {
      NullFieldsLeftOut(form[..|form| - 1], key);
    }
  }

  /** A loaded employee's form sends all fourteen fields. */
  lemma LoadedFormSendsEveryField(emp: EmployeeRecord)
    ensures |EntriesOf(LoadedForm(emp))| == |FormKeys|
    ensures forall i :: 0 <= i < |FormKeys| ==> EntriesOf(LoadedForm(emp))[i].key == FormKeys[i]
  {
    EntriesOfComplete(LoadedForm(emp));
  }

  const ApiEmployees: string := "http://localhost:8000/api/employees/"

  datatype Request = Put(url: string) | Post(url: string)

  /** With an `id` query parameter the form PUTs to that employee; otherwise it POSTs a new one. */
  function RequestFor(editId: Option<string>): (r: Request)
    ensures r.Put? <==> editId.Some? && editId.value != []
    ensures r.Put? ==> r.url == ApiEmployees + editId.value + "/"
    ensures r.Post? ==> r.url == ApiEmployees
  {
    if editId.Some? && editId.value != [] then Put(ApiEmployees + editId.value + "/") else Post(ApiEmployees)
  }

  // ---------------------------------------------------------------------------
  // Form state

  /** The form's matrix, its "select all" box and its field values. */
  class EmployeeForm {
    var permissions: Permissions
    var selectAll: bool
    var form: Form

    constructor ()
      ensures permissions == Uniform(false) && !selectAll && form == InitialForm
    {
      var p := FillAll(false);
      permissions := p;
      selectAll := false;
      form := InitialForm;
    }

    method TogglePermission(m: string, k: Flag, v: bool)
      modifies this
      ensures permissions == Toggle(old(permissions), m, k, v)
      ensures selectAll == old(selectAll) && form == old(form)
    {
      permissions := Toggle(permissions, m, k, v);
    }

    /** `handleSelectAll(v)`: every flag of every module becomes `v`, and so does the box. */
    method SelectAll(v: bool)
      modifies this
      ensures permissions == Uniform(v) && selectAll == v
      ensures form == old(form)
    {
      permissions := FillAll(v);
      selectAll := v;
    }

    /**
     * Loading a fetched employee: the form is filled from the record; a
     * stored matrix replaces the permissions and sets the box from
     * EveryModuleHasAFlag; an unparseable one resets the permissions to the
     * defaults and leaves the box; no matrix leaves both.
     */
    method Load(emp: EmployeeRecord)
      modifies this
      ensures form == LoadedForm(emp)
      ensures emp.permissions.Parsed? ==>
        permissions == Mapped(emp.permissions.matrix) && selectAll == EveryModuleHasAFlag(permissions)
      ensures emp.permissions.Unparseable? ==> permissions == Uniform(false) && selectAll == old(selectAll)
      ensures emp.permissions.Absent? ==> permissions == old(permissions) && selectAll == old(selectAll)
    {
      form := LoadedForm(emp);
      match emp.permissions {
        case Absent =>
        case Parsed(matrix) =>
          var mapped := MapStored(matrix);
          permissions := mapped;
          selectAll := EveryModuleHasAFlag(mapped);
        case Unparseable =>
          var defaults := FillAll(false);
          permissions := defaults;
      }
    }
  }
}
