/**
 * frontend/src/feature-module/mainMenu/employeeDashboard/policies.tsx:
 * the policy list's query parameters, the add and edit validation and
 * multipart payloads, `openEdit`, `resetForm`, and the page state in which
 * one department selection serves both the list filter and the form.
 */
module PoliciesPage {
  import opened Wrappers
  import opened Text
  import opened EmployeeAddPage

  datatype Dept = Dept(id: nat, name: string, description: Option<string>)

  /** A policy as the list endpoint returns it; None for null or missing. */
  datatype Policy = Policy(
    id: nat,
    title: string,
    description: Option<string>,
    department: Option<nat>,
    detail: Option<Dept>,
    file: Option<string>,
    createdAt: Option<string>)

  /** A response body: an array, or anything else (which the page reads as an empty list). */
  datatype ListBody<T> = ArrayOf(items: seq<T>) | NotArray

  /** `Array.isArray(res.data) ? res.data : []`, with a failed request also giving []. */
  function ListOrEmpty<T>(response: Option<ListBody<T>>): (r: seq<T>)
    ensures response.Some? && response.value.ArrayOf? ==> r == response.value.items
    ensures response.None? || response.value.NotArray? ==> r == []
  {
    if response.Some? && response.value.ArrayOf? then response.value.items else []
  }

  // ---------------------------------------------------------------------------
  // Query parameters

  /** `value || undefined`: an empty value is dropped from the query string. */
  function Param(key: string, value: string): seq<(string, string)> {
    if value == [] then [] else [(key, value)]
  }

  /** The parameters of `GET /policies/`: search, department, from and to, each only when non-empty. */
  function QueryParams(search: string, deptId: string, fromDate: string, toDate: string): (r: seq<(string, string)>)
    ensures |r| <= 4
  {
    Param("search", search) + Param("department", deptId) + Param("from", fromDate) + Param("to", toDate)
  }

  /** The value sent under `key`, if any. */
  function Lookup(params: seq<(string, string)>, key: string): Option<string> {
    if params == [] then None
    else if params[0].0 == key then Some(params[0].1)
    else Lookup(params[1..], key)
  }

  lemma {:induction false} LookupAppend(a: seq<(string, string)>, b: seq<(string, string)>, k: string)
    ensures Lookup(a + b, k) == if Lookup(a, k).Some? then Lookup(a, k) else Lookup(b, k)
  {
    if a != [] {
      assert (a + b)[1..] == a[1..] + b;
      LookupAppend(a[1..], b, k);
    } else {
      assert a + b == b;
    }
  }

  /**
   * One parameter answers for its own key, with its value when that is
   * non-empty, and never for a different key.
   */
  lemma LookupOne(key: string, value: string, k: string)
    ensures Lookup(Param(key, value), key) == (if value == [] then None else Some(value))
    ensures k != key ==> Lookup(Param(key, value), k).None?
  {
  }

  /** Each filter is sent exactly when it is non-empty, and then with its value. */
  lemma QueryParamsSendNonEmpty(search: string, deptId: string, fromDate: string, toDate: string)
    ensures var p := QueryParams(search, deptId, fromDate, toDate);
      Lookup(p, "search") == (if search == [] then None else Some(search))
      && Lookup(p, "department") == (if deptId == [] then None else Some(deptId))
      && Lookup(p, "from") == (if fromDate == [] then None else Some(fromDate))
      && Lookup(p, "to") == (if toDate == [] then None else Some(toDate))
  {
    var s, d, f, t := Param("search", search), Param("department", deptId), Param("from", fromDate), Param("to", toDate);
    var keys := ["search", "department", "from", "to"];
    forall k | k in keys
      ensures Lookup(s + d + f + t, k) ==
        if k == "search" then Lookup(s, k) else if k == "department" then Lookup(d, k)
        else if k == "from" then Lookup(f, k) else Lookup(t, k)
    {
      LookupAppend(s + d + f, t, k);
      LookupAppend(s + d, f, k);
      LookupAppend(s, d, k);
      if k != "search" { LookupOne("search", search, k); }
      if k != "department" { LookupOne("department", deptId, k); }
      if k != "from" { LookupOne("from", fromDate, k); }
      if k != "to" { LookupOne("to", toDate, k); }
    }
  }

  // ---------------------------------------------------------------------------
  // Add and edit

  const TitleRequired: string := "Title is required"

  /**
   * The multipart form both add and edit send: the trimmed title, the
   * description (or ""), the department only when one is selected, and the
   * file only when one is chosen.
   */
  function PolicyForm(title: string, desc: string, deptId: string, file: Option<string>): (r: seq<Entry>)
    ensures |r| == 2 + (if deptId != [] then 1 else 0) + (if file.Some? then 1 else 0)
    ensures r[0] == TextEntry("title", Trim(title)) && r[1] == TextEntry("description", desc)
    ensures deptId != [] ==> r[2] == TextEntry("department", deptId)
    ensures file.Some? ==> r[|r| - 1] == FileEntry("file", file.value)
    ensures forall i :: 2 <= i < |r| && r[i].TextEntry? ==> i == 2 && deptId != []
    ensures forall i :: 0 <= i < |r| && r[i].FileEntry? ==> i == |r| - 1 && file.Some?
  {
    var head := [TextEntry("title", Trim(title)), TextEntry("description", desc)];
    var withDept := if deptId != [] then head + [TextEntry("department", deptId)] else head;
    if file.Some? then withDept + [FileEntry("file", file.value)] else withDept
  }

  /** `handleAdd`: a title that is blank after trimming is refused; otherwise the form is posted. */
  function AddRequest(title: string, desc: string, deptId: string, file: Option<string>): (r: Result<seq<Entry>, string>)
    ensures r.Failure? <==> IsBlank(title)
    ensures r.Failure? ==> r.error == TitleRequired
    ensures r.Success? ==> r.value == PolicyForm(title, desc, deptId, file) && r.value[0].value != []
  {
    TrimEmptyIffBlank(title);
    if Trim(title) == [] then Failure(TitleRequired) else Success(PolicyForm(title, desc, deptId, file))
  }

  /**
   * `handleEditSave`: nothing happens without a policy being edited; then the
   * same title check as adding, and a PUT of the same form to that policy.
   */
  function EditRequest(editing: Option<Policy>, title: string, desc: string, deptId: string, file: Option<string>)
    : (r: Option<Result<(nat, seq<Entry>), string>>)
    ensures r.None? <==> editing.None?
    ensures r.Some? ==> (r.value.Failure? <==> IsBlank(title))
    ensures r.Some? && r.value.Failure? ==> r.value.error == TitleRequired
    ensures r.Some? && r.value.Success? ==> r.value.value == (editing.value.id, PolicyForm(title, desc, deptId, file))
  {
    if editing.None? then None
    else match AddRequest(title, desc, deptId, file)
      case Failure(e) => Some(Failure(e))
      case Success(form) => Some(Success((editing.value.id, form)))
  }

  /** Adding and editing apply one title rule and send one form. */
  lemma AddAndEditAgree(p: Policy, title: string, desc: string, deptId: string, file: Option<string>)
    ensures AddRequest(title, desc, deptId, file).Success? <==> EditRequest(Some(p), title, desc, deptId, file).value.Success?
    ensures AddRequest(title, desc, deptId, file).Success? ==>
      EditRequest(Some(p), title, desc, deptId, file).value.value.1 == AddRequest(title, desc, deptId, file).value
  {
  }

  /**
   * The department `openEdit` selects: `p.department ?? p.department_detail?.id`,
   * as a string when truthy. A department id of 0 is not nullish, so it is
   * kept and then shown as no selection, even when the nested department has
   * an id.
   */
  function EditDepartment(p: Policy): (r: string)
    ensures p.department.Some? && p.department.value != 0 ==> r == NatToString(p.department.value)
    ensures p.department.None? && p.detail.Some? && p.detail.value.id != 0 ==> r == NatToString(p.detail.value.id)
    ensures p.department == Some(0) ==> r == []
    ensures p.department.None? && (p.detail.None? || p.detail.value.id == 0) ==> r == []
  {
    var d := if p.department.Some? then p.department.value
             else if p.detail.Some? then p.detail.value.id
             else 0;
    if d != 0 then NatToString(d) else ""
  }

  /** Reopening a policy and saving it unchanged sends its own department. */
  lemma EditResendsDepartment(p: Policy, k: nat)
    requires k != 0 && (p.department == Some(k) || (p.department.None? && p.detail.Some? && p.detail.value.id == k))
    ensures TextEntry("department", NatToString(k)) in PolicyForm(p.title, p.description.GetOr(""), EditDepartment(p), None)
  {
  }

  // ---------------------------------------------------------------------------
  // Table cells

  /** The Created cell: the first ten characters of `created_at`, or "-" when it is missing or empty. */
  function CreatedCell(createdAt: Option<string>): (r: string)
    ensures createdAt.None? || createdAt.value == [] ==> r == "-"
    ensures createdAt.Some? && |createdAt.value| >= 10 ==> r == createdAt.value[..10]
    ensures createdAt.Some? && 0 < |createdAt.value| < 10 ==> r == createdAt.value
  {
    if createdAt.None? || createdAt.value == [] then "-"
    else if |createdAt.value| >= 10 then createdAt.value[..10]
    else createdAt.value
  }

  /** The Department cell: the nested department's name, or "-". */
  function DepartmentCell(p: Policy): (r: string)
    ensures p.detail.Some? ==> r == p.detail.value.name
    ensures p.detail.None? ==> r == "-"
  {
    if p.detail.Some? then p.detail.value.name else "-"
  }

  // ---------------------------------------------------------------------------
  // Page state

  /**
   * The page's state. `deptId` is a single variable: the list's department
   * filter and the form's department select both read and write it.
   */
  class PoliciesState {
    var departments: seq<Dept>
    var policies: seq<Policy>
    var title: string
    var desc: string
    var deptId: string
    var file: Option<string>
    var editing: Option<Policy>
    var search: string
    var fromDate: string
    var toDate: string

    constructor ()
      ensures departments == [] && policies == []
      ensures title == [] && desc == [] && deptId == [] && file.None? && editing.None?
      ensures search == [] && fromDate == [] && toDate == []
    {
      departments := [];
      policies := [];
      title := [];
      desc := [];
      deptId := [];
      file := None;
      editing := None;
      search := [];
      fromDate := [];
      toDate := [];
    }

    /** The departments load: an array replaces the list; anything else, or a failure, empties it. */
    method LoadDepartments(response: Option<ListBody<Dept>>)
      modifies this
      ensures departments == ListOrEmpty(response)
      ensures policies == old(policies) && deptId == old(deptId) && editing == old(editing)
    {
      departments := ListOrEmpty(response);
    }

    /**
     * `loadPolicies`: the request carries the current filters; its array
     * replaces the list, and a failed request leaves the list empty.
     */
    method LoadPolicies(response: Option<ListBody<Policy>>) returns (params: seq<(string, string)>)
      modifies this
      ensures params == QueryParams(search, deptId, fromDate, toDate)
      ensures policies == ListOrEmpty(response)
      ensures departments == old(departments) && deptId == old(deptId) && editing == old(editing)
      ensures search == old(search) && fromDate == old(fromDate) && toDate == old(toDate)
    {
      params := QueryParams(search, deptId, fromDate, toDate);
      policies := ListOrEmpty(response);
    }

    /** Either department select sets the one shared selection. */
    method SelectDepartment(v: string)
      modifies this
      ensures deptId == v
      ensures title == old(title) && desc == old(desc) && file == old(file) && editing == old(editing)
      ensures search == old(search) && fromDate == old(fromDate) && toDate == old(toDate)
    {
      deptId := v;
    }

    /** `resetForm`: clears the title, the description, the department selection and the file. */
    method ResetForm()
      modifies this
      ensures title == [] && desc == [] && deptId == [] && file.None?
      ensures editing == old(editing) && departments == old(departments) && policies == old(policies)
      ensures search == old(search) && fromDate == old(fromDate) && toDate == old(toDate)
    {
      title := [];
      desc := [];
      deptId := [];
      file := None;
    }

    /** `openEdit`: the form takes the policy's title, description and department; the file is cleared. */
    method OpenEdit(p: Policy)
      modifies this
      ensures editing == Some(p) && title == p.title && desc == p.description.GetOr("")
      ensures deptId == EditDepartment(p) && file.None?
      ensures departments == old(departments) && policies == old(policies)
      ensures search == old(search) && fromDate == old(fromDate) && toDate == old(toDate)
    {
      editing := Some(p);
      title := p.title;
      desc := p.description.GetOr("");
      deptId := EditDepartment(p);
      file := None;
    }

    /** `handleAdd`: a successful post resets the form; a refused or failed one leaves it. */
    method Add(succeeded: bool) returns (sent: Result<seq<Entry>, string>)
      modifies this
      ensures sent == AddRequest(old(title), old(desc), old(deptId), old(file))
      ensures sent.Success? && succeeded ==> title == [] && desc == [] && deptId == [] && file.None?
      ensures sent.Failure? || !succeeded ==>
        title == old(title) && desc == old(desc) && deptId == old(deptId) && file == old(file)
      ensures editing == old(editing) && departments == old(departments) && policies == old(policies)
      ensures search == old(search) && fromDate == old(fromDate) && toDate == old(toDate)
    {
      sent := AddRequest(title, desc, deptId, file);
      if sent.Success? && succeeded {
        ResetForm();
      }
    }

    /** `handleEditSave`: a successful put ends editing and resets the form. */
    method EditSave(succeeded: bool) returns (sent: Option<Result<(nat, seq<Entry>), string>>)
      modifies this
      ensures sent == EditRequest(old(editing), old(title), old(desc), old(deptId), old(file))
      ensures sent.Some? && sent.value.Success? && succeeded ==>
        editing.None? && title == [] && desc == [] && deptId == [] && file.None?
      ensures !(sent.Some? && sent.value.Success? && succeeded) ==>
        editing == old(editing) && title == old(title) && desc == old(desc) && deptId == old(deptId) && file == old(file)
      ensures departments == old(departments) && policies == old(policies)
      ensures search == old(search) && fromDate == old(fromDate) && toDate == old(toDate)
    {
      sent := EditRequest(editing, title, desc, deptId, file);
      if sent.Some? && sent.value.Success? && succeeded {
        CloseForm();
      }
    }

    method CloseForm()
      modifies this
      ensures editing.None? && title == [] && desc == [] && deptId == [] && file.None?
      ensures departments == old(departments) && policies == old(policies)
      ensures search == old(search) && fromDate == old(fromDate) && toDate == old(toDate)
    {
      editing := None;
      ResetForm();
    }
  }

  /** After the form is reset, the next list request carries no department filter. */
  lemma ResetDropsDepartmentFilter(search: string, fromDate: string, toDate: string)
    ensures Lookup(QueryParams(search, [], fromDate, toDate), "department").None?
  {
    QueryParamsSendNonEmpty(search, [], fromDate, toDate);
  }
}
