/**
 * frontend/src/feature-module/mainMenu/employeeDashboard/designations.tsx:
 * the designation list with its search, the add and edit payloads (which
 * send `department_id`), and the form state behind them.
 */
module DesignationsPage {
  import opened Wrappers
  import Seqs
  import opened Text

  /** `department_detail`: the nested department the list endpoint returns. */
  datatype DeptDetail = DeptDetail(id: nat, name: string)

  /** A listed designation as the page receives it. */
  datatype DesignationItem = DesignationItem(
    id: nat,
    title: string,
    description: Option<string>,
    department: Option<nat>,
    detail: Option<DeptDetail>)

  /** The search box's query: trimmed and lower-cased. */
  function Query(search: string): string {
    Lower(Trim(search))
  }

  /** The department name shown for a designation: `department_detail?.name || ""`. */
  function DetailName(d: DesignationItem): string {
    if d.detail.Some? then d.detail.value.name else ""
  }

  /** The title, the description or the department name contains the query, ignoring case. */
  predicate SearchKeeps(query: string, d: DesignationItem) {
    Contains(Lower(d.title), query)
    || Contains(Lower(d.description.GetOr("")), query)
    || Contains(Lower(DetailName(d)), query)
  }

  function SearchFilter(query: string): DesignationItem -> bool {
    (d: DesignationItem) => SearchKeeps(query, d)
  }

  /** `processed`: the matching designations in their original order. */
  function Processed(items: seq<DesignationItem>, search: string): (r: seq<DesignationItem>)
    ensures |r| <= |items|
  {
    Seqs.Filter(items, SearchFilter(Query(search)))
  }

  /** Exactly the matching designations are kept, in their original relative order. */
  lemma ProcessedKeepsMatches(items: seq<DesignationItem>, search: string)
    ensures forall d :: d in Processed(items, search) <==> d in items && SearchKeeps(Query(search), d)
    ensures Seqs.Subsequence(Processed(items, search), items)
  {
    Seqs.FilterContains(items, SearchFilter(Query(search)));
    Seqs.FilterIsSubsequence(items, SearchFilter(Query(search)));
  }

  /** A blank search keeps every designation. */
  lemma BlankSearchKeepsAll(items: seq<DesignationItem>, search: string)
    requires IsBlank(search)
    ensures Processed(items, search) == items
  {
    TrimEmptyIffBlank(search);
    forall i | 0 <= i < |items| ensures SearchFilter(Query(search))(items[i]) {
      ContainsEmpty(Lower(items[i].title));
    }
    Seqs.FilterKeepsAll(items, SearchFilter(Query(search)));
  }

  // ---------------------------------------------------------------------------
  // Payloads

  /**
   * `deptInput ? Number(deptInput) : null`: nothing for an empty selection,
   * the number for a decimal numeral, and null (the JSON form of NaN) for
   * anything else.
   */
  function DepartmentId(deptInput: string): (r: Option<nat>)
    ensures deptInput == [] ==> r.None?
    ensures r.Some? ==> forall i :: 0 <= i < |deptInput| ==> IsDigit(deptInput[i])
  {
    if deptInput == [] then None else ParseNat(deptInput)
  }

  lemma DepartmentIdReadsNumeral(k: nat)
    ensures DepartmentId(NatToString(k)) == Some(k)
  {
    ParseNatToString(k);
  }

  datatype DesignationPayload = DesignationPayload(title: string, description: string, departmentId: Option<nat>)

  const TitleRequired: string := "Title is required"

  /** The body both requests send: trimmed title and description, and the department id. */
  function Payload(titleInput: string, descInput: string, deptInput: string): (r: DesignationPayload)
    ensures r.title == Trim(titleInput) && r.description == Trim(descInput)
    ensures r.departmentId == DepartmentId(deptInput)
  {
    DesignationPayload(Trim(titleInput), Trim(descInput), DepartmentId(deptInput))
  }

  /** `handleAdd`: a blank title is refused; anything else is sent. */
  function AddPayload(titleInput: string, descInput: string, deptInput: string): (r: Result<DesignationPayload, string>)
    ensures r.Failure? <==> IsBlank(titleInput)
    ensures r.Failure? ==> r.error == TitleRequired
    ensures r.Success? ==> r.value == Payload(titleInput, descInput, deptInput) && r.value.title != []
  {
    TrimEmptyIffBlank(titleInput);
    if Trim(titleInput) == [] then Failure(TitleRequired) else Success(Payload(titleInput, descInput, deptInput))
  }

  /** `handleEditSubmit`: nothing without a designation being edited, and no blank-title check. */
  function EditPayload(editing: Option<DesignationItem>, titleInput: string, descInput: string, deptInput: string)
    : (r: Option<(nat, DesignationPayload)>)
    ensures r.None? <==> editing.None?
    ensures r.Some? ==> r.value == (editing.value.id, Payload(titleInput, descInput, deptInput))
  {
    if editing.None? then None else Some((editing.value.id, Payload(titleInput, descInput, deptInput)))
  }

  /** A blank title goes out on edit although adding refuses it. */
  lemma EditSkipsBlankCheck(d: DesignationItem, titleInput: string, descInput: string, deptInput: string)
    requires IsBlank(titleInput)
    ensures AddPayload(titleInput, descInput, deptInput).Failure?
    ensures EditPayload(Some(d), titleInput, descInput, deptInput).value.1.title == []
  {
    TrimEmptyIffBlank(titleInput);
  }

  /**
   * The department selection `openEdit` fills in:
   * `String(d.department || d.department_detail?.id || "")`, where an id of 0
   * counts as missing.
   */
  function EditDepartment(d: DesignationItem): (r: string)
    ensures d.department.Some? && d.department.value != 0 ==> r == NatToString(d.department.value)
    ensures (d.department.None? || d.department.value == 0) && d.detail.Some? && d.detail.value.id != 0
            ==> r == NatToString(d.detail.value.id)
    ensures (d.department.None? || d.department.value == 0) && (d.detail.None? || d.detail.value.id == 0) ==> r == []
  {
    if d.department.Some? && d.department.value != 0 then NatToString(d.department.value)
    else if d.detail.Some? && d.detail.value.id != 0 then NatToString(d.detail.value.id)
    else ""
  }

  /**
   * Opening a designation for edit and saving it unchanged sends back its own
   * department (or the nested one's), except for an id of 0, which becomes null.
   */
  lemma EditKeepsDepartment(d: DesignationItem)
    ensures d.department.Some? && d.department.value != 0 ==> DepartmentId(EditDepartment(d)) == d.department
    ensures d.department.None? && d.detail.Some? && d.detail.value.id != 0 ==>
      DepartmentId(EditDepartment(d)) == Some(d.detail.value.id)
    ensures d.department == Some(0) && d.detail.None? ==> DepartmentId(EditDepartment(d)).None?
  {
    if d.department.Some? && d.department.value != 0 {
      DepartmentIdReadsNumeral(d.department.value);
    } else if d.detail.Some? && d.detail.value.id != 0 {
      DepartmentIdReadsNumeral(d.detail.value.id);
    }
  }

  // ---------------------------------------------------------------------------
  // Page state

  /** The page's state: the fetched lists, the three inputs and the designation being edited. */
  class DesignationsState {
    var designations: seq<DesignationItem>
    var departments: seq<DeptDetail>
    var titleInput: string
    var descInput: string
    var deptInput: string
    var editing: Option<DesignationItem>

    constructor ()
      ensures designations == [] && departments == []
      ensures titleInput == [] && descInput == [] && deptInput == [] && editing.None?
    {
      designations := [];
      departments := [];
      titleInput := [];
      descInput := [];
      deptInput := [];
      editing := None;
    }

    /** `loadAll`: both lists are replaced together; a failed request leaves them as they were. */
    method LoadAll(response: Option<(seq<DesignationItem>, seq<DeptDetail>)>)
      modifies this
      ensures response.Some? ==> designations == response.value.0 && departments == response.value.1
      ensures response.None? ==> designations == old(designations) && departments == old(departments)
      ensures titleInput == old(titleInput) && descInput == old(descInput) && deptInput == old(deptInput)
      ensures editing == old(editing)
    {
      if response.Some? {
        designations := response.value.0;
        departments := response.value.1;
      }
    }

    /** `resetForm`: clears the title, the description and the department. */
    method ResetForm()
      modifies this
      ensures titleInput == [] && descInput == [] && deptInput == []
      ensures designations == old(designations) && departments == old(departments) && editing == old(editing)
    {
      titleInput := [];
      descInput := [];
      deptInput := [];
    }

    /** `openEdit`: the inputs take the designation's title, description or "", and department. */
    method OpenEdit(d: DesignationItem)
      modifies this
      ensures editing == Some(d) && titleInput == d.title && descInput == d.description.GetOr("")
      ensures deptInput == EditDepartment(d)
      ensures designations == old(designations) && departments == old(departments)
    {
      editing := Some(d);
      titleInput := d.title;
      descInput := d.description.GetOr("");
      deptInput := EditDepartment(d);
    }

    /** `handleAdd`: sends a valid payload; a successful request resets the form. */
    method Add(succeeded: bool) returns (sent: Result<DesignationPayload, string>)
      modifies this
      ensures sent == AddPayload(old(titleInput), old(descInput), old(deptInput))
      ensures sent.Success? && succeeded ==> titleInput == [] && descInput == [] && deptInput == []
      ensures sent.Failure? || !succeeded ==>
        titleInput == old(titleInput) && descInput == old(descInput) && deptInput == old(deptInput)
      ensures designations == old(designations) && departments == old(departments) && editing == old(editing)
    {
      sent := AddPayload(titleInput, descInput, deptInput);
      if sent.Success? && succeeded {
        ResetForm();
      }
    }

    /** `handleEditSubmit`: sends the edit; a successful request resets the form and ends editing. */
    method EditSubmit(succeeded: bool) returns (sent: Option<(nat, DesignationPayload)>)
      modifies this
      ensures sent == EditPayload(old(editing), old(titleInput), old(descInput), old(deptInput))
      ensures sent.Some? && succeeded ==> titleInput == [] && descInput == [] && deptInput == [] && editing.None?
      ensures sent.None? || !succeeded ==>
        titleInput == old(titleInput) && descInput == old(descInput) && deptInput == old(deptInput)
        && editing == old(editing)
      ensures designations == old(designations) && departments == old(departments)
    {
      sent := EditPayload(editing, titleInput, descInput, deptInput);
      if sent.Some? && succeeded {
        CloseForm();
      }
    }

    method CloseForm()
      modifies this
      ensures titleInput == [] && descInput == [] && deptInput == [] && editing.None?
      ensures designations == old(designations) && departments == old(departments)
    {
      ResetForm();
      editing := None;
    }
  }
}
