# HRMS hospital console — a verified model of its core logic

This project models the decision-making core of an HRMS for a hospital.
The system has two halves:

- a Django REST backend (employees, departments, designations, salary
  components and payrolls);
- a React console (route guards, directory pages, the employee form, the
  policy page and the payroll screens).

Each core file of the source has one Dafny module:

| module | source file | what it covers |
|---|---|---|
| `PayrollModels` | backend/payroll/models.py | component types, payroll defaults, the payroll table and its CASCADE on employee delete |
| `PayrollSerializer` | backend/payroll/serializers.py | the duplicate guard and `create`, with gross, deductions and net over the attached components |
| `PayrollViews` | backend/payroll/views.py | component order, the filtered newest-first payroll list, save → `calculate()` → save |
| `EmployeeModels` | backend/employees/models.py | choices, defaults, unique columns, ordering, `__str__`, and the SET_NULL rules |
| `EmployeeViews` | backend/employees/views.py | the employee query filters, `birthdays`, `upcoming_birthdays`, `new_hires`, `count`, `department_counts` |
| `Auth` | frontend/src/core/auth/auth.ts | the one-key token store and `decodeJwt` (section 3 of RFC 7519, section 5 of RFC 4648) |
| `ProtectedRoute` | frontend/src/core/auth/ProtectedRoute.tsx | the token-presence guard |
| `RoleRoute` | frontend/src/core/auth/RoleRoute.tsx | the `checked`/`allowed` guard and its render step |
| `DepartmentsPage` | …/employeeDashboard/departments.tsx | `processed`, the payloads, the form state and the count display |
| `DesignationsPage` | …/employeeDashboard/designations.tsx | `processed`, `department_id` shaping, `openEdit` and `resetForm` |
| `EmployeeBrowse` | employee-list.tsx and employee-grid.tsx | the selections, response normalisation and paging both screens share |
| `EmployeeListPage` | …/employeeDashboard/employee-list.tsx | totals, `filtered`, the pager, the CSV export, `avatarSrc` |
| `EmployeeGridPage` | …/employeeDashboard/employee-grid.tsx | the smart search and sorts, the page-reset effect, the load, `avatarSrc` |
| `EmployeeAddPage` | …/employeeDashboard/employee-add.tsx | the 11 × 6 permission matrix, the loaded form, the multipart payload and PUT/POST choice |
| `PoliciesPage` | …/employeeDashboard/policies.tsx | query parameters, add/edit checks and payload, and the shared department selection |
| `AddPayrollPage` | …/mainMenu/payroll/AddPayroll.jsx | the component toggle, `updateForm`, the initial form, the month options |
| `EmployeePayrollForm` | …/accounts/employee-payroll/EmployeePayrollForm.jsx | employee normalisation and label, `loadData`, the month select, the submit request |
| `ViewPayrollPage` | …/mainMenu/payroll/ViewPayroll.jsx | the earnings/deductions split and the loading and not-found screens |

Shared helpers live in `Wrappers` (Option, Result), `Text` (trim,
ASCII lower-case, substring, decimal numerals, what a collation must satisfy),
`Seqs` (filter, count, subsequence, an insertion sort that stands for
`Array.prototype.sort`) and `Dates` (a proleptic Gregorian calendar with day
arithmetic and `date.replace(year=...)`).

Modelling conventions:

- Money (`DecimalField(decimal_places=2)`) is held as whole cents.
- Each HTTP response is an `Option` parameter. `None` means the request failed.
- The foreign primitives are parameters:
  - "today" and the current year;
  - the JavaScript date parser;
  - `atob` with `JSON.parse`;
  - the undefined `payroll.calculate()`.
- Database tables, the browser's `localStorage` and each page's React state are classes. Their methods state the whole new state.
- Every list filter is proved to keep exactly the matching rows, in their original order.
- Every sort is proved to return a permutation in comparator order.
- A string order (`localeCompare`, the database's `ORDER BY name`) is a
  parameter `collate`. The proofs require only that it is a collation
  (`Text.IsCollation`: total and transitive). `Text.CodePointOrder` is one
  such order.
- The departments page's count lookup is a parameter too. `EmpCountById`
  is the lookup as written; `EmpCount` is the corrected one (finding (c)).

Facts about the source that shape the model:

- `SalaryComponent` has a flat `amount` and no percentage kind (backend/payroll/models.py:11-13).
- `department_counts` keys its answer by department name (backend/employees/views.py:100-106). The departments page does no counting of its own.
- `EmployeePayroll.month` is a plain `IntegerField`; the 1–12 range is only a comment (backend/payroll/models.py:22).
- The role guard does not always fail closed. See finding (b).

## Model

| member | source | states |
|---|---|---|
| PayrollModels.ParseComponentType | backend/payroll/models.py:6-12 | a component type is accepted exactly when it is "earning" or "deduction", and the accepted value stores back as the same code |
| PayrollModels.ComponentLabel | backend/payroll/models.py:15-16 | the label is the name, then " (", then the type code, then ")" |
| PayrollModels.NewPayroll | backend/payroll/models.py:25-33 | a new payroll has basic, HRA, gross, deductions and net at 0 and no components, with the given employee, month and year |
| PayrollModels.FilterKeepsIdsBelow | backend/payroll/models.py:21 | deleting rows never brings back a primary key at or above the next id |
| PayrollModels.AppendFreshKeepsInjective | backend/payroll/models.py:20 | a row added under the auto id, above every existing key, keeps the primary keys distinct |
| PayrollModels.PayrollTable.constructor | backend/payroll/models.py:20-35 | the table starts empty, with next id 1 |
| PayrollModels.PayrollTable.DeleteEmployeePayrolls | backend/payroll/models.py:21 | CASCADE removes exactly the payrolls of the deleted employee and keeps the others in order; the primary keys stay distinct and below the counter |
| PayrollModels.PayrollTable.Insert | backend/payroll/models.py:20-35 | an insert appends the row under the next id and advances the counter; the primary keys stay distinct |
| PayrollModels.PayrollTable.Replace | backend/payroll/models.py:20-35 | saving an existing row replaces it in place and keeps its key |
| PayrollSerializer.HasPayrollFor | backend/payroll/serializers.py:45 | the existence query is true exactly when some row has the same employee, month and year |
| PayrollSerializer.Validate | backend/payroll/serializers.py:36-48 | validation fails exactly on create with an existing (employee, month, year) payroll, with the duplicate message; otherwise it returns its input unchanged, so updates skip the check |
| PayrollSerializer.SetSumRemove | backend/payroll/serializers.py:61-62 | a per-type sum over a component set splits into one member plus the rest, so the order of visiting does not matter |
| PayrollSerializer.SetSumUnion | backend/payroll/serializers.py:61-62 | per-type sums over disjoint component sets add up |
| PayrollSerializer.SumAmounts | backend/payroll/serializers.py:61-62 | the summing loop yields the sum of the amounts of the attached components of the requested type, each component once |
| PayrollSerializer.ComponentSet | backend/payroll/serializers.py:57-58 | the attached set holds exactly the requested ids, duplicates collapsed |
| PayrollSerializer.AddComponent | backend/payroll/serializers.py:61-68 | one more earning raises gross and net by its amount; one more deduction raises deductions and lowers net by its amount and leaves gross alone |
| PayrollSerializer.CreatedRow | backend/payroll/serializers.py:50-71 | the row create saves: the new key and the current time, the request's employee, month, year, basic salary and HRA, the requested component set, gross = basic + HRA + earnings, deductions = the sum of the deduction amounts, net = gross − deductions |
| PayrollSerializer.Create | backend/payroll/serializers.py:50-71 | create appends exactly one row, `CreatedRow` under the next key, and keeps the table valid. Gross is basic + HRA + earnings, deductions is the sum of the deduction amounts, and net = gross − deductions. With no components, gross = basic + HRA, deductions = 0 and net = gross |
| PayrollViews.ListComponents | backend/payroll/views.py:14 | the component list is a permutation of all components, ordered by name under the database collation `collate` |
| PayrollViews.ListComponentsSorted | backend/payroll/views.py:14 | under any collation, the component list is in name order, pairwise |
| PayrollViews.BaseQueryset | backend/payroll/views.py:20 | the base payroll list is a permutation of all payrolls |
| PayrollViews.BaseQuerysetNewestFirst | backend/payroll/views.py:20 | the base list is newest created first |
| PayrollViews.GetQueryset | backend/payroll/views.py:24-37 | successive narrowing by each present parameter equals one filter of the ordered base by all present conditions |
| PayrollViews.NoQueryIsEverything | backend/payroll/views.py:24-37 | without parameters the list is every payroll, newest first |
| PayrollViews.QuerysetIsOrderedSelection | backend/payroll/views.py:25-37 | the filtered list is a subsequence of the ordered base and holds exactly the matching payrolls |
| PayrollViews.FindById | backend/payroll/views.py:51 | the lookup finds a row with that primary key, or reports that none exists |
| PayrollViews.FindByIdUnique | backend/payroll/views.py:51 | with distinct primary keys, `get_object()` finds the one row carrying that key |
| PayrollViews.CalculateAndSave | backend/payroll/views.py:52-53 | row i becomes `calculate` of itself under its own key; nothing else changes |
| PayrollViews.PerformCreate | backend/payroll/views.py:39-42 | create appends exactly one row: the serializer's `CreatedRow` under the next key, then calculated, then saved under that key |
| PayrollSerializer.ApplyUpdate | backend/payroll/serializers.py:14-34 | the inherited update writes each field the request carries, replaces the component set only when the request carries `components`, and keeps every other field, the key and the creation time |
| PayrollSerializer.EmptyUpdateKeepsRow | backend/payroll/serializers.py:14-34 | an update that carries no field leaves the row unchanged |
| PayrollSerializer.UpdateIdempotent | backend/payroll/serializers.py:14-34 | applying an update twice is applying it once; an update carrying the row's own values gives the row back |
| PayrollViews.PerformUpdate | backend/payroll/views.py:44-47 | a full update lacking employee, month or year is refused and changes nothing; otherwise row i becomes `calculate` of `ApplyUpdate` of it, under its own key, and nothing else changes |
| PayrollViews.FoundInQueryset | backend/payroll/views.py:24-51 | with distinct keys, `get_object()` on the filtered queryset finds the key exactly when the table holds it and that row matches the employee, month and year parameters, and then finds that very row |
| PayrollViews.Recalculate | backend/payroll/views.py:24-55 | a key that is missing or whose row does not match the query parameters answers not found and changes nothing; otherwise only that row changes, to `calculate` of it under its own key |
| EmployeeModels.ParseRole | backend/employees/models.py:22-31 | exactly the eight role codes are accepted, each to its own role |
| EmployeeModels.ParseEmploymentType | backend/employees/models.py:33-38 | exactly the four employment type codes are accepted |
| EmployeeModels.ParseMaritalStatus | backend/employees/models.py:40-45 | exactly the four marital status codes are accepted |
| EmployeeModels.NewEmployee | backend/employees/models.py:47-94 | a new employee has role Other, Full-Time, Single and is active, with blank last name and null optional fields |
| EmployeeModels.EmployeeLabel | backend/employees/models.py:99-100 | the label is the first name, a space, the last name (empty when blank), then " (code)" |
| EmployeeModels.Ordered | backend/employees/models.py:96-97 | the default ordering is a permutation of the table |
| EmployeeModels.OrderedNewestFirst | backend/employees/models.py:96-97 | the default ordering is newest created first |
| EmployeeModels.ClearRef | backend/employees/models.py:67-71 | clearing one reference nulls it and keeps every other field and reference |
| EmployeeModels.Directory.constructor | backend/employees/models.py:5-21 | the three tables start empty |
| EmployeeModels.Directory.AddDepartment | backend/employees/models.py:6 | an insert succeeds exactly when the department name is unused; on failure nothing changes |
| EmployeeModels.Directory.AddDesignation | backend/employees/models.py:14 | an insert succeeds exactly when the designation title is unused |
| EmployeeModels.Directory.AddEmployee | backend/employees/models.py:48-56 | an insert succeeds exactly when both emp_code and email are unused |
| EmployeeModels.Directory.ClearReferences | backend/employees/models.py:67-71 | SET_NULL nulls the reference on exactly the employees that pointed at the deleted row; nothing else changes |
| EmployeeModels.Directory.DeleteDepartment | backend/employees/models.py:67 | the department row goes and its employees lose their department |
| EmployeeModels.Directory.DeleteDesignation | backend/employees/models.py:68 | the designation row goes and its employees lose their designation |
| EmployeeModels.Directory.DeleteEmployee | backend/employees/models.py:71 | the employee goes, its subordinates lose `reporting_to`, and exactly its payrolls are deleted |
| EmployeeViews.OrderedFilterContains | backend/employees/views.py:29-47 | a filter of the ordered table holds exactly the passing rows of the table |
| EmployeeViews.StatusWanted | backend/employees/views.py:40-43 | "true" or "1" selects active, "false" or "0" selects inactive, and anything else applies no status filter |
| EmployeeViews.DepartmentNarrows | backend/employees/views.py:36-37 | adding the department parameter narrows the result by the department condition |
| EmployeeViews.DesignationNarrows | backend/employees/views.py:38-39 | adding the designation parameter narrows by the designation condition |
| EmployeeViews.ActiveNarrows | backend/employees/views.py:40-43 | adding a recognised `active` value narrows by that status |
| EmployeeViews.TypeNarrows | backend/employees/views.py:44-45 | adding employment_type narrows by that type |
| EmployeeViews.GetQueryset | backend/employees/views.py:28-47 | the queryset is one filter of the ordered table by all present conditions |
| EmployeeViews.ApplyFilters | backend/employees/views.py:36-45 | the successive `qs = qs.filter(...)` steps equal one conjunctive filter |
| EmployeeViews.StatusFilter | backend/employees/views.py:40-43 | the status filter keeps exactly the active or the inactive employees, or all of them for any other value |
| EmployeeViews.FiltersConjoin | backend/employees/views.py:31-47 | department, designation and type together keep exactly the employees meeting all three |
| EmployeeViews.EmployeeCounts | backend/employees/views.py:86-97 | the total is the table size, and active + inactive = total |
| EmployeeViews.DepartmentCounts | backend/employees/views.py:99-106 | one entry per department, keyed by name, valued by the number of employees referencing it |
| EmployeeViews.DeptIds | backend/employees/views.py:103 | the id set holds exactly the listed departments' ids |
| EmployeeViews.CountsCoverEachEmployeeOnce | backend/employees/views.py:102-104 | the counts add up to the employees whose department is listed; employees without a department count nowhere |
| EmployeeViews.Birthdays | backend/employees/views.py:52-66 | the request fails exactly when some 29 February birthday cannot move into the current year. Otherwise it lists the employees with a birth date whose birthday this year lies in [today, today + 7], in default order |
| EmployeeViews.ClashAmongCandidates | backend/employees/views.py:59-60 | a leap-day clash in the table is a clash among the employees with a birth date |
| EmployeeViews.CollectBirthdays | backend/employees/views.py:58-63 | the loop fails on a leap-day clash and otherwise keeps exactly the candidates in the window, in order |
| EmployeeViews.YearEndBirthdayMissed | backend/employees/views.py:55-63 | as written, on 28 December 2025 a 2 January birthday five days ahead is not listed |
| EmployeeViews.UpcomingWeekComplete | backend/employees/views.py:54-63 | the corrected window lists every employee whose birth month and day fall on one of the next seven days, across the new year |
| EmployeeViews.UpcomingBirthdaysMembers | backend/employees/views.py:68-75 | `upcoming_birthdays` holds exactly the employees born in the current month |
| EmployeeViews.NewHiresMembers | backend/employees/views.py:77-84 | `new_hires` holds exactly the employees who joined on or after today − 30 days |
| Auth.TokenStore.constructor | frontend/src/core/auth/auth.ts:4-14 | the store starts with the given storage |
| Auth.TokenStore.SaveToken | frontend/src/core/auth/auth.ts:4-6 | saving writes only the "token" key |
| Auth.TokenStore.GetToken | frontend/src/core/auth/auth.ts:8-10 | reading returns the stored token, or null |
| Auth.TokenStore.RemoveToken | frontend/src/core/auth/auth.ts:12-14 | removing deletes only the "token" key |
| Auth.TokenStoreRoundTrip | frontend/src/core/auth/auth.ts:4-14 | save then read gives the token, and remove then read gives null; every other key is untouched |
| Auth.Pad | frontend/src/core/auth/auth.ts:27 | the padded length is a multiple of 4; an aligned payload is unchanged; otherwise fewer than four '=' are appended |
| Auth.PadIdempotent | frontend/src/core/auth/auth.ts:27 | padding twice is padding once |
| Auth.UrlToStd | frontend/src/core/auth/auth.ts:28 | the translation keeps the length, maps '-' to '+' and '_' to '/', and leaves no '-' or '_' |
| Auth.StdToUrl | frontend/src/core/auth/auth.ts:28 | the inverse alphabet mapping, character by character |
| Auth.UrlToStdRoundTrip | frontend/src/core/auth/auth.ts:28 | a base64url string survives the translation and its inverse |
| Auth.PayloadSegment | frontend/src/core/auth/auth.ts:23-25 | there is a second segment exactly when the token has a '.'; the segment has no '.' |
| Auth.DecodeJwt | frontend/src/core/auth/auth.ts:20-33 | a null or empty token, or one without a second segment, decodes to null; otherwise the result is the parse of the padded, translated payload, and a failed parse is null |
| Auth.OnlyPayloadMatters | frontend/src/core/auth/auth.ts:23-29 | tokens that differ only in header or signature decode alike |
| Auth.SegmentOf | frontend/src/core/auth/auth.ts:23-25 | the payload segment of "h.p.s" is p |
| ProtectedRoute.Guard | frontend/src/core/auth/ProtectedRoute.tsx:11-18 | children are shown exactly for a non-empty token; otherwise the guard redirects to the login path |
| ProtectedRoute.TokenContentsIgnored | frontend/src/core/auth/ProtectedRoute.tsx:12-17 | any two non-empty tokens, however malformed, are let through alike |
| RoleRoute.ProfileRole | frontend/src/core/auth/RoleRoute.tsx:59 | the profile role is role, else user_type, else "admin" for staff, else "employee", else none |
| RoleRoute.ProfileDecision | frontend/src/core/auth/RoleRoute.tsx:55-69 | a failed fetch keeps `allowed`; a listed role grants; staff or superuser grant when admin or hr is allowed; a grant from false needs a profile |
| RoleRoute.Decision | frontend/src/core/auth/RoleRoute.tsx:26-72 | no token never allows; granting claims allow; otherwise the profile decision applies |
| RoleRoute.RoleGuard.constructor | frontend/src/core/auth/RoleRoute.tsx:22-23 | the guard starts unchecked and not allowed |
| RoleRoute.RoleGuard.Check | frontend/src/core/auth/RoleRoute.tsx:25-72 | after `check` the guard is checked; the profile is fetched exactly when the token's claims do not grant; `allowed` is the decision from its previous value |
| RoleRoute.RoleGuard.CheckFromClosed | frontend/src/core/auth/RoleRoute.tsx:67-72 | the corrected check starts from "not allowed", so a failed fetch cannot inherit an earlier grant |
| RoleRoute.FailsClosedFromStart | frontend/src/core/auth/RoleRoute.tsx:67-69 | from "not allowed", a failed fetch allows exactly when the claims themselves grant |
| RoleRoute.StaleAllowSurvivesFailedFetch | frontend/src/core/auth/RoleRoute.tsx:67-69 | as written, a rerun whose fetch fails keeps an earlier `true` for a token that grants nothing |
| RoleRoute.Render | frontend/src/core/auth/RoleRoute.tsx:77-84 | nothing until checked; then login without a token, forbidden when not allowed, else the children |
| DepartmentsPage.BlankSearchKeepsAll | frontend/src/feature-module/mainMenu/employeeDashboard/departments.tsx:118-123 | a blank search keeps every department |
| DepartmentsPage.IdLookupShowsZero | frontend/src/feature-module/mainMenu/employeeDashboard/departments.tsx:126-129 | as written, with name-keyed counts and no numeral names, every department shows 0 |
| DepartmentsPage.NameLookupShowsCount | frontend/src/feature-module/mainMenu/employeeDashboard/departments.tsx:126-129 | looked up by name, each shown count is the number of employees in that department |
| DepartmentsPage.Annotate | frontend/src/feature-module/mainMenu/employeeDashboard/departments.tsx:126-129 | each kept department, in order, gets the count that `lookup` reads for it (`EmpCountById` is `counts[d.id] ?? 0` as written) |
| DepartmentsPage.Processed | frontend/src/feature-module/mainMenu/employeeDashboard/departments.tsx:117-143 | the rows are a permutation of the matching departments annotated with the looked-up counts |
| DepartmentsPage.RowOrderIsOrder | frontend/src/feature-module/mainMenu/employeeDashboard/departments.tsx:132-140 | under any collation for `localeCompare`, the name and count comparators, ascending or descending, are total and transitive |
| DepartmentsPage.ProcessedIsSortedSelection | frontend/src/feature-module/mainMenu/employeeDashboard/departments.tsx:117-143 | the rows are exactly the matching departments, each with its looked-up count, in comparator order |
| DepartmentsPage.ProcessedAsWrittenShowsZero | frontend/src/feature-module/mainMenu/employeeDashboard/departments.tsx:126-129 | the page as written, fed by `department_counts`, shows 0 employees on every row |
| DepartmentsPage.AddPayload | frontend/src/feature-module/mainMenu/employeeDashboard/departments.tsx:61-67 | add refuses exactly a blank name; otherwise it sends the trimmed name and description |
| DepartmentsPage.EditPayload | frontend/src/feature-module/mainMenu/employeeDashboard/departments.tsx:98-104 | edit sends nothing without a department being edited; otherwise it sends that id with the trimmed fields |
| DepartmentsPage.EditSkipsBlankCheck | frontend/src/feature-module/mainMenu/employeeDashboard/departments.tsx:96-104 | a blank name that add refuses still goes out on edit |
| DepartmentsPage.StatusLabel | frontend/src/feature-module/mainMenu/employeeDashboard/departments.tsx:236 | "Active" exactly when the count is positive, else "Inactive" |
| DepartmentsPage.CountText | frontend/src/feature-module/mainMenu/employeeDashboard/departments.tsx:231 | the padded count has at least two characters and is the plain numeral from 10 up |
| DepartmentsPage.CountTextReadsBack | frontend/src/feature-module/mainMenu/employeeDashboard/departments.tsx:231 | the padded count still reads as the count |
| DepartmentsPage.DepartmentsState.constructor | frontend/src/feature-module/mainMenu/employeeDashboard/departments.tsx:37-53 | the page starts with empty lists, empty inputs and no edit |
| DepartmentsPage.DepartmentsState.LoadAll | frontend/src/feature-module/mainMenu/employeeDashboard/departments.tsx:37-53 | a failed department request empties both lists; a failed count request alone empties the counts, so every count shows 0 by either lookup |
| DepartmentsPage.DepartmentsState.OpenEdit | frontend/src/feature-module/mainMenu/employeeDashboard/departments.tsx:89-94 | the inputs take the department's name and description (or "") |
| DepartmentsPage.DepartmentsState.EditSubmit | frontend/src/feature-module/mainMenu/employeeDashboard/departments.tsx:96-114 | the edit payload is sent; on success the inputs and the edit state are cleared; otherwise nothing changes |
| DepartmentsPage.DepartmentsState.CloseForm | frontend/src/feature-module/mainMenu/employeeDashboard/departments.tsx:105-108 | both inputs are emptied and editing ends |
| DepartmentsPage.DepartmentsState.Add | frontend/src/feature-module/mainMenu/employeeDashboard/departments.tsx:59-76 | a valid payload is sent; on success both inputs are cleared; otherwise they stay |
| DepartmentsPage.DepartmentsState.ClearInputs | frontend/src/feature-module/mainMenu/employeeDashboard/departments.tsx:68-69 | both inputs are emptied |
| DesignationsPage.Processed | frontend/src/feature-module/mainMenu/employeeDashboard/designations.tsx:66-74 | the filter never adds rows |
| DesignationsPage.ProcessedKeepsMatches | frontend/src/feature-module/mainMenu/employeeDashboard/designations.tsx:66-74 | exactly the designations whose title, description or department name contains the query are kept, in order |
| DesignationsPage.BlankSearchKeepsAll | frontend/src/feature-module/mainMenu/employeeDashboard/designations.tsx:67-73 | a blank search keeps every designation |
| DesignationsPage.DepartmentId | frontend/src/feature-module/mainMenu/employeeDashboard/designations.tsx:92 | no selection sends null; a number is sent only for a decimal numeral |
| DesignationsPage.DepartmentIdReadsNumeral | frontend/src/feature-module/mainMenu/employeeDashboard/designations.tsx:92 | the numeral of an id reads back as that id |
| DesignationsPage.Payload | frontend/src/feature-module/mainMenu/employeeDashboard/designations.tsx:89-93 | both requests send the trimmed title and description and the department id |
| DesignationsPage.AddPayload | frontend/src/feature-module/mainMenu/employeeDashboard/designations.tsx:84-93 | add refuses exactly a blank title; otherwise it sends the payload |
| DesignationsPage.EditPayload | frontend/src/feature-module/mainMenu/employeeDashboard/designations.tsx:114-123 | edit sends nothing without a designation being edited; otherwise it sends that id and the payload |
| DesignationsPage.EditSkipsBlankCheck | frontend/src/feature-module/mainMenu/employeeDashboard/designations.tsx:114-123 | a blank title that add refuses goes out on edit |
| DesignationsPage.EditDepartment | frontend/src/feature-module/mainMenu/employeeDashboard/designations.tsx:109 | the selection is the department, else the nested department's id, else ""; an id of 0 falls through |
| DesignationsPage.EditKeepsDepartment | frontend/src/feature-module/mainMenu/employeeDashboard/designations.tsx:109-122 | reopening and saving sends the same department back, except that an id of 0 becomes null |
| DesignationsPage.DesignationsState.constructor | frontend/src/feature-module/mainMenu/employeeDashboard/designations.tsx:45-59 | the page starts with empty lists and inputs and no edit |
| DesignationsPage.DesignationsState.LoadAll | frontend/src/feature-module/mainMenu/employeeDashboard/designations.tsx:45-59 | both lists are replaced together; a failure keeps them |
| DesignationsPage.DesignationsState.ResetForm | frontend/src/feature-module/mainMenu/employeeDashboard/designations.tsx:77-81 | title, description and department are cleared; nothing else changes |
| DesignationsPage.DesignationsState.OpenEdit | frontend/src/feature-module/mainMenu/employeeDashboard/designations.tsx:105-111 | the inputs take the title, the description (or "") and the department selection |
| DesignationsPage.DesignationsState.Add | frontend/src/feature-module/mainMenu/employeeDashboard/designations.tsx:84-102 | the add payload is sent; on success the form is reset; otherwise it stays |
| DesignationsPage.DesignationsState.EditSubmit | frontend/src/feature-module/mainMenu/employeeDashboard/designations.tsx:114-133 | the edit payload is sent; on success the form is reset and editing ends |
| DesignationsPage.DesignationsState.CloseForm | frontend/src/feature-module/mainMenu/employeeDashboard/designations.tsx:125-127 | the form is reset and editing ends |
| EmployeeBrowse.NarrowBySelection | frontend/src/feature-module/mainMenu/employeeDashboard/employee-list.tsx:124-131 | the successive department, designation and status filters equal one filter by all selections |
| EmployeeBrowse.SelectionMeansId | frontend/src/feature-module/mainMenu/employeeDashboard/employee-list.tsx:124-128 | selecting id k keeps exactly the employees whose nested department (designation) has id k; one without it is dropped |
| EmployeeBrowse.Normalise | frontend/src/feature-module/mainMenu/employeeDashboard/employee-grid.tsx:75 | an array is used as is, else `results`, else [] |
| EmployeeBrowse.PageCount | frontend/src/feature-module/mainMenu/employeeDashboard/employee-list.tsx:145 | the page count is at least 1 and the least number of pages that holds every row |
| EmployeeBrowse.Page | frontend/src/feature-module/mainMenu/employeeDashboard/employee-list.tsx:146 | a page holds at most rowsPerPage rows: the slice from (page − 1) · rowsPerPage, or nothing past the end |
| EmployeeBrowse.PagesCoverList | frontend/src/feature-module/mainMenu/employeeDashboard/employee-list.tsx:145-146 | every row appears on a page within the page count |
| EmployeeBrowse.Prev | frontend/src/feature-module/mainMenu/employeeDashboard/employee-list.tsx:457 | Prev goes back one page and never below 1 |
| EmployeeBrowse.Next | frontend/src/feature-module/mainMenu/employeeDashboard/employee-list.tsx:465 | Next goes forward one page and never past the page count |
| EmployeeBrowse.PrevNextStayInRange | frontend/src/feature-module/mainMenu/employeeDashboard/employee-grid.tsx:343-346 | Prev and Next keep the page within [1, pageCount] and undo each other inside it |
| EmployeeListPage.ListTotals | frontend/src/feature-module/mainMenu/employeeDashboard/employee-list.tsx:95-98 | total is the list size, active counts the active employees, and active + inactive = total |
| EmployeeListPage.InactiveAreTheRest | frontend/src/feature-module/mainMenu/employeeDashboard/employee-list.tsx:98 | the inactive card counts exactly the inactive employees |
| EmployeeListPage.Filtered | frontend/src/feature-module/mainMenu/employeeDashboard/employee-list.tsx:109-143 | `filtered` is the sort of one filter of the employees by the search and every selection |
| EmployeeListPage.FilteredIsSortedSelection | frontend/src/feature-module/mainMenu/employeeDashboard/employee-list.tsx:109-143 | `filtered` holds exactly the matching employees, in comparator order |
| EmployeeListPage.RecentIsNewestFirst | frontend/src/feature-module/mainMenu/employeeDashboard/employee-list.tsx:139-140 | under "recent", later-created employees come first |
| EmployeeListPage.UntrimmedQueryMisses | frontend/src/feature-module/mainMenu/employeeDashboard/employee-list.tsx:112-113 | " ann" passes the blank check yet does not find "Ann", whom "ann" finds |
| EmployeeListPage.ListView.constructor | frontend/src/feature-module/mainMenu/employeeDashboard/employee-list.tsx:54-60 | the list starts unfiltered, sorted by "recent", on page 1 |
| EmployeeListPage.ListView.SetSearch | frontend/src/feature-module/mainMenu/employeeDashboard/employee-list.tsx:283-286 | typing a search goes back to page 1 |
| EmployeeListPage.ListView.SetSelection | frontend/src/feature-module/mainMenu/employeeDashboard/employee-list.tsx:294-333 | any selection change goes back to page 1 |
| EmployeeListPage.ListView.SetSort | frontend/src/feature-module/mainMenu/employeeDashboard/employee-list.tsx:345 | a sort change keeps the page |
| EmployeeListPage.ListView.PrevPage | frontend/src/feature-module/mainMenu/employeeDashboard/employee-list.tsx:457 | Prev moves the page by the Prev rule and keeps it at least 1 |
| EmployeeListPage.ListView.NextPage | frontend/src/feature-module/mainMenu/employeeDashboard/employee-list.tsx:465 | Next moves the page by the Next rule against the current page count |
| EmployeeListPage.CsvValues | frontend/src/feature-module/mainMenu/employeeDashboard/employee-list.tsx:178-186 | an exported row has one value per header key |
| EmployeeListPage.EscapeQuotes | frontend/src/feature-module/mainMenu/employeeDashboard/employee-list.tsx:193 | quote doubling adds no new characters and never shortens a value |
| EmployeeListPage.Quote | frontend/src/feature-module/mainMenu/employeeDashboard/employee-list.tsx:193 | each value is wrapped in double quotes around its escaped text |
| EmployeeListPage.UnescapeEscape | frontend/src/feature-module/mainMenu/employeeDashboard/employee-list.tsx:193 | reading doubled quotes back gives the original value |
| EmployeeListPage.QuoteRoundTrip | frontend/src/feature-module/mainMenu/employeeDashboard/employee-list.tsx:193 | every exported value reads back unchanged, as section 2 rule 7 of RFC 4180 reads quoted fields |
| EmployeeListPage.Records | frontend/src/feature-module/mainMenu/employeeDashboard/employee-list.tsx:191-195 | one line per employee, in `filtered` order |
| EmployeeListPage.ExportCsv | frontend/src/feature-module/mainMenu/employeeDashboard/employee-list.tsx:177-196 | there is no file exactly for an empty list; otherwise the unquoted header, then the records, joined with "\n" |
| EmployeeListPage.RecordOnOneLine | frontend/src/feature-module/mainMenu/employeeDashboard/employee-list.tsx:191-195 | a record without line breaks in its values is one line |
| EmployeeListPage.ExportLines | frontend/src/feature-module/mainMenu/employeeDashboard/employee-list.tsx:189-196 | without line breaks in values, the file splits back into the header and exactly one line per employee, in order |
| EmployeeListPage.LinesHaveNoBreaks | frontend/src/feature-module/mainMenu/employeeDashboard/employee-list.tsx:189-195 | no header or record line holds a line break |
| EmployeeListPage.HeaderOnOneLine | frontend/src/feature-module/mainMenu/employeeDashboard/employee-list.tsx:190 | the header is one line |
| EmployeeListPage.AvatarSrc | frontend/src/feature-module/mainMenu/employeeDashboard/employee-list.tsx:148-153 | the default image exactly without a photo; an http photo as is; any other photo under API_BASE |
| EmployeeGridPage.GridOrderIsOrder | frontend/src/feature-module/mainMenu/employeeDashboard/employee-grid.tsx:132-147 | under any collation for `localeCompare`, every sort choice's comparator is total and transitive |
| EmployeeGridPage.Filtered | frontend/src/feature-module/mainMenu/employeeDashboard/employee-grid.tsx:104-150 | `filtered` is the sort of one filter of the employees by the smart search and every selection |
| EmployeeGridPage.FilteredIsSortedSelection | frontend/src/feature-module/mainMenu/employeeDashboard/employee-grid.tsx:104-150 | `filtered` holds exactly the matching employees, in comparator order |
| EmployeeGridPage.BlankSearchKeepsSelected | frontend/src/feature-module/mainMenu/employeeDashboard/employee-grid.tsx:105-108 | with a blank search an employee is kept exactly when it passes the selections |
| EmployeeGridPage.GridView.constructor | frontend/src/feature-module/mainMenu/employeeDashboard/employee-grid.tsx:41-57 | the grid starts empty, unfiltered, "recent", 12 per page, on page 1 |
| EmployeeGridPage.GridView.Update | frontend/src/feature-module/mainMenu/employeeDashboard/employee-grid.tsx:156-159 | a change of page size, search, selection or sort returns to page 1; otherwise the page stays |
| EmployeeGridPage.GridView.PrevPage | frontend/src/feature-module/mainMenu/employeeDashboard/employee-grid.tsx:343 | Prev moves the page by the Prev rule |
| EmployeeGridPage.GridView.NextPage | frontend/src/feature-module/mainMenu/employeeDashboard/employee-grid.tsx:346 | Next moves the page by the Next rule against the current page count |
| EmployeeGridPage.GridView.LoadEmployees | frontend/src/feature-module/mainMenu/employeeDashboard/employee-grid.tsx:70-83 | a load stores the normalised body; a failure empties the list |
| EmployeeGridPage.StripTrailingSlash | frontend/src/feature-module/mainMenu/employeeDashboard/employee-grid.tsx:101 | exactly one trailing '/' is removed, else the base is kept |
| EmployeeGridPage.AvatarSrc | frontend/src/feature-module/mainMenu/employeeDashboard/employee-grid.tsx:100-101 | the default image without a photo; an http photo as is; any other photo under the base less one trailing '/' |
| EmployeeGridPage.AvatarSingleSlash | frontend/src/feature-module/mainMenu/employeeDashboard/employee-grid.tsx:101 | a base ending in '/' and a path starting with '/' join with a single slash |
| EmployeeAddPage.SetFlag | frontend/src/feature-module/mainMenu/employeeDashboard/employee-add.tsx:121 | the flag takes the value and the other five are kept |
| EmployeeAddPage.AllFlags | frontend/src/feature-module/mainMenu/employeeDashboard/employee-add.tsx:40 | every flag of the row has the value |
| EmployeeAddPage.Uniform | frontend/src/feature-module/mainMenu/employeeDashboard/employee-add.tsx:39-40 | the matrix has exactly the 11 modules, with every flag set to the value |
| EmployeeAddPage.FillAll | frontend/src/feature-module/mainMenu/employeeDashboard/employee-add.tsx:125-126 | the forEach loop builds the uniform matrix |
| EmployeeAddPage.Toggle | frontend/src/feature-module/mainMenu/employeeDashboard/employee-add.tsx:120-122 | the toggle sets exactly one flag of one module; a missing module starts all-false; other modules are unchanged |
| EmployeeAddPage.ToggleBackRestores | frontend/src/feature-module/mainMenu/employeeDashboard/employee-add.tsx:120-122 | toggling a flag back to its old value restores the matrix |
| EmployeeAddPage.RowFrom | frontend/src/feature-module/mainMenu/employeeDashboard/employee-add.tsx:92-99 | each loaded flag is the truthiness of the stored flag, false when missing |
| EmployeeAddPage.Mapped | frontend/src/feature-module/mainMenu/employeeDashboard/employee-add.tsx:89-100 | the loaded matrix has exactly the 11 modules, read from the stored one |
| EmployeeAddPage.MapStored | frontend/src/feature-module/mainMenu/employeeDashboard/employee-add.tsx:90-100 | the forEach loop builds the loaded matrix |
| EmployeeAddPage.LoadDropsUnknownModules | frontend/src/feature-module/mainMenu/employeeDashboard/employee-add.tsx:91 | stored keys outside the module list are dropped |
| EmployeeAddPage.SelectAllWithClearFlags | frontend/src/feature-module/mainMenu/employeeDashboard/employee-add.tsx:102 | after a load, "select all" is ticked once every module has one flag set, though other flags are clear |
| EmployeeAddPage.UniformSelectsAll | frontend/src/feature-module/mainMenu/employeeDashboard/employee-add.tsx:102-128 | for uniform matrices, the select-all test holds exactly when the value is true |
| EmployeeAddPage.LoadedForm | frontend/src/feature-module/mainMenu/employeeDashboard/employee-add.tsx:70-85 | the loaded form has the 14 keys in order and no nulls, with the "Full-Time", "Other" and active defaults and the department and designation ids as text |
| EmployeeAddPage.EmptyRecordLoadsInitialForm | frontend/src/feature-module/mainMenu/employeeDashboard/employee-add.tsx:45-85 | a record with every field missing loads as the initial form |
| EmployeeAddPage.BuildPayload | frontend/src/feature-module/mainMenu/employeeDashboard/employee-add.tsx:135-141 | the payload holds the non-null fields, then the photo when chosen, then the matrix as JSON |
| EmployeeAddPage.EntriesOfComplete | frontend/src/feature-module/mainMenu/employeeDashboard/employee-add.tsx:136-139 | a form without nulls sends every field in order, as a string |
| EmployeeAddPage.NullFieldsLeftOut | frontend/src/feature-module/mainMenu/employeeDashboard/employee-add.tsx:138 | a null field is not sent |
| EmployeeAddPage.LoadedFormSendsEveryField | frontend/src/feature-module/mainMenu/employeeDashboard/employee-add.tsx:70-139 | a loaded employee's form sends all fourteen keys in order |
| EmployeeAddPage.RequestFor | frontend/src/feature-module/mainMenu/employeeDashboard/employee-add.tsx:143-149 | with a non-empty id the form PUTs to that employee, otherwise it POSTs to the collection |
| EmployeeAddPage.EmployeeForm.constructor | frontend/src/feature-module/mainMenu/employeeDashboard/employee-add.tsx:39-48 | the form starts with the all-false matrix, the box clear and the initial fields |
| EmployeeAddPage.EmployeeForm.TogglePermission | frontend/src/feature-module/mainMenu/employeeDashboard/employee-add.tsx:120-122 | only the matrix changes, by the toggle |
| EmployeeAddPage.EmployeeForm.SelectAll | frontend/src/feature-module/mainMenu/employeeDashboard/employee-add.tsx:124-129 | every flag and the box take the value |
| EmployeeAddPage.EmployeeForm.Load | frontend/src/feature-module/mainMenu/employeeDashboard/employee-add.tsx:63-106 | the form is filled from the record. A stored matrix replaces the permissions and sets the box; an unparseable one resets the permissions; none keeps both |
| PoliciesPage.ListOrEmpty | frontend/src/feature-module/mainMenu/employeeDashboard/policies.tsx:74-80 | an array body is used; anything else, or a failure, gives [] |
| PoliciesPage.QueryParams | frontend/src/feature-module/mainMenu/employeeDashboard/policies.tsx:66-72 | at most the four filters are sent |
| PoliciesPage.LookupAppend | frontend/src/feature-module/mainMenu/employeeDashboard/policies.tsx:67-72 | a key's value in joined parameters is its first occurrence |
| PoliciesPage.LookupOne | frontend/src/feature-module/mainMenu/employeeDashboard/policies.tsx:67-72 | one parameter answers for its own key with its value exactly when the value is non-empty, and never for any different key |
| PoliciesPage.QueryParamsSendNonEmpty | frontend/src/feature-module/mainMenu/employeeDashboard/policies.tsx:67-72 | each filter is sent exactly when it is non-empty, with its value |
| PoliciesPage.PolicyForm | frontend/src/feature-module/mainMenu/employeeDashboard/policies.tsx:95-99 | the form holds the trimmed title, then the description, then the department only when selected, then the file only when chosen |
| PoliciesPage.AddRequest | frontend/src/feature-module/mainMenu/employeeDashboard/policies.tsx:87-99 | add refuses exactly a blank title; otherwise it posts the form with a non-empty title |
| PoliciesPage.EditRequest | frontend/src/feature-module/mainMenu/employeeDashboard/policies.tsx:128-141 | edit does nothing without a policy being edited; then it applies the same title rule and PUTs the form to that policy |
| PoliciesPage.AddAndEditAgree | frontend/src/feature-module/mainMenu/employeeDashboard/policies.tsx:90-141 | add and edit accept the same titles and send the same form |
| PoliciesPage.EditDepartment | frontend/src/feature-module/mainMenu/employeeDashboard/policies.tsx:121-122 | the selection is the department, else the nested department's id, as a string; an id of 0 shows as no selection |
| PoliciesPage.EditResendsDepartment | frontend/src/feature-module/mainMenu/employeeDashboard/policies.tsx:121-140 | reopening a policy and saving it unchanged sends its own department |
| PoliciesPage.CreatedCell | frontend/src/feature-module/mainMenu/employeeDashboard/policies.tsx:303 | the cell shows the first ten characters of `created_at`, or "-" when it is missing or empty |
| PoliciesPage.DepartmentCell | frontend/src/feature-module/mainMenu/employeeDashboard/policies.tsx:287 | the nested department's name, or "-" |
| PoliciesPage.PoliciesState.constructor | frontend/src/feature-module/mainMenu/employeeDashboard/policies.tsx:25-39 | the page starts with empty lists, form and filters |
| PoliciesPage.PoliciesState.LoadDepartments | frontend/src/feature-module/mainMenu/employeeDashboard/policies.tsx:44-55 | the department list is the array body, or empty |
| PoliciesPage.PoliciesState.LoadPolicies | frontend/src/feature-module/mainMenu/employeeDashboard/policies.tsx:63-84 | the request carries the current filters; the list becomes the array body, and a failure leaves it empty |
| PoliciesPage.PoliciesState.SelectDepartment | frontend/src/feature-module/mainMenu/employeeDashboard/policies.tsx:213-214 | either department select sets the one shared selection |
| PoliciesPage.PoliciesState.ResetForm | frontend/src/feature-module/mainMenu/employeeDashboard/policies.tsx:169-174 | title, description, department and file are cleared; the other filters stay |
| PoliciesPage.PoliciesState.OpenEdit | frontend/src/feature-module/mainMenu/employeeDashboard/policies.tsx:116-125 | the form takes the policy's title, description and department, and the file is cleared |
| PoliciesPage.PoliciesState.Add | frontend/src/feature-module/mainMenu/employeeDashboard/policies.tsx:87-113 | the add request is sent; on success the form is reset; otherwise it stays |
| PoliciesPage.PoliciesState.EditSave | frontend/src/feature-module/mainMenu/employeeDashboard/policies.tsx:128-155 | the edit request is sent; on success editing ends and the form is reset; otherwise nothing changes |
| PoliciesPage.PoliciesState.CloseForm | frontend/src/feature-module/mainMenu/employeeDashboard/policies.tsx:147-148 | editing ends and the form is reset |
| PoliciesPage.ResetDropsDepartmentFilter | frontend/src/feature-module/mainMenu/employeeDashboard/policies.tsx:169-174 | after a reset the next list request carries no department filter |
| AddPayrollPage.ToggleComponent | frontend/src/feature-module/mainMenu/payroll/AddPayroll.jsx:55-65 | a checked id is removed (every occurrence, the rest in order); an unchecked one is appended at the end; every other id occurs exactly as often as before |
| AddPayrollPage.ToggleTwiceSameSet | frontend/src/feature-module/mainMenu/payroll/AddPayroll.jsx:55-64 | toggling twice restores the checked set |
| AddPayrollPage.CheckThenUncheck | frontend/src/feature-module/mainMenu/payroll/AddPayroll.jsx:55-64 | checking then unchecking an unchecked id restores the very list |
| AddPayrollPage.ToggleKeepsDistinct | frontend/src/feature-module/mainMenu/payroll/AddPayroll.jsx:55-64 | a list without repeats stays without repeats |
| AddPayrollPage.UpdateForm | frontend/src/feature-module/mainMenu/payroll/AddPayroll.jsx:47-52 | only the named input changes |
| AddPayrollPage.InitialFormEmpty | frontend/src/feature-module/mainMenu/payroll/AddPayroll.jsx:12-19 | every input starts empty and nothing is checked |
| AddPayrollPage.MonthOptions | frontend/src/feature-module/mainMenu/payroll/AddPayroll.jsx:121-125 | the options are 1 to 12 in order |
| AddPayrollPage.MonthOptionsAreMonths | frontend/src/feature-module/mainMenu/payroll/AddPayroll.jsx:121-125 | a value is offered exactly when it is a month from 1 to 12 |
| AddPayrollPage.AddPayrollState.constructor | frontend/src/feature-module/mainMenu/payroll/AddPayroll.jsx:9-19 | the page starts with empty lists and the initial form |
| AddPayrollPage.AddPayrollState.LoadEmployees | frontend/src/feature-module/mainMenu/payroll/AddPayroll.jsx:22-29 | a successful load replaces the employee list; a failure keeps it |
| AddPayrollPage.AddPayrollState.LoadComponents | frontend/src/feature-module/mainMenu/payroll/AddPayroll.jsx:32-39 | a successful load replaces the component list; a failure keeps it |
| AddPayrollPage.AddPayrollState.Update | frontend/src/feature-module/mainMenu/payroll/AddPayroll.jsx:47-52 | only the form changes, by `updateForm` |
| AddPayrollPage.AddPayrollState.Toggle | frontend/src/feature-module/mainMenu/payroll/AddPayroll.jsx:55-65 | only the form's components change, by the toggle |
| EmployeePayrollForm.InitialForm | frontend/src/feature-module/accounts/employee-payroll/EmployeePayrollForm.jsx:17-24 | every input starts empty except the year, which is the current one; nothing is checked |
| EmployeePayrollForm.NormaliseEmployees | frontend/src/feature-module/accounts/employee-payroll/EmployeePayrollForm.jsx:37 | `results` wins, an array is kept, an object without `results` is kept as a non-list, and a null body stores nothing |
| EmployeePayrollForm.Label | frontend/src/feature-module/accounts/employee-payroll/EmployeePayrollForm.jsx:108 | the label is the name, else "first last" with missing parts as "" |
| EmployeePayrollForm.LabelNeverEmpty | frontend/src/feature-module/accounts/employee-payroll/EmployeePayrollForm.jsx:108 | a label is never empty; with nothing known it is a single space |
| EmployeePayrollForm.IdsAsWritten | frontend/src/feature-module/accounts/employee-payroll/EmployeePayrollForm.jsx:54 | as written, a primary-key entry reads as undefined and a nested entry as its id |
| EmployeePayrollForm.AsWrittenLosesComponents | frontend/src/feature-module/accounts/employee-payroll/EmployeePayrollForm.jsx:54 | as written, every component the serializer sends loads as undefined |
| EmployeePayrollForm.ComponentIds | frontend/src/feature-module/accounts/employee-payroll/EmployeePayrollForm.jsx:54 | each entry yields its component id, whichever shape it has |
| EmployeePayrollForm.ComponentIdsKeepKeys | frontend/src/feature-module/accounts/employee-payroll/EmployeePayrollForm.jsx:54 | loading the serializer's keys keeps exactly those ids, in order |
| EmployeePayrollForm.OrBlank | frontend/src/feature-module/accounts/employee-payroll/EmployeePayrollForm.jsx:52-53 | a truthy value is kept and a falsy one becomes "" |
| EmployeePayrollForm.LoadedForm | frontend/src/feature-module/accounts/employee-payroll/EmployeePayrollForm.jsx:48-55 | employee, month and year are loaded as stored; salary and HRA become "" when falsy; one component entry per stored one, and a box is checked exactly when a stored entry is an object with that `id` |
| EmployeePayrollForm.LoadedKeysCheckNothing | frontend/src/feature-module/accounts/employee-payroll/EmployeePayrollForm.jsx:54 | a payroll whose components arrive as primary keys loads with no component box checked |
| EmployeePayrollForm.ZeroSalaryLoadsBlank | frontend/src/feature-module/accounts/employee-payroll/EmployeePayrollForm.jsx:52-53 | a numeric 0 loads as an empty input, while "0.00" is kept |
| EmployeePayrollForm.MonthValuesAsWritten | frontend/src/feature-module/accounts/employee-payroll/EmployeePayrollForm.jsx:124-126 | as written, option i's value is the English month name |
| EmployeePayrollForm.MonthNamesRefused | frontend/src/feature-module/accounts/employee-payroll/EmployeePayrollForm.jsx:124-126 | as written, the integer month field accepts no option value |
| EmployeePayrollForm.MonthOptions | frontend/src/feature-module/accounts/employee-payroll/EmployeePayrollForm.jsx:124-126 | the corrected option i has the value i + 1 as a numeral and the month's name as its label |
| EmployeePayrollForm.MonthOptionsAccepted | frontend/src/feature-module/accounts/employee-payroll/EmployeePayrollForm.jsx:124-126 | every corrected value is accepted and reads back as month i + 1 |
| EmployeePayrollForm.SubmitRequest | frontend/src/feature-module/accounts/employee-payroll/EmployeePayrollForm.jsx:74-84 | with a route id the form PUTs to that payroll, otherwise it POSTs; the body is the form |
| EmployeePayrollForm.SetField | frontend/src/feature-module/accounts/employee-payroll/EmployeePayrollForm.jsx:102-160 | the edited input takes the typed string; the other inputs and the components stay |
| EmployeePayrollForm.PayrollFormState.constructor | frontend/src/feature-module/accounts/employee-payroll/EmployeePayrollForm.jsx:15-24 | the page starts with empty lists and the initial form |
| EmployeePayrollForm.PayrollFormState.LoadMeta | frontend/src/feature-module/accounts/employee-payroll/EmployeePayrollForm.jsx:31-42 | when both requests succeed and the body is not null both lists are stored, otherwise neither |
| EmployeePayrollForm.PayrollFormState.LoadData | frontend/src/feature-module/accounts/employee-payroll/EmployeePayrollForm.jsx:44-59 | a fetched payroll replaces the whole form with the loaded one, `c.id` reading included; a failure keeps it |
| EmployeePayrollForm.PayrollFormState.Set | frontend/src/feature-module/accounts/employee-payroll/EmployeePayrollForm.jsx:102-160 | only the form changes, in the edited input |
| EmployeePayrollForm.PayrollFormState.SelectMonth | frontend/src/feature-module/accounts/employee-payroll/EmployeePayrollForm.jsx:119-126 | picking a corrected option stores a month numeral the integer field accepts |
| EmployeePayrollForm.PayrollFormState.Toggle | frontend/src/feature-module/accounts/employee-payroll/EmployeePayrollForm.jsx:61-69 | only the form's components change, by the shared toggle: the toggled box flips and every other box keeps its state |
| EmployeePayrollForm.PayrollFormState.Submit | frontend/src/feature-module/accounts/employee-payroll/EmployeePayrollForm.jsx:71-84 | the request sent is the one for the current form and route id |
| ViewPayrollPage.SplitByType | frontend/src/feature-module/mainMenu/payroll/ViewPayroll.jsx:29-30 | earnings hold exactly the "earning" entries and deductions exactly the "deduction" entries, in order; none is in both, and other types are in neither |
| ViewPayrollPage.SplitCountsAll | frontend/src/feature-module/mainMenu/payroll/ViewPayroll.jsx:29-30 | the two tables and the unlisted entries account for every entry once |
| ViewPayrollPage.ScreenFor | frontend/src/feature-module/mainMenu/payroll/ViewPayroll.jsx:26-124 | a loading message exactly while loading; "not found" exactly after loading without a payroll; else the stored employee name, month/year, basic salary and HRA, the two tables and the stored totals |
| ViewPayrollPage.ViewPayrollState.constructor | frontend/src/feature-module/mainMenu/payroll/ViewPayroll.jsx:7-8 | the screen starts loading, without a payroll |
| ViewPayrollPage.ViewPayrollState.Load | frontend/src/feature-module/mainMenu/payroll/ViewPayroll.jsx:11-20 | a fetched payroll is stored, a failure keeps the old one, and loading ends either way |

## Left out

- Network and I/O: every HTTP call, the axios instances and headers, and `Promise.all`'s concurrency. Each response is a parameter. The two requests a page joins arrive as one response.
- Alerts, confirms, toasts, modal show/hide, navigation after submit, the loading flags other than the payroll detail's, and the object URL and download of the CSV file.
- `handleDelete` on the departments, designations, policies and employee pages: a confirm dialog and a DELETE request, with no logic of their own. The deletions themselves are modelled on the backend tables.
- The AddPayroll page's `handleSubmit`: it posts the form unchanged through a wrapper that is not part of this model.
- The employee list page's `fetchMeta` and `fetchEmployees`: network, with the same normalisation as the grid, which is modelled.
- EmployeeListPage.ListTotals: does not compute `newHires`, which divides milliseconds of the client clock into days.
- The grid's `calculateAge`: it reads the clock and uses floating point.
- Date parsing (`new Date(s).getTime()`): a parameter. An unparseable date counts as 0, for the grid's `|| 0` and for NaN comparisons alike. The two differ only on NaN.
- Seqs.SortBy: stands for `Array.prototype.sort` as an insertion sort. It is proved a permutation in comparator order; stability is not proved.
- EmployeeBrowse.PageCount: requires rowsPerPage > 0. The pages only ever use 10 or 12.
- DesignationsPage.DepartmentId: `Number()` is modelled on decimal numerals only. Any other text becomes null, which is how JSON sends NaN.
- EmployeePayrollForm.IntegerFieldAccepts: accepts numbers and plain digit strings only. The integer field's signs, whitespace and "1.0" forms are not modelled.
- PayrollSerializer.Create: requires every requested component id to exist. An unknown id makes `components.set` fail, and that error path is not modelled.
- PayrollViews.PerformUpdate: a request field of the wrong type, or a component id that does not exist, makes the serializer answer 400; these validation errors are not modelled, and the row is written only with well-typed values.
- `payroll.calculate()`: it is not defined by the payroll model, so it is a parameter of PayrollViews.CalculateAndSave.
- The m2m `components` keyword passed to `objects.create(**validated_data)`: left out. Django rejects it; the model attaches the components afterwards, as the following lines do.
- `employee.name` in `EmployeePayroll.__str__` and in the serializer's `employee_name`: the Employee model has no such field, so these renderings are left out.
- The import of `backend.employee.models` in backend/payroll/models.py does not match the app name `employees`. The model takes the intended Employee model.
- `Department.__str__` and `Designation.__str__`: these return the name and the title unchanged.
- The DRF SearchFilter and OrderingFilter on the employee list, and query parameters that are not integers where integers are expected (the ORM raises).
- Only the `payroll` route is registered in the URL files. The `/employee-payroll/` path the payroll form uses is taken as written.
- `DecimalField` max_digits overflow: not modelled.
- Stored permission entries that are not objects: they behave as missing, as `parsed[m]?.read` does. The JSON text sent for the matrix is a parameter of EmployeeAddPage.BuildPayload.
- Files and photos: stand-ins (a name string).
- Text.Lower: folds only the ASCII letters A to Z. `toLowerCase` folds every Unicode letter ("Élise" becomes "élise"), so a search that differs from a name only in the case of a non-ASCII letter matches in the browser and not in the model.
- Text.LessEq: code-point order, only one instance of a collation (`Text.CodePointOrder`). `localeCompare` sorts "apple" before "Banana" where code-point order does not; the pages and the component list therefore take the collation as a parameter, and nothing is proved about which order a given locale or database applies.
- DepartmentsPage.Processed: its search folds case only for ASCII letters (see Text.Lower).
- DepartmentsPage.ProcessedIsSortedSelection: its search folds case only for ASCII letters (see Text.Lower).
- DesignationsPage.Processed: its search folds case only for ASCII letters (see Text.Lower).
- DesignationsPage.ProcessedKeepsMatches: its search folds case only for ASCII letters (see Text.Lower).
- EmployeeListPage.Filtered: its search folds case only for ASCII letters (see Text.Lower).
- EmployeeListPage.FilteredIsSortedSelection: its search folds case only for ASCII letters (see Text.Lower).
- EmployeeGridPage.Filtered: its smart search folds case only for ASCII letters (see Text.Lower).
- EmployeeGridPage.FilteredIsSortedSelection: its smart search folds case only for ASCII letters (see Text.Lower).

## Findings

| source | as written | input that shows it | evidently intended | confidence | as-written member | corrected member |
|---|---|---|---|---|---|---|
| backend/employees/views.py:55-63 | `birthdays` moves each birth date into the current year only, so a birthday in early January is never within the window in late December | today 2025-12-28, date of birth 1990-01-02: the birthday is five days away but is not listed | list birthdays falling in the next seven days, across the new year | high (not executed) | EmployeeViews.YearEndBirthdayMissed | EmployeeViews.UpcomingWeekComplete |
| frontend/src/core/auth/RoleRoute.tsx:67-72 | a failed profile request leaves `allowed` as it was, although the comment says it stays false; the effect re-runs when `allowedRoles` changes, so a `true` from an earlier run survives | token "a.b.c" whose payload does not parse, a previous run that allowed, and a failed fetch: access is granted | fail closed: a failed fetch grants nothing beyond what the claims grant | medium (not executed) | RoleRoute.StaleAllowSurvivesFailedFetch | RoleRoute.RoleGuard.CheckFromClosed |
| frontend/src/feature-module/mainMenu/employeeDashboard/departments.tsx:126-129 | the count is looked up as `counts[d.id]`, while `department_counts` (backend/employees/views.py:104) keys its answer by department name | departments named "Cardiology" and "ICU" with employees: both show 0 | look the count up by the department's name | high (not executed) | DepartmentsPage.IdLookupShowsZero | DepartmentsPage.NameLookupShowsCount |
| frontend/src/feature-module/accounts/employee-payroll/EmployeePayrollForm.jsx:124-126 | the month options carry the English month name as their value, but `month` is an IntegerField (backend/payroll/models.py:22) | choosing "March" sends month "March", which the integer field refuses | send the month number 1–12 and show the name | high (not executed) | EmployeePayrollForm.MonthNamesRefused | EmployeePayrollForm.MonthOptionsAccepted |
| frontend/src/feature-module/accounts/employee-payroll/EmployeePayrollForm.jsx:54 | `loadData` maps the components to `c.id`, but the serializer sends `components` as primary keys (backend/payroll/serializers.py:28) | a payroll stored with components [3, 5] loads with no box checked | keep the primary keys as the checked ids | high (not executed) | EmployeePayrollForm.AsWrittenLosesComponents | EmployeePayrollForm.ComponentIdsKeepKeys |
