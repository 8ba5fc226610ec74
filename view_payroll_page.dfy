/**
 * frontend/src/feature-module/mainMenu/payroll/ViewPayroll.jsx: the payroll
 * detail screen: loading and not-found states, the split of the attached
 * components into earnings and deductions, and the stored totals it shows.
 */
module ViewPayrollPage {
  import opened Wrappers
  import Seqs

  /** An entry of `components_details` as the screen receives it; the type is the raw string. */
  datatype DetailItem = DetailItem(id: nat, name: string, componentType: string, amount: string)

  /** The payroll as the detail endpoint returns it, with the totals as stored. */
  datatype PayrollDetail = PayrollDetail(
    employeeName: string, month: int, year: int, basicSalary: string, hra: string,
    details: seq<DetailItem>, grossSalary: string, totalDeductions: string, netSalary: string)

  function OfType(t: string): DetailItem -> bool { (c: DetailItem) => c.componentType == t }

  /** `components_details.filter(c => c.component_type === "earning")`. */
  function Earnings(details: seq<DetailItem>): seq<DetailItem> {
    Seqs.Filter(details, OfType("earning"))
  }

  /** `components_details.filter(c => c.component_type === "deduction")`. */
  function Deductions(details: seq<DetailItem>): seq<DetailItem> {
    Seqs.Filter(details, OfType("deduction"))
  }

  /**
   * Earnings hold exactly the "earning" entries and deductions exactly the
   * "deduction" entries, each in the original order; no entry is in both,
   * and an entry of any other type is in neither.
   */
  lemma SplitByType(details: seq<DetailItem>)
    ensures forall c :: c in Earnings(details) <==> c in details && c.componentType == "earning"
    ensures forall c :: c in Deductions(details) <==> c in details && c.componentType == "deduction"
    ensures Seqs.Subsequence(Earnings(details), details) && Seqs.Subsequence(Deductions(details), details)
    ensures forall c :: !(c in Earnings(details) && c in Deductions(details))
    ensures forall c :: c in details && c.componentType != "earning" && c.componentType != "deduction" ==>
      c !in Earnings(details) && c !in Deductions(details)
  {
    Seqs.FilterContains(details, OfType("earning"));
    Seqs.FilterContains(details, OfType("deduction"));
    Seqs.FilterIsSubsequence(details, OfType("earning"));
    Seqs.FilterIsSubsequence(details, OfType("deduction"));
    assert "earning" != "deduction" by { assert "earning"[0] != "deduction"[0]; }
  }

  /** Entries whose type is neither string. */
  function Neither(): DetailItem -> bool {
    (c: DetailItem) => c.componentType != "earning" && c.componentType != "deduction"
  }

  /** The two tables and the entries shown in neither account for every entry once. */
  lemma SplitCountsAll(details: seq<DetailItem>)
    ensures |Earnings(details)| + |Deductions(details)| + Seqs.Count(details, Neither()) == |details|
  {
    var either := (c: DetailItem) => c.componentType == "earning" || c.componentType == "deduction";
    assert "earning"[0] != "deduction"[0];
    Seqs.CountIsFilterLength(details, OfType("earning"));
    Seqs.CountIsFilterLength(details, OfType("deduction"));
    Seqs.CountDisjointUnion(details, OfType("earning"), OfType("deduction"), either);
    Seqs.CountComplement(details, either, Neither());
  }

  /** What the screen shows. */
  datatype Screen =
    | LoadingMessage
    | NotFound
    | Details(employeeName: string, month: int, year: int, basicSalary: string, hra: string,
              earnings: seq<DetailItem>, deductions: seq<DetailItem>,
              grossSalary: string, totalDeductions: string, netSalary: string)

  /**
   * The screen: the loading message while loading, "not found" without a
   * payroll, else the header (employee, month/year, basic salary, HRA),
   * the two tables and the totals exactly as stored.
   */
  function ScreenFor(loading: bool, payroll: Option<PayrollDetail>): (r: Screen)
    ensures loading <==> r.LoadingMessage?
    ensures !loading && payroll.None? <==> r.NotFound?
    ensures r.Details? ==> payroll.Some? && r.employeeName == payroll.value.employeeName
    ensures r.Details? ==> r.month == payroll.value.month && r.year == payroll.value.year
    ensures r.Details? ==> r.basicSalary == payroll.value.basicSalary && r.hra == payroll.value.hra
    ensures r.Details? ==> r.earnings == Earnings(payroll.value.details) && r.deductions == Deductions(payroll.value.details)
    ensures r.Details? ==> r.grossSalary == payroll.value.grossSalary
    ensures r.Details? ==> r.totalDeductions == payroll.value.totalDeductions
    ensures r.Details? ==> r.netSalary == payroll.value.netSalary
  {
    if loading then LoadingMessage
    else if payroll.None? then NotFound
    else
      var p := payroll.value;
      Details(p.employeeName, p.month, p.year, p.basicSalary, p.hra, Earnings(p.details), Deductions(p.details), p.grossSalary, p.totalDeductions, p.netSalary)
  }

  /** The screen's state: the fetched payroll and the loading flag. */
  class ViewPayrollState {
    var payroll: Option<PayrollDetail>
    var loading: bool

    constructor ()
      ensures payroll.None? && loading
    {
      payroll := None;
      loading := true;
    }

    /** `loadPayroll`: a fetched payroll is stored; either way loading ends. */
    method Load(response: Option<PayrollDetail>)
      modifies this
      ensures payroll == if response.Some? then response else old(payroll)
      ensures !loading
    {
      if response.Some? {
        payroll := response;
      }
      loading := false;
    }
  }
}
