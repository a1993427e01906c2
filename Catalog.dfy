/** The curriculum: six subjects, each with its chapters in display order. */
module Catalog {

  /** A subject and the ordered list of its chapters. */
  type Entry = (string, seq<string>)

  /** Subjects in the order `Object.entries` lists them. */
  type Catalog = seq<Entry>

  predicate Distinct<T(==)>(s: seq<T>) {
    forall i, j :: 0 <= i < j < |s| ==> s[i] != s[j]
  }

  function SubjectNames(catalog: Catalog): (names: seq<string>)
    ensures |names| == |catalog|
    ensures forall i :: 0 <= i < |catalog| ==> names[i] == catalog[i].0
  {
    seq(|catalog|, i requires 0 <= i < |catalog| => catalog[i].0)
  }

  /** No subject is listed twice and no chapter is listed twice within its subject. */
  predicate WellFormed(catalog: Catalog) {
    && Distinct(SubjectNames(catalog))
    && forall i :: 0 <= i < |catalog| ==> Distinct(catalog[i].1)
  }

  /** The pair names a chapter of the catalog. */
  predicate Lists(catalog: Catalog, subject: string, chapter: string) {
    exists i :: 0 <= i < |catalog| && catalog[i].0 == subject && chapter in catalog[i].1
  }

  /** The chapters of "Advanced Accounting". */
  const ADVANCED_ACCOUNTING: seq<string> := [
    "Introduction to Accounting Standards",
    "Framework for Preparation and Presentation of Financial Statements",
    "Applicability of Accounting Standards",
    "Presentation & Disclosures Based Accounting Standards",
    "AS 1 Disclosure of Accounting Policies",
    "AS 3 Cash Flow Statement",
    "AS 17 Segment Reporting",
    "AS 18 Related Party Disclosures",
    "AS 20 Earnings Per Share",
    "AS 24 Discontinuing Operations",
    "AS 25 Interim Financial Reporting",
    "AS 2 Valuation of Inventory",
    "AS 10 Property, Plant and Equipment",
    "AS 13 Accounting for Investments",
    "AS 16 Borrowing Costs",
    "AS 19 Leases",
    "AS 26 Intangible Assets",
    "AS 28 Impairment of Assets",
    "AS 15 Employee Benefits",
    "AS 29 Provisions, Contingent Liabilities and Contingent Assets",
    "AS 4 Contingencies and Events after Balance Sheet Date",
    "AS 5 Net Profit/Loss and Prior Period Items",
    "AS 11 Foreign Exchange Rates",
    "AS 22 Taxes on Income",
    "AS 7 Construction Contracts",
    "AS 9 Revenue Recognition",
    "AS 12 Government Grants",
    "AS 14 Amalgamations",
    "AS 21 Consolidated Financial Statements",
    "AS 23 Associates in Consolidated Financial Statements",
    "AS 27 Joint Ventures",
    "Financial Statements of Companies",
    "Buyback of Securities",
    "Amalgamation of Companies",
    "Internal Reconstruction",
    "Accounting for Branches"
  ]

  /** The chapters of "Corporate and Other Law". */
  const CORPORATE_LAW: seq<string> := [
    "Preliminary",
    "Incorporation of Company",
    "Prospectus and Allotment",
    "Share Capital and Debentures",
    "Acceptance of Deposits",
    "Registration of Charges",
    "Management & Administration",
    "Declaration and Dividend",
    "Accounts of Companies",
    "Audit and Auditors",
    "Companies Outside India",
    "LLP Act 2008",
    "General Clauses Act",
    "Interpretation of Statutes",
    "FEMA 1999"
  ]

  /** The chapters of "Taxation". */
  const TAXATION: seq<string> := [
    "Basic Concepts",
    "Residence and Scope",
    "Salaries",
    "House Property",
    "Profits and Gains of Business",
    "Capital Gains",
    "Other Sources",
    "Income of Other Persons",
    "Aggregation and Set-Off",
    "Deductions",
    "Advance Tax and TDS",
    "Return Filing and Assessment",
    "Income Tax Computation",
    "GST Introduction",
    "Supply under GST",
    "Charge of GST",
    "Place of Supply",
    "Exemptions",
    "Time of Supply",
    "Value of Supply",
    "Input Tax Credit",
    "Registration",
    "Tax Invoice",
    "Accounts and Records",
    "E-Way Bill",
    "Payment of Tax",
    "TDS and TCS in GST",
    "Returns"
  ]

  /** The chapters of "Cost and Management Accounting". */
  const COST_ACCOUNTING: seq<string> := [
    "Introduction to Cost and Management Accounting",
    "Material Cost",
    "Employee Cost",
    "Overheads",
    "Activity Based Costing",
    "Cost Sheet",
    "Cost Accounting Systems",
    "Unit & Batch Costing",
    "Job Costing",
    "Process & Operation Costing",
    "Joint Products and By Products",
    "Service Costing",
    "Standard Costing",
    "Marginal Costing",
    "Budgets and Budgetary Control"
  ]

  /** The chapters of "Auditing and Ethics". */
  const AUDITING: seq<string> := [
    "Nature, Objective and Scope of Audit",
    "Audit Strategy and Planning",
    "Risk Assessment and Internal Control",
    "Audit Evidence",
    "Audit of Items of Financial Statements",
    "Audit Documentation",
    "Completion and Review",
    "Audit Report",
    "Audit of Different Entities",
    "Audit of Banks",
    "Ethics and Terms of Audit Engagements"
  ]

  /** The chapters of "FM and SM". */
  const FM_SM: seq<string> := [
    "Scope and Objectives of Financial Management",
    "Types of Financing",
    "Ratio Analysis",
    "Cost of Capital",
    "Capital Structure",
    "Leverages",
    "Investment Decisions",
    "Dividend Decision",
    "Working Capital Management",
    "Cash Management",
    "Inventory Management",
    "Receivables Management",
    "Payables Management",
    "Financing Working Capital",
    "Strategic Management Intro",
    "External Environment Analysis",
    "Internal Environment Analysis",
    "Strategic Choices",
    "Strategy Implementation and Evaluation"
  ]

  /** `SUBJECTS`. */
  const SUBJECTS: Catalog := [
    ("Advanced Accounting", ADVANCED_ACCOUNTING),
    ("Corporate and Other Law", CORPORATE_LAW),
    ("Taxation", TAXATION),
    ("Cost and Management Accounting", COST_ACCOUNTING),
    ("Auditing and Ethics", AUDITING),
    ("FM and SM", FM_SM)
  ]

  /** The number of chapters per subject, in catalog order. */
  lemma SubjectsSizes()
    ensures |SUBJECTS| == 6
    ensures SubjectNames(SUBJECTS) == ["Advanced Accounting", "Corporate and Other Law", "Taxation",
                                       "Cost and Management Accounting", "Auditing and Ethics", "FM and SM"]
    ensures |SUBJECTS[0].1| == 36 && |SUBJECTS[1].1| == 15 && |SUBJECTS[2].1| == 28
    ensures |SUBJECTS[3].1| == 15 && |SUBJECTS[4].1| == 11 && |SUBJECTS[5].1| == 19
  {
  }

  /** The catalog's subjects and, within each subject, its chapters are distinct. */
  lemma SubjectsWellFormed()
    ensures WellFormed(SUBJECTS)
  {
    SubjectsSizes();
    ChaptersDistinct0();
    ChaptersDistinct1();
    ChaptersDistinct2();
    ChaptersDistinct3();
    ChaptersDistinct4();
    ChaptersDistinct5();
  }

  /** No two chapters drawn from the index ranges `[lo1, hi1)` and `[lo2, hi2)` are equal. */
  predicate PairsDiffer(s: seq<string>, lo1: nat, hi1: nat, lo2: nat, hi2: nat) {
    forall i, j :: lo1 <= i < hi1 && lo2 <= j < hi2 && i < j && j < |s| ==> s[i] != s[j]
  }

  lemma DistinctFromHalves(s: seq<string>, m: nat)
    requires m <= |s|
    requires PairsDiffer(s, 0, m, 0, m) && PairsDiffer(s, m, |s|, m, |s|)
    requires PairsDiffer(s, 0, m, m, |s|)
    ensures Distinct(s)
  {
    forall i, j | 0 <= i < j < |s|
      ensures s[i] != s[j]
    {
      if j < m {
        assert PairsDiffer(s, 0, m, 0, m);
      } else if i >= m {
        assert PairsDiffer(s, m, |s|, m, |s|);
      } else {
        assert PairsDiffer(s, 0, m, m, |s|);
      }
    }
  }

  lemma ChaptersDistinct0()
    ensures Distinct(ADVANCED_ACCOUNTING)
  {
    AdvancedAccountingFirstHalf();
    AdvancedAccountingSecondHalf();
    AdvancedAccountingAcrossHalves();
    DistinctFromHalves(ADVANCED_ACCOUNTING, 18);
  }

  lemma AdvancedAccountingFirstHalf()
    ensures PairsDiffer(ADVANCED_ACCOUNTING, 0, 18, 0, 18)
  {
  }

  lemma AdvancedAccountingSecondHalf()
    ensures PairsDiffer(ADVANCED_ACCOUNTING, 18, 36, 18, 36)
  {
  }

  lemma AdvancedAccountingAcrossHalves()
    ensures PairsDiffer(ADVANCED_ACCOUNTING, 0, 18, 18, 36)
  {
  }

  lemma ChaptersDistinct1()
    ensures Distinct(CORPORATE_LAW)
  {
    assert PairsDiffer(CORPORATE_LAW, 0, 15, 0, 15);
    DistinctFromHalves(CORPORATE_LAW, 15);
  }

  lemma ChaptersDistinct2()
    ensures Distinct(TAXATION)
  {
    assert PairsDiffer(TAXATION, 0, 28, 0, 28);
    DistinctFromHalves(TAXATION, 28);
  }

  lemma ChaptersDistinct3()
    ensures Distinct(COST_ACCOUNTING)
  {
    assert PairsDiffer(COST_ACCOUNTING, 0, 15, 0, 15);
    DistinctFromHalves(COST_ACCOUNTING, 15);
  }

  lemma ChaptersDistinct4()
    ensures Distinct(AUDITING)
  {
    assert PairsDiffer(AUDITING, 0, 11, 0, 11);
    DistinctFromHalves(AUDITING, 11);
  }

  lemma ChaptersDistinct5()
    ensures Distinct(FM_SM)
  {
    assert PairsDiffer(FM_SM, 0, 19, 0, 19);
    DistinctFromHalves(FM_SM, 19);
  }
}
