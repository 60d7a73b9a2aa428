/** The shapes of the analysis the AI returns (`spendbee/src/types/analysis.ts`). */
module Analysis {
  import opened Wrappers

  datatype IncomeCategory = Salary | Freelance | Gifts | Refunds | OtherIncome

  datatype SpendingCategory = Groceries | Dining | Bills | Transport | Health | Shopping | Leisure | OtherSpending

  /** The string literal the type union uses for an income category. */
  function IncomeName(c: IncomeCategory): string {
    match c
    case Salary => "salary"
    case Freelance => "freelance"
    case Gifts => "gifts"
    case Refunds => "refunds"
    case OtherIncome => "other"
  }

  /** The string literal the type union uses for a spending category. */
  function SpendingName(c: SpendingCategory): string {
    match c
    case Groceries => "groceries"
    case Dining => "dining"
    case Bills => "bills"
    case Transport => "transport"
    case Health => "health"
    case Shopping => "shopping"
    case Leisure => "leisure"
    case OtherSpending => "other"
  }

  const INCOME_CATEGORIES: seq<string> :=
    [IncomeName(Salary), IncomeName(Freelance), IncomeName(Gifts), IncomeName(Refunds), IncomeName(OtherIncome)]

  const SPENDING_CATEGORIES: seq<string> :=
    [SpendingName(Groceries), SpendingName(Dining), SpendingName(Bills), SpendingName(Transport),
     SpendingName(Health), SpendingName(Shopping), SpendingName(Leisure), SpendingName(OtherSpending)]

  /** Reads a category string as an income category, as `INCOME_CATEGORIES.includes(s as IncomeCategory)` does. */
  function IncomeCategoryOf(s: string): (r: Option<IncomeCategory>)
    ensures r.Some? <==> s in INCOME_CATEGORIES
    ensures r.Some? ==> IncomeName(r.value) == s
  {
    if s == "salary" then Some(Salary)
    else if s == "freelance" then Some(Freelance)
    else if s == "gifts" then Some(Gifts)
    else if s == "refunds" then Some(Refunds)
    else if s == "other" then Some(OtherIncome)
    else None
  }

  /** Reads a category string as a spending category. */
  function SpendingCategoryOf(s: string): (r: Option<SpendingCategory>)
    ensures r.Some? <==> s in SPENDING_CATEGORIES
    ensures r.Some? ==> SpendingName(r.value) == s
  {
    if s == "groceries" then Some(Groceries)
    else if s == "dining" then Some(Dining)
    else if s == "bills" then Some(Bills)
    else if s == "transport" then Some(Transport)
    else if s == "health" then Some(Health)
    else if s == "shopping" then Some(Shopping)
    else if s == "leisure" then Some(Leisure)
    else if s == "other" then Some(OtherSpending)
    else None
  }

  /** Every category reads back as itself: the names are distinct within each union. */
  lemma CategoryNamesRoundTrip(i: IncomeCategory, s: SpendingCategory)
    ensures IncomeCategoryOf(IncomeName(i)) == Some(i)
    ensures SpendingCategoryOf(SpendingName(s)) == Some(s)
  {
  }

  /**
   * One row of the statement. The category is a plain string: the server
   * passes the AI's JSON through without checking it against the unions.
   * Sign convention: negative amounts are spending, positive ones income.
   */
  datatype Transaction = Transaction(date: string, description: string, amount: real, category: string)

  datatype SpendBeeAnalysis = SpendBeeAnalysis(
    currency: string,
    initial_balance: real,
    final_balance: real,
    total_income: real,
    total_spending: real,
    summary: string,
    insights: seq<string>,
    tips: seq<string>,
    transactions: seq<Transaction>)

  /** `Math.abs`. */
  function Abs(x: real): (r: real)
    ensures r >= 0.0 && (r == x || r == -x)
  {
    if x < 0.0 then -x else x
  }

  /** The sum of the positive amounts, as `total_income` is meant to be. */
  function PositiveSum(txs: seq<Transaction>): real
  {
    if txs == [] then 0.0
    else PositiveSum(txs[..|txs| - 1]) + (if txs[|txs| - 1].amount > 0.0 then txs[|txs| - 1].amount else 0.0)
  }

  /** The sum of the negative amounts, as `total_spending` is meant to be. */
  function NegativeSum(txs: seq<Transaction>): real
  {
    if txs == [] then 0.0
    else NegativeSum(txs[..|txs| - 1]) + (if txs[|txs| - 1].amount < 0.0 then txs[|txs| - 1].amount else 0.0)
  }

  /** The analysis the end-to-end tests replay in place of the AI's answer. */
  const MOCK_ANALYSIS: SpendBeeAnalysis := SpendBeeAnalysis(
    "\U{A3}", 1000.0, 850.0, 500.0, -650.0,
    "Your finances are stable with moderate spending and regular income.",
    ["Most spending is on groceries and dining", "Income appears consistent", "No unusual transactions detected"],
    ["Reduce dining out to save more", "Set aside savings after income", "Monitor discretionary spending"],
    [Transaction("2024-01-01", "Salary", 500.0, "salary"),
     Transaction("2024-01-05", "Supermarket", -150.0, "groceries")])
}
