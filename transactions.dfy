/**
 * The transaction list (`Transactions.tsx`): the statement-month cut-off, the
 * category options, and the pipeline of filters and the sort the controls
 * select. `new Date(s).getTime()` is the parameter `parse` (`None` for an
 * invalid date), the first-of-month of a timestamp is `monthStart`, and
 * `amount.toString()` is `showAmount`.
 */
module TransactionList {
  import opened Wrappers
  import opened Seqs
  import opened Strings
  import opened Sorting
  import opened Analysis

  /** The flow control: "all" | "spending" | "income". */
  datatype FlowFilter = AllFlows | SpendingOnly | IncomeOnly

  /** The sort control: "none" | "amount-asc" | "amount-desc" | "date-asc" | "date-desc". */
  datatype SortOption = NoSort | AmountAsc | AmountDesc | DateAsc | DateDesc

  /** The state of the controls above the list. */
  datatype Controls = Controls(search: string, category: string, flow: FlowFilter, sort: SortOption)

  /** Newest first. */
  const DEFAULT_SORT: SortOption := DateDesc

  /** The controls when the list first renders. */
  const INITIAL_CONTROLS: Controls := Controls("", "all", AllFlows, DEFAULT_SORT)

  /** `capitaliseFirst`: the first character upper-cased, the rest as it was. */
  function CapitaliseFirst(value: string): (r: string)
    ensures |r| == |value|
    ensures value == [] ==> r == []
    ensures value != [] ==> r[0] == UpperChar(value[0]) && r[1..] == value[1..]
  {
    if value == [] then value else [UpperChar(value[0])] + value[1..]
  }

  /** Capitalising twice is capitalising once, and capitalising changes only case. */
  lemma CapitaliseFirstIdempotent(value: string)
    ensures CapitaliseFirst(CapitaliseFirst(value)) == CapitaliseFirst(value)
    ensures Lower(CapitaliseFirst(value)) == Lower(value)
  {
    if value != [] {
      LowerUpper(value[0]);
      var r := CapitaliseFirst(value);
      assert Lower(r)[0] == Lower(value)[0];
      forall i | 1 <= i < |value| ensures Lower(r)[i] == Lower(value)[i] {
        assert r[i] == value[i];
      }
    }
  }

  /** The category column as a sequence. */
  function CategoryColumn(txs: seq<Transaction>): (cs: seq<string>)
    ensures |cs| == |txs| && forall i :: 0 <= i < |txs| ==> cs[i] == txs[i].category
  {
    seq(|txs|, i requires 0 <= i < |txs| => txs[i].category)
  }

  /**
   * `categories`: every category of the list once, in the order each first
   * appears.
   */
  function Categories(txs: seq<Transaction>): (r: seq<string>)
    ensures Distinct(r)
    ensures forall i :: 0 <= i < |txs| ==> txs[i].category in r
    ensures forall c :: c in r ==> exists i :: 0 <= i < |txs| && txs[i].category == c
    ensures forall i :: 0 <= i < |r| ==> r[i] in CategoryColumn(txs)
    ensures forall i, j :: 0 <= i < j < |r| ==>
      IndexOf(CategoryColumn(txs), r[i]) < IndexOf(CategoryColumn(txs), r[j])
  {
    var column := CategoryColumn(txs);
    DedupeOrder(column);
    CategoriesPresent(txs);
    Dedupe(column)
  }

  lemma CategoriesPresent(txs: seq<Transaction>)
    ensures forall i :: 0 <= i < |txs| ==> txs[i].category in Dedupe(CategoryColumn(txs))
    ensures forall c :: c in Dedupe(CategoryColumn(txs)) ==> exists i :: 0 <= i < |txs| && txs[i].category == c
  {
    var column := CategoryColumn(txs);
    forall i | 0 <= i < |txs| ensures txs[i].category in Dedupe(column) {
      assert column[i] == txs[i].category;
    }
    forall c | c in Dedupe(column) ensures exists i :: 0 <= i < |txs| && txs[i].category == c {
      var i :| 0 <= i < |column| && column[i] == c;
      assert txs[i].category == c;
    }
  }

  // ---------------------------------------------------------------------------
  // Start of the statement month
  // ---------------------------------------------------------------------------

  /** `new Date(...)` comparison `d > latest`: false whenever either side is an invalid date. */
  predicate Later(d: Option<int>, latest: Option<int>) {
    d.Some? && latest.Some? && d.value > latest.value
  }

  /** The `reduce` keeping the later date, from the seed over `txs` in order. */
  function LatestFrom(seed: Option<int>, txs: seq<Transaction>, parse: string -> Option<int>): Option<int>
  {
    if txs == [] then seed
    else
      var acc := LatestFrom(seed, txs[..|txs| - 1], parse);
      var d := parse(txs[|txs| - 1].date);
      if Later(d, acc) then d else acc
  }

  /** A row whose date parses. */
  predicate HasValidDate(parse: string -> Option<int>, tx: Transaction) {
    parse(tx.date).Some?
  }

  /** From a valid seed the reduce finds the largest of the seed and every valid date. */
  lemma {:induction false} LatestFromValid(seed: int, txs: seq<Transaction>, parse: string -> Option<int>)
    ensures LatestFrom(Some(seed), txs, parse).Some?
    ensures LatestFrom(Some(seed), txs, parse).value >= seed
    ensures forall i :: 0 <= i < |txs| && HasValidDate(parse, txs[i]) ==>
      parse(txs[i].date).value <= LatestFrom(Some(seed), txs, parse).value
    ensures LatestFrom(Some(seed), txs, parse).value == seed ||
      exists i :: 0 <= i < |txs| && parse(txs[i].date) == LatestFrom(Some(seed), txs, parse)
  {
    if txs != [] {
      var init := txs[..|txs| - 1];
      LatestFromValid(seed, init, parse);
      var acc := LatestFrom(Some(seed), init, parse);
      var r := LatestFrom(Some(seed), txs, parse);
      forall i | 0 <= i < |txs| && HasValidDate(parse, txs[i])
        ensures parse(txs[i].date).value <= r.value
      {
        if i < |txs| - 1 {
          assert txs[i] == init[i];
        }
      }
      if r != acc {
        assert parse(txs[|txs| - 1].date) == r;
      } else if acc.value != seed {
        var i :| 0 <= i < |init| && parse(init[i].date) == acc;
        assert parse(txs[i].date) == r;
      }
    }
  }

  /** From an invalid seed the reduce never moves: every comparison with an invalid date is false. */
  lemma {:induction false} LatestFromInvalid(txs: seq<Transaction>, parse: string -> Option<int>)
    ensures LatestFrom(None, txs, parse) == None
  {
    if txs != [] {
      LatestFromInvalid(txs[..|txs| - 1], parse);
    }
  }

  /**
   * `startOfMonth` as written: `None` is `null`, `Some(None)` an invalid date
   * object, `Some(Some(t))` the first of the month of the reduce's result.
   * The reduce is seeded with the first row's date.
   */
  function StartOfMonth(txs: seq<Transaction>, parse: string -> Option<int>, monthStart: int -> int)
    : (r: Option<Option<int>>)
    ensures r.None? <==> txs == []
  {
    if txs == [] then None
    else
      var latest := LatestFrom(parse(txs[0].date), txs, parse);
      Some(if latest.Some? then Some(monthStart(latest.value)) else None)
  }

  /** The first valid date of the list, if any. */
  function FirstValidDate(txs: seq<Transaction>, parse: string -> Option<int>): (r: Option<int>)
    ensures r.Some? <==> exists i :: 0 <= i < |txs| && HasValidDate(parse, txs[i])
    ensures r.Some? ==> exists i :: 0 <= i < |txs| && parse(txs[i].date) == r
  {
    if txs == [] then None
    else if parse(txs[0].date).Some? then parse(txs[0].date)
    else
      var r := FirstValidDate(txs[1..], parse);
      assert forall i :: 1 <= i < |txs| ==> txs[i] == txs[1..][i - 1];
      r
  }

  /**
   * `startOfMonth` with the reduce seeded by the first valid date, so that an
   * invalid first date no longer hides the rest of the statement.
   */
  function StartOfMonthCorrected(txs: seq<Transaction>, parse: string -> Option<int>, monthStart: int -> int)
    : Option<Option<int>>
  {
    if txs == [] then None
    else
      var latest := LatestFrom(FirstValidDate(txs, parse), txs, parse);
      Some(if latest.Some? then Some(monthStart(latest.value)) else None)
  }

  /** The largest valid date of the list. */
  predicate IsLatestDate(txs: seq<Transaction>, parse: string -> Option<int>, t: int) {
    (exists i :: 0 <= i < |txs| && parse(txs[i].date) == Some(t)) &&
    forall i :: 0 <= i < |txs| && HasValidDate(parse, txs[i]) ==> parse(txs[i].date).value <= t
  }

  /**
   * The corrected start of month is `null` exactly for an empty list, and
   * otherwise the first of the month of the latest valid date (an invalid
   * date object when no date is valid).
   */
  lemma StartOfMonthCorrectedMeaning(txs: seq<Transaction>, parse: string -> Option<int>, monthStart: int -> int)
    ensures StartOfMonthCorrected(txs, parse, monthStart).None? <==> txs == []
    ensures txs != [] && (forall i :: 0 <= i < |txs| ==> !HasValidDate(parse, txs[i])) ==>
      StartOfMonthCorrected(txs, parse, monthStart) == Some(None)
    ensures (exists i :: 0 <= i < |txs| && HasValidDate(parse, txs[i])) ==>
      exists t :: IsLatestDate(txs, parse, t) && StartOfMonthCorrected(txs, parse, monthStart) == Some(Some(monthStart(t)))
  {
    var first := FirstValidDate(txs, parse);
    if first.Some? {
      LatestFromValid(first.value, txs, parse);
      var t := LatestFrom(first, txs, parse).value;
      var i :| 0 <= i < |txs| && parse(txs[i].date) == first;
      assert IsLatestDate(txs, parse, t);
    } else {
      LatestFromInvalid(txs, parse);
    }
  }

  /** When the first row's date is valid, the written and the corrected start of month agree. */
  lemma StartOfMonthAgrees(txs: seq<Transaction>, parse: string -> Option<int>, monthStart: int -> int)
    requires txs != [] && HasValidDate(parse, txs[0])
    ensures StartOfMonth(txs, parse, monthStart) == StartOfMonthCorrected(txs, parse, monthStart)
  {
  }

  /** As written, an invalid first date makes the start of month an invalid date, whatever follows. */
  lemma StartOfMonthInvalidFirst(txs: seq<Transaction>, parse: string -> Option<int>, monthStart: int -> int)
    requires txs != [] && !HasValidDate(parse, txs[0])
    ensures StartOfMonth(txs, parse, monthStart) == Some(None)
  {
    LatestFromInvalid(txs, parse);
  }

  // ---------------------------------------------------------------------------
  // The filters
  // ---------------------------------------------------------------------------

  /** The statement-month filter; no filtering while the start of month is `null`. */
  predicate KeepMonth(startOfMonth: Option<Option<int>>, parse: string -> Option<int>, tx: Transaction) {
    match startOfMonth
    case None => true
    case Some(m) => parse(tx.date).Some? && m.Some? && parse(tx.date).value >= m.value
  }

  /** The income / spending filter, by the sign of the amount. */
  predicate KeepFlow(flow: FlowFilter, tx: Transaction) {
    match flow
    case AllFlows => true
    case SpendingOnly => tx.amount < 0.0
    case IncomeOnly => tx.amount > 0.0
  }

  /** The search box: a case-insensitive substring of description, category or date, or a substring of the amount. */
  predicate KeepSearch(search: string, showAmount: real -> string, tx: Transaction) {
    search == [] ||
    var term := Lower(search);
    Contains(Lower(tx.description), term) || Contains(Lower(tx.category), term) ||
    Contains(Lower(tx.date), term) || Contains(showAmount(tx.amount), term)
  }

  /** The category drop-down: "all", or exactly the chosen category. */
  predicate KeepCategory(category: string, tx: Transaction) {
    category == "all" || tx.category == category
  }

  /** A row the four filters together keep. */
  predicate Keep(controls: Controls, startOfMonth: Option<Option<int>>, parse: string -> Option<int>,
                 showAmount: real -> string, tx: Transaction)
  {
    KeepMonth(startOfMonth, parse, tx) && KeepFlow(controls.flow, tx) &&
    KeepSearch(controls.search, showAmount, tx) && KeepCategory(controls.category, tx)
  }

  /** The row predicates of the pipeline, as the values `Array.prototype.filter` is given. */
  function InMonth(startOfMonth: Option<Option<int>>, parse: string -> Option<int>): Transaction -> bool
  {
    (tx: Transaction) => KeepMonth(startOfMonth, parse, tx)
  }

  predicate IsSpending(tx: Transaction) { tx.amount < 0.0 }

  predicate IsIncome(tx: Transaction) { tx.amount > 0.0 }

  /** The search callback, given the already lower-cased term. */
  function MatchesSearch(lowerSearch: string, showAmount: real -> string): Transaction -> bool
  {
    (tx: Transaction) => Contains(Lower(tx.description), lowerSearch) || Contains(Lower(tx.category), lowerSearch) ||
          Contains(Lower(tx.date), lowerSearch) || Contains(showAmount(tx.amount), lowerSearch)
  }

  function HasCategory(category: string): Transaction -> bool
  {
    (tx: Transaction) => tx.category == category
  }

  /** The first two filters together. */
  function UpToFlow(flow: FlowFilter, startOfMonth: Option<Option<int>>, parse: string -> Option<int>): Transaction -> bool
  {
    (tx: Transaction) => KeepMonth(startOfMonth, parse, tx) && KeepFlow(flow, tx)
  }

  /** The first three filters together. */
  function UpToSearch(controls: Controls, startOfMonth: Option<Option<int>>, parse: string -> Option<int>,
                      showAmount: real -> string): Transaction -> bool
  {
    (tx: Transaction) => KeepMonth(startOfMonth, parse, tx) && KeepFlow(controls.flow, tx) && KeepSearch(controls.search, showAmount, tx)
  }

  /** All four filters together. */
  function KeepAll(controls: Controls, startOfMonth: Option<Option<int>>, parse: string -> Option<int>,
                   showAmount: real -> string): Transaction -> bool
  {
    (tx: Transaction) => Keep(controls, startOfMonth, parse, showAmount, tx)
  }

  /** The rows the controls select, in list order. */
  function Selected(txs: seq<Transaction>, controls: Controls, startOfMonth: Option<Option<int>>,
                    parse: string -> Option<int>, showAmount: real -> string): (r: seq<Transaction>)
    ensures forall i :: 0 <= i < |r| ==> Keep(controls, startOfMonth, parse, showAmount, r[i])
    ensures forall i :: 0 <= i < |txs| && Keep(controls, startOfMonth, parse, showAmount, txs[i]) ==> txs[i] in r
    ensures multiset(r) <= multiset(txs)
  {
    FilterComplete(txs, KeepAll(controls, startOfMonth, parse, showAmount));
    Filter(txs, KeepAll(controls, startOfMonth, parse, showAmount))
  }

  /** A zero amount passes the flow filter only under "all". */
  lemma ZeroOnlyUnderAll(flow: FlowFilter, tx: Transaction)
    requires tx.amount == 0.0
    ensures KeepFlow(flow, tx) <==> flow == AllFlows
  {
  }

  /** The search ignores the case of the search term. */
  lemma SearchIgnoresCase(search: string, showAmount: real -> string, tx: Transaction)
    ensures KeepSearch(Lower(search), showAmount, tx) == KeepSearch(search, showAmount, tx)
  {
    LowerIdempotent(search);
    assert Lower(search) == [] <==> search == [];
  }

  /** A row whose description holds the search term, in any case, passes the search. */
  lemma SearchFindsDescription(search: string, showAmount: real -> string, tx: Transaction, i: int)
    requires OccursAt(Lower(search), Lower(tx.description), i)
    ensures KeepSearch(search, showAmount, tx)
  {
    WindowContains(Lower(tx.description), Lower(search), i);
  }

  /** Once a start of month is set, only rows with a valid date on or after it survive. */
  lemma MonthFilterNeedsValidDate(startOfMonth: Option<Option<int>>, parse: string -> Option<int>, tx: Transaction)
    requires startOfMonth.Some? && KeepMonth(startOfMonth, parse, tx)
    ensures HasValidDate(parse, tx) && startOfMonth.value.Some? && parse(tx.date).value >= startOfMonth.value.value
  {
  }

  // ---------------------------------------------------------------------------
  // The pipeline
  // ---------------------------------------------------------------------------

  function AmountKey(tx: Transaction): real { tx.amount }

  /** `new Date(tx.date).getTime()`; an invalid date is placed at 0. */
  function DateKey(parse: string -> Option<int>): Transaction -> real
  {
    (tx: Transaction) => (if parse(tx.date).Some? then parse(tx.date).value else 0) as real
  }

  /** The key and direction each sort option asks for; `NoSort` has none. */
  function SortKey(option: SortOption, parse: string -> Option<int>): Transaction -> real
  {
    match option
    case AmountAsc => AmountKey
    case AmountDesc => AmountKey
    case _ => DateKey(parse)
  }

  function SortDirection(option: SortOption): Direction
  {
    match option
    case AmountAsc => Ascending
    case DateAsc => Ascending
    case _ => Descending
  }

  /** The month filter, when it runs, is the first stage. */
  lemma MonthStep(txs: seq<Transaction>, startOfMonth: Option<Option<int>>, parse: string -> Option<int>,
                  after: seq<Transaction>)
    requires after == if startOfMonth.Some? then Filter(txs, InMonth(startOfMonth, parse)) else txs
    ensures after == Filter(txs, InMonth(startOfMonth, parse))
  {
    if startOfMonth.None? {
      FilterAll(txs, InMonth(startOfMonth, parse));
    }
  }

  /** The flow filters, when they run, narrow the month's rows to the first two stages. */
  lemma FlowStep(txs: seq<Transaction>, flow: FlowFilter, startOfMonth: Option<Option<int>>,
                 parse: string -> Option<int>, before: seq<Transaction>, after: seq<Transaction>)
    requires before == Filter(txs, InMonth(startOfMonth, parse))
    requires after == if flow == SpendingOnly then Filter(before, IsSpending)
                      else if flow == IncomeOnly then Filter(before, IsIncome) else before
    ensures after == Filter(txs, UpToFlow(flow, startOfMonth, parse))
  {
    var upTo := UpToFlow(flow, startOfMonth, parse);
    match flow {
      case AllFlows => FilterExt(txs, InMonth(startOfMonth, parse), upTo);
      case SpendingOnly => FilterTwice(txs, InMonth(startOfMonth, parse), IsSpending, upTo);
      case IncomeOnly => FilterTwice(txs, InMonth(startOfMonth, parse), IsIncome, upTo);
    }
  }

  /** The search, when it runs, narrows to the first three stages. */
  lemma SearchStep(txs: seq<Transaction>, controls: Controls, startOfMonth: Option<Option<int>>,
                   parse: string -> Option<int>, showAmount: real -> string,
                   before: seq<Transaction>, after: seq<Transaction>)
    requires before == Filter(txs, UpToFlow(controls.flow, startOfMonth, parse))
    requires after == if controls.search != [] then Filter(before, MatchesSearch(Lower(controls.search), showAmount))
                      else before
    ensures after == Filter(txs, UpToSearch(controls, startOfMonth, parse, showAmount))
  {
    var upTo := UpToSearch(controls, startOfMonth, parse, showAmount);
    if controls.search == [] {
      FilterExt(txs, UpToFlow(controls.flow, startOfMonth, parse), upTo);
    } else {
      FilterTwice(txs, UpToFlow(controls.flow, startOfMonth, parse),
                  MatchesSearch(Lower(controls.search), showAmount), upTo);
    }
  }

  /** The category filter, when it runs, completes the selection. */
  lemma CategoryStep(txs: seq<Transaction>, controls: Controls, startOfMonth: Option<Option<int>>,
                     parse: string -> Option<int>, showAmount: real -> string,
                     before: seq<Transaction>, after: seq<Transaction>)
    requires before == Filter(txs, UpToSearch(controls, startOfMonth, parse, showAmount))
    requires after == if controls.category != "all" then Filter(before, HasCategory(controls.category)) else before
    ensures after == Selected(txs, controls, startOfMonth, parse, showAmount)
  {
    var keep := KeepAll(controls, startOfMonth, parse, showAmount);
    if controls.category == "all" {
      FilterExt(txs, UpToSearch(controls, startOfMonth, parse, showAmount), keep);
    } else {
      FilterTwice(txs, UpToSearch(controls, startOfMonth, parse, showAmount), HasCategory(controls.category), keep);
    }
  }

  /**
   * The `switch` on the sort control: a sorted copy, or the rows as they are
   * for "none".
   */
  method SortRows(rows: seq<Transaction>, option: SortOption, parse: string -> Option<int>)
    returns (sorted: seq<Transaction>)
    ensures multiset(sorted) == multiset(rows)
    ensures option == NoSort ==> sorted == rows
    ensures option != NoSort ==>
      Sorted(sorted, SortKey(option, parse), SortDirection(option)) &&
      forall v :: WithKey(sorted, SortKey(option, parse), v) == WithKey(rows, SortKey(option, parse), v)
  {
    match option {
      case NoSort =>
        sorted := rows;
      case AmountAsc =>
        sorted := SortBy(rows, AmountKey, Ascending);
        SortByStableAll(rows, AmountKey, Ascending);
      case AmountDesc =>
        sorted := SortBy(rows, AmountKey, Descending);
        SortByStableAll(rows, AmountKey, Descending);
      case DateAsc =>
        sorted := SortBy(rows, DateKey(parse), Ascending);
        SortByStableAll(rows, DateKey(parse), Ascending);
      case DateDesc =>
        sorted := SortBy(rows, DateKey(parse), Descending);
        SortByStableAll(rows, DateKey(parse), Descending);
    }
  }

  /**
   * `filteredTransactions`: the four filters applied one after another (each
   * only when its control is set), then a copy sorted as the sort control says.
   * The list it was given is a value and stays as it was.
   */
  method FilteredTransactions(transactions: seq<Transaction>, controls: Controls,
                              startOfMonth: Option<Option<int>>, parse: string -> Option<int>,
                              showAmount: real -> string)
    returns (result: seq<Transaction>)
    ensures multiset(result) == multiset(Selected(transactions, controls, startOfMonth, parse, showAmount))
    ensures controls.sort == NoSort ==> result == Selected(transactions, controls, startOfMonth, parse, showAmount)
    ensures controls.sort != NoSort ==>
      Sorted(result, SortKey(controls.sort, parse), SortDirection(controls.sort)) &&
      forall v :: WithKey(result, SortKey(controls.sort, parse), v) ==
        WithKey(Selected(transactions, controls, startOfMonth, parse, showAmount), SortKey(controls.sort, parse), v)
    ensures forall i :: 0 <= i < |result| ==> Keep(controls, startOfMonth, parse, showAmount, result[i])
  {
    result := transactions;

    // Filter to the statement month
    if startOfMonth.Some? {
      result := Filter(result, InMonth(startOfMonth, parse));
    }
    MonthStep(transactions, startOfMonth, parse, result);

    // Income / spending filter
    ghost var before := result;
    if controls.flow == SpendingOnly {
      result := Filter(result, IsSpending);
    }
    if controls.flow == IncomeOnly {
      result := Filter(result, IsIncome);
    }
    FlowStep(transactions, controls.flow, startOfMonth, parse, before, result);

    // Search
    before := result;
    if controls.search != [] {
      var lowerSearch := Lower(controls.search);
      result := Filter(result, MatchesSearch(lowerSearch, showAmount));
    }
    SearchStep(transactions, controls, startOfMonth, parse, showAmount, before, result);

    // Category
    before := result;
    if controls.category != "all" {
      result := Filter(result, HasCategory(controls.category));
    }
    CategoryStep(transactions, controls, startOfMonth, parse, showAmount, before, result);

    // Sorting
    result := SortRows(result, controls.sort, parse);
    ReorderedRowsKept(result, transactions, controls, startOfMonth, parse, showAmount);
  }

  /** A reordering of the selection holds only rows the filters keep. */
  lemma ReorderedRowsKept(rows: seq<Transaction>, txs: seq<Transaction>, controls: Controls,
                          startOfMonth: Option<Option<int>>, parse: string -> Option<int>, showAmount: real -> string)
    requires multiset(rows) == multiset(Selected(txs, controls, startOfMonth, parse, showAmount))
    ensures forall i :: 0 <= i < |rows| ==> Keep(controls, startOfMonth, parse, showAmount, rows[i])
  {
    var selected := Selected(txs, controls, startOfMonth, parse, showAmount);
    forall i | 0 <= i < |rows| ensures Keep(controls, startOfMonth, parse, showAmount, rows[i]) {
      assert rows[i] in multiset(selected);
    }
  }

  /**
   * The component with the corrected start of month: the category options and
   * the rows shown. Under the initial controls, and with a `monthStart` that
   * never moves a timestamp forward, every row carrying the latest valid date
   * is shown.
   */
  method TransactionsView(transactions: seq<Transaction>, controls: Controls, parse: string -> Option<int>,
                          monthStart: int -> int, showAmount: real -> string)
    returns (categories: seq<string>, rows: seq<Transaction>)
    ensures categories == Categories(transactions)
    ensures multiset(rows) ==
      multiset(Selected(transactions, controls, StartOfMonthCorrected(transactions, parse, monthStart), parse, showAmount))
    ensures controls == INITIAL_CONTROLS && (forall t :: monthStart(t) <= t) ==>
      forall i :: (0 <= i < |transactions| && HasValidDate(parse, transactions[i]) &&
                   IsLatestDate(transactions, parse, parse(transactions[i].date).value)) ==> transactions[i] in rows
  {
    var startOfMonth := StartOfMonthCorrected(transactions, parse, monthStart);
    categories := Categories(transactions);
    rows := FilteredTransactions(transactions, controls, startOfMonth, parse, showAmount);
    if controls == INITIAL_CONTROLS && (forall t :: monthStart(t) <= t) {
      forall i | 0 <= i < |transactions| && HasValidDate(parse, transactions[i]) &&
          IsLatestDate(transactions, parse, parse(transactions[i].date).value)
        ensures transactions[i] in rows
      {
        LatestRowKept(transactions, parse, monthStart, showAmount, i);
        assert transactions[i] in multiset(rows);
      }
    }
  }

  /** The row carrying the latest valid date passes the initial controls. */
  lemma LatestRowKept(txs: seq<Transaction>, parse: string -> Option<int>, monthStart: int -> int,
                      showAmount: real -> string, i: nat)
    requires i < |txs| && HasValidDate(parse, txs[i]) && IsLatestDate(txs, parse, parse(txs[i].date).value)
    requires forall t :: monthStart(t) <= t
    ensures txs[i] in Selected(txs, INITIAL_CONTROLS, StartOfMonthCorrected(txs, parse, monthStart), parse, showAmount)
  {
    var t := parse(txs[i].date).value;
    StartOfMonthCorrectedMeaning(txs, parse, monthStart);
    var t' :| IsLatestDate(txs, parse, t') &&
      StartOfMonthCorrected(txs, parse, monthStart) == Some(Some(monthStart(t')));
    var j :| 0 <= j < |txs| && parse(txs[j].date) == Some(t');
    assert t <= t' && t' <= t;
    assert monthStart(t) <= t;
    var som := StartOfMonthCorrected(txs, parse, monthStart);
    assert KeepMonth(som, parse, txs[i]);
    assert Keep(INITIAL_CONTROLS, som, parse, showAmount, txs[i]);
  }

  /** A statement whose first row has an unparseable date, followed by a valid one. */
  const INVALID_FIRST: seq<Transaction> := [
    Transaction("not a date", "Opening balance", 0.0, "other"),
    Transaction("2024-01-05", "Supermarket", -150.0, "groceries")
  ]

  /**
   * As written, a statement whose first date does not parse shows no rows at
   * all under the initial controls, although its second row has a valid date.
   */
  lemma InvalidFirstDateHidesAll(parse: string -> Option<int>, monthStart: int -> int, showAmount: real -> string)
    requires parse("not a date").None? && parse("2024-01-05").Some?
    ensures HasValidDate(parse, INVALID_FIRST[1])
    ensures Selected(INVALID_FIRST, INITIAL_CONTROLS, StartOfMonth(INVALID_FIRST, parse, monthStart), parse, showAmount) == []
  {
    var som := StartOfMonth(INVALID_FIRST, parse, monthStart);
    StartOfMonthInvalidFirst(INVALID_FIRST, parse, monthStart);
    var r := Selected(INVALID_FIRST, INITIAL_CONTROLS, som, parse, showAmount);
    assert forall i :: 0 <= i < |r| ==> !KeepMonth(som, parse, r[i]);
  }

  /** With the corrected start of month the same statement shows its valid row. */
  lemma InvalidFirstDateCorrected(parse: string -> Option<int>, monthStart: int -> int, showAmount: real -> string)
    requires parse("not a date").None? && parse("2024-01-05").Some?
    requires forall t :: monthStart(t) <= t
    ensures INVALID_FIRST[1] in
      Selected(INVALID_FIRST, INITIAL_CONTROLS, StartOfMonthCorrected(INVALID_FIRST, parse, monthStart), parse, showAmount)
  {
    var t := parse("2024-01-05").value;
    assert IsLatestDate(INVALID_FIRST, parse, t) by {
      assert parse(INVALID_FIRST[1].date) == Some(t);
    }
    LatestRowKept(INVALID_FIRST, parse, monthStart, showAmount, 1);
  }
}
