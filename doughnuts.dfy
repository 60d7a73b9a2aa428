/**
 * The income and spending doughnuts (`IncomeSpendingDoughnuts.tsx`): the
 * per-category totals, the colour of each slice and the share and angle
 * bookkeeping of `createHexagonSegments`. Trigonometry and SVG path text
 * are not modelled; a segment records the angles its path is drawn from.
 */
module Doughnuts {
  import opened Seqs
  import opened Tally
  import opened Analysis

  /** A row that counts towards the income chart. */
  predicate IsIncomeRow(tx: Transaction) {
    tx.amount > 0.0 && tx.category in INCOME_CATEGORIES
  }

  /** A row that counts towards the spending chart. */
  predicate IsSpendingRow(tx: Transaction) {
    tx.amount < 0.0 && tx.category in SPENDING_CATEGORIES
  }

  function IncomeEntry(tx: Transaction): Entry {
    (tx.category, tx.amount)
  }

  function SpendingEntry(tx: Transaction): Entry {
    (tx.category, Abs(tx.amount))
  }

  /** The (category, amount) pairs the income chart adds up: the income rows, in order. */
  function IncomeContributions(txs: seq<Transaction>): (cs: seq<Entry>)
    ensures |cs| <= |txs|
    ensures forall i :: 0 <= i < |cs| ==> cs[i].0 in INCOME_CATEGORIES && cs[i].1 > 0.0
  {
    Contributions(txs, IsIncomeRow, IncomeEntry)
  }

  /** The (category, magnitude) pairs the spending chart adds up: the spending rows, in order. */
  function SpendingContributions(txs: seq<Transaction>): (cs: seq<Entry>)
    ensures |cs| <= |txs|
    ensures forall i :: 0 <= i < |cs| ==> cs[i].0 in SPENDING_CATEGORIES && cs[i].1 > 0.0
  {
    Contributions(txs, IsSpendingRow, SpendingEntry)
  }

  lemma IncomeContributionsAppend(txs: seq<Transaction>, tx: Transaction)
    ensures IncomeContributions(txs + [tx]) ==
      IncomeContributions(txs) + (if IsIncomeRow(tx) then [(tx.category, tx.amount)] else [])
  {
    ContributionsAppend(txs, tx, IsIncomeRow, IncomeEntry);
  }

  lemma SpendingContributionsAppend(txs: seq<Transaction>, tx: Transaction)
    ensures SpendingContributions(txs + [tx]) ==
      SpendingContributions(txs) + (if IsSpendingRow(tx) then [(tx.category, Abs(tx.amount))] else [])
  {
    ContributionsAppend(txs, tx, IsSpendingRow, SpendingEntry);
  }

  /**
   * The `forEach` of the component: positive rows with an income category are
   * added to `incomeTotals`, negative rows with a spending category add their
   * magnitude to `spendingTotals`; every other row (zero amounts included) is ignored.
   */
  method CategoryTotals(transactions: seq<Transaction>) returns (incomeTotals: Table, spendingTotals: Table)
    ensures incomeTotals == Group(IncomeContributions(transactions))
    ensures spendingTotals == Group(SpendingContributions(transactions))
  {
    incomeTotals, spendingTotals := [], [];
    var i := 0;
    EmptyPrefix(transactions);
    while i < |transactions|
      invariant 0 <= i <= |transactions|
      invariant incomeTotals == Group(IncomeContributions(transactions[..i]))
      invariant spendingTotals == Group(SpendingContributions(transactions[..i]))
    {
      PrefixStep(transactions, i);
      incomeTotals, spendingTotals := AddRow(incomeTotals, spendingTotals, transactions[i]);
      i := i + 1;
    }
    assert transactions[..i] == transactions;
  }

  lemma EmptyPrefix(txs: seq<Transaction>)
    ensures Group(IncomeContributions(txs[..0])) == [] && Group(SpendingContributions(txs[..0])) == []
  {
    assert txs[..0] == [];
    assert |IncomeContributions([])| == 0 && |SpendingContributions([])| == 0;
  }

  lemma PrefixStep(txs: seq<Transaction>, i: nat)
    requires i < |txs|
    ensures Group(IncomeContributions(txs[..i + 1])) ==
      if IsIncomeRow(txs[i]) then Add(Group(IncomeContributions(txs[..i])), txs[i].category, txs[i].amount)
      else Group(IncomeContributions(txs[..i]))
    ensures Group(SpendingContributions(txs[..i + 1])) ==
      if IsSpendingRow(txs[i]) then Add(Group(SpendingContributions(txs[..i])), txs[i].category, Abs(txs[i].amount))
      else Group(SpendingContributions(txs[..i]))
  {
    assert txs[..i + 1] == txs[..i] + [txs[i]];
    IncomeStep(txs[..i], txs[i]);
    SpendingStep(txs[..i], txs[i]);
  }

  /**
   * The body of the `forEach`: a positive row with an income category is added
   * to the income table, a negative row with a spending category adds its
   * magnitude to the spending table, and any other row changes neither.
   */
  method AddRow(income: Table, spending: Table, tx: Transaction) returns (income': Table, spending': Table)
    ensures income' == if IsIncomeRow(tx) then Add(income, tx.category, tx.amount) else income
    ensures spending' == if IsSpendingRow(tx) then Add(spending, tx.category, Abs(tx.amount)) else spending
  {
    income', spending' := income, spending;
    if tx.amount > 0.0 && tx.category in INCOME_CATEGORIES {
      income' := Add(income, tx.category, tx.amount);
    } else if tx.amount < 0.0 && tx.category in SPENDING_CATEGORIES {
      spending' := Add(spending, tx.category, Abs(tx.amount));
    }
  }

  /** One row of the `forEach`: what it adds to the income table is exactly its contribution. */
  lemma IncomeStep(txs: seq<Transaction>, tx: Transaction)
    ensures Group(IncomeContributions(txs + [tx])) ==
      if IsIncomeRow(tx) then Add(Group(IncomeContributions(txs)), tx.category, tx.amount)
      else Group(IncomeContributions(txs))
  {
    IncomeContributionsAppend(txs, tx);
    if IsIncomeRow(tx) {
      GroupAppend(IncomeContributions(txs), tx.category, tx.amount);
    } else {
      assert IncomeContributions(txs + [tx]) == IncomeContributions(txs);
    }
  }

  /** One row of the `forEach`: what it adds to the spending table is exactly its contribution. */
  lemma SpendingStep(txs: seq<Transaction>, tx: Transaction)
    ensures Group(SpendingContributions(txs + [tx])) ==
      if IsSpendingRow(tx) then Add(Group(SpendingContributions(txs)), tx.category, Abs(tx.amount))
      else Group(SpendingContributions(txs))
  {
    SpendingContributionsAppend(txs, tx);
    if IsSpendingRow(tx) {
      GroupAppend(SpendingContributions(txs), tx.category, Abs(tx.amount));
    } else {
      assert SpendingContributions(txs + [tx]) == SpendingContributions(txs);
    }
  }

  /**
   * The income table holds each key once, only income categories, only
   * positive values, and its values add up to all the contributions.
   */
  lemma IncomeFacts(txs: seq<Transaction>)
    ensures Valid(Group(IncomeContributions(txs)))
    ensures forall k :: k in Keys(Group(IncomeContributions(txs))) ==> k in INCOME_CATEGORIES
    ensures forall i :: 0 <= i < |Group(IncomeContributions(txs))| ==> Group(IncomeContributions(txs))[i].1 > 0.0
    ensures Tally.Total(Group(IncomeContributions(txs))) == SumAll(IncomeContributions(txs))
  {
    var cs := IncomeContributions(txs);
    GroupPositive(cs);
    TotalGroup(cs);
    forall k | k in Keys(Group(cs)) ensures k in INCOME_CATEGORIES {
      var j := IndexOf(Keys(cs), k);
    }
  }


  /**
   * The spending table holds each key once, only spending categories, only
   * positive values, and its values add up to all the contributions.
   */
  lemma SpendingFacts(txs: seq<Transaction>)
    ensures Valid(Group(SpendingContributions(txs)))
    ensures forall k :: k in Keys(Group(SpendingContributions(txs))) ==> k in SPENDING_CATEGORIES
    ensures forall i :: 0 <= i < |Group(SpendingContributions(txs))| ==> Group(SpendingContributions(txs))[i].1 > 0.0
    ensures Tally.Total(Group(SpendingContributions(txs))) == SumAll(SpendingContributions(txs))
  {
    var cs := SpendingContributions(txs);
    GroupPositive(cs);
    TotalGroup(cs);
    forall k | k in Keys(Group(cs)) ensures k in SPENDING_CATEGORIES {
      var j := IndexOf(Keys(cs), k);
    }
  }


  /** A zero amount is neither income nor spending: it leaves both tables as they were. */
  lemma ZeroAmountIgnored(txs: seq<Transaction>, tx: Transaction)
    requires tx.amount == 0.0
    ensures Group(IncomeContributions(txs + [tx])) == Group(IncomeContributions(txs))
    ensures Group(SpendingContributions(txs + [tx])) == Group(SpendingContributions(txs))
  {
    IncomeStep(txs, tx);
    SpendingStep(txs, tx);
  }

  /**
   * When every positive row carries an income category, the income chart's
   * slices add up to all income (`total_income` as the prompt defines it).
   */
  lemma {:induction false} IncomeChartMatchesStatement(txs: seq<Transaction>)
    requires forall i :: 0 <= i < |txs| && txs[i].amount > 0.0 ==> txs[i].category in INCOME_CATEGORIES
    ensures Tally.Total(Group(IncomeContributions(txs))) == PositiveSum(txs)
  {
    IncomeSumAll(txs);
    TotalGroup(IncomeContributions(txs));
  }

  lemma {:induction false} IncomeSumAll(txs: seq<Transaction>)
    requires forall i :: 0 <= i < |txs| && txs[i].amount > 0.0 ==> txs[i].category in INCOME_CATEGORIES
    ensures SumAll(IncomeContributions(txs)) == PositiveSum(txs)
  {
    if txs != [] {
      var init, tx := txs[..|txs| - 1], txs[|txs| - 1];
      assert txs == init + [tx];
      assert forall i :: 0 <= i < |init| ==> init[i] == txs[i];
      IncomeSumAll(init);
      IncomeContributionsAppend(init, tx);
      assert IsIncomeRow(tx) <==> tx.amount > 0.0;
      var extra := if IsIncomeRow(tx) then [(tx.category, tx.amount)] else [];
      SumAllAppend(IncomeContributions(init), extra);
    }
  }

  /**
   * When every negative row carries a spending category, the spending chart's
   * slices add up to the magnitude of all spending.
   */
  lemma {:induction false} SpendingChartMatchesStatement(txs: seq<Transaction>)
    requires forall i :: 0 <= i < |txs| && txs[i].amount < 0.0 ==> txs[i].category in SPENDING_CATEGORIES
    ensures Tally.Total(Group(SpendingContributions(txs))) == -NegativeSum(txs)
  {
    SpendingSumAll(txs);
    TotalGroup(SpendingContributions(txs));
  }

  lemma {:induction false} SpendingSumAll(txs: seq<Transaction>)
    requires forall i :: 0 <= i < |txs| && txs[i].amount < 0.0 ==> txs[i].category in SPENDING_CATEGORIES
    ensures SumAll(SpendingContributions(txs)) == -NegativeSum(txs)
  {
    if txs != [] {
      var init, tx := txs[..|txs| - 1], txs[|txs| - 1];
      assert txs == init + [tx];
      assert forall i :: 0 <= i < |init| ==> init[i] == txs[i];
      SpendingSumAll(init);
      SpendingContributionsAppend(init, tx);
      assert IsSpendingRow(tx) <==> tx.amount < 0.0;
      var extra := if IsSpendingRow(tx) then [(tx.category, Abs(tx.amount))] else [];
      SumAllAppend(SpendingContributions(init), extra);
    }
  }

  lemma SumAllAppend(cs: seq<Entry>, ds: seq<Entry>)
    requires |ds| <= 1
    ensures SumAll(cs + ds) == SumAll(cs) + (if ds == [] then 0.0 else ds[0].1)
  {
    if ds == [] {
      assert cs + ds == cs;
    } else {
      assert (cs + ds)[..|cs|] == cs;
    }
  }

  /** A slice colour: fill, border and name. */
  datatype Colour = Colour(bg: string, border: string, name: string)

  const COLORS: seq<Colour> := [
    Colour("rgba(245, 158, 11, 0.85)", "#f59e0b", "Amber"),
    Colour("rgba(16, 185, 129, 0.85)", "#10b981", "Green"),
    Colour("rgba(239, 68, 68, 0.85)", "#ef4444", "Red"),
    Colour("rgba(59, 130, 246, 0.85)", "#3b82f6", "Blue"),
    Colour("rgba(168, 85, 247, 0.85)", "#a855f7", "Purple"),
    Colour("rgba(236, 72, 153, 0.85)", "#ec4899", "Pink"),
    Colour("rgba(20, 184, 166, 0.85)", "#14b8a6", "Teal"),
    Colour("rgba(251, 146, 60, 0.85)", "#fb923c", "Orange")
  ]

  /** One entry of the data handed to the chart. */
  datatype Slice = Slice(category: string, value: real, colour: Colour)

  /**
   * `Object.entries(totals).map(([label, value], i) => ...)`: one slice per
   * table entry, in table order, coloured by its position modulo the palette size.
   */
  function ChartData(totals: Table): (data: seq<Slice>)
    ensures |data| == |totals|
    ensures forall i :: 0 <= i < |data| ==> data[i].category == totals[i].0 && data[i].value == totals[i].1
    ensures forall i :: 0 <= i < |data| ==> data[i].colour == COLORS[i % |COLORS|]
  {
    seq(|totals|, i requires 0 <= i < |totals| => Slice(totals[i].0, totals[i].1, COLORS[i % |COLORS|]))
  }

  /** No two palette entries share a name. */
  lemma PaletteDistinct()
    ensures forall i, j :: 0 <= i < j < |COLORS| ==> COLORS[i].name != COLORS[j].name
  {
    forall i, j | 0 <= i < j < |COLORS|
      ensures COLORS[i].name != COLORS[j].name
    {
      if i == 0 { assert COLORS[i].name[0] == 'A'; assert COLORS[j].name[0] != 'A'; }
      else if i == 1 { assert COLORS[i].name[0] == 'G'; assert COLORS[j].name[0] != 'G'; }
      else if i == 2 { assert COLORS[i].name[0] == 'R'; assert COLORS[j].name[0] != 'R'; }
      else if i == 3 { assert COLORS[i].name[0] == 'B'; assert COLORS[j].name[0] != 'B'; }
      else if i == 4 { assert COLORS[i].name[1] == 'u'; assert COLORS[j].name[1] != 'u'; }
      else if i == 5 { assert COLORS[i].name[0] == 'P'; assert COLORS[j].name[0] != 'P'; }
      else if i == 6 { assert COLORS[i].name[0] == 'T'; assert COLORS[j].name[0] != 'T'; }
    }
  }

  /**
   * Colours cycle through the palette: any eight consecutive slices have eight
   * different colours, and the ninth repeats the first.
   */
  lemma ChartColoursCycle(totals: Table)
    ensures var data := ChartData(totals);
      (forall i, j :: 0 <= i < j < |data| && j - i < |COLORS| ==> data[i].colour != data[j].colour) &&
      (forall i :: 0 <= i < |data| - |COLORS| ==> data[i].colour == data[i + |COLORS|].colour)
  {
    var data := ChartData(totals);
    PaletteDistinct();
    forall i, j | 0 <= i < j < |data| && j - i < |COLORS|
      ensures data[i].colour != data[j].colour
    {
      assert i % 8 != j % 8;
    }
    forall i | 0 <= i < |data| - |COLORS|
      ensures data[i].colour == data[i + |COLORS|].colour
    {
      assert (i + 8) % 8 == i % 8;
    }
  }

  const PI: real := 3.141592653589793
  const FULL_TURN: real := 2.0 * PI
  /** Segments start at the top of the chart. */
  const START_ANGLE: real := -PI / 2.0
  /** The smallest angle a segment is drawn with, so that tiny shares stay visible. */
  const MIN_SLICE: real := 0.01

  function Max(a: real, b: real): real {
    if a >= b then a else b
  }

  /** `data.reduce((sum, item) => sum + item.value, 0)`. */
  function SliceTotal(data: seq<Slice>): real
  {
    if data == [] then 0.0 else SliceTotal(data[..|data| - 1]) + data[|data| - 1].value
  }

  /** The fraction of the chart a value takes: 0 when everything is 0. */
  function Share(value: real, total: real): real {
    if total == 0.0 then 0.0 else value / total
  }

  /**
   * The angle a segment sweeps: a full turn for a share of 1 or more, otherwise
   * its share of a turn but never less than the minimum slice.
   */
  function Sweep(share: real): (a: real)
    ensures 0.0 < a <= FULL_TURN
    ensures share <= 1.0 ==> a >= share * FULL_TURN
    ensures a == share * FULL_TURN || a == MIN_SLICE || a == FULL_TURN
  {
    if share >= 1.0 then FULL_TURN else Max(share * FULL_TURN, MIN_SLICE)
  }

  /** How a segment's path is drawn: a whole circle, or a wedge with the SVG large-arc flag. */
  datatype Shape = FullCircle | Wedge(largeArcFlag: int)

  /**
   * One segment. The source keeps the path string and the label position; the
   * model keeps the angles both are computed from.
   */
  datatype Segment = Segment(
    colour: Colour,
    category: string,
    value: real,
    percentage: real,
    startAngle: real,
    endAngle: real,
    labelAngle: real,
    shape: Shape)

  /** The total angle swept by the first `n` segments. */
  function SweepsBefore(data: seq<Slice>, total: real, n: nat): real
    requires n <= |data|
  {
    if n == 0 then 0.0 else SweepsBefore(data, total, n - 1) + Sweep(Share(data[n - 1].value, total))
  }

  /** Segment `i` in closed form: it starts where the sweeps of all earlier segments end. */
  function SegmentAt(data: seq<Slice>, total: real, i: nat): Segment
    requires i < |data|
  {
    var share := Share(data[i].value, total);
    var start := START_ANGLE + SweepsBefore(data, total, i);
    var sweep := Sweep(share);
    Segment(data[i].colour, data[i].category, data[i].value, share * 100.0, start, start + sweep,
            start + sweep / 2.0,
            if share >= 1.0 then FullCircle else Wedge(if sweep > PI then 1 else 0))
  }

  /** The six hexagon vertex angles, a sixth of a turn apart from the top. */
  method HexagonAngles() returns (hexAngles: seq<real>)
    ensures |hexAngles| == 6 && hexAngles[0] == START_ANGLE
    ensures forall i :: 0 <= i < 5 ==> hexAngles[i + 1] == hexAngles[i] + PI / 3.0
    ensures hexAngles[5] + PI / 3.0 == hexAngles[0] + FULL_TURN
  {
    hexAngles := [];
    var i := 0;
    while i < 6
      invariant 0 <= i <= 6 && |hexAngles| == i
      invariant forall j :: 0 <= j < i ==> hexAngles[j] == (PI / 3.0) * j as real - PI / 2.0
    {
      hexAngles := hexAngles + [(PI / 3.0) * i as real - PI / 2.0];
      i := i + 1;
    }
  }

  /** Each segment sweeps forward by at most a full turn, with the large-arc flag set exactly past half a turn. */
  lemma SegmentAtBounds(data: seq<Slice>, total: real, i: nat)
    requires i < |data|
    ensures SegmentAt(data, total, i).startAngle < SegmentAt(data, total, i).endAngle
    ensures SegmentAt(data, total, i).endAngle <= SegmentAt(data, total, i).startAngle + FULL_TURN
    ensures SegmentAt(data, total, i).shape.Wedge? ==>
      (SegmentAt(data, total, i).shape.largeArcFlag == 1 <==>
       SegmentAt(data, total, i).endAngle - SegmentAt(data, total, i).startAngle > PI)
  {
    var sweep := Sweep(Share(data[i].value, total));
    assert 0.0 < sweep <= FULL_TURN;
  }

  /** Consecutive segments meet: each starts where the previous one ends. */
  lemma SegmentsMeet(data: seq<Slice>, total: real, i: nat)
    requires i + 1 < |data|
    ensures SegmentAt(data, total, i + 1).startAngle == SegmentAt(data, total, i).endAngle
  {
  }

  /**
   * `createHexagonSegments` without the trigonometry: the six hexagon vertex
   * angles and one segment per data item, advancing the running angle.
   */
  method CreateHexagonSegments(data: seq<Slice>) returns (segments: seq<Segment>, hexAngles: seq<real>)
    ensures |hexAngles| == 6 && hexAngles[0] == START_ANGLE
    ensures forall i :: 0 <= i < 5 ==> hexAngles[i + 1] == hexAngles[i] + PI / 3.0
    ensures hexAngles[5] + PI / 3.0 == hexAngles[0] + FULL_TURN
    ensures |segments| == |data|
    ensures forall i :: 0 <= i < |data| ==> segments[i] == SegmentAt(data, SliceTotal(data), i)
    ensures |segments| > 0 ==> segments[0].startAngle == START_ANGLE
    ensures forall i :: 0 <= i < |segments| - 1 ==> segments[i + 1].startAngle == segments[i].endAngle
    ensures forall i :: 0 <= i < |segments| ==>
      segments[i].startAngle < segments[i].endAngle <= segments[i].startAngle + FULL_TURN
    ensures forall i :: 0 <= i < |segments| ==>
      (segments[i].shape.Wedge? ==> (segments[i].shape.largeArcFlag == 1 <==> segments[i].endAngle - segments[i].startAngle > PI))
  {
    var total := SliceTotal(data);
    hexAngles := HexagonAngles();
    segments := SegmentsFrom(data, total);
    forall i | 0 <= i < |segments| - 1
      ensures segments[i + 1].startAngle == segments[i].endAngle
    {
      SegmentsMeet(data, total, i);
    }
    forall i | 0 <= i < |segments|
      ensures segments[i].startAngle < segments[i].endAngle <= segments[i].startAngle + FULL_TURN
      ensures segments[i].shape.Wedge? ==>
        (segments[i].shape.largeArcFlag == 1 <==> segments[i].endAngle - segments[i].startAngle > PI)
    {
      SegmentAtBounds(data, total, i);
    }
  }

  /** The `forEach` over the data: one segment per item, the running angle advanced by each sweep. */
  method SegmentsFrom(data: seq<Slice>, total: real) returns (segments: seq<Segment>)
    requires total == SliceTotal(data)
    ensures |segments| == |data|
    ensures forall i :: 0 <= i < |data| ==> segments[i] == SegmentAt(data, total, i)
  {
    segments := [];
    var currentAngle := START_ANGLE;
    var i := 0;
    while i < |data|
      invariant 0 <= i <= |data| && |segments| == i
      invariant forall j :: 0 <= j < i ==> segments[j] == SegmentAt(data, total, j)
      invariant currentAngle == START_ANGLE + SweepsBefore(data, total, i)
    {
      var item := data[i];
      var percentage := if total == 0.0 then 0.0 else item.value / total;
      var segmentAngle := if percentage >= 1.0 then 2.0 * PI else Max(percentage * 2.0 * PI, MIN_SLICE);
      assert percentage == Share(item.value, total) && segmentAngle == Sweep(percentage);
      var endAngle := currentAngle + segmentAngle;
      var labelAngle := currentAngle + segmentAngle / 2.0;
      var shape;
      if percentage >= 1.0 {
        shape := FullCircle;
      } else {
        var largeArcFlag := if segmentAngle > PI then 1 else 0;
        shape := Wedge(largeArcFlag);
      }
      segments := segments + [Segment(item.colour, item.category, item.value, percentage * 100.0,
                                      currentAngle, endAngle, labelAngle, shape)];
      currentAngle := endAngle;
      i := i + 1;
    }
  }

  /** The sum of the shares of the first `n` items. */
  function ShareSum(data: seq<Slice>, total: real, n: nat): real
    requires n <= |data|
  {
    if n == 0 then 0.0 else ShareSum(data, total, n - 1) + Share(data[n - 1].value, total)
  }

  /** The sum of the percentages shown on a run of segments. */
  function PercentTotal(segments: seq<Segment>): real
  {
    if segments == [] then 0.0 else PercentTotal(segments[..|segments| - 1]) + segments[|segments| - 1].percentage
  }

  /** Shares of a prefix add up to the prefix's part of the total. */
  lemma {:induction false} ShareSumScaled(data: seq<Slice>, total: real, n: nat)
    requires total != 0.0 && n <= |data|
    ensures ShareSum(data, total, n) * total == SliceTotal(data[..n])
  {
    if n > 0 {
      ShareSumScaled(data, total, n - 1);
      assert data[..n][..n - 1] == data[..n - 1];
      assert Share(data[n - 1].value, total) * total == data[n - 1].value;
    }
  }

  lemma {:induction false} PercentTotalPrefix(data: seq<Slice>, segments: seq<Segment>, n: nat)
    requires |segments| == |data| && n <= |data|
    requires forall i :: 0 <= i < |data| ==> segments[i] == SegmentAt(data, SliceTotal(data), i)
    ensures PercentTotal(segments[..n]) == 100.0 * ShareSum(data, SliceTotal(data), n)
  {
    if n > 0 {
      PercentTotalPrefix(data, segments, n - 1);
      assert segments[..n][..n - 1] == segments[..n - 1];
    }
  }

  /** Whenever the chart has a non-zero total, the percentages shown add up to 100. */
  lemma {:induction false} PercentagesSumTo100(data: seq<Slice>, segments: seq<Segment>)
    requires |segments| == |data| && SliceTotal(data) != 0.0
    requires forall i :: 0 <= i < |data| ==> segments[i] == SegmentAt(data, SliceTotal(data), i)
    ensures PercentTotal(segments) == 100.0
  {
    SharesSumToOne(data);
    assert segments[..|segments|] == segments;
    PercentTotalPrefix(data, segments, |data|);
  }

  /** With a non-zero total, the shares of all the items add up to one. */
  lemma SharesSumToOne(data: seq<Slice>)
    requires SliceTotal(data) != 0.0
    ensures ShareSum(data, SliceTotal(data), |data|) == 1.0
  {
    var total, n := SliceTotal(data), |data|;
    var shares := ShareSum(data, total, n);
    ShareSumScaled(data, total, n);
    assert data[..n] == data;
    assert shares * total == total;
    UnitFromScaled(shares, total);
  }

  lemma UnitFromScaled(s: real, total: real)
    requires total != 0.0 && s * total == total
    ensures s == 1.0
  {
    assert (s - 1.0) * total == 0.0;
  }

  lemma {:induction false} SliceTotalAppend(a: seq<Slice>, b: seq<Slice>)
    ensures SliceTotal(a + b) == SliceTotal(a) + SliceTotal(b)
    decreases |b|
  {
    if b == [] {
      assert a + b == a;
    } else {
      SliceTotalAppend(a, b[..|b| - 1]);
      assert (a + b)[..|a + b| - 1] == a + b[..|b| - 1];
    }
  }

  predicate NonNegative(data: seq<Slice>) {
    forall k :: 0 <= k < |data| ==> data[k].value >= 0.0
  }

  /** With no negative values the total is 0 exactly when every value is 0, and bounds each value. */
  lemma {:induction false} SliceTotalNonNegative(data: seq<Slice>)
    requires NonNegative(data)
    ensures SliceTotal(data) >= 0.0
    ensures SliceTotal(data) == 0.0 <==> forall k :: 0 <= k < |data| ==> data[k].value == 0.0
    ensures forall k :: 0 <= k < |data| ==> data[k].value <= SliceTotal(data)
  {
    if data != [] {
      var init := data[..|data| - 1];
      SliceTotalNonNegative(init);
      assert forall k :: 0 <= k < |init| ==> init[k] == data[k];
    }
  }

  /** Total of everything except item `i`. */
  lemma SliceTotalWithout(data: seq<Slice>, i: nat)
    requires i < |data|
    ensures SliceTotal(data) == data[i].value + SliceTotal(data[..i] + data[i + 1..])
  {
    var before, after := data[..i], data[i + 1..];
    var upTo := data[..i + 1];
    assert upTo == before + [data[i]];
    assert data == upTo + after;
    SliceTotalAppend(upTo, after);
    SliceTotalAppend(before, after);
    assert SliceTotal(upTo) == SliceTotal(before) + data[i].value by {
      assert upTo[..|upTo| - 1] == before;
    }
  }

  /** The items other than `i`, in order. */
  function Others(data: seq<Slice>, i: nat): (rest: seq<Slice>)
    requires i < |data|
    ensures |rest| == |data| - 1
    ensures forall k :: 0 <= k < i ==> rest[k] == data[k]
    ensures forall k :: i <= k < |rest| ==> rest[k] == data[k + 1]
  {
    data[..i] + data[i + 1..]
  }

  lemma OthersZero(data: seq<Slice>, i: nat)
    requires i < |data| && NonNegative(data)
    ensures NonNegative(Others(data, i))
    ensures (forall k :: 0 <= k < |data| - 1 ==> Others(data, i)[k].value == 0.0) <==>
      (forall k :: 0 <= k < |data| && k != i ==> data[k].value == 0.0)
  {
    var rest := Others(data, i);
    if forall k :: 0 <= k < |rest| ==> rest[k].value == 0.0 {
      forall k | 0 <= k < |data| && k != i ensures data[k].value == 0.0 {
        if k < i { assert rest[k] == data[k]; } else { assert rest[k - 1] == data[k]; }
      }
    }
  }

  lemma ShareAtLeastOne(v: real, total: real)
    requires total > 0.0
    ensures Share(v, total) >= 1.0 <==> v >= total
  {
    if v >= total {
      assert v / total >= total / total;
    } else {
      assert v / total < total / total;
    }
  }

  /**
   * With non-negative values and a positive total, a segment is drawn as a
   * whole circle exactly when every other item is 0.
   */
  lemma {:induction false} FullCircleIffAlone(data: seq<Slice>, i: nat)
    requires i < |data| && NonNegative(data) && SliceTotal(data) > 0.0
    ensures SegmentAt(data, SliceTotal(data), i).shape == FullCircle <==>
      forall k :: 0 <= k < |data| && k != i ==> data[k].value == 0.0
  {
    var total := SliceTotal(data);
    SliceTotalWithout(data, i);
    assert data[..i] + data[i + 1..] == Others(data, i);
    OthersZero(data, i);
    SliceTotalNonNegative(Others(data, i));
    ShareAtLeastOne(data[i].value, total);
  }

  lemma ShareAtMostOne(v: real, total: real)
    requires 0.0 <= v <= total && total > 0.0
    ensures 0.0 <= Share(v, total) <= 1.0
  {
    var q := v / total;
    assert q * total == v;
  }

  /** Clamping only ever widens a segment, so the sweeps cover at least the shares. */
  lemma {:induction false} SweepsCoverShares(data: seq<Slice>, n: nat)
    requires n <= |data| && NonNegative(data) && SliceTotal(data) > 0.0
    ensures SweepsBefore(data, SliceTotal(data), n) >= FULL_TURN * ShareSum(data, SliceTotal(data), n)
  {
    if n > 0 {
      var total := SliceTotal(data);
      SweepsCoverShares(data, n - 1);
      SliceTotalNonNegative(data);
      var share := Share(data[n - 1].value, total);
      ShareAtMostOne(data[n - 1].value, total);
      assert Sweep(share) >= share * FULL_TURN;
      assert FULL_TURN * ShareSum(data, total, n) == FULL_TURN * ShareSum(data, total, n - 1) + FULL_TURN * share;
    }
  }

  /** Without clamping the sweeps are exactly the shares of a turn. */
  lemma {:induction false} SweepsMatchShares(data: seq<Slice>, n: nat)
    requires n <= |data| && NonNegative(data) && SliceTotal(data) > 0.0
    requires forall k :: 0 <= k < |data| ==> Share(data[k].value, SliceTotal(data)) * FULL_TURN >= MIN_SLICE
    ensures SweepsBefore(data, SliceTotal(data), n) == FULL_TURN * ShareSum(data, SliceTotal(data), n)
  {
    if n > 0 {
      var total := SliceTotal(data);
      SweepsMatchShares(data, n - 1);
      var v := data[n - 1].value;
      assert v <= total by {
        SliceTotalNonNegative(data);
      }
      var share := Share(v, total);
      ShareAtMostOne(v, total);
      assert Sweep(share) == share * FULL_TURN;
      assert FULL_TURN * ShareSum(data, total, n) == FULL_TURN * ShareSum(data, total, n - 1) + FULL_TURN * share;
    }
  }

  /**
   * The segments of a chart with a positive total go all the way round: the
   * last one ends a full turn or more after the start, and exactly a full turn
   * when no segment was widened to the minimum slice.
   */
  lemma {:induction false} ChartClosesCircle(data: seq<Slice>)
    requires |data| > 0 && NonNegative(data) && SliceTotal(data) > 0.0
    ensures SegmentAt(data, SliceTotal(data), |data| - 1).endAngle >= START_ANGLE + FULL_TURN
    ensures (forall k :: 0 <= k < |data| ==> Share(data[k].value, SliceTotal(data)) * FULL_TURN >= MIN_SLICE) ==>
      SegmentAt(data, SliceTotal(data), |data| - 1).endAngle == START_ANGLE + FULL_TURN
  {
    var total := SliceTotal(data);
    var n := |data|;
    assert SegmentAt(data, total, n - 1).endAngle == START_ANGLE + SweepsBefore(data, total, n);
    SharesSumToOne(data);
    SweepsCoverShares(data, n);
    if forall k :: 0 <= k < |data| ==> Share(data[k].value, total) * FULL_TURN >= MIN_SLICE {
      SweepsMatchShares(data, n);
    }
  }

  /** The test fixture's rows give a single "salary" income slice of 500. */
  lemma MockIncomeTotals()
    ensures Group(IncomeContributions(MOCK_ANALYSIS.transactions)) == [("salary", 500.0)]
  {
    var txs := MOCK_ANALYSIS.transactions;
    var salary, groceries := txs[0], txs[1];
    assert IsIncomeRow(salary) by {
      assert salary.category == IncomeName(Salary) == INCOME_CATEGORIES[0];
    }
    OneContribution(txs, IsIncomeRow, IncomeEntry);
    GroupSingle("salary", 500.0);
  }

  /** The test fixture's rows give a single "groceries" spending slice of 150. */
  lemma MockSpendingTotals()
    ensures Group(SpendingContributions(MOCK_ANALYSIS.transactions)) == [("groceries", 150.0)]
  {
    var txs := MOCK_ANALYSIS.transactions;
    var salary, groceries := txs[0], txs[1];
    assert IsSpendingRow(groceries) by {
      assert groceries.category == SpendingName(Groceries) == SPENDING_CATEGORIES[0];
    }
    OneContribution(txs, IsSpendingRow, SpendingEntry);
    GroupSingle("groceries", 150.0);
  }

  /** Of two rows, only the one that passes contributes. */
  lemma OneContribution(txs: seq<Transaction>, keep: Transaction -> bool, entry: Transaction -> Entry)
    requires |txs| == 2 && keep(txs[0]) != keep(txs[1])
    ensures Contributions(txs, keep, entry) == if keep(txs[0]) then [entry(txs[0])] else [entry(txs[1])]
  {
    assert txs == [] + [txs[0]] + [txs[1]];
    ContributionsAppend([], txs[0], keep, entry);
    ContributionsAppend([txs[0]], txs[1], keep, entry);
  }

  /** A chart with one slice draws it as a whole amber circle at 100%. */
  lemma SingleSliceChart(category: string, value: real)
    requires value > 0.0
    ensures var data := ChartData([(category, value)]);
      |data| == 1 && SegmentAt(data, SliceTotal(data), 0).shape == FullCircle &&
      SegmentAt(data, SliceTotal(data), 0).percentage == 100.0 &&
      SegmentAt(data, SliceTotal(data), 0).colour.name == "Amber"
  {
    var data := ChartData([(category, value)]);
    assert data[..0] == [];
    assert SliceTotal(data) == value;
    assert value / value == 1.0;
  }
}
