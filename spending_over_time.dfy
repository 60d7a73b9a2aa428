/**
 * The spending-over-time chart (`SpendingOverTime.tsx`): outgoing amounts
 * summed per date string, the dates in timestamp order and the sum for each.
 * `new Date(d).getTime()` is the parameter `parse`, `None` standing for an
 * invalid date.
 */
module SpendingOverTime {
  import opened Wrappers
  import opened Seqs
  import opened Tally
  import opened Sorting
  import opened Analysis

  predicate IsOutgoing(tx: Transaction) {
    tx.amount < 0.0
  }

  /** Some outgoing row is dated exactly `d`. */
  predicate SpentOn(txs: seq<Transaction>, d: string) {
    exists i :: 0 <= i < |txs| && txs[i].amount < 0.0 && txs[i].date == d
  }

  function DateEntry(tx: Transaction): Entry {
    (tx.date, Abs(tx.amount))
  }

  /** The (date, magnitude) pairs the chart adds up: the outgoing rows, in order. */
  function DateContributions(txs: seq<Transaction>): (cs: seq<Entry>)
    ensures |cs| <= |txs|
    ensures forall i :: 0 <= i < |cs| ==> cs[i].1 > 0.0
  {
    Contributions(txs, IsOutgoing, DateEntry)
  }

  lemma DateContributionsAppend(txs: seq<Transaction>, tx: Transaction)
    ensures DateContributions(txs + [tx]) ==
      DateContributions(txs) + (if IsOutgoing(tx) then [(tx.date, Abs(tx.amount))] else [])
  {
    ContributionsAppend(txs, tx, IsOutgoing, DateEntry);
  }

  /** A date has contributions exactly when some outgoing row carries it. */
  lemma DateContributionKeys(txs: seq<Transaction>, d: string)
    ensures d in Keys(DateContributions(txs)) <==> SpentOn(txs, d)
  {
    var rows := Filter(txs, IsOutgoing);
    var cs := DateContributions(txs);
    if d in Keys(cs) {
      var i :| 0 <= i < |cs| && cs[i].0 == d;
      assert rows[i] in multiset(txs);
      var j :| 0 <= j < |txs| && txs[j] == rows[i];
    }
    if SpentOn(txs, d) {
      var j :| 0 <= j < |txs| && txs[j].amount < 0.0 && txs[j].date == d;
      FilterKeeps(txs, IsOutgoing, j);
      var i :| 0 <= i < |rows| && rows[i] == txs[j];
      assert cs[i].0 == d;
    }
  }

  /** The timestamp the comparator sorts by; an invalid date is placed at 0. */
  function Timestamp(parse: string -> Option<int>): string -> real
  {
    d => (if parse(d).Some? then parse(d).value else 0) as real
  }

  /** The `forEach` that fills `grouped`: each outgoing row adds its magnitude under its date. */
  method GroupByDate(transactions: seq<Transaction>) returns (grouped: Table)
    ensures grouped == Group(DateContributions(transactions))
  {
    grouped := [];
    var i := 0;
    while i < |transactions|
      invariant 0 <= i <= |transactions|
      invariant grouped == Group(DateContributions(transactions[..i]))
    {
      var tx := transactions[i];
      PrefixStep(transactions, i);
      if tx.amount < 0.0 {
        grouped := Add(grouped, tx.date, Abs(tx.amount));
      }
      i := i + 1;
    }
    assert transactions[..i] == transactions;
  }

  /**
   * The `useMemo` of the component: the dates of `grouped` sorted by
   * timestamp and the value of each looked up in that order.
   */
  method SpendingSeries(transactions: seq<Transaction>, parse: string -> Option<int>)
    returns (labels: seq<string>, dataValues: seq<real>)
    ensures labels == SortBy(Keys(Group(DateContributions(transactions))), Timestamp(parse), Ascending)
    ensures |dataValues| == |labels|
    ensures forall i :: 0 <= i < |labels| ==> dataValues[i] == SumFor(DateContributions(transactions), labels[i])
    ensures Distinct(labels) && forall d :: d in labels <==> SpentOn(transactions, d)
    ensures forall i, j :: 0 <= i < j < |labels| && parse(labels[i]).Some? && parse(labels[j]).Some? ==>
      parse(labels[i]).value <= parse(labels[j]).value
    ensures forall i :: 0 <= i < |dataValues| ==> dataValues[i] > 0.0
    ensures Sum(dataValues) == -NegativeSum(transactions)
  {
    var grouped := GroupByDate(transactions);
    labels := SortBy(Keys(grouped), Timestamp(parse), Ascending);
    dataValues := seq(|labels|, j requires 0 <= j < |labels| => Get(grouped, labels[j]));
    LookupsAreSums(DateContributions(transactions), labels, dataValues);
    SeriesDistinct(transactions, parse);
    SeriesChronological(transactions, parse);
    SeriesLabelsAndValues(transactions, parse, labels, dataValues);
    SeriesTotal(transactions, parse, dataValues);
  }

  lemma SeriesLabelsAndValues(transactions: seq<Transaction>, parse: string -> Option<int>,
                              labels: seq<string>, dataValues: seq<real>)
    requires labels == SortBy(Keys(Group(DateContributions(transactions))), Timestamp(parse), Ascending)
    requires |dataValues| == |labels|
    requires forall i :: 0 <= i < |labels| ==> dataValues[i] == SumFor(DateContributions(transactions), labels[i])
    ensures forall d :: d in labels <==> SpentOn(transactions, d)
    ensures forall i :: 0 <= i < |dataValues| ==> dataValues[i] > 0.0
  {
    forall d ensures d in labels <==> SpentOn(transactions, d) {
      SeriesLabels(transactions, parse, d);
    }
    SeriesValues(transactions, labels, dataValues);
  }

  lemma SeriesValues(transactions: seq<Transaction>, labels: seq<string>, dataValues: seq<real>)
    requires forall d :: d in labels ==> SpentOn(transactions, d)
    requires |dataValues| == |labels|
    requires forall i :: 0 <= i < |labels| ==> dataValues[i] == SumFor(DateContributions(transactions), labels[i])
    ensures forall i :: 0 <= i < |dataValues| ==> dataValues[i] > 0.0
  {
    forall i | 0 <= i < |dataValues| ensures dataValues[i] > 0.0 {
      SeriesPositive(transactions, labels[i]);
    }
  }

  lemma LookupsAreSums(cs: seq<Entry>, labels: seq<string>, values: seq<real>)
    requires |values| == |labels|
    requires forall j :: 0 <= j < |labels| ==> values[j] == Get(Group(cs), labels[j])
    ensures forall j :: 0 <= j < |labels| ==> values[j] == SumFor(cs, labels[j])
  {
    forall j | 0 <= j < |labels| ensures values[j] == SumFor(cs, labels[j]) {
      GetGroup(cs, labels[j]);
    }
  }

  /** One row of the `forEach`: an outgoing row adds its magnitude under its date, any other row changes nothing. */
  lemma DateStep(txs: seq<Transaction>, tx: Transaction)
    ensures Group(DateContributions(txs + [tx])) ==
      if tx.amount < 0.0 then Add(Group(DateContributions(txs)), tx.date, Abs(tx.amount))
      else Group(DateContributions(txs))
  {
    DateContributionsAppend(txs, tx);
    if tx.amount < 0.0 {
      GroupAppend(DateContributions(txs), tx.date, Abs(tx.amount));
    } else {
      assert DateContributions(txs + [tx]) == DateContributions(txs);
    }
  }

  lemma PrefixStep(txs: seq<Transaction>, i: nat)
    requires i < |txs|
    ensures Group(DateContributions(txs[..i + 1])) ==
      if txs[i].amount < 0.0 then Add(Group(DateContributions(txs[..i])), txs[i].date, Abs(txs[i].amount))
      else Group(DateContributions(txs[..i]))
  {
    assert txs[..i + 1] == txs[..i] + [txs[i]];
    DateStep(txs[..i], txs[i]);
  }

  /**
   * The labels are the dates of outgoing rows: a date whose rows are all
   * income or zero never appears.
   */
  lemma SeriesLabels(transactions: seq<Transaction>, parse: string -> Option<int>, d: string)
    ensures d in SortBy(Keys(Group(DateContributions(transactions))), Timestamp(parse), Ascending) <==>
      SpentOn(transactions, d)
  {
    var ks := Keys(Group(DateContributions(transactions)));
    var labels := SortBy(ks, Timestamp(parse), Ascending);
    DateContributionKeys(transactions, d);
    assert d in labels <==> d in multiset(labels);
    assert d in ks <==> d in multiset(ks);
  }

  /** Each date is plotted once. */
  lemma SeriesDistinct(transactions: seq<Transaction>, parse: string -> Option<int>)
    ensures Distinct(SortBy(Keys(Group(DateContributions(transactions))), Timestamp(parse), Ascending))
  {
    var ks := Keys(Group(DateContributions(transactions)));
    PermutationDistinct(ks, SortBy(ks, Timestamp(parse), Ascending));
  }

  /** Labels whose dates are valid come in non-decreasing timestamp order. */
  lemma SeriesChronological(transactions: seq<Transaction>, parse: string -> Option<int>)
    ensures var labels := SortBy(Keys(Group(DateContributions(transactions))), Timestamp(parse), Ascending);
      forall i, j :: 0 <= i < j < |labels| && parse(labels[i]).Some? && parse(labels[j]).Some? ==>
        parse(labels[i]).value <= parse(labels[j]).value
  {
    var labels := SortBy(Keys(Group(DateContributions(transactions))), Timestamp(parse), Ascending);
    forall i, j | 0 <= i < j < |labels| && parse(labels[i]).Some? && parse(labels[j]).Some?
      ensures parse(labels[i]).value <= parse(labels[j]).value
    {
      assert InOrder(Ascending, Timestamp(parse)(labels[i]), Timestamp(parse)(labels[j]));
    }
  }

  /** Every point of the series is positive. */
  lemma SeriesPositive(transactions: seq<Transaction>, d: string)
    requires SpentOn(transactions, d)
    ensures SumFor(DateContributions(transactions), d) > 0.0
  {
    DateContributionKeys(transactions, d);
    SumForPositive(DateContributions(transactions), d);
  }

  /** The contributions add up to the magnitude of all outgoing amounts. */
  lemma {:induction false} DateContributionsTotal(txs: seq<Transaction>)
    ensures SumAll(DateContributions(txs)) == -NegativeSum(txs)
  {
    if txs != [] {
      var init, tx := txs[..|txs| - 1], txs[|txs| - 1];
      assert txs == init + [tx];
      DateContributionsTotal(init);
      DateContributionsAppend(init, tx);
      var extra := if IsOutgoing(tx) then [(tx.date, Abs(tx.amount))] else [];
      if extra == [] {
        assert DateContributions(init) + extra == DateContributions(init);
      } else {
        assert (DateContributions(init) + extra)[..|DateContributions(init)|] == DateContributions(init);
      }
    }
  }

  /** The plotted values add up to everything spent. */
  lemma SeriesTotal(transactions: seq<Transaction>, parse: string -> Option<int>, dataValues: seq<real>)
    requires var labels := SortBy(Keys(Group(DateContributions(transactions))), Timestamp(parse), Ascending);
      |dataValues| == |labels| &&
      forall i :: 0 <= i < |labels| ==> dataValues[i] == SumFor(DateContributions(transactions), labels[i])
    ensures Sum(dataValues) == -NegativeSum(transactions)
  {
    var cs := DateContributions(transactions);
    var ks := Dedupe(Keys(cs));
    var labels := SortBy(ks, Timestamp(parse), Ascending);
    SumMapped(labels, SumsOf(cs), dataValues);
    SumOfPermutation(labels, ks, SumsOf(cs));
    TotalGroupOn(ks, cs);
    TotalGroup(cs);
    DateContributionsTotal(transactions);
  }
}
