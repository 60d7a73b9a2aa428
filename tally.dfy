/**
 * A JavaScript object used as a dictionary of running totals
 * (`totals[k] = (totals[k] || 0) + amount`), as an insertion-ordered
 * association list, which is also the order `Object.entries` and
 * `Object.keys` report for non-numeric keys.
 */
module Tally {
  import opened Seqs

  type Entry = (string, real)
  type Table = seq<Entry>

  function Keys(t: seq<Entry>): (ks: seq<string>)
    ensures |ks| == |t| && forall i :: 0 <= i < |t| ==> ks[i] == t[i].0
  {
    seq(|t|, i requires 0 <= i < |t| => t[i].0)
  }

  /** An object never holds a key twice. */
  predicate Valid(t: Table) {
    Distinct(Keys(t))
  }

  /** `t[k] || 0`. */
  function Get(t: Table, k: string): real
  {
    if k in Keys(t) then t[IndexOf(Keys(t), k)].1 else 0.0
  }

  /** `t[k] = (t[k] || 0) + a`: an existing key keeps its place, a new one goes last. */
  function Add(t: Table, k: string, a: real): Table
  {
    if k in Keys(t) then t[IndexOf(Keys(t), k) := (k, t[IndexOf(Keys(t), k)].1 + a)]
    else t + [(k, a)]
  }

  /** The sum of all values. */
  function Total(t: Table): real
  {
    if t == [] then 0.0 else Total(t[..|t| - 1]) + t[|t| - 1].1
  }

  /** The sum of the amounts of the contributions with key `k`. */
  function SumFor(cs: seq<Entry>, k: string): real
  {
    if cs == [] then 0.0
    else SumFor(cs[..|cs| - 1], k) + (if cs[|cs| - 1].0 == k then cs[|cs| - 1].1 else 0.0)
  }

  /** The sum of all contributed amounts. */
  function SumAll(cs: seq<Entry>): real
  {
    if cs == [] then 0.0 else SumAll(cs[..|cs| - 1]) + cs[|cs| - 1].1
  }

  /** The table listing the keys `ks` in that order, each with the sum of its contributions in `cs`. */
  function GroupOn(ks: seq<string>, cs: seq<Entry>): (t: Table)
    ensures Keys(t) == ks
  {
    var t := seq(|ks|, i requires 0 <= i < |ks| => (ks[i], SumFor(cs, ks[i])));
    assert Keys(t) == ks;
    t
  }

  /**
   * The table that adding the contributions `cs` one by one should produce:
   * each key once, in order of first contribution, with the sum of its amounts.
   */
  function Group(cs: seq<Entry>): (t: Table)
    ensures Keys(t) == Dedupe(Keys(cs))
    ensures Valid(t)
  {
    GroupOn(Dedupe(Keys(cs)), cs)
  }

  lemma {:induction false} SumForAbsent(cs: seq<Entry>, k: string)
    requires k !in Keys(cs)
    ensures SumFor(cs, k) == 0.0
  {
    if cs != [] {
      assert Keys(cs[..|cs| - 1]) == Keys(cs)[..|cs| - 1];
      SumForAbsent(cs[..|cs| - 1], k);
    }
  }

  /** The grouped table holds, for every key, the sum of that key's contributions (and 0 for a key never seen). */
  lemma GetGroup(cs: seq<Entry>, k: string)
    ensures Get(Group(cs), k) == SumFor(cs, k)
  {
    var t := Group(cs);
    if k in Keys(t) {
      var i := IndexOf(Keys(t), k);
      assert t[i].0 == k;
    } else {
      SumForAbsent(cs, k);
    }
  }

  lemma SumForAppend(cs: seq<Entry>, k: string, a: real, x: string)
    ensures SumFor(cs + [(k, a)], x) == SumFor(cs, x) + (if x == k then a else 0.0)
  {
    assert (cs + [(k, a)])[..|cs|] == cs;
  }

  lemma DedupeKeysAppend(cs: seq<Entry>, k: string, a: real)
    ensures Dedupe(Keys(cs + [(k, a)])) ==
      if k in Dedupe(Keys(cs)) then Dedupe(Keys(cs)) else Dedupe(Keys(cs)) + [k]
  {
    var ks' := Keys(cs + [(k, a)]);
    assert ks'[..|ks'| - 1] == Keys(cs);
  }

  /** Adding one contribution to the grouped table of `cs` gives the grouped table of `cs` extended by it. */
  lemma GroupAppend(cs: seq<Entry>, k: string, a: real)
    ensures Add(Group(cs), k, a) == Group(cs + [(k, a)])
  {
    var ks := Dedupe(Keys(cs));
    DedupeKeysAppend(cs, k, a);
    if k in ks {
      GroupOnAppendSeen(ks, cs, k, a);
    } else {
      GroupOnAppendNew(ks, cs, k, a);
    }
  }

  lemma GroupOnAppendSeen(ks: seq<string>, cs: seq<Entry>, k: string, a: real)
    requires Distinct(ks) && k in ks
    ensures Add(GroupOn(ks, cs), k, a) == GroupOn(ks, cs + [(k, a)])
  {
    var t, t' := GroupOn(ks, cs), GroupOn(ks, cs + [(k, a)]);
    var i := IndexOf(ks, k);
    var u := t[i := (k, t[i].1 + a)];
    assert Add(t, k, a) == u;
    forall j | 0 <= j < |ks| ensures t'[j] == u[j] {
      SumForAppend(cs, k, a, ks[j]);
    }
  }

  lemma GroupOnAppendNew(ks: seq<string>, cs: seq<Entry>, k: string, a: real)
    requires k !in ks && k !in Keys(cs)
    ensures Add(GroupOn(ks, cs), k, a) == GroupOn(ks + [k], cs + [(k, a)])
  {
    var t, t' := GroupOn(ks, cs), GroupOn(ks + [k], cs + [(k, a)]);
    var u := t + [(k, a)];
    forall j | 0 <= j < |t'| ensures t'[j] == u[j] {
      SumForAppend(cs, k, a, t'[j].0);
      if j == |t| {
        SumForAbsent(cs, k);
      }
    }
  }

  /** A contribution adds its amount to the total. */
  lemma TotalAdd(t: Table, k: string, a: real)
    requires Valid(t)
    ensures Total(Add(t, k, a)) == Total(t) + a
  {
    if k in Keys(t) {
      var i := IndexOf(Keys(t), k);
      TotalUpdate(t, i, (k, t[i].1 + a));
    }
  }

  lemma {:induction false} TotalUpdate(t: Table, i: nat, e: Entry)
    requires i < |t|
    ensures Total(t[i := e]) == Total(t) - t[i].1 + e.1
  {
    var n := |t| - 1;
    if i < n {
      assert t[i := e][..n] == t[..n][i := e];
      TotalUpdate(t[..n], i, e);
    } else {
      assert t[i := e][..n] == t[..n];
    }
  }

  /** The values of the grouped table add up to all contributions together. */
  lemma {:induction false} TotalGroup(cs: seq<Entry>)
    ensures Total(Group(cs)) == SumAll(cs)
  {
    if cs != [] {
      var init, k, a := cs[..|cs| - 1], cs[|cs| - 1].0, cs[|cs| - 1].1;
      assert cs == init + [(k, a)];
      var before := Group(init);
      TotalGroup(init);
      TotalAdd(before, k, a);
      GroupAppend(init, k, a);
      assert SumAll(cs) == SumAll(init) + a;
    }
  }

  /** A key contributed only positive amounts has a positive total. */
  lemma {:induction false} SumForPositive(cs: seq<Entry>, k: string)
    requires forall i :: 0 <= i < |cs| ==> cs[i].1 > 0.0
    requires k in Keys(cs)
    ensures SumFor(cs, k) > 0.0
  {
    var init := cs[..|cs| - 1];
    assert Keys(init) == Keys(cs)[..|cs| - 1];
    if k in Keys(init) {
      SumForPositive(init, k);
    } else {
      SumForAbsent(init, k);
    }
    if cs[|cs| - 1].0 != k {
      assert k in Keys(init);
    }
  }

  /** With only positive contributions every value in the table is positive. */
  lemma GroupPositive(cs: seq<Entry>)
    requires forall i :: 0 <= i < |cs| ==> cs[i].1 > 0.0
    ensures forall i :: 0 <= i < |Group(cs)| ==> Group(cs)[i].1 > 0.0
  {
    var t := Group(cs);
    forall i | 0 <= i < |t| ensures t[i].1 > 0.0 {
      assert t[i].0 in Keys(t);
      SumForPositive(cs, t[i].0);
    }
  }

  /** A single contribution gives a one-entry table. */
  lemma GroupSingle(k: string, a: real)
    ensures Group([(k, a)]) == [(k, a)]
  {
    var cs := [(k, a)];
    assert Keys(cs) == [k];
    assert Dedupe([k]) == [k] by {
      assert [k][..0] == [];
    }
    assert SumFor(cs, k) == a by {
      assert cs[..0] == [];
    }
  }

  /** The entries a `forEach` adds: `entry(x)` for each `x` that passes `keep`, in order. */
  function Contributions<T>(xs: seq<T>, keep: T -> bool, entry: T -> Entry): (cs: seq<Entry>)
    ensures |cs| == |Filter(xs, keep)|
    ensures forall i :: 0 <= i < |cs| ==> cs[i] == entry(Filter(xs, keep)[i])
  {
    var rows := Filter(xs, keep);
    seq(|rows|, i requires 0 <= i < |rows| => entry(rows[i]))
  }

  /** One more element adds its entry at the end when it passes, and nothing otherwise. */
  lemma ContributionsAppend<T>(xs: seq<T>, x: T, keep: T -> bool, entry: T -> Entry)
    ensures Contributions(xs + [x], keep, entry) ==
      Contributions(xs, keep, entry) + (if keep(x) then [entry(x)] else [])
  {
    FilterAppend(xs, x, keep);
    var rows, rows' := Filter(xs, keep), Filter(xs + [x], keep);
    var cs, cs' := Contributions(xs, keep, entry), Contributions(xs + [x], keep, entry);
    var extra := if keep(x) then [entry(x)] else [];
    assert |cs'| == |rows'| == |rows| + |extra|;
    forall i | 0 <= i < |cs'| ensures cs'[i] == (cs + extra)[i] {
      if i < |rows| {
        assert rows'[i] == rows[i];
      }
    }
  }

  /** A key's grouped value as a function: `k => SumFor(cs, k)`. */
  function SumsOf(cs: seq<Entry>): string -> real
  {
    k => SumFor(cs, k)
  }

  /** The values of a grouped table are the per-key sums of its keys. */
  lemma {:induction false} TotalGroupOn(ks: seq<string>, cs: seq<Entry>)
    ensures Total(GroupOn(ks, cs)) == SumOf(ks, SumsOf(cs))
  {
    if ks != [] {
      var init := ks[..|ks| - 1];
      TotalGroupOn(init, cs);
      assert GroupOn(ks, cs)[..|ks| - 1] == GroupOn(init, cs);
    }
  }
}
