/**
 Combining runs: breakdowns keyed by resolved label, each run with an interner of its own.

 A run's breakdown is taken here as its rows, label and statistics, in whatever order a hash map
 yields them; two ids of one interner may resolve to one label.
 */
module MergeRuns {
  import opened Text
  import opened Sorting
  import opened Stats

  datatype Row<L> = Row(key: string, stats: Exact<L>)

  type Table<L> = map<string, Exact<L>>

  // ---- Sums of many ------------------------------------------------------------------------------

  function SumAll<L>(layout: L, xs: seq<Exact<L>>): Exact<L> {
    if xs == [] then Empty(layout) else Sum(SumAll(layout, xs[..|xs| - 1]), xs[|xs| - 1])
  }

  lemma SumSwaps<L>(a: Exact<L>, x: Exact<L>, y: Exact<L>)
    ensures Sum(Sum(a, x), y) == Sum(Sum(a, y), x)
  {
    var (v, p, q) := (a.sketch.values, x.sketch.values, y.sketch.values);
    assert forall n :: (v + p + q)[n] == (v + q + p)[n];
  }

  /** One of the summands may as well be added last. */
  lemma {:induction false} SumAllSplit<L>(layout: L, l: seq<Exact<L>>, x: Exact<L>, r: seq<Exact<L>>)
    ensures SumAll(layout, l + [x] + r) == Sum(SumAll(layout, l + r), x)
  {
    if r == [] {
      assert l + [x] + r == l + [x] && (l + [x])[..|l + [x]| - 1] == l && l + r == l;
    } else {
      var front, y := r[..|r| - 1], r[|r| - 1];
      assert (l + [x] + r)[..|l + [x] + r| - 1] == l + [x] + front && (l + r)[..|l + r| - 1] == l + front;
      SumAllSplit(layout, l, x, front);
      SumSwaps(SumAll(layout, l + front), x, y);
    }
  }

  lemma {:induction false} SumAllConcat<L>(layout: L, a: seq<Exact<L>>, b: seq<Exact<L>>)
    ensures SumAll(layout, a + b) == Sum(SumAll(layout, a), SumAll(layout, b))
  {
    if b == [] {
      assert a + b == a;
      assert SumAll(layout, a).sketch.values + multiset{} == SumAll(layout, a).sketch.values;
      SumAllLayout(layout, a);
    } else {
      assert (a + b)[..|a + b| - 1] == a + b[..|b| - 1];
      SumAllConcat(layout, a, b[..|b| - 1]);
      SumAssociates(SumAll(layout, a), SumAll(layout, b[..|b| - 1]), b[|b| - 1]);
    }
  }

  lemma {:induction false} SumAllLayout<L>(layout: L, xs: seq<Exact<L>>)
    ensures SumAll(layout, xs).sketch.layout == layout
  {
    if xs != [] {
      SumAllLayout(layout, xs[..|xs| - 1]);
    }
  }

  // ---- Merging by label --------------------------------------------------------------------------

  /** One more row: merged into its label's entry, which is dropped if that cannot be done. */
  function Added<L(==)>(out: Table<L>, row: Row<L>): Table<L> {
    if row.key !in out then out[row.key := row.stats]
    else
      match Merged(out[row.key], row.stats)
      case Success(s) => out[row.key := s]
      case Failure(_) => out - {row.key}
  }

  function MergedByLabel<L(==)>(rows: seq<Row<L>>): Table<L> {
    if rows == [] then map[] else Added(MergedByLabel(rows[..|rows| - 1]), rows[|rows| - 1])
  }

  function RowsOf<L>(runs: seq<seq<Row<L>>>): seq<Row<L>> {
    if runs == [] then [] else RowsOf(runs[..|runs| - 1]) + runs[|runs| - 1]
  }

  lemma MergedMore<L>(rows: seq<Row<L>>, row: Row<L>)
    ensures MergedByLabel(rows + [row]) == Added(MergedByLabel(rows), row)
  {
    assert (rows + [row])[..|rows + [row]| - 1] == rows;
  }

  lemma RowsMore<L>(runs: seq<seq<Row<L>>>, i: nat)
    requires i < |runs|
    ensures RowsOf(runs[..i + 1]) == RowsOf(runs[..i]) + runs[i]
  {
    assert runs[..i + 1][..i] == runs[..i];
  }

  /** The merge as it runs: one map, updated row by row, run by run. */
  method MergeByLabel<L(==)>(runs: seq<seq<Row<L>>>) returns (out: Table<L>)
    ensures out == MergedByLabel(RowsOf(runs))
  {
    out := map[];
    for i := 0 to |runs|
      invariant out == MergedByLabel(RowsOf(runs[..i]))
    {
      hide Added, MergedByLabel, RowsOf;
      ghost var before := RowsOf(runs[..i]);
      RowsMore(runs, i);
      assert before + runs[i][..0] == before;
      for j := 0 to |runs[i]|
        invariant out == MergedByLabel(before + runs[i][..j])
      {
        MergedMore(before + runs[i][..j], runs[i][j]);
        assert before + runs[i][..j + 1] == before + runs[i][..j] + [runs[i][j]];
        out := Added(out, runs[i][j]);
      }
      assert runs[i][..|runs[i]|] == runs[i];
    }
    assert runs[..|runs|] == runs;
  }

  /** Every row has the layout its run was recorded with. */
  ghost predicate AllLayout<L>(layout: L, rows: seq<Row<L>>) {
    forall i :: 0 <= i < |rows| ==> rows[i].stats.sketch.layout == layout
  }

  ghost predicate TableLayout<L>(layout: L, t: Table<L>) {
    forall k :: k in t ==> t[k].sketch.layout == layout
  }

  function Keys<L>(rows: seq<Row<L>>): set<string> {
    set i | 0 <= i < |rows| :: rows[i].key
  }

  lemma KeysLast<L>(rows: seq<Row<L>>)
    requires rows != []
    ensures Keys(rows) == Keys(rows[..|rows| - 1]) + {rows[|rows| - 1].key}
  {
    var front := rows[..|rows| - 1];
    forall k
      ensures k in Keys(rows) <==> k in Keys(front) + {rows[|rows| - 1].key}
    {
      if k in Keys(rows) {
        var i :| 0 <= i < |rows| && rows[i].key == k;
        assert i < |front| ==> front[i].key == k;
      }
      if k in Keys(front) {
        var i :| 0 <= i < |front| && front[i].key == k;
        assert rows[i].key == k;
      }
    }
  }

  /** With one layout no merge fails, so no label is dropped. */
  lemma {:induction false} NoLabelDropped<L>(layout: L, rows: seq<Row<L>>)
    requires AllLayout(layout, rows)
    ensures TableLayout(layout, MergedByLabel(rows)) && MergedByLabel(rows).Keys == Keys(rows)
  {
    if rows != [] {
      var front, row := rows[..|rows| - 1], rows[|rows| - 1];
      NoLabelDropped(layout, front);
      KeysLast(rows);
    }
  }

  lemma AddedSwaps<L>(layout: L, t: Table<L>, x: Row<L>, y: Row<L>)
    requires TableLayout(layout, t) && AllLayout(layout, [x, y])
    ensures Added(Added(t, x), y) == Added(Added(t, y), x)
  {
    assert [x, y][0] == x && [x, y][1] == y;
    if x.key == y.key {
      if x.key in t {
        SumSwaps(t[x.key], x.stats, y.stats);
      } else {
        SumCommutes(x.stats, y.stats);
      }
    }
  }

  /** The statistics of the rows with one label. */
  function Labelled<L>(rows: seq<Row<L>>, key: string): seq<Exact<L>> {
    if rows == [] then []
    else
      var front := Labelled(rows[..|rows| - 1], key);
      if rows[|rows| - 1].key == key then front + [rows[|rows| - 1].stats] else front
  }

  lemma SumOfMore<L>(layout: L, xs: seq<Exact<L>>, x: Exact<L>)
    ensures SumAll(layout, xs + [x]) == Sum(SumAll(layout, xs), x)
  {
    assert (xs + [x])[..|xs|] == xs;
  }

  lemma SumOfOne<L>(layout: L, x: Exact<L>)
    requires x.sketch.layout == layout
    ensures SumAll(layout, [x]) == x
  {
    SumOfMore(layout, [], x);
    assert [] + [x] == [x];
    assert multiset{} + x.sketch.values == x.sketch.values;
  }

  /** Each entry of the merged table is the sum of the rows with its label. */
  lemma {:induction false} MergedEntry<L>(layout: L, rows: seq<Row<L>>, key: string)
    requires AllLayout(layout, rows)
    ensures key in MergedByLabel(rows) <==> Labelled(rows, key) != []
    ensures key in MergedByLabel(rows) ==> MergedByLabel(rows)[key] == SumAll(layout, Labelled(rows, key))
  {
    if rows != [] {
      var (front, row) := (rows[..|rows| - 1], rows[|rows| - 1]);
      MergedEntry(layout, front, key);
      NoLabelDropped(layout, front);
      SumOfMore(layout, Labelled(front, key), row.stats);
      SumOfOne(layout, row.stats);
      hide Sum, SumAll;
    }
  }

  /** Rows that cannot be merged leave their label without an entry. */
  lemma UnmergeableDropped<L>(rows: seq<Row<L>>, row: Row<L>)
    requires row.key in MergedByLabel(rows) && MergedByLabel(rows)[row.key].sketch.layout != row.stats.sketch.layout
    ensures MergedByLabel(rows + [row]) == MergedByLabel(rows) - {row.key}
  {
    MergedMore(rows, row);
  }

  /** One of the rows may as well come last. */
  lemma {:induction false} MergedSplit<L>(layout: L, l: seq<Row<L>>, x: Row<L>, r: seq<Row<L>>)
    requires AllLayout(layout, l) && AllLayout(layout, r) && x.stats.sketch.layout == layout
    ensures MergedByLabel(l + [x] + r) == Added(MergedByLabel(l + r), x)
  {
    hide Added;
    if r == [] {
      assert l + [x] + r == l + [x] && (l + [x])[..|l + [x]| - 1] == l && l + r == l;
    } else {
      var front, y := r[..|r| - 1], r[|r| - 1];
      assert (l + [x] + r)[..|l + [x] + r| - 1] == l + [x] + front && (l + r)[..|l + r| - 1] == l + front;
      MergedSplit(layout, l, x, front);
      NoLabelDropped(layout, l + front);
      AddedSwaps(layout, MergedByLabel(l + front), x, y);
    }
  }

  lemma LayoutCarries<L>(layout: L, a: seq<Row<L>>, b: seq<Row<L>>)
    requires multiset(a) == multiset(b) && AllLayout(layout, a)
    ensures AllLayout(layout, b)
  {
    forall i | 0 <= i < |b|
      ensures b[i].stats.sketch.layout == layout
    {
      assert b[i] in multiset(b);
      assert b[i] in a;
    }
  }

  /** Neither the order of runs nor the order a hash map yields rows in makes a difference. */
  lemma {:induction false} MergeAnyOrder<L>(layout: L, a: seq<Row<L>>, b: seq<Row<L>>)
    requires multiset(a) == multiset(b) && AllLayout(layout, a)
    ensures MergedByLabel(a) == MergedByLabel(b)
    decreases |a|
  {
    if a == [] {
      assert |multiset(b)| == 0;
    } else {
      var front, x := a[..|a| - 1], a[|a| - 1];
      assert a == front + [x];
      var l, r := Around(a, b, x);
      assert multiset(a) == multiset(front) + multiset{x};
      WithoutOne(front, x, l, r);
      LayoutCarries(layout, a, b);
      assert AllLayout(layout, l) by { assert forall i :: 0 <= i < |l| ==> l[i] == b[i]; }
      assert AllLayout(layout, r) by { assert forall i :: 0 <= i < |r| ==> r[i] == b[|l| + 1 + i]; }
      assert a[|a| - 1].stats.sketch.layout == layout && AllLayout(layout, front);
      hide Added, MergedByLabel, AllLayout;
      MergeAnyOrder(layout, front, l + r);
      MergedSplit(layout, l, x, r);
      MergedMore(front, x);
    }
  }

  // ---- Mass --------------------------------------------------------------------------------------

  /** `keys` lists each key of `t` once. */
  ghost predicate Lists<K(!new), L>(keys: seq<K>, t: map<K, Exact<L>>) {
    && (forall i, j :: 0 <= i < j < |keys| ==> keys[i] != keys[j])
    && (forall k :: k in keys <==> k in t)
  }

  function Entries<K, L>(t: map<K, Exact<L>>, keys: seq<K>): (es: seq<Exact<L>>)
    requires forall k :: k in keys ==> k in t
    ensures |es| == |keys| && forall i :: 0 <= i < |keys| ==> es[i] == t[keys[i]]
  {
    seq(|keys|, i requires 0 <= i < |keys| => t[keys[i]])
  }

  function StatsOf<L>(rows: seq<Row<L>>): (es: seq<Exact<L>>)
    ensures |es| == |rows| && forall i :: 0 <= i < |rows| ==> es[i] == rows[i].stats
  {
    seq(|rows|, i requires 0 <= i < |rows| => rows[i].stats)
  }

  /** The table's entries add up to `total`, in whatever order. */
  ghost predicate AddsUp<K(!new), L>(layout: L, t: map<K, Exact<L>>, total: Exact<L>) {
    forall keys :: Lists(keys, t) ==> SumAll(layout, Entries(t, keys)) == total
  }

  lemma ListsNothing<K(!new), L>(keys: seq<K>, t: map<K, Exact<L>>)
    requires Lists(keys, t) && t == map[]
    ensures keys == []
  {
    assert forall k :: multiset(keys)[k] > 0 ==> k in keys;
    assert multiset(keys) == multiset{};
    assert |multiset(keys)| == |keys|;
  }

  lemma ListsWithout<K(!new), L>(t: map<K, Exact<L>>, l: seq<K>, key: K, r: seq<K>)
    requires Lists(l + [key] + r, t)
    ensures key !in l + r && Lists(l + r, t - {key})
  {
    var keys := l + [key] + r;
    assert keys[|l|] == key;
    forall i | 0 <= i < |l + r|
      ensures (l + r)[i] != key && (l + r)[i] in t
      ensures forall j :: i < j < |l + r| ==> (l + r)[i] != (l + r)[j]
    {
      assert (l + r)[i] == keys[if i < |l| then i else i + 1];
      assert (l + r)[i] in keys;
      assert forall j :: i < j < |l + r| ==> (l + r)[j] == keys[if j < |l| then j else j + 1];
    }
    forall k
      ensures k in l + r <==> k in t - {key}
    {
      assert k in keys <==> k in l + r || k == key;
    }
  }

  /** What a change of one entry does to the total. */
  lemma EntryChange<K(!new), L>(layout: L, t: map<K, Exact<L>>, key: K, entry: Exact<L>, keys: seq<K>) returns (others: seq<K>)
    requires Lists(keys, t[key := entry])
    ensures key !in others && Lists(others, t - {key})
    ensures SumAll(layout, Entries(t[key := entry], keys)) == Sum(SumAll(layout, Entries(t - {key}, others)), entry)
  {
    assert key in keys;
    var j :| 0 <= j < |keys| && keys[j] == key;
    var l, r := keys[..j], keys[j + 1..];
    others := l + r;
    assert keys == l + [key] + r;
    ListsWithout(t[key := entry], l, key, r);
    assert t[key := entry] - {key} == t - {key};
    hide SumAll, Sum;
    EntriesChange(layout, t, key, entry, l, r);
  }

  lemma EntriesChange<K(!new), L>(layout: L, t: map<K, Exact<L>>, key: K, entry: Exact<L>, l: seq<K>, r: seq<K>)
    requires forall k :: k in l + r ==> k in t - {key}
    requires forall k :: k in l + [key] + r ==> k in t[key := entry]
    ensures SumAll(layout, Entries(t[key := entry], l + [key] + r)) == Sum(SumAll(layout, Entries(t - {key}, l + r)), entry)
  {
    var (es, fs) := (Entries(t - {key}, l + r), Entries(t[key := entry], l + [key] + r));
    assert (l + [key] + r)[|l|] == key;
    forall i | 0 <= i < |es|
      ensures es[i] == fs[if i < |l| then i else i + 1]
    {
      assert (l + r)[i] in l + r && (l + r)[i] == (l + [key] + r)[if i < |l| then i else i + 1];
    }
    hide SumAll, Sum, Entries;
    Inserted(es, fs, |l|, entry);
    SumAllSplit(layout, es[..|l|], entry, es[|l|..]);
  }

  lemma Inserted<T>(es: seq<T>, fs: seq<T>, n: nat, x: T)
    requires n <= |es| && |fs| == |es| + 1 && fs[n] == x
    requires forall i :: 0 <= i < |es| ==> es[i] == fs[if i < n then i else i + 1]
    ensures fs == es[..n] + [x] + es[n..] && es == es[..n] + es[n..]
  {
    forall i | 0 <= i < |fs|
      ensures fs[i] == (es[..n] + [x] + es[n..])[i]
    {
      assert i < n ==> es[i] == fs[i];
      assert i > n ==> es[i - 1] == fs[i];
    }
  }

  lemma ListsWith<K(!new), L>(t: map<K, Exact<L>>, key: K, others: seq<K>)
    requires key in t && key !in others && Lists(others, t - {key})
    ensures Lists(others + [key], t)
    ensures Entries(t, others + [key]) == Entries(t - {key}, others) + [t[key]]
  {
  }

  /** Merging by label conserves everything that is counted. */
  lemma {:induction false} MergeConserves<L>(layout: L, rows: seq<Row<L>>)
    requires AllLayout(layout, rows)
    ensures AddsUp(layout, MergedByLabel(rows), SumAll(layout, StatsOf(rows)))
  {
    var t := MergedByLabel(rows);
    forall keys | Lists(keys, t)
      ensures SumAll(layout, Entries(t, keys)) == SumAll(layout, StatsOf(rows))
    {
      if rows == [] {
        ListsNothing(keys, t);
      } else {
        var front, row := rows[..|rows| - 1], rows[|rows| - 1];
        assert StatsOf(rows)[..|rows| - 1] == StatsOf(front);
        MergeConserves(layout, front);
        NoLabelDropped(layout, front);
        AddConserves(layout, MergedByLabel(front), row, keys, SumAll(layout, StatsOf(front)));
      }
    }
  }

  lemma AddConserves<L>(layout: L, t: Table<L>, row: Row<L>, keys: seq<string>, total: Exact<L>)
    requires TableLayout(layout, t) && row.stats.sketch.layout == layout && AddsUp(layout, t, total)
    requires Lists(keys, Added(t, row))
    ensures SumAll(layout, Entries(Added(t, row), keys)) == Sum(total, row.stats)
  {
    assert row.key in t ==> t[row.key].sketch.layout == layout;
    assert Added(t, row) == WithAdded(t, row.key, row.stats);
    hide SumAll, Sum, Added, Lists, AddsUp, TableLayout, Entries;
    AddedConserves(layout, t, row.key, row.stats, keys, total);
  }

  /** The table with `x` added to the entry of `key`. */
  function WithAdded<K, L>(t: map<K, Exact<L>>, key: K, x: Exact<L>): map<K, Exact<L>> {
    t[key := if key in t then Sum(t[key], x) else x]
  }

  lemma AddedConserves<K(!new), L>(layout: L, t: map<K, Exact<L>>, key: K, x: Exact<L>, keys: seq<K>, total: Exact<L>)
    requires AddsUp(layout, t, total) && Lists(keys, WithAdded(t, key, x))
    ensures SumAll(layout, Entries(WithAdded(t, key, x), keys)) == Sum(total, x)
  {
    var entry := WithAdded(t, key, x)[key];
    hide SumAll, Sum, Lists, AddsUp, Entries;
    var others := EntryChange(layout, t, key, entry, keys);
    if key in t {
      Restored(layout, t, key, others);
      AddsUpFor(layout, t, total, others + [key]);
      SumAssociates(SumAll(layout, Entries(t - {key}, others)), t[key], x);
    } else {
      assert t - {key} == t;
      AddsUpFor(layout, t, total, others);
    }
  }

  lemma AddsUpFor<K(!new), L>(layout: L, t: map<K, Exact<L>>, total: Exact<L>, keys: seq<K>)
    requires AddsUp(layout, t, total) && Lists(keys, t)
    ensures SumAll(layout, Entries(t, keys)) == total
  {
  }

  /** An entry put back adds what it held. */
  lemma Restored<K(!new), L>(layout: L, t: map<K, Exact<L>>, key: K, others: seq<K>)
    requires key in t && key !in others && Lists(others, t - {key})
    ensures Lists(others + [key], t)
    ensures SumAll(layout, Entries(t, others + [key])) == Sum(SumAll(layout, Entries(t - {key}, others)), t[key])
  {
    ListsWith(t, key, others);
    var es := Entries(t - {key}, others);
    assert (es + [t[key]])[..|es|] == es;
  }

  // ---- Merging whole runs ------------------------------------------------------------------------

  datatype Run<L> = Run(total: Exact<L>, rows: seq<Row<L>>)

  datatype MergeError = NoRuns | LayoutMismatch(offending: nat)

  /** Totals from number `i` on, added to `acc`. */
  function MergedFrom<L(==)>(totals: seq<Exact<L>>, i: nat, acc: Exact<L>): Result<Exact<L>, MergeError>
    requires 0 < i <= |totals|
    decreases |totals| - i
  {
    if i == |totals| then Success(acc)
    else if totals[i].sketch.layout != totals[0].sketch.layout then Failure(LayoutMismatch(i))
    else match Merged(acc, totals[i])
      case Failure(_) => Failure(LayoutMismatch(i))
      case Success(s) => MergedFrom(totals, i + 1, s)
  }

  function MergedTotals<L(==)>(totals: seq<Exact<L>>): Result<Exact<L>, MergeError> {
    if totals == [] then Failure(NoRuns) else MergedFrom(totals, 1, totals[0])
  }

  /** The combined total as it is computed: the first run's, with the others added one by one. */
  method MergeTotals<L(==)>(totals: seq<Exact<L>>) returns (r: Result<Exact<L>, MergeError>)
    ensures r == MergedTotals(totals)
  {
    if totals == [] {
      return Failure(NoRuns);
    }
    var acc := totals[0];
    for i := 1 to |totals|
      invariant MergedTotals(totals) == MergedFrom(totals, i, acc)
    {
      if totals[i].sketch.layout != totals[0].sketch.layout {
        return Failure(LayoutMismatch(i));
      }
      var s := Merged(acc, totals[i]);
      if s.Failure? {
        return Failure(LayoutMismatch(i));
      }
      acc := s.value;
    }
    r := Success(acc);
  }

  ghost predicate OneLayout<L>(layout: L, totals: seq<Exact<L>>) {
    forall i :: 0 <= i < |totals| ==> totals[i].sketch.layout == layout
  }

  /** Total number `n` is the first with another layout. */
  ghost predicate FirstOther<L>(layout: L, totals: seq<Exact<L>>, n: nat) {
    n < |totals| && totals[n].sketch.layout != layout && forall i :: 0 <= i < n ==> totals[i].sketch.layout == layout
  }

  lemma {:induction false} MergedFromIs<L>(layout: L, totals: seq<Exact<L>>, i: nat)
    requires 0 < i <= |totals| && totals[0].sketch.layout == layout
    requires OneLayout(layout, totals[..i])
    ensures var r := MergedFrom(totals, i, SumAll(layout, totals[..i]));
      if OneLayout(layout, totals) then r == Success(SumAll(layout, totals))
      else r.Failure? && r.error.LayoutMismatch? && FirstOther(layout, totals, r.error.offending)
    decreases |totals| - i
  {
    SumAllLayout(layout, totals[..i]);
    if i == |totals| {
      assert totals[..i] == totals;
    } else if totals[i].sketch.layout == layout {
      assert totals[..i + 1][..i] == totals[..i];
      MergedFromIs(layout, totals, i + 1);
    } else {
      assert forall j :: 0 <= j < i ==> totals[..i][j] == totals[j];
    }
  }

  /** Totals combine exactly when there are some and all were recorded with one layout. */
  lemma TotalsMergeWhen<L>(totals: seq<Exact<L>>)
    requires totals != []
    ensures var layout := totals[0].sketch.layout;
      if OneLayout(layout, totals) then MergedTotals(totals) == Success(SumAll(layout, totals))
      else exists n :: FirstOther(layout, totals, n) && MergedTotals(totals) == Failure(LayoutMismatch(n))
  {
    var layout, x := totals[0].sketch.layout, totals[0];
    assert totals[..1] == [x];
    assert [x][..0] == [];
    assert SumAll(layout, [x]) == Sum(Empty(layout), x);
    assert Empty(layout).sketch.values + x.sketch.values == x.sketch.values;
    MergedFromIs(layout, totals, 1);
  }

  function TotalsOf<L>(runs: seq<Run<L>>): (ts: seq<Exact<L>>)
    ensures |ts| == |runs| && forall i :: 0 <= i < |ts| ==> ts[i] == runs[i].total
  {
    seq(|runs|, i requires 0 <= i < |runs| => runs[i].total)
  }

  function BreakdownsOf<L>(runs: seq<Run<L>>): (bs: seq<seq<Row<L>>>)
    ensures |bs| == |runs| && forall i :: 0 <= i < |bs| ==> bs[i] == runs[i].rows
  {
    seq(|runs|, i requires 0 <= i < |runs| => runs[i].rows)
  }

  /** A run whose rows add up to its total and have its layout. */
  ghost predicate Reconciles<L>(run: Run<L>) {
    AllLayout(run.total.sketch.layout, run.rows)
    && SumAll(run.total.sketch.layout, StatsOf(run.rows)) == run.total
  }

  lemma RowsOfRun<L>(layout: L, rows: seq<Row<L>>, run: Run<L>, totals: seq<Exact<L>>)
    requires AllLayout(layout, rows) && Reconciles(run) && run.total.sketch.layout == layout
    requires SumAll(layout, StatsOf(rows)) == SumAll(layout, totals)
    ensures AllLayout(layout, rows + run.rows)
    ensures SumAll(layout, StatsOf(rows + run.rows)) == SumAll(layout, totals + [run.total])
  {
    assert StatsOf(rows + run.rows) == StatsOf(rows) + StatsOf(run.rows);
    SumAllConcat(layout, StatsOf(rows), StatsOf(run.rows));
    assert (totals + [run.total])[..|totals + [run.total]| - 1] == totals;
    assert SumAll(layout, totals + [run.total]) == Sum(SumAll(layout, totals), run.total);
  }

  lemma {:induction false} RowsAddUp<L>(layout: L, runs: seq<Run<L>>)
    requires forall i :: 0 <= i < |runs| ==> Reconciles(runs[i]) && runs[i].total.sketch.layout == layout
    ensures AllLayout(layout, RowsOf(BreakdownsOf(runs)))
    ensures SumAll(layout, StatsOf(RowsOf(BreakdownsOf(runs)))) == SumAll(layout, TotalsOf(runs))
  {
    if runs != [] {
      var front, run := runs[..|runs| - 1], runs[|runs| - 1];
      RowsAddUp(layout, front);
      assert BreakdownsOf(runs)[..|runs| - 1] == BreakdownsOf(front);
      assert TotalsOf(runs) == TotalsOf(front) + [run.total];
      assert RowsOf(BreakdownsOf(runs)) == RowsOf(BreakdownsOf(front)) + run.rows;
      hide SumAll, Reconciles, AllLayout, RowsOf;
      RowsOfRun(layout, RowsOf(BreakdownsOf(front)), run, TotalsOf(front));
    }
  }

  /**
   If every run's breakdown adds up to its total, so does the merged one, whatever ids the runs'
   interners gave the labels and even where two ids resolve to one label.
   */
  lemma MergedRunsReconcile<L>(runs: seq<Run<L>>)
    requires runs != [] && forall i :: 0 <= i < |runs| ==> Reconciles(runs[i])
    requires MergedTotals(TotalsOf(runs)).Success?
    ensures AddsUp(runs[0].total.sketch.layout, MergedByLabel(RowsOf(BreakdownsOf(runs))), MergedTotals(TotalsOf(runs)).value)
  {
    var layout := runs[0].total.sketch.layout;
    TotalsMergeWhen(TotalsOf(runs));
    forall i | 0 <= i < |runs|
      ensures runs[i].total.sketch.layout == layout
    {
      assert TotalsOf(runs)[i].sketch.layout == layout;
    }
    RowsAddUp(layout, runs);
    MergeConserves(layout, RowsOf(BreakdownsOf(runs)));
  }

  // ---- A single run ------------------------------------------------------------------------------

  /** A single run's breakdown: rows collected into a map, of two with one label the later. */
  function Collected<L>(rows: seq<Row<L>>): Table<L> {
    if rows == [] then map[] else Collected(rows[..|rows| - 1])[rows[|rows| - 1].key := rows[|rows| - 1].stats]
  }

  ghost predicate DistinctLabels<L>(rows: seq<Row<L>>) {
    forall i, j :: 0 <= i < j < |rows| ==> rows[i].key != rows[j].key
  }

  lemma {:induction false} CollectedFrom<L>(rows: seq<Row<L>>, key: string)
    ensures key in Collected(rows) <==> key in Keys(rows)
    ensures key in Collected(rows) ==> exists i :: 0 <= i < |rows| && rows[i] == Row(key, Collected(rows)[key])
  {
    if rows != [] {
      var front, last := rows[..|rows| - 1], rows[|rows| - 1];
      CollectedFrom(front, key);
      KeysLast(rows);
      if key == last.key {
        assert rows[|rows| - 1] == Row(key, Collected(rows)[key]);
      } else if key in Collected(front) {
        var i :| 0 <= i < |front| && front[i] == Row(key, Collected(front)[key]);
        assert rows[i] == Row(key, Collected(rows)[key]);
      }
    }
  }

  lemma CollectedMore<L>(layout: L, rows: seq<Row<L>>)
    requires rows != []
    ensures var (front, last) := (rows[..|rows| - 1], rows[|rows| - 1]);
      && Collected(rows) == Collected(front)[last.key := last.stats]
      && SumAll(layout, StatsOf(rows)) == Sum(SumAll(layout, StatsOf(front)), last.stats)
  {
    assert StatsOf(rows)[..|rows| - 1] == StatsOf(rows[..|rows| - 1]);
  }

  ghost predicate AllCounted<L>(rows: seq<Row<L>>) {
    forall i :: 0 <= i < |rows| ==> rows[i].stats.count > 0
  }

  /** The spans counted in the collected table, against those counted in the rows. */
  lemma {:induction false} CollectedCount<L>(layout: L, rows: seq<Row<L>>, keys: seq<string>)
    requires Lists(keys, Collected(rows)) && AllCounted(rows)
    ensures var (got, all) := (SumAll(layout, Entries(Collected(rows), keys)), SumAll(layout, StatsOf(rows)));
      if DistinctLabels(rows) then got == all else got.count < all.count
    decreases |rows|
  {
    if rows == [] {
      ListsNothing(keys, Collected(rows));
    } else {
      var front, last := rows[..|rows| - 1], rows[|rows| - 1];
      var t := Collected(front);
      assert AllCounted(front) && last.stats.count > 0;
      CollectedMore(layout, rows);
      CollectedFrom(front, last.key);
      hide SumAll, Collected, AllCounted, Keys;
      var others := EntryChange(layout, t, last.key, last.stats, keys);
      if last.key in t {
        var i :| 0 <= i < |front| && front[i] == Row(last.key, t[last.key]);
        Repeated(rows, i);
        hide DistinctLabels;
        Restored(layout, t, last.key, others);
        CollectedCount(layout, front, others + [last.key]);
      } else {
        NewLabel(rows);
        hide DistinctLabels;
        assert t - {last.key} == t;
        CollectedCount(layout, front, others);
      }
    }
  }

  lemma Repeated<L>(rows: seq<Row<L>>, i: nat)
    requires i < |rows| - 1 && rows[i].key == rows[|rows| - 1].key && AllCounted(rows)
    ensures !DistinctLabels(rows) && rows[i].stats.count > 0
  {
  }

  lemma NewLabel<L>(rows: seq<Row<L>>)
    requires rows != [] && rows[|rows| - 1].key !in Keys(rows[..|rows| - 1])
    ensures DistinctLabels(rows) <==> DistinctLabels(rows[..|rows| - 1])
  {
    var front := rows[..|rows| - 1];
    forall i | 0 <= i < |front|
      ensures rows[i].key != rows[|rows| - 1].key
    {
      assert front[i].key in Keys(front);
    }
    if !DistinctLabels(rows) {
      var i, j :| 0 <= i < j < |rows| && rows[i].key == rows[j].key;
      assert front[i].key == front[j].key;
    }
  }

  /** A single run's breakdown still adds up exactly when no two of its ids resolve to one label. */
  lemma SingleRunReconciles<L>(layout: L, rows: seq<Row<L>>, keys: seq<string>)
    requires Lists(keys, Collected(rows)) && AllCounted(rows)
    ensures SumAll(layout, Entries(Collected(rows), keys)) == SumAll(layout, StatsOf(rows)) <==> DistinctLabels(rows)
  {
    CollectedCount(layout, rows, keys);
  }
}
