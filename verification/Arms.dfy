/**
 An arm of a comparison combined from several recorded runs, and what its breakdown says: the movements
 of the keys two arms are compared by account for the movement of their totals.
 */
module Arms {
  import opened Text
  import opened Sorting
  import opened Stats
  import opened MergeRuns
  import Breakdown
  import CanonicalFilter
  import Tally

  /** What decides which spans a run measured, and how it groups them. */
  datatype Definition = Definition(filter: CanonicalFilter.Filter, level: nat, groupKeys: seq<string>)

  /** A recorded run; it may have been recorded without a breakdown. */
  datatype Snapshot<L> = Snapshot(def: Definition, total: Exact<L>, perName: Option<seq<Row<L>>>, perGroup: Option<seq<Row<L>>>)

  datatype Arm<L> = Arm(total: Exact<L>, perName: Option<Table<L>>, perGroup: Option<Table<L>>)

  datatype ArmError = NothingToCombine | DefinitionMismatch(run: nat) | Unmergeable(error: MergeError)

  predicate SameDefinition(env: CanonicalFilter.Env, d: Definition, e: Definition) {
    && CanonicalFilter.Canonical(env, d.filter) == CanonicalFilter.Canonical(env, e.filter)
    && d.level == e.level && d.groupKeys == e.groupKeys
  }

  function Totals<L>(runs: seq<Snapshot<L>>): (r: seq<Exact<L>>)
    ensures |r| == |runs| && forall i :: 0 <= i < |r| ==> r[i] == runs[i].total
  {
    seq(|runs|, i requires 0 <= i < |runs| => runs[i].total)
  }

  /** The breakdowns of the runs, if every one of them has one. */
  function AllOrNone<L>(rows: seq<Option<seq<Row<L>>>>): Option<seq<seq<Row<L>>>> {
    if forall i :: 0 <= i < |rows| ==> rows[i].Some? then
      Some(seq(|rows|, i requires 0 <= i < |rows| => rows[i].value))
    else None
  }

  function NameRows<L>(runs: seq<Snapshot<L>>): (r: seq<Option<seq<Row<L>>>>)
    ensures |r| == |runs| && forall i :: 0 <= i < |r| ==> r[i] == runs[i].perName
  {
    seq(|runs|, i requires 0 <= i < |runs| => runs[i].perName)
  }

  function GroupRows<L>(runs: seq<Snapshot<L>>): (r: seq<Option<seq<Row<L>>>>)
    ensures |r| == |runs| && forall i :: 0 <= i < |r| ==> r[i] == runs[i].perGroup
  {
    seq(|runs|, i requires 0 <= i < |runs| => runs[i].perGroup)
  }

  function MergedRows<L(==)>(rows: seq<Option<seq<Row<L>>>>): Option<Table<L>> {
    match AllOrNone(rows) case None => None case Some(all) => Some(MergedByLabel(RowsOf(all)))
  }

  /** What two definitions have to share: filters of one form, the level, the group keys. */
  ghost predicate Comparable(env: CanonicalFilter.Env, d: Definition, e: Definition) {
    && (CanonicalFilter.Canonical(env, d.filter) == CanonicalFilter.Canonical(env, e.filter))
    && !(d.level != e.level || d.groupKeys != e.groupKeys)
  }

  ghost predicate OneDefinition<L>(env: CanonicalFilter.Env, runs: seq<Snapshot<L>>) {
    forall i :: 0 <= i < |runs| ==> Comparable(env, runs[i].def, runs[|runs| - 1].def)
  }

  /** The arm that the runs make, definitions aside. */
  ghost predicate IsCombined<L>(runs: seq<Snapshot<L>>, arm: Arm<L>) {
    && runs != [] && MergedTotals(Totals(runs)) == Success(arm.total)
    && arm.perName == MergedRows(NameRows(runs)) && arm.perGroup == MergedRows(GroupRows(runs))
  }

  method MergeRows<L(==)>(rows: seq<Option<seq<Row<L>>>>) returns (t: Option<Table<L>>)
    ensures t == MergedRows(rows)
  {
    var all := AllOrNone(rows);
    if all.None? {
      return None;
    }
    var out := MergeByLabel(all.value);
    t := Some(out);
  }

  /** The arm over some runs: refused unless all were recorded under one definition. */
  method Combine<L(==)>(env: CanonicalFilter.Env, runs: seq<Snapshot<L>>) returns (r: Result<Arm<L>, ArmError>)
    ensures runs == [] ==> r == Failure(NothingToCombine)
    ensures runs != [] && !OneDefinition(env, runs) ==>
              r.Failure? && r.error.DefinitionMismatch? && r.error.run < |runs|
              && !Comparable(env, runs[r.error.run].def, runs[|runs| - 1].def)
              && forall i :: 0 <= i < r.error.run ==> Comparable(env, runs[i].def, runs[|runs| - 1].def)
    ensures runs != [] && OneDefinition(env, runs) ==>
              if MergedTotals(Totals(runs)).Failure? then r == Failure(Unmergeable(MergedTotals(Totals(runs)).error))
              else r.Success? && IsCombined(runs, r.value)
  {
    if runs == [] {
      return Failure(NothingToCombine);
    }
    var last := runs[|runs| - 1].def;
    hide MergedRows, CanonicalFilter.Canonical;
    for i := 0 to |runs|
      invariant forall j :: 0 <= j < i ==> Comparable(env, runs[j].def, last)
    {
      if !SameDefinition(env, runs[i].def, last) {
        return Failure(DefinitionMismatch(i));
      }
    }
    var total := MergeTotals(Totals(runs));
    if total.Failure? {
      return Failure(Unmergeable(total.error));
    }
    var perName := MergeRows(NameRows(runs));
    var perGroup := MergeRows(GroupRows(runs));
    r := Success(Arm(total.value, perName, perGroup));
  }

  // ---- What a combined arm's breakdown adds up to ------------------------------------------------

  /** The rows by group of a run that may have no group keys: then there are none, but they may well be recorded. */
  ghost predicate GroupsConsistent<L>(keys: seq<string>, total: Exact<L>, rows: seq<Row<L>>) {
    if keys == [] then rows == [] else Reconciles(Run(total, rows))
  }

  /** A run whose breakdowns, where it has them, add up to its total. */
  ghost predicate Consistent<L>(s: Snapshot<L>) {
    && (s.perName.Some? ==> Reconciles(Run(s.total, s.perName.value)))
    && (s.perGroup.Some? ==> GroupsConsistent(s.def.groupKeys, s.total, s.perGroup.value))
  }

  /** Every run is, that was recorded from a window: whatever spans it took in and however its maps were listed. */
  lemma RecordedIsConsistent<L>(
      layout: L, def: Definition, spans: seq<Tally.Seen>, ids: seq<nat>, tuples: seq<seq<nat>>)
    requires Tally.AllCarry(spans, |def.groupKeys|)
    requires Lists(ids, Tally.After(layout, |def.groupKeys|, spans).perName)
    requires Lists(tuples, Tally.After(layout, |def.groupKeys|, spans).perGroup)
    ensures var w := Tally.After(layout, |def.groupKeys|, spans);
      && Consistent(Snapshot(def, w.total, Some(Tally.NameRows(w, ids)), Some(Tally.GroupRows(w, tuples))))
      && Consistent(Snapshot(def, w.total, Some(Tally.NameRows(w, ids)), None)) && Consistent(Snapshot(def, w.total, None, None))
  {
    hide Tally.After, Reconciles;
    Tally.NameRowsReconcile(layout, |def.groupKeys|, spans, ids);
    if def.groupKeys == [] {
      Tally.NoKeysNoRows(layout, spans);
      ListsNothing(tuples, Tally.After(layout, 0, spans).perGroup);
    } else {
      Tally.GroupRowsReconcile(layout, |def.groupKeys|, spans, tuples);
    }
  }

  lemma MergedRowsAddUp<L>(totals: seq<Exact<L>>, rows: seq<Option<seq<Row<L>>>>)
    requires |totals| == |rows| > 0 && MergedTotals(totals).Success?
    requires forall i :: 0 <= i < |rows| && rows[i].Some? ==> Reconciles(Run(totals[i], rows[i].value))
    ensures MergedRows(rows).Some? <==> forall i :: 0 <= i < |rows| ==> rows[i].Some?
    ensures MergedRows(rows).Some? ==> AddsUp(totals[0].sketch.layout, MergedRows(rows).value, MergedTotals(totals).value)
  {
    if forall i :: 0 <= i < |rows| ==> rows[i].Some? {
      var runs := seq(|rows|, i requires 0 <= i < |rows| => Run(totals[i], rows[i].value));
      assert TotalsOf(runs) == totals && BreakdownsOf(runs) == AllOrNone(rows).value;
      hide Reconciles, AddsUp, MergedByLabel;
      MergedRunsReconcile(runs);
    }
  }

  /** Runs without group keys make an empty breakdown by group. */
  lemma {:induction false} NothingMerged<L>(rows: seq<seq<Row<L>>>)
    requires forall i :: 0 <= i < |rows| ==> rows[i] == []
    ensures RowsOf(rows) == []
  {
    if rows != [] {
      NothingMerged(rows[..|rows| - 1]);
    }
  }

  ghost predicate Grouped<L>(runs: seq<Snapshot<L>>) {
    forall i :: 0 <= i < |runs| ==> runs[i].def.groupKeys != []
  }

  ghost predicate Ungrouped<L>(runs: seq<Snapshot<L>>) {
    forall i :: 0 <= i < |runs| ==> runs[i].def.groupKeys == []
  }

  /** Runs that are combined at all have one set of group keys between them, or none. */
  lemma GroupedOrNot<L>(env: CanonicalFilter.Env, runs: seq<Snapshot<L>>)
    requires OneDefinition(env, runs)
    ensures Grouped(runs) || Ungrouped(runs)
  {
    hide CanonicalFilter.Canonical;
    assert forall i :: 0 <= i < |runs| ==> Comparable(env, runs[i].def, runs[|runs| - 1].def);
  }

  lemma GroupsAddUp<L>(runs: seq<Snapshot<L>>)
    requires runs != [] && MergedTotals(Totals(runs)).Success? && forall i :: 0 <= i < |runs| ==> Consistent(runs[i])
    ensures MergedRows(GroupRows(runs)).Some? <==> forall i :: 0 <= i < |runs| ==> runs[i].perGroup.Some?
    ensures MergedRows(GroupRows(runs)).Some? && Grouped(runs) ==>
              AddsUp(runs[0].total.sketch.layout, MergedRows(GroupRows(runs)).value, MergedTotals(Totals(runs)).value)
    ensures MergedRows(GroupRows(runs)).Some? && Ungrouped(runs) ==> MergedRows(GroupRows(runs)).value == map[]
  {
    var rows := GroupRows(runs);
    assert forall i :: 0 <= i < |runs| ==> Consistent(runs[i]);
    hide Reconciles, AddsUp, MergedTotals;
    if Grouped(runs) {
      hide MergedRows;
      MergedRowsAddUp(Totals(runs), rows);
    }
    if Ungrouped(runs) && AllOrNone(rows).Some? {
      NothingMerged(AllOrNone(rows).value);
    }
  }

  /**
   The arm's breakdowns add up to its total, or are left out because some run lacks one; without group keys
   the breakdown by group is empty.
   */
  lemma CombinedAddsUp<L>(runs: seq<Snapshot<L>>, arm: Arm<L>)
    requires IsCombined(runs, arm) && forall i :: 0 <= i < |runs| ==> Consistent(runs[i])
    ensures var layout := runs[0].total.sketch.layout;
      && (arm.perName.Some? <==> forall i :: 0 <= i < |runs| ==> runs[i].perName.Some?)
      && (arm.perGroup.Some? <==> forall i :: 0 <= i < |runs| ==> runs[i].perGroup.Some?)
      && (arm.perName.Some? ==> AddsUp(layout, arm.perName.value, arm.total))
      && (arm.perGroup.Some? && Grouped(runs) ==> AddsUp(layout, arm.perGroup.value, arm.total))
      && (arm.perGroup.Some? && Ungrouped(runs) ==> arm.perGroup.value == map[])
  {
    assert forall i :: 0 <= i < |runs| ==> Consistent(runs[i]);
    GroupsAddUp(runs);
    hide Reconciles, AddsUp, MergedRows, MergedTotals, GroupsConsistent, Grouped, Ungrouped;
    MergedRowsAddUp(Totals(runs), NameRows(runs));
  }

  // ---- The movement of the totals ----------------------------------------------------------------

  /** What the ranked breakdown looks at. */
  function Figures<L>(t: Table<L>): (f: Breakdown.Table)
    ensures f.Keys == t.Keys && forall k :: k in f ==> f[k] == Breakdown.Entry(t[k].count, t[k].total)
  {
    map k | k in t :: Breakdown.Entry(t[k].count, t[k].total)
  }

  ghost function KeySet(keys: seq<string>): set<string> {
    set k | k in keys
  }

  lemma {:induction false} ListedTotal<L>(layout: L, t: Table<L>, keys: seq<string>)
    requires NoRepeats(keys) && forall k :: k in keys ==> k in t
    ensures SumAll(layout, Entries(t, keys)).total == Breakdown.TotalOver(Figures(t), KeySet(keys))
  {
    if keys == [] {
      assert KeySet(keys) == {};
    } else {
      var (front, last) := (keys[..|keys| - 1], keys[|keys| - 1]);
      assert keys == front + [last] && last !in front;
      assert KeySet(keys) - {last} == KeySet(front);
      assert Entries(t, keys)[..|keys| - 1] == Entries(t, front);
      ListedTotal(layout, t, front);
      Breakdown.TotalWithout(Figures(t), KeySet(keys), last);
    }
  }

  lemma {:induction false} SomeListing(s: set<string>) returns (keys: seq<string>)
    ensures NoRepeats(keys) && forall k :: k in keys <==> k in s
    decreases s
  {
    keys := [];
    if s != {} {
      var k :| k in s;
      var rest := SomeListing(s - {k});
      keys := rest + [k];
    }
  }

  lemma TableTotal<L>(layout: L, t: Table<L>, total: Exact<L>)
    requires AddsUp(layout, t, total)
    ensures Breakdown.Total(Figures(t)) == total.total
  {
    var keys := SomeListing(t.Keys);
    ListedTotal(layout, t, keys);
    assert KeySet(keys) == t.Keys;
    AddsUpFor(layout, t, total, keys);
  }

  /**
   Between two arms whose breakdowns add up, the totals move by what the compared keys move together, and
   what the rows left out as overflow do.
   */
  lemma MovementsAccountForTotals<L>(
      la: L, a: Exact<L>, ta: Table<L>, lb: L, b: Exact<L>, tb: Table<L>, rows: seq<Breakdown.Row>)
    requires AddsUp(la, ta, a) && AddsUp(lb, tb, b) && Breakdown.IsBreakdown(Figures(ta), Figures(tb), rows)
    ensures b.total - a.total ==
              Breakdown.Movements(rows) + (Breakdown.OverflowTotal(Figures(tb)) - Breakdown.OverflowTotal(Figures(ta)))
  {
    TableTotal(la, ta, a);
    TableTotal(lb, tb, b);
    Breakdown.MovementsReconcile(Figures(ta), Figures(tb), rows);
  }

  /** In particular between two arms combined from recorded runs. */
  lemma CombinedArmsMove<L>(before: seq<Snapshot<L>>, a: Arm<L>, after: seq<Snapshot<L>>, b: Arm<L>, rows: seq<Breakdown.Row>)
    requires IsCombined(before, a) && forall i :: 0 <= i < |before| ==> Consistent(before[i])
    requires IsCombined(after, b) && forall i :: 0 <= i < |after| ==> Consistent(after[i])
    requires a.perName.Some? && b.perName.Some?
    requires Breakdown.IsBreakdown(Figures(a.perName.value), Figures(b.perName.value), rows)
    ensures b.total.total - a.total.total ==
              Breakdown.Movements(rows)
              + (Breakdown.OverflowTotal(Figures(b.perName.value)) - Breakdown.OverflowTotal(Figures(a.perName.value)))
  {
    hide Consistent, AddsUp, MergedRows, MergedTotals, Breakdown.IsBreakdown, Breakdown.Movements, Breakdown.OverflowTotal;
    CombinedAddsUp(before, a);
    CombinedAddsUp(after, b);
    MovementsAccountForTotals(before[0].total.sketch.layout, a.total, a.perName.value,
                              after[0].total.sketch.layout, b.total, b.perName.value, rows);
  }

  /** And where they have group keys, of the breakdown by group. */
  lemma CombinedGroupsMove<L>(before: seq<Snapshot<L>>, a: Arm<L>, after: seq<Snapshot<L>>, b: Arm<L>, rows: seq<Breakdown.Row>)
    requires IsCombined(before, a) && Grouped(before) && forall i :: 0 <= i < |before| ==> Consistent(before[i])
    requires IsCombined(after, b) && Grouped(after) && forall i :: 0 <= i < |after| ==> Consistent(after[i])
    requires a.perGroup.Some? && b.perGroup.Some?
    requires Breakdown.IsBreakdown(Figures(a.perGroup.value), Figures(b.perGroup.value), rows)
    ensures b.total.total - a.total.total ==
              Breakdown.Movements(rows)
              + (Breakdown.OverflowTotal(Figures(b.perGroup.value)) - Breakdown.OverflowTotal(Figures(a.perGroup.value)))
  {
    hide Consistent, AddsUp, MergedRows, MergedTotals, Grouped, Breakdown.IsBreakdown, Breakdown.Movements, Breakdown.OverflowTotal;
    CombinedAddsUp(before, a);
    CombinedAddsUp(after, b);
    MovementsAccountForTotals(before[0].total.sketch.layout, a.total, a.perGroup.value,
                              after[0].total.sketch.layout, b.total, b.perGroup.value, rows);
  }
}
