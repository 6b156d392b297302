/**
 A collector's window: one total, a row for each span name and a row for each tuple of group values, all
 updated with each matched span. And what becomes of the rows where they are listed by label instead of id.
 */
module Tally {
  import opened Text
  import opened Sorting
  import opened Stats
  import opened Interning
  import opened GroupLabels
  import opened MergeRuns

  const NAME_CAP: nat := 256
  const GROUP_VALUE_CAP: nat := 1024
  const MAX_GROUP_TUPLES: nat := 256

  /** A matched span: its name, its value under each group key if it has one, and what is offered to the statistics. */
  datatype Seen = Seen(name: string, values: seq<Option<string>>, offer: Offer)

  datatype Window<L> = Window(
    total: Exact<L>, names: seq<string>, perName: map<nat, Exact<L>>,
    values: seq<seq<string>>, perGroup: map<seq<nat>, Exact<L>>)

  function Opened<L>(layout: L, groupKeys: nat): Window<L> {
    Window(Empty(layout), [], map[], seq(groupKeys, _ => []), map[])
  }

  /** The row of `key` with one more span recorded, opened if need be. */
  function Tallied<K, L>(layout: L, rows: map<K, Exact<L>>, key: K, o: Offer): map<K, Exact<L>> {
    rows[key := Recorded(if key in rows then rows[key] else Empty(layout), o)]
  }

  function KeptOne(values: seq<string>, seen: Option<string>): seq<string> {
    if seen.None? then values else Kept(values, GROUP_VALUE_CAP, seen.value)
  }

  function KeptAll(values: seq<seq<string>>, seen: seq<Option<string>>): (r: seq<seq<string>>)
    requires |values| == |seen|
    ensures |r| == |values| && forall i :: 0 <= i < |r| ==> r[i] == KeptOne(values[i], seen[i])
  {
    seq(|values|, i requires 0 <= i < |values| => KeptOne(values[i], seen[i]))
  }

  ghost function IdOrAbsent(values: seq<string>, seen: Option<string>): nat {
    if seen.None? then ABSENT_ID else IdIn(values, seen.value)
  }

  ghost function Ids(values: seq<seq<string>>, seen: seq<Option<string>>): (r: seq<nat>)
    requires |values| == |seen|
    ensures |r| == |values| && forall i :: 0 <= i < |r| ==> r[i] == IdOrAbsent(values[i], seen[i])
  {
    seq(|values|, i requires 0 <= i < |values| => IdOrAbsent(values[i], seen[i]))
  }

  function AllOverflow(n: nat): (r: seq<nat>)
    ensures |r| == n && forall i :: 0 <= i < n ==> r[i] == OVERFLOW_ID
  {
    seq(n, _ => OVERFLOW_ID)
  }

  /** The row a tuple goes to: its own, unless it is new and there are too many. */
  function TupleRow<L>(perGroup: map<seq<nat>, Exact<L>>, ids: seq<nat>): seq<nat> {
    if ids !in perGroup && |perGroup| >= MAX_GROUP_TUPLES then AllOverflow(|ids|) else ids
  }

  ghost function Ingested<L>(layout: L, w: Window<L>, s: Seen): Window<L>
    requires |s.values| == |w.values|
  {
    var names := Kept(w.names, NAME_CAP, s.name);
    var values := KeptAll(w.values, s.values);
    Window(
      Recorded(w.total, s.offer), names, Tallied(layout, w.perName, IdIn(names, s.name), s.offer), values,
      if w.values == [] then w.perGroup
      else Tallied(layout, w.perGroup, TupleRow(w.perGroup, Ids(values, s.values)), s.offer))
  }

  class Collector<L(==)> {
    const layout: L
    const names: Interner
    const groupValues: seq<Interner>
    var total: Exact<L>
    var perName: map<nat, Exact<L>>
    var perGroup: map<seq<nat>, Exact<L>>

    ghost predicate Valid()
      reads this, names, groupValues
    {
      && names.Valid() && names.cap == NAME_CAP && names !in groupValues
      && (forall i :: 0 <= i < |groupValues| ==> groupValues[i].Valid() && groupValues[i].cap == GROUP_VALUE_CAP)
      && NoRepeats(groupValues)
    }

    ghost function Values(): (r: seq<seq<string>>)
      reads groupValues
      ensures |r| == |groupValues| && forall i :: 0 <= i < |r| ==> r[i] == groupValues[i].toValue
    {
      seq(|groupValues|, i requires 0 <= i < |groupValues| reads groupValues => groupValues[i].toValue)
    }

    ghost function Now(): Window<L>
      reads this, names, groupValues
    {
      Window(total, names.toValue, perName, Values(), perGroup)
    }

    constructor (layout: L, groupKeys: nat)
      ensures Valid() && fresh(names) && fresh(groupValues)
      ensures this.layout == layout && Now() == Opened(layout, groupKeys)
    {
      this.layout := layout;
      total, perName, perGroup := Empty(layout), map[], map[];
      var table := new Interner(NAME_CAP);
      var tables: seq<Interner> := [];
      for i := 0 to groupKeys
        invariant table.Valid() && table.toValue == [] && table.cap == NAME_CAP
        invariant |tables| == i && fresh(tables) && table !in tables && NoRepeats(tables)
        invariant forall j :: 0 <= j < i ==> tables[j].Valid() && tables[j].cap == GROUP_VALUE_CAP && tables[j].toValue == []
      {
        var next := new Interner(GROUP_VALUE_CAP);
        tables := tables + [next];
      }
      names, groupValues := table, tables;
    }

    method InternOne(i: nat, seen: Option<string>) returns (id: nat)
      requires Valid() && i < |groupValues|
      modifies groupValues[i]
      ensures Valid() && Values() == old(Values())[i := KeptOne(old(Values())[i], seen)]
      ensures id == IdOrAbsent(Values()[i], seen)
    {
      ghost var before := Values();
      if seen.None? {
        assert before[i := before[i]] == before;
        return ABSENT_ID;
      }
      assert groupValues[i] != names && forall j :: 0 <= j < |groupValues| && j != i ==> groupValues[j] != groupValues[i];
      hide Interner.Valid, IdIn, Kept, NoRepeats;
      id := groupValues[i].Intern(seen.value);
      forall j | 0 <= j < |groupValues|
        ensures groupValues[j].Valid() && Values()[j] == before[i := Kept(before[i], GROUP_VALUE_CAP, seen.value)][j]
      {
      }
    }

    /** The ids of the span's group values, each new value interned on the way. */
    method InternAll(seen: seq<Option<string>>) returns (ids: seq<nat>)
      requires Valid() && |seen| == |groupValues|
      modifies groupValues
      ensures Valid() && Values() == KeptAll(old(Values()), seen) && ids == Ids(Values(), seen)
    {
      ids := [];
      hide Valid, Values, IdIn, Kept, KeptOne, IdOrAbsent;
      for i := 0 to |groupValues|
        invariant Valid() && |ids| == i
        invariant forall j :: 0 <= j < i ==> Values()[j] == KeptOne(old(Values())[j], seen[j])
        invariant forall j :: 0 <= j < i ==> ids[j] == IdOrAbsent(Values()[j], seen[j])
        invariant forall j :: i <= j < |groupValues| ==> Values()[j] == old(Values())[j]
      {
        var id := InternOne(i, seen[i]);
        ids := ids + [id];
      }
    }

    method Ingest(s: Seen)
      requires Valid() && |s.values| == |groupValues|
      modifies this, names, groupValues
      ensures Valid() && Now() == Ingested(layout, old(Now()), s)
    {
      hide Interner.Valid, IdIn, Kept, Ids, KeptAll, AllOverflow, Tallied, Recorded;
      total := Recorded(total, s.offer);
      var id := names.Intern(s.name);
      perName := Tallied(layout, perName, id, s.offer);
      if groupValues != [] {
        var ids := InternAll(s.values);
        if ids !in perGroup && |perGroup| >= MAX_GROUP_TUPLES {
          ids := AllOverflow(|groupValues|);
        }
        perGroup := Tallied(layout, perGroup, ids, s.offer);
      }
    }
  }

  // ---- After any number of spans -----------------------------------------------------------------

  ghost predicate AllCarry(spans: seq<Seen>, groupKeys: nat) {
    forall i :: 0 <= i < |spans| ==> |spans[i].values| == groupKeys
  }

  ghost function After<L>(layout: L, groupKeys: nat, spans: seq<Seen>): (w: Window<L>)
    requires AllCarry(spans, groupKeys)
    ensures |w.values| == groupKeys && forall t :: t in w.perGroup ==> |t| == groupKeys
  {
    if spans == [] then Opened(layout, groupKeys)
    else Ingested(layout, After(layout, groupKeys, spans[..|spans| - 1]), spans[|spans| - 1])
  }

  function Offers(spans: seq<Seen>): (r: seq<Offer>)
    ensures |r| == |spans| && forall i :: 0 <= i < |r| ==> r[i] == spans[i].offer
  {
    seq(|spans|, i requires 0 <= i < |spans| => spans[i].offer)
  }

  /** Every row was recorded with the layout, and holds at least one span. */
  ghost predicate Rowed<K, L>(layout: L, rows: map<K, Exact<L>>) {
    forall k :: k in rows ==> rows[k].sketch.layout == layout && rows[k].count > 0
  }

  /** Recording a span in one row adds it to what all the rows hold. */
  lemma TallyConserves<K(!new), L>(layout: L, rows: map<K, Exact<L>>, total: Exact<L>, key: K, o: Offer)
    requires AddsUp(layout, rows, total) && total.sketch.layout == layout && Rowed(layout, rows)
    ensures AddsUp(layout, Tallied(layout, rows, key, o), Recorded(total, o)) && Rowed(layout, Tallied(layout, rows, key, o))
  {
    var one := Of(layout, [o]);
    OfOne(layout, o);
    RecordedIsSum(total, o);
    if key in rows { RecordedIsSum(rows[key], o); }
    assert Tallied(layout, rows, key, o) == WithAdded(rows, key, one);
    hide Recorded, Of, Sum, SumAll, AddsUp;
    forall keys | Lists(keys, WithAdded(rows, key, one))
      ensures SumAll(layout, Entries(WithAdded(rows, key, one), keys)) == Sum(total, one)
    {
      AddedConserves(layout, rows, key, one, keys, total);
    }
    SumsUp(layout, WithAdded(rows, key, one), Sum(total, one));
  }

  lemma SumsUp<K(!new), L>(layout: L, rows: map<K, Exact<L>>, total: Exact<L>)
    requires forall keys :: Lists(keys, rows) ==> SumAll(layout, Entries(rows, keys)) == total
    ensures AddsUp(layout, rows, total)
  {
  }

  lemma NothingAddsUp<K(!new), L>(layout: L, rows: map<K, Exact<L>>)
    requires rows == map[]
    ensures AddsUp(layout, rows, Empty(layout))
  {
    forall keys | Lists(keys, rows)
      ensures SumAll(layout, Entries(rows, keys)) == Empty(layout)
    {
      ListsNothing(keys, rows);
    }
  }

  /** The rows by name add up to the total, and so do those by group; and the total is that of all spans. */
  lemma {:induction false} RowsReconcile<L>(layout: L, groupKeys: nat, spans: seq<Seen>)
    requires AllCarry(spans, groupKeys)
    ensures var w := After(layout, groupKeys, spans);
      && w.total == Of(layout, Offers(spans)) && w.total.sketch.layout == layout
      && Rowed(layout, w.perName) && AddsUp(layout, w.perName, w.total)
      && (groupKeys > 0 ==> Rowed(layout, w.perGroup) && AddsUp(layout, w.perGroup, w.total))
  {
    OfLayout(layout, Offers(spans));
    if spans == [] {
      NothingAddsUp(layout, Opened(layout, groupKeys).perName);
      NothingAddsUp(layout, Opened(layout, groupKeys).perGroup);
    } else {
      var (front, s) := (spans[..|spans| - 1], spans[|spans| - 1]);
      var w := After(layout, groupKeys, front);
      RowsReconcile(layout, groupKeys, front);
      assert Offers(spans)[..|spans| - 1] == Offers(front);
      hide Of, Recorded, Tallied, TupleRow, AddsUp, Rowed, IdIn, Kept;
      TallyConserves(layout, w.perName, w.total, IdIn(Kept(w.names, NAME_CAP, s.name), s.name), s.offer);
      if groupKeys > 0 {
        TallyConserves(layout, w.perGroup, w.total, TupleRow(w.perGroup, Ids(KeptAll(w.values, s.values), s.values)), s.offer);
      }
    }
  }

  // ---- The rows by name --------------------------------------------------------------------------

  /** A name that has an id of its own keeps it; one that did not fit never gets one. */
  lemma IdStays(values: seq<string>, cap: nat, more: string, name: string)
    requires NoRepeats(values) && (name in values || |values| >= cap)
    ensures NoRepeats(Kept(values, cap, more)) && IdIn(Kept(values, cap, more), name) == IdIn(values, name)
  {
    var now := Kept(values, cap, more);
    assert now == values || now == values + [more];
    if name in values {
      var (i, j) := (IdIn(values, name) - FIRST_REAL_ID, IdIn(now, name) - FIRST_REAL_ID);
      assert now[i] == name && now[j] == name;
    }
  }

  /** The names in the table are different, each is a span's, and a span's name is missing only where the table is full. */
  ghost predicate NamesOf(names: seq<string>, spans: seq<Seen>) {
    && NoRepeats(names) && |names| <= 256
    && (forall n :: n in names ==> exists i :: 0 <= i < |spans| && spans[i].name == n)
    && (forall i :: 0 <= i < |spans| ==> spans[i].name in names || |names| == 256)
  }

  lemma NamesOfMore(names: seq<string>, front: seq<Seen>, s: Seen)
    requires NamesOf(names, front)
    ensures NamesOf(Kept(names, NAME_CAP, s.name), front + [s])
  {
    var (now, spans) := (Kept(names, NAME_CAP, s.name), front + [s]);
    forall n | n in now
      ensures exists i :: 0 <= i < |spans| && spans[i].name == n
    {
      if n in names {
        var i :| 0 <= i < |front| && front[i].name == n;
        assert spans[i].name == n;
      } else {
        assert spans[|front|].name == n;
      }
    }
  }

  /** The spans that went to one row. */
  ghost function WithId(names: seq<string>, spans: seq<Seen>, id: nat): seq<Seen> {
    if spans == [] then []
    else
      var front := WithId(names, spans[..|spans| - 1], id);
      if IdIn(names, spans[|spans| - 1].name) == id then front + [spans[|spans| - 1]] else front
  }

  lemma {:induction false} WithIdStays(names: seq<string>, spans: seq<Seen>, more: string, id: nat)
    requires NoRepeats(names) && forall i :: 0 <= i < |spans| ==> spans[i].name in names || |names| >= NAME_CAP
    ensures WithId(Kept(names, NAME_CAP, more), spans, id) == WithId(names, spans, id)
  {
    if spans != [] {
      WithIdStays(names, spans[..|spans| - 1], more, id);
      IdStays(names, NAME_CAP, more, spans[|spans| - 1].name);
    }
  }

  /** One span more, in the row of its id and in no other. */
  lemma WithIdMore(names: seq<string>, front: seq<Seen>, s: Seen, id: nat)
    ensures WithId(names, front + [s], id) ==
              if IdIn(names, s.name) == id then WithId(names, front, id) + [s] else WithId(names, front, id)
  {
    assert (front + [s])[..|front|] == front;
  }

  lemma OffersMore<L>(layout: L, spans: seq<Seen>, s: Seen)
    ensures Of(layout, Offers(spans + [s])) == Recorded(Of(layout, Offers(spans)), s.offer)
  {
    assert Offers(spans + [s])[..|spans|] == Offers(spans);
  }

  /** Each row holds the statistics of the spans with its id, and there is one wherever there are such spans. */
  ghost predicate RowsAre<L>(layout: L, w: Window<L>, spans: seq<Seen>) {
    forall id: nat ::
      && (id in w.perName <==> WithId(w.names, spans, id) != [])
      && (id in w.perName ==> w.perName[id] == Of(layout, Offers(WithId(w.names, spans, id))))
  }

  lemma NameRowsMore<L>(layout: L, v: Window<L>, front: seq<Seen>, s: Seen)
    requires NamesOf(v.names, front) && RowsAre(layout, v, front) && |s.values| == |v.values|
    ensures RowsAre(layout, Ingested(layout, v, s), front + [s])
  {
    var w := Ingested(layout, v, s);
    assert NoRepeats(v.names) && forall i :: 0 <= i < |front| ==> front[i].name in v.names || |v.names| >= NAME_CAP;
    assert Offers([]) == [];
    hide Of, Recorded, WithId, IdIn, Kept, NamesOf, TupleRow, Offers;
    forall id: nat
      ensures id in w.perName <==> WithId(w.names, front + [s], id) != []
      ensures id in w.perName ==> w.perName[id] == Of(layout, Offers(WithId(w.names, front + [s], id)))
    {
      WithIdStays(v.names, front, s.name, id);
      WithIdMore(w.names, front, s, id);
      OffersMore(layout, WithId(v.names, front, id), s);
      OfNone(layout);
    }
  }

  lemma OfNone<L>(layout: L)
    ensures Of(layout, []) == Empty(layout)
  {
  }

  lemma {:induction false} NameRowsAre<L>(layout: L, groupKeys: nat, spans: seq<Seen>)
    requires AllCarry(spans, groupKeys)
    ensures var w := After(layout, groupKeys, spans); NamesOf(w.names, spans) && RowsAre(layout, w, spans)
  {
    if spans != [] {
      var (front, s) := (spans[..|spans| - 1], spans[|spans| - 1]);
      var v := After(layout, groupKeys, front);
      assert spans == front + [s] && After(layout, groupKeys, spans) == Ingested(layout, v, s);
      assert Ingested(layout, v, s).names == Kept(v.names, NAME_CAP, s.name);
      NameRowsAre(layout, groupKeys, front);
      hide After, Ingested, NamesOf, RowsAre, Kept;
      NamesOfMore(v.names, front, s);
      NameRowsMore(layout, v, front, s);
    }
  }

  lemma {:induction false} WithIdFrom(names: seq<string>, spans: seq<Seen>, id: nat)
    ensures WithId(names, spans, id) != [] <==> exists i :: 0 <= i < |spans| && IdIn(names, spans[i].name) == id
  {
    if spans != [] {
      var front := spans[..|spans| - 1];
      WithIdFrom(names, front, id);
      hide IdIn;
      if i :| 0 <= i < |front| && IdIn(names, front[i].name) == id {
        assert spans[i] == front[i];
      }
      if i :| 0 <= i < |spans| - 1 && IdIn(names, spans[i].name) == id {
        assert front[i] == spans[i];
      }
    }
  }

  /** The rows by name have different labels, unless a span named like the overflow has a row and the overflow has one too. */
  lemma NamesApartWhen<L>(layout: L, groupKeys: nat, spans: seq<Seen>)
    requires AllCarry(spans, groupKeys)
    ensures var w := After(layout, groupKeys, spans);
      LabelsApart(w.names, w.perName.Keys) <==>
        OVERFLOW_LABEL !in w.names || forall i :: 0 <= i < |spans| ==> spans[i].name in w.names
  {
    var w := After(layout, groupKeys, spans);
    var ids := w.perName.Keys;
    NameRowsAre(layout, groupKeys, spans);
    forall id: nat
      ensures id in ids <==> exists i :: 0 <= i < |spans| && IdIn(w.names, spans[i].name) == id
    {
      WithIdFrom(w.names, spans, id);
    }
    hide After, WithId, RowsAre;
    LabelsApartWhen(w.names, ids);
    OverflowRow(w.names, spans, ids);
  }

  lemma OverflowRow(names: seq<string>, spans: seq<Seen>, ids: set<nat>)
    requires NamesOf(names, spans)
    requires forall id: nat :: id in ids <==> exists i :: 0 <= i < |spans| && IdIn(names, spans[i].name) == id
    ensures ABSENT_ID !in ids && forall id :: id in ids && ReadsOverflow(names, id) ==> id == OVERFLOW_ID
    ensures OVERFLOW_ID in ids <==> exists i :: 0 <= i < |spans| && spans[i].name !in names
    ensures Spelled(names, ids, OVERFLOW_LABEL) <==> OVERFLOW_LABEL in names
  {
    if OVERFLOW_LABEL in names {
      var i :| 0 <= i < |spans| && spans[i].name == OVERFLOW_LABEL;
      var id := IdIn(names, OVERFLOW_LABEL);
      assert IdIn(names, spans[i].name) == id && id in ids && names[id - FIRST_REAL_ID] == OVERFLOW_LABEL;
      var place := id - FIRST_REAL_ID;
      assert FIRST_REAL_ID + place == id && FIRST_REAL_ID + place in ids;
    }
    if i :| 0 <= i < |spans| && spans[i].name !in names {
      assert IdIn(names, spans[i].name) == OVERFLOW_ID;
    }
  }

  // ---- The breakdown of a single arm -------------------------------------------------------------

  /** The rows by name as an arm lists them: by label, in whatever order the map yields its ids. */
  function NameRows<L>(w: Window<L>, ids: seq<nat>): (rows: seq<Row<L>>)
    requires forall id :: id in ids ==> id in w.perName
    ensures |rows| == |ids| && forall i :: 0 <= i < |rows| ==> rows[i] == Row(Label(w.names, ids[i]), w.perName[ids[i]])
  {
    seq(|ids|, i requires 0 <= i < |ids| => Row(Label(w.names, ids[i]), w.perName[ids[i]]))
  }

  /** Rows listed from a map that adds up, whatever they are labelled. */
  lemma ListedRows<K(!new), L>(layout: L, t: map<K, Exact<L>>, ids: seq<K>, total: Exact<L>, rows: seq<Row<L>>)
    requires Lists(ids, t) && Rowed(layout, t) && AddsUp(layout, t, total) && total.sketch.layout == layout
    requires |rows| == |ids| && forall i :: 0 <= i < |rows| ==> rows[i].stats == t[ids[i]]
    ensures Reconciles(Run(total, rows)) && AllCounted(rows)
  {
    assert StatsOf(rows) == Entries(t, ids);
    AddsUpFor(layout, t, total, ids);
    assert forall i :: 0 <= i < |rows| ==> ids[i] in ids;
  }

  lemma NameLabelsDistinct<L>(w: Window<L>, ids: seq<nat>)
    requires Lists(ids, w.perName)
    ensures DistinctLabels(NameRows(w, ids)) <==> LabelsApart(w.names, w.perName.Keys)
  {
    var rows := NameRows(w, ids);
    hide Label;
    if !LabelsApart(w.names, w.perName.Keys) {
      var id1, id2 :| id1 in w.perName.Keys && id2 in w.perName.Keys && id1 != id2 && Label(w.names, id1) == Label(w.names, id2);
      var i, j :| 0 <= i < |ids| && 0 <= j < |ids| && ids[i] == id1 && ids[j] == id2;
      assert rows[i].key == rows[j].key;
    }
    forall i, j | LabelsApart(w.names, w.perName.Keys) && 0 <= i < j < |rows|
      ensures rows[i].key != rows[j].key
    {
      assert ids[i] in ids && ids[j] in ids && ids[i] != ids[j];
    }
  }

  /** However the map yields them, the rows by name add up to the total. */
  lemma NameRowsReconcile<L>(layout: L, groupKeys: nat, spans: seq<Seen>, ids: seq<nat>)
    requires AllCarry(spans, groupKeys) && Lists(ids, After(layout, groupKeys, spans).perName)
    ensures var w := After(layout, groupKeys, spans);
      Reconciles(Run(w.total, NameRows(w, ids))) && AllCounted(NameRows(w, ids))
  {
    var w := After(layout, groupKeys, spans);
    RowsReconcile(layout, groupKeys, spans);
    hide After, Label;
    ListedRows(layout, w.perName, ids, w.total, NameRows(w, ids));
  }

  /**
   The rows by id always add up to the total. Listed by label, as a single arm lists them, they still do
   unless the window took in a span named like the overflow and then more names than fit; then spans are lost.
   */
  lemma NameBreakdownAddsUpWhen<L>(layout: L, groupKeys: nat, spans: seq<Seen>, ids: seq<nat>, keys: seq<string>)
    requires AllCarry(spans, groupKeys) && Lists(ids, After(layout, groupKeys, spans).perName)
    requires Lists(keys, Collected(NameRows(After(layout, groupKeys, spans), ids)))
    ensures var w := After(layout, groupKeys, spans);
      && Reconciles(Run(w.total, NameRows(w, ids)))
      && (SumAll(layout, Entries(Collected(NameRows(w, ids)), keys)) == w.total <==>
          OVERFLOW_LABEL !in w.names || forall i :: 0 <= i < |spans| ==> spans[i].name in w.names)
  {
    var w := After(layout, groupKeys, spans);
    NameRowsReconcile(layout, groupKeys, spans, ids);
    RowsReconcile(layout, groupKeys, spans);
    hide After, Label;
    NameLabelsDistinct(w, ids);
    NamesApartWhen(layout, groupKeys, spans);
    SingleRunReconciles(layout, NameRows(w, ids), keys);
  }

  // ---- The rows by group -------------------------------------------------------------------------

  /** What a span's group is called, key by key: by its value, or as not having one, or as one that did not fit. */
  lemma PartsOfSpan(values: seq<seq<string>>, seen: seq<Option<string>>, i: nat)
    requires |values| == |seen| && i < |values|
    ensures Parts(values, Ids(values, seen))[i] ==
              if seen[i].None? then "__absent__"
              else if seen[i].value in values[i] then seen[i].value
              else "__overflow__"
  {
  }

  function GroupRows<L>(w: Window<L>, tuples: seq<seq<nat>>): (rows: seq<Row<L>>)
    requires forall t :: t in tuples ==> t in w.perGroup && |t| == |w.values|
    ensures |rows| == |tuples|
    ensures forall i :: 0 <= i < |rows| ==> rows[i] == Row(GroupLabel(w.values, tuples[i]), w.perGroup[tuples[i]])
  {
    seq(|tuples|, i requires 0 <= i < |tuples| => Row(GroupLabel(w.values, tuples[i]), w.perGroup[tuples[i]]))
  }

  ghost predicate GroupsApart(values: seq<seq<string>>, tuples: set<seq<nat>>)
    requires forall t :: t in tuples ==> |t| == |values|
  {
    forall t, u :: t in tuples && u in tuples && t != u ==> GroupLabel(values, t) != GroupLabel(values, u)
  }

  lemma SameGroupLabel<L>(w: Window<L>, tuples: seq<seq<nat>>, t: seq<nat>, u: seq<nat>)
    requires Lists(tuples, w.perGroup) && forall t :: t in w.perGroup ==> |t| == |w.values|
    requires t in w.perGroup && u in w.perGroup && t != u && GroupLabel(w.values, t) == GroupLabel(w.values, u)
    ensures !DistinctLabels(GroupRows(w, tuples))
  {
    hide GroupLabel;
    var i, j :| 0 <= i < |tuples| && 0 <= j < |tuples| && tuples[i] == t && tuples[j] == u;
    assert GroupRows(w, tuples)[i].key == GroupRows(w, tuples)[j].key;
  }

  lemma GroupLabelsDistinct<L>(w: Window<L>, tuples: seq<seq<nat>>)
    requires Lists(tuples, w.perGroup) && forall t :: t in w.perGroup ==> |t| == |w.values|
    ensures DistinctLabels(GroupRows(w, tuples)) <==> GroupsApart(w.values, w.perGroup.Keys)
  {
    var rows := GroupRows(w, tuples);
    hide GroupLabel;
    if !GroupsApart(w.values, w.perGroup.Keys) {
      var t, u :| t in w.perGroup.Keys && u in w.perGroup.Keys && t != u && GroupLabel(w.values, t) == GroupLabel(w.values, u);
      SameGroupLabel(w, tuples, t, u);
    }
    forall i, j | GroupsApart(w.values, w.perGroup.Keys) && 0 <= i < j < |rows|
      ensures rows[i].key != rows[j].key
    {
      assert tuples[i] in tuples && tuples[j] in tuples && tuples[i] != tuples[j];
    }
  }

  /** The tables of group values keep what names' does: different values, and none missing that would have fitted. */
  ghost predicate ValuesOf(values: seq<seq<string>>, spans: seq<Seen>)
    requires AllCarry(spans, |values|)
  {
    forall i :: 0 <= i < |values| ==>
      && NoRepeats(values[i])
      && forall j :: 0 <= j < |spans| && spans[j].values[i].Some? ==>
           spans[j].values[i].value in values[i] || |values[i]| >= 1024
  }

  lemma KeptHas(values: seq<string>, value: string)
    ensures value in Kept(values, GROUP_VALUE_CAP, value) || |Kept(values, GROUP_VALUE_CAP, value)| >= GROUP_VALUE_CAP
    ensures NoRepeats(values) ==> NoRepeats(Kept(values, GROUP_VALUE_CAP, value))
    ensures values <= Kept(values, GROUP_VALUE_CAP, value)
  {
  }

  lemma ValuesOfMore(values: seq<seq<string>>, front: seq<Seen>, s: Seen)
    requires AllCarry(front + [s], |values|) && |s.values| == |values| && AllCarry(front, |values|) && ValuesOf(values, front)
    ensures ValuesOf(KeptAll(values, s.values), front + [s])
  {
    var (now, spans) := (KeptAll(values, s.values), front + [s]);
    forall i | 0 <= i < |now|
      ensures NoRepeats(now[i])
      ensures forall j :: 0 <= j < |spans| && spans[j].values[i].Some? ==>
                spans[j].values[i].value in now[i] || |now[i]| >= GROUP_VALUE_CAP
    {
      if s.values[i].Some? { KeptHas(values[i], s.values[i].value); }
      assert values[i] <= now[i];
      hide Kept, NoRepeats;
      assert forall v :: v in values[i] ==> v in now[i];
      forall j | 0 <= j < |spans| && spans[j].values[i].Some?
        ensures spans[j].values[i].value in now[i] || |now[i]| >= GROUP_VALUE_CAP
      {
        if j < |front| { assert spans[j] == front[j]; }
      }
    }
  }

  /** A tuple of ids stays what it was. */
  lemma IdsStay(values: seq<seq<string>>, front: seq<Seen>, s: Seen, j: nat)
    requires AllCarry(front, |values|) && |s.values| == |values| && ValuesOf(values, front) && j < |front|
    ensures Ids(KeptAll(values, s.values), front[j].values) == Ids(values, front[j].values)
  {
    forall i | 0 <= i < |values|
      ensures IdOrAbsent(KeptAll(values, s.values)[i], front[j].values[i]) == IdOrAbsent(values[i], front[j].values[i])
    {
      if front[j].values[i].Some? && s.values[i].Some? {
        IdStays(values[i], GROUP_VALUE_CAP, s.values[i].value, front[j].values[i].value);
      }
    }
  }

  /** The spans whose group values have these ids. */
  ghost function WithTuple(values: seq<seq<string>>, spans: seq<Seen>, ids: seq<nat>): seq<Seen>
    requires AllCarry(spans, |values|)
  {
    if spans == [] then []
    else
      var (front, s) := (spans[..|spans| - 1], spans[|spans| - 1]);
      var before := WithTuple(values, front, ids);
      if Ids(values, s.values) == ids then before + [s] else before
  }

  lemma {:induction false} WithTupleStays(values: seq<seq<string>>, front: seq<Seen>, s: Seen, n: nat, ids: seq<nat>)
    requires AllCarry(front, |values|) && |s.values| == |values| && ValuesOf(values, front) && n <= |front|
    ensures WithTuple(KeptAll(values, s.values), front[..n], ids) == WithTuple(values, front[..n], ids)
  {
    if n > 0 {
      IdsStay(values, front, s, n - 1);
      WithTupleStays(values, front, s, n - 1, ids);
      assert front[..n][..n - 1] == front[..n - 1];
      hide Ids, KeptAll;
    }
  }

  lemma WithTupleMore(values: seq<seq<string>>, front: seq<Seen>, s: Seen, ids: seq<nat>)
    requires AllCarry(front, |values|) && |s.values| == |values|
    ensures AllCarry(front + [s], |values|)
    ensures WithTuple(values, front + [s], ids) ==
              if Ids(values, s.values) == ids then WithTuple(values, front, ids) + [s] else WithTuple(values, front, ids)
  {
    assert (front + [s])[..|front|] == front;
  }

  /**
   Each row by group, but the one for what did not fit, holds the statistics of exactly the spans with its ids;
   and only where there are as many rows as there may be can such spans be without one.
   */
  ghost predicate GroupRowsOf<L>(layout: L, w: Window<L>, spans: seq<Seen>)
    requires AllCarry(spans, |w.values|)
  {
    forall ids :: ids != AllOverflow(|w.values|) ==>
      && (ids in w.perGroup ==> w.perGroup[ids] == Of(layout, Offers(WithTuple(w.values, spans, ids))))
      && (ids !in w.perGroup ==> WithTuple(w.values, spans, ids) == [] || |w.perGroup| >= 256)
  }

  lemma RowsGrow<K, L>(layout: L, rows: map<K, Exact<L>>, key: K, o: Offer)
    ensures |Tallied(layout, rows, key, o)| >= |rows|
  {
    var more := Tallied(layout, rows, key, o);
    assert more.Keys == rows.Keys + {key};
    assert |more| == |more.Keys| && |rows| == |rows.Keys|;
    if key in rows { assert more.Keys == rows.Keys; }
  }

  lemma GroupRowsMore<L>(layout: L, v: Window<L>, front: seq<Seen>, s: Seen)
    requires v.values != [] && AllCarry(front, |v.values|) && |s.values| == |v.values|
    requires ValuesOf(v.values, front) && GroupRowsOf(layout, v, front)
    ensures AllCarry(front + [s], |v.values|) && GroupRowsOf(layout, Ingested(layout, v, s), front + [s])
  {
    var w := Ingested(layout, v, s);
    var mine := Ids(w.values, s.values);
    assert |mine| == |v.values| && |w.values| == |v.values|;
    RowsGrow(layout, v.perGroup, TupleRow(v.perGroup, mine), s.offer);
    OfNone(layout);
    assert Offers([]) == [] && front[..|front|] == front;
    hide Of, Recorded, WithTuple, Ids, KeptAll, Kept, ValuesOf, Offers, IdIn;
    forall ids | ids != AllOverflow(|w.values|)
      ensures ids in w.perGroup ==> w.perGroup[ids] == Of(layout, Offers(WithTuple(w.values, front + [s], ids)))
      ensures ids !in w.perGroup ==> WithTuple(w.values, front + [s], ids) == [] || |w.perGroup| >= MAX_GROUP_TUPLES
    {
      WithTupleStays(v.values, front, s, |front|, ids);
      WithTupleMore(w.values, front, s, ids);
      OffersMore(layout, WithTuple(v.values, front, ids), s);
    }
  }

  lemma {:induction false} GroupRowsAre<L>(layout: L, groupKeys: nat, spans: seq<Seen>)
    requires AllCarry(spans, groupKeys) && groupKeys > 0
    ensures var w := After(layout, groupKeys, spans); ValuesOf(w.values, spans) && GroupRowsOf(layout, w, spans)
  {
    if spans != [] {
      var (front, s) := (spans[..|spans| - 1], spans[|spans| - 1]);
      var v := After(layout, groupKeys, front);
      assert spans == front + [s] && After(layout, groupKeys, spans) == Ingested(layout, v, s);
      assert Ingested(layout, v, s).values == KeptAll(v.values, s.values);
      GroupRowsAre(layout, groupKeys, front);
      hide After, Ingested, GroupRowsOf, ValuesOf, KeptAll;
      ValuesOfMore(v.values, front, s);
      GroupRowsMore(layout, v, front, s);
    }
  }

  /** Without group keys there are no rows by group. */
  lemma {:induction false} NoKeysNoRows<L>(layout: L, spans: seq<Seen>)
    requires AllCarry(spans, 0)
    ensures After(layout, 0, spans).perGroup == map[]
  {
    if spans != [] {
      NoKeysNoRows(layout, spans[..|spans| - 1]);
    }
  }

  lemma GroupRowsReconcile<L>(layout: L, groupKeys: nat, spans: seq<Seen>, tuples: seq<seq<nat>>)
    requires groupKeys > 0 && AllCarry(spans, groupKeys) && Lists(tuples, After(layout, groupKeys, spans).perGroup)
    ensures var w := After(layout, groupKeys, spans);
      Reconciles(Run(w.total, GroupRows(w, tuples))) && AllCounted(GroupRows(w, tuples))
  {
    var w := After(layout, groupKeys, spans);
    RowsReconcile(layout, groupKeys, spans);
    hide After, GroupLabel;
    ListedRows(layout, w.perGroup, tuples, w.total, GroupRows(w, tuples));
  }

  /** Of the rows by group the same is true: by id they add up, by label exactly when no two tuples have one label. */
  lemma GroupBreakdownAddsUpWhen<L>(layout: L, groupKeys: nat, spans: seq<Seen>, tuples: seq<seq<nat>>, keys: seq<string>)
    requires groupKeys > 0 && AllCarry(spans, groupKeys) && Lists(tuples, After(layout, groupKeys, spans).perGroup)
    requires Lists(keys, Collected(GroupRows(After(layout, groupKeys, spans), tuples)))
    ensures var w := After(layout, groupKeys, spans);
      && Reconciles(Run(w.total, GroupRows(w, tuples)))
      && (SumAll(layout, Entries(Collected(GroupRows(w, tuples)), keys)) == w.total <==> GroupsApart(w.values, w.perGroup.Keys))
  {
    var w := After(layout, groupKeys, spans);
    GroupRowsReconcile(layout, groupKeys, spans, tuples);
    RowsReconcile(layout, groupKeys, spans);
    hide After, GroupLabel;
    GroupLabelsDistinct(w, tuples);
    SingleRunReconciles(layout, GroupRows(w, tuples), keys);
  }

  /** Two tuples have one label exactly when they resolve alike, or a value runs on into the next. */
  lemma TuplesAlikeWhen(values: seq<seq<string>>, t: seq<nat>, u: seq<nat>)
    requires |t| == |u| == |values|
    ensures GroupLabel(values, t) == GroupLabel(values, u) <==>
              || Parts(values, t) == Parts(values, u)
              || exists k: nat :: k < |values| - 1 && RunsOnAt(Parts(values, t), Parts(values, u), k)
  {
    JoinedAlikeWhen(Parts(values, t), Parts(values, u));
  }

  /** The ids that tuples have under one of the keys. */
  ghost function IdsAt(tuples: set<seq<nat>>, i: nat): set<nat> {
    set t | t in tuples && i < |t| :: t[i]
  }

  /** With a single key, tuples are told apart exactly when their ids are. */
  lemma OneKeyApart(values: seq<string>, tuples: set<seq<nat>>)
    requires forall t :: t in tuples ==> |t| == 1
    ensures GroupsApart([values], tuples) <==> LabelsApart(values, IdsAt(tuples, 0))
  {
    forall t | t in tuples
      ensures GroupLabel([values], t) == Label(values, t[0]) && t == [t[0]]
    {
    }
    hide GroupLabel, Label;
    if !LabelsApart(values, IdsAt(tuples, 0)) {
      var id1, id2 :| id1 in IdsAt(tuples, 0) && id2 in IdsAt(tuples, 0) && id1 != id2 && Label(values, id1) == Label(values, id2);
      var t, u :| t in tuples && u in tuples && t[0] == id1 && u[0] == id2;
      assert GroupLabel([values], t) == GroupLabel([values], u);
    }
    forall t, u | LabelsApart(values, IdsAt(tuples, 0)) && t in tuples && u in tuples && t != u
      ensures GroupLabel([values], t) != GroupLabel([values], u)
    {
      assert t[0] in IdsAt(tuples, 0) && u[0] in IdsAt(tuples, 0) && t[0] != u[0];
    }
  }

  /** With several, they are if each key's labels are apart and no value but the last can be misread. */
  lemma SafeTuplesApart(values: seq<seq<string>>, tuples: set<seq<nat>>)
    requires forall t :: t in tuples ==> |t| == |values|
    requires forall i :: 0 <= i < |values| ==> LabelsApart(values[i], IdsAt(tuples, i))
    requires forall i, id: nat :: 0 <= i < |values| - 1 && id in IdsAt(tuples, i) ==> Safe(Label(values[i], id))
    ensures GroupsApart(values, tuples)
  {
    hide Safe, Label, Join;
    forall t, u | t in tuples && u in tuples && t != u
      ensures GroupLabel(values, t) != GroupLabel(values, u)
    {
      var (x, y) := (Parts(values, t), Parts(values, u));
      forall i | 0 <= i < |values|
        ensures t[i] in IdsAt(tuples, i) && u[i] in IdsAt(tuples, i)
        ensures t[i] != u[i] ==> x[i] != y[i]
      {
      }
      var i :| 0 <= i < |values| && t[i] != u[i];
      assert x != y;
      if Join(x) == Join(y) {
        SafePartsAreTold(x, y);
      }
    }
  }

  // ---- A window that loses spans -----------------------------------------------------------------

  /** The first of the spans' names, as many as fit. */
  ghost predicate FirstNames(names: seq<string>, spans: seq<Seen>) {
    && |names| == (if |spans| <= NAME_CAP then |spans| else NAME_CAP)
    && forall i :: 0 <= i < |names| ==> names[i] == spans[i].name
  }

  ghost predicate DifferentNames(spans: seq<Seen>) {
    forall i, j :: 0 <= i < j < |spans| ==> spans[i].name != spans[j].name
  }

  lemma FirstNamesMore(names: seq<string>, front: seq<Seen>, s: Seen)
    requires FirstNames(names, front) && DifferentNames(front + [s])
    ensures FirstNames(Kept(names, NAME_CAP, s.name), front + [s])
  {
    var spans := front + [s];
    assert spans[|front|] == s;
    forall i | 0 <= i < |names|
      ensures names[i] == spans[i].name != s.name
    {
    }
  }

  lemma {:induction false} DifferentNamesKept<L>(layout: L, groupKeys: nat, spans: seq<Seen>)
    requires AllCarry(spans, groupKeys) && DifferentNames(spans)
    ensures FirstNames(After(layout, groupKeys, spans).names, spans)
  {
    if spans != [] {
      var (front, s) := (spans[..|spans| - 1], spans[|spans| - 1]);
      assert spans == front + [s] && DifferentNames(front);
      DifferentNamesKept(layout, groupKeys, front);
      hide DifferentNames, FirstNames, Kept;
      FirstNamesMore(After(layout, groupKeys, front).names, front, s);
    }
  }

  /** Spans named after numbers, but for the first. */
  function ManySpans(n: nat): (r: seq<Seen>)
    ensures |r| == n
    ensures forall i :: 0 <= i < n ==> r[i] == Seen(if i == 0 then OVERFLOW_LABEL else NatText(i), [], Offer(Ok(i), false))
  {
    seq(n, i requires 0 <= i < n => Seen(if i == 0 then OVERFLOW_LABEL else NatText(i), [], Offer(Ok(i), false)))
  }

  lemma ManyNamesDiffer(n: nat, i: nat, j: nat)
    requires i < j < n
    ensures ManySpans(n)[i].name != ManySpans(n)[j].name
  {
    if i == 0 {
      NatTextDigits(j);
      assert !IsDigit(OVERFLOW_LABEL[0]);
    } else if NatText(i) == NatText(j) {
      NatTextInjective(i, j);
    }
  }

  lemma ManyNamesKept<L>(layout: L)
    ensures var (spans, names) := (ManySpans(NAME_CAP + 1), After(layout, 0, ManySpans(NAME_CAP + 1)).names);
      OVERFLOW_LABEL in names && spans[NAME_CAP].name !in names
  {
    var spans := ManySpans(NAME_CAP + 1);
    forall i, j | 0 <= i < j < |spans|
      ensures spans[i].name != spans[j].name
    {
      ManyNamesDiffer(NAME_CAP + 1, i, j);
    }
    DifferentNamesKept(layout, 0, spans);
    hide NatText, After, ManySpans;
    assert After(layout, 0, spans).names[0] == OVERFLOW_LABEL;
  }

  /** One name too many, after a span named like the overflow: the listed breakdown does not add up. */
  lemma SpansAreLost<L>(layout: L, ids: seq<nat>, keys: seq<string>)
    requires Lists(ids, After(layout, 0, ManySpans(NAME_CAP + 1)).perName)
    requires Lists(keys, Collected(NameRows(After(layout, 0, ManySpans(NAME_CAP + 1)), ids)))
    ensures var w := After(layout, 0, ManySpans(NAME_CAP + 1));
      SumAll(layout, Entries(Collected(NameRows(w, ids)), keys)) != w.total
  {
    ManyNamesKept(layout);
    hide After, Lists, Collected, SumAll, NatText;
    NameBreakdownAddsUpWhen(layout, 0, ManySpans(NAME_CAP + 1), ids, keys);
  }

  /** Two spans whose values under two keys are read alike once joined. */
  function TwoSpans(u: string, v: string, w: string): (r: seq<Seen>)
    ensures |r| == 2 && AllCarry(r, 2)
  {
    var one := Offer(Ok(1), false);
    [Seen("", [Some(u + SEPARATOR + v), Some(w)], one), Seen("", [Some(u), Some(v + SEPARATOR + w)], one)]
  }

  lemma IdOfLast(values: seq<string>, value: string)
    requires value !in values
    ensures IdIn(values + [value], value) == FIRST_REAL_ID + |values|
  {
    assert (values + [value])[|values|] == value;
  }

  /** A span with a new value under either of two keys opens a row of its own. */
  lemma NewTuple<L>(
      layout: L, w: Window<L>, s: Seen, xs: seq<string>, ys: seq<string>, x: string, y: string, a: nat, b: nat)
    requires w.values == [xs, ys] && s.values == [Some(x), Some(y)] && x !in xs && y !in ys
    requires a == FIRST_REAL_ID + |xs| && b == FIRST_REAL_ID + |ys|
    requires |xs| < GROUP_VALUE_CAP && |ys| < GROUP_VALUE_CAP && |w.perGroup| < MAX_GROUP_TUPLES
    ensures var r := Ingested(layout, w, s);
      && r.values == [xs + [x], ys + [y]] && |r.perGroup| <= |w.perGroup| + 1
      && [a, b] in r.perGroup && forall k :: k in w.perGroup ==> k in r.perGroup
  {
    IdOfLast(xs, x);
    IdOfLast(ys, y);
    var values := KeptAll(w.values, s.values);
    assert values == [xs + [x], ys + [y]];
    assert Ids(values, s.values) == [a, b];
    hide IdIn, Kept, Ids, KeptAll, Recorded;
    var r := Ingested(layout, w, s);
    assert r.perGroup.Keys == w.perGroup.Keys + {[a, b]};
    assert |r.perGroup| == |r.perGroup.Keys| && |w.perGroup| == |w.perGroup.Keys|;
  }

  lemma AfterTwo<L>(layout: L, s: Seen, t: Seen)
    requires |s.values| == |t.values| == 2
    ensures After(layout, 2, [s, t]) == Ingested(layout, Ingested(layout, Opened(layout, 2), s), t)
  {
    assert [s, t][..1] == [s] && [s][..0] == [];
    assert After(layout, 2, []) == Opened(layout, 2);
    hide Ingested, Opened;
    assert After(layout, 2, [s]) == Ingested(layout, Opened(layout, 2), s);
  }

  lemma TwoTuples<L>(layout: L, s: Seen, t: Seen, x: string, y: string, x': string, y': string)
    requires s.values == [Some(x), Some(y)] && t.values == [Some(x'), Some(y')] && x != x' && y != y'
    ensures var r := After(layout, 2, [s, t]);
      r.values == [[x, x'], [y, y']] && [2, 2] in r.perGroup && [3, 3] in r.perGroup
  {
    AfterTwo(layout, s, t);
    var start := Opened(layout, 2);
    assert start.values == [[], []] && start.perGroup == map[];
    var first := Ingested(layout, start, s);
    hide After, Ingested, Opened;
    NewTuple(layout, start, s, [], [], x, y, 2, 2);
    assert [] + [x] == [x] && [] + [y] == [y];
    NewTuple(layout, first, t, [x], [y], x', y', 3, 3);
    assert [x] + [x'] == [x, x'] && [y] + [y'] == [y, y'];
  }

  lemma TuplesJoinAlike(u: string, v: string, w: string)
    ensures var values := [[u + SEPARATOR + v, u], [w, v + SEPARATOR + w]];
      GroupLabel(values, [2, 2]) == GroupLabel(values, [3, 3])
  {
    var values := [[u + SEPARATOR + v, u], [w, v + SEPARATOR + w]];
    SeparatorChangesSides(u, v, w, []);
    assert Parts(values, [2, 2]) == [u + SEPARATOR + v, w] + [];
    assert Parts(values, [3, 3]) == [u, v + SEPARATOR + w] + [];
  }

  /** For all values: a separator that can change sides, and the listed breakdown by group does not add up. */
  lemma GroupsAreLost<L>(layout: L, u: string, v: string, w: string, tuples: seq<seq<nat>>, keys: seq<string>)
    requires Lists(tuples, After(layout, 2, TwoSpans(u, v, w)).perGroup)
    requires Lists(keys, Collected(GroupRows(After(layout, 2, TwoSpans(u, v, w)), tuples)))
    ensures var r := After(layout, 2, TwoSpans(u, v, w));
      SumAll(layout, Entries(Collected(GroupRows(r, tuples)), keys)) != r.total
  {
    var r := After(layout, 2, TwoSpans(u, v, w));
    var (x, y) := (u + SEPARATOR + v, v + SEPARATOR + w);
    assert |x| > |u| && |y| > |w|;
    var spans := TwoSpans(u, v, w);
    assert spans == [spans[0], spans[1]];
    TwoTuples(layout, spans[0], spans[1], x, w, u, y);
    TuplesJoinAlike(u, v, w);
    hide After, Lists, Collected, SumAll, TwoSpans, GroupLabel;
    GroupBreakdownAddsUpWhen(layout, 2, TwoSpans(u, v, w), tuples, keys);
    assert [2, 2][0] != [3, 3][0];
  }
}
