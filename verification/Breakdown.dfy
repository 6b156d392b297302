/**
 The ranked breakdown of a difference by name or group: which rows it has, in which order, and how
 they add up. Two hash maps go in, in whatever order they iterate; one list comes out.
 */
module Breakdown {
  import opened Text
  import opened Sorting
  import opened Interning
  import opened GroupLabels

  /** What one arm has measured under one key; the total in nanoseconds. */
  datatype Entry = Entry(count: nat, total: int)

  type Table = map<string, Entry>

  /** Where the first separator starts, or the length. */
  function NextSeparator(s: string): (n: nat)
    ensures n <= |s|
    ensures n < |s| ==> n + 3 <= |s|
  {
    if |s| < 3 then |s| else if s[..3] == SEPARATOR then 0 else 1 + NextSeparator(s[1..])
  }

  /** Whether the key, or any of the components it is joined from, is the overflow label. */
  predicate IsOverflow(key: string)
    decreases |key|
  {
    var n := NextSeparator(key);
    key[..n] == OVERFLOW_LABEL || (n < |key| && IsOverflow(key[n + 3..]))
  }

  lemma {:induction false} NextSeparatorIs(part: string, rest: string)
    requires Safe(part)
    ensures NextSeparator(part + SEPARATOR + rest) == |part|
  {
    var s := part + SEPARATOR + rest;
    if part == "" {
      assert s[..3] == SEPARATOR;
    } else {
      assert (part + " ")[1..] == part[1..] + " ";
      assert s[1..] == part[1..] + SEPARATOR + rest;
      assert |part| >= 2 ==> s[..3] == (part + " ")[..3];
      assert |part| == 1 ==> s[1] == ' ';
      assert s[..3] != SEPARATOR;
      NextSeparatorIs(part[1..], rest);
    }
  }

  lemma {:induction false} NoSeparator(s: string)
    requires !Contains(s, SEPARATOR)
    ensures NextSeparator(s) == |s|
  {
    if |s| >= 3 {
      NoSeparator(s[1..]);
    }
  }

  /** Of labels that tell their parts, those are overflow labels that have the overflow among their parts. */
  lemma {:induction false} OverflowPart(parts: seq<string>)
    requires parts != [] && (forall k :: 0 <= k < |parts| - 1 ==> Safe(parts[k])) && !Contains(parts[|parts| - 1], SEPARATOR)
    ensures IsOverflow(Join(parts)) <==> OVERFLOW_LABEL in parts
  {
    var (p, rest) := (parts[0], parts[1..]);
    assert parts == [p] + rest;
    if rest == [] {
      NoSeparator(p);
      assert p[..|p|] == p;
    } else {
      OverflowPart(rest);
      NextSeparatorIs(p, Join(rest));
      var s := p + SEPARATOR + Join(rest);
      assert s[..|p|] == p && s[|p| + 3..] == Join(rest);
    }
  }

  /** One row: a key, and what each arm has under it. */
  datatype Row = Row(key: string, a: Option<Entry>, b: Option<Entry>)

  function Look(t: Table, key: string): Option<Entry> {
    if key in t then Some(t[key]) else None
  }

  function RowFor(ra: Table, rb: Table, key: string): Row {
    Row(key, Look(ra, key), Look(rb, key))
  }

  /** By how much the total moved, where both arms have the key. */
  function Delta(r: Row): Option<int> {
    if r.a.Some? && r.b.Some? then Some(r.b.value.total - r.a.value.total) else None
  }

  function Abs(n: int): int {
    if n < 0 then -n else n
  }

  /** Largest movement first, rows without one last, and by key where those agree. */
  predicate Before(x: Row, y: Row) {
    match (Delta(x), Delta(y))
    case (Some(dx), Some(dy)) => Abs(dx) > Abs(dy) || (Abs(dx) == Abs(dy) && TextLess(x.key, y.key))
    case (Some(_), None) => true
    case (None, Some(_)) => false
    case (None, None) => TextLess(x.key, y.key)
  }

  /** On rows with different keys the ranking is a strict total order. */
  lemma BeforeRanks(rows: seq<Row>)
    requires forall r, s :: r in rows && s in rows && r.key == s.key ==> r == s
    ensures Ranks(Before, rows)
  {
    forall x, y, z
      ensures !Before(x, x)
      ensures Before(x, y) && Before(y, z) ==> Before(x, z)
    {
      TextTrichotomy(x.key, x.key);
      if TextLess(x.key, y.key) && TextLess(y.key, z.key) { TextTransitive(x.key, y.key, z.key); }
    }
    forall x, y | x in rows && y in rows && x != y
      ensures Before(x, y) || Before(y, x)
    {
      TextTrichotomy(x.key, y.key);
    }
  }

  ghost predicate Compared(ra: Table, rb: Table, key: string) {
    (key in ra || key in rb) && !IsOverflow(key)
  }

  /** Every key of either arm but the overflow's, with what the arms have under it. */
  ghost predicate IsRowList(ra: Table, rb: Table, rows: seq<Row>) {
    && (forall r :: r in rows ==> Compared(ra, rb, r.key) && r == RowFor(ra, rb, r.key))
    && (forall key :: Compared(ra, rb, key) ==> RowFor(ra, rb, key) in rows)
  }

  /** The breakdown: every key of either arm but the overflow's, once, in the ranking's order. */
  ghost predicate IsBreakdown(ra: Table, rb: Table, rows: seq<Row>) {
    Sorted(rows, Before) && IsRowList(ra, rb, rows)
  }

  /** There is only one, however the maps iterate. */
  lemma OneBreakdown(ra: Table, rb: Table, rows: seq<Row>, others: seq<Row>)
    requires IsBreakdown(ra, rb, rows) && IsBreakdown(ra, rb, others)
    ensures rows == others
  {
    forall r
      ensures r in rows <==> r in others
    {
      if r in rows { assert RowFor(ra, rb, r.key) in others; }
      if r in others { assert RowFor(ra, rb, r.key) in rows; }
    }
    BeforeRanks(rows);
    SortedUnique(rows, others, Before);
  }

  function Swapped(r: Row): Row {
    Row(r.key, r.b, r.a)
  }

  function SwapAll(rows: seq<Row>): (r: seq<Row>)
    ensures |r| == |rows| && forall i :: 0 <= i < |r| ==> r[i] == Swapped(rows[i])
  {
    seq(|rows|, i requires 0 <= i < |rows| => Swapped(rows[i]))
  }

  /** Swapping the arms swaps each row's sides and leaves their order alone. */
  lemma BreakdownSwaps(ra: Table, rb: Table, rows: seq<Row>)
    requires IsBreakdown(ra, rb, rows)
    ensures IsBreakdown(rb, ra, SwapAll(rows))
  {
    var swapped := SwapAll(rows);
    forall i, j | 0 <= i < j < |rows|
      ensures Before(swapped[i], swapped[j])
    {
      assert Before(rows[i], rows[j]);
    }
    hide IsOverflow, Before;
    forall r | r in swapped
      ensures Compared(rb, ra, r.key) && r == RowFor(rb, ra, r.key)
    {
      var i :| 0 <= i < |swapped| && swapped[i] == r;
      assert rows[i] in rows;
    }
    forall key | Compared(rb, ra, key)
      ensures RowFor(rb, ra, key) in swapped
    {
      assert Compared(ra, rb, key);
      var i :| 0 <= i < |rows| && rows[i] == RowFor(ra, rb, key);
      assert swapped[i] == RowFor(rb, ra, key);
    }
  }

  /** `keys` lists the map's keys once each, in some order. */
  ghost predicate Iterates(keys: seq<string>, t: Table) {
    NoRepeats(keys) && forall k :: k in keys <==> k in t
  }

  function Overflows(keys: seq<string>): nat {
    if keys == [] then 0 else Overflows(keys[..|keys| - 1]) + if IsOverflow(keys[|keys| - 1]) then 1 else 0
  }

  lemma {:induction false} OverflowsConcat(a: seq<string>, b: seq<string>)
    ensures Overflows(a + b) == Overflows(a) + Overflows(b)
  {
    if b == [] {
      assert a + b == a;
    } else {
      assert (a + b)[..|a + b| - 1] == a + b[..|b| - 1];
      OverflowsConcat(a, b[..|b| - 1]);
    }
  }

  /** The keys to compare: each once, in the order first met. */
  method CollectKeys(all: seq<string>) returns (keys: seq<string>, overflow: nat)
    ensures NoRepeats(keys) && forall k :: k in keys <==> k in all && !IsOverflow(k)
    ensures overflow == Overflows(all)
  {
    keys, overflow := [], 0;
    for i := 0 to |all|
      invariant NoRepeats(keys) && forall k :: k in keys <==> k in all[..i] && !IsOverflow(k)
      invariant overflow == Overflows(all[..i])
    {
      assert all[..i + 1][..i] == all[..i] && all[..i + 1] == all[..i] + [all[i]];
      hide IsOverflow;
      if IsOverflow(all[i]) {
        overflow := overflow + 1;
      } else if all[i] !in keys {
        keys := keys + [all[i]];
      }
    }
    assert all[..|all|] == all;
  }

  lemma RowsRank(ra: Table, rb: Table, keys: seq<string>, rows: seq<Row>)
    requires NoRepeats(keys) && |rows| == |keys| && forall i :: 0 <= i < |keys| ==> rows[i] == RowFor(ra, rb, keys[i])
    ensures NoRepeats(rows) && Ranks(Before, rows)
  {
    forall i, j | 0 <= i < j < |rows|
      ensures rows[i] != rows[j]
    {
      assert rows[i].key == keys[i] && rows[j].key == keys[j];
    }
    BeforeRanks(rows);
  }

  lemma RowsListed(ra: Table, rb: Table, keys: seq<string>, rows: seq<Row>)
    requires |rows| == |keys| && forall i :: 0 <= i < |keys| ==> rows[i] == RowFor(ra, rb, keys[i])
    requires forall k :: k in keys <==> Compared(ra, rb, k)
    ensures IsRowList(ra, rb, rows)
  {
    hide Compared;
    forall key | Compared(ra, rb, key)
      ensures RowFor(ra, rb, key) in rows
    {
      var i :| 0 <= i < |keys| && keys[i] == key;
      assert rows[i] in rows;
    }
    forall r | r in rows
      ensures Compared(ra, rb, r.key) && r == RowFor(ra, rb, r.key)
    {
      var i :| 0 <= i < |rows| && rows[i] == r;
      assert keys[i] in keys;
    }
  }

  lemma SortedRows(ra: Table, rb: Table, keys: seq<string>, rows: seq<Row>)
    requires NoRepeats(keys) && |rows| == |keys| && forall i :: 0 <= i < |keys| ==> rows[i] == RowFor(ra, rb, keys[i])
    requires forall k :: k in keys <==> Compared(ra, rb, k)
    ensures IsBreakdown(ra, rb, Sort(rows, Before))
  {
    RowsListed(ra, rb, keys, rows);
    RowsRank(ra, rb, keys, rows);
    SortCorrect(rows, Before);
    hide Compared, Before, Sorted, Sort, RowFor, Ranks, IsRowList, NoRepeats;
    SameRows(ra, rb, rows, Sort(rows, Before));
  }

  lemma SameRows(ra: Table, rb: Table, rows: seq<Row>, others: seq<Row>)
    requires IsRowList(ra, rb, rows) && forall r :: r in others <==> r in rows
    ensures IsRowList(ra, rb, others)
  {
    hide Compared, RowFor;
  }

  // ---- Which rows come first ---------------------------------------------------------------------

  /** Both arms have the key. */
  predicate Shared(r: Row) {
    r.a.Some? && r.b.Some?
  }

  function Moved(r: Row): nat
    requires Shared(r)
  {
    if r.b.value.total >= r.a.value.total then r.b.value.total - r.a.value.total else r.a.value.total - r.b.value.total
  }

  /** Shared keys before others; of those the one that moved more first; and by key where that does not decide. */
  ghost predicate LargestFirst(rows: seq<Row>) {
    forall i, j :: 0 <= i < j < |rows| ==>
      && (Shared(rows[j]) ==>
            && Shared(rows[i]) && Moved(rows[i]) >= Moved(rows[j])
            && (Moved(rows[i]) == Moved(rows[j]) ==> TextLess(rows[i].key, rows[j].key)))
      && (!Shared(rows[i]) ==> TextLess(rows[i].key, rows[j].key))
  }

  /** Every key that is compared is in a row of `out`, or moved no more than any row there. */
  ghost predicate NoneLargerLeftOut(ra: Table, rb: Table, out: seq<Row>) {
    forall k, r :: Compared(ra, rb, k) && RowFor(ra, rb, k) !in out && r in out && Shared(RowFor(ra, rb, k)) ==>
      Shared(r) && Moved(r) >= Moved(RowFor(ra, rb, k))
  }

  /** Every row is a key's that is compared, with what either arm has under it, and no key has two. */
  ghost predicate IsPart(ra: Table, rb: Table, out: seq<Row>) {
    && (forall r :: r in out ==> (r.key in ra || r.key in rb) && !IsOverflow(r.key))
    && (forall r :: r in out ==> (r.a.Some? <==> r.key in ra) && (r.a.Some? ==> r.a.value == ra[r.key]))
    && (forall r :: r in out ==> (r.b.Some? <==> r.key in rb) && (r.b.Some? ==> r.b.value == rb[r.key]))
    && (forall i, j :: 0 <= i < j < |out| ==> out[i].key != out[j].key)
  }

  lemma BreakdownPart(ra: Table, rb: Table, rows: seq<Row>, n: nat)
    requires IsBreakdown(ra, rb, rows) && n <= |rows|
    ensures IsPart(ra, rb, rows[..n])
  {
    forall r | r in rows[..n]
      ensures r in rows
    {
    }
    forall i, j | 0 <= i < j < n
      ensures rows[i].key != rows[j].key
    {
      assert rows[i] in rows && rows[j] in rows;
      assert Before(rows[i], rows[j]);
      BeforeRanks([rows[i]]);
    }
    hide IsOverflow, Before;
  }

  lemma BreakdownLargestFirst(ra: Table, rb: Table, rows: seq<Row>, n: nat)
    requires IsBreakdown(ra, rb, rows) && n <= |rows|
    ensures LargestFirst(rows[..n]) && NoneLargerLeftOut(ra, rb, rows[..n])
  {
    assert forall i, j :: 0 <= i < j < |rows| ==> Before(rows[i], rows[j]);
    forall i | 0 <= i < n
      ensures rows[i] in rows[..n]
    {
      assert rows[..n][i] == rows[i];
    }
    hide IsOverflow, TextLess, Sorted;
    forall k, r | Compared(ra, rb, k) && RowFor(ra, rb, k) !in rows[..n] && r in rows[..n] && Shared(RowFor(ra, rb, k))
      ensures Shared(r) && Moved(r) >= Moved(RowFor(ra, rb, k))
    {
      var j :| 0 <= j < |rows| && rows[j] == RowFor(ra, rb, k);
      var i :| 0 <= i < n && rows[..n][i] == r;
      assert Before(rows[i], rows[j]);
    }
    hide Compared, RowFor;
    RankedLargestFirst(rows, n);
  }

  lemma RankedLargestFirst(rows: seq<Row>, n: nat)
    requires (forall i, j :: 0 <= i < j < |rows| ==> Before(rows[i], rows[j])) && n <= |rows|
    ensures LargestFirst(rows[..n])
  {
    hide TextLess;
  }

  /** The first `topN` rows of the breakdown, how many it has, and how many overflow rows were left out. */
  method GroupRows(ra: Table, rb: Table, keysA: seq<string>, keysB: seq<string>, topN: nat)
    returns (out: seq<Row>, total: nat, overflow: nat)
    requires Iterates(keysA, ra) && Iterates(keysB, rb)
    ensures exists rows :: IsBreakdown(ra, rb, rows) && total == |rows| && out == rows[..if topN < total then topN else total]
    ensures LargestFirst(out) && NoneLargerLeftOut(ra, rb, out) && IsPart(ra, rb, out)
    ensures overflow == Overflows(keysA) + Overflows(keysB)
  {
    hide IsOverflow, Before, Sort, IsBreakdown;
    var keys;
    keys, overflow := CollectKeys(keysA + keysB);
    OverflowsConcat(keysA, keysB);
    var rows := seq(|keys|, i requires 0 <= i < |keys| => RowFor(ra, rb, keys[i]));
    SortedRows(ra, rb, keys, rows);
    var sorted := Sort(rows, Before);
    total := |sorted|;
    out := sorted[..if topN < total then topN else total];
    hide LargestFirst, NoneLargerLeftOut, IsPart;
    BreakdownLargestFirst(ra, rb, sorted, |out|);
    BreakdownPart(ra, rb, sorted, |out|);
  }

  // ---- The rows add up ---------------------------------------------------------------------------

  /** What a table holds under some of its keys, added up. */
  ghost function TotalOver(t: Table, keys: set<string>): int {
    if keys == {} then 0
    else
      var k :| k in keys;
      (if k in t then t[k].total else 0) + TotalOver(t, keys - {k})
  }

  lemma {:induction false} TotalWithout(t: Table, keys: set<string>, k: string)
    requires k in keys
    ensures TotalOver(t, keys) == (if k in t then t[k].total else 0) + TotalOver(t, keys - {k})
  {
    var x :| x in keys && TotalOver(t, keys) == (if x in t then t[x].total else 0) + TotalOver(t, keys - {x});
    if x != k {
      TotalWithout(t, keys - {x}, k);
      TotalWithout(t, keys - {k}, x);
      assert keys - {x} - {k} == keys - {k} - {x};
    }
  }

  lemma {:induction false} TotalSplits(t: Table, xs: set<string>, ys: set<string>)
    requires xs !! ys
    ensures TotalOver(t, xs + ys) == TotalOver(t, xs) + TotalOver(t, ys)
  {
    if ys == {} {
      assert xs + ys == xs;
    } else {
      var k :| k in ys;
      TotalWithout(t, xs + ys, k);
      TotalWithout(t, ys, k);
      assert xs + ys - {k} == xs + (ys - {k});
      TotalSplits(t, xs, ys - {k});
    }
  }

  lemma {:induction false} TotalElsewhere(t: Table, keys: set<string>)
    requires keys !! t.Keys
    ensures TotalOver(t, keys) == 0
  {
    if keys != {} {
      var k :| k in keys;
      TotalWithout(t, keys, k);
      TotalElsewhere(t, keys - {k});
    }
  }

  /** Everything a table holds. */
  ghost function Total(t: Table): int {
    TotalOver(t, t.Keys)
  }

  ghost function OverflowTotal(t: Table): int {
    TotalOver(t, set k | k in t && IsOverflow(k))
  }

  /** What a row contributes to the overall movement: the difference, or what only one arm has. */
  function Movement(r: Row): int {
    (if r.b.Some? then r.b.value.total else 0) - (if r.a.Some? then r.a.value.total else 0)
  }

  function Movements(rows: seq<Row>): int {
    if rows == [] then 0 else Movement(rows[0]) + Movements(rows[1..])
  }

  ghost function RowKeys(rows: seq<Row>): set<string> {
    set i | 0 <= i < |rows| :: rows[i].key
  }

  ghost predicate RowsOf(ra: Table, rb: Table, rows: seq<Row>) {
    && (forall i :: 0 <= i < |rows| ==> rows[i] == RowFor(ra, rb, rows[i].key))
    && (forall i, j :: 0 <= i < j < |rows| ==> rows[i].key != rows[j].key)
  }

  lemma {:induction false} MovementsAre(ra: Table, rb: Table, rows: seq<Row>)
    requires RowsOf(ra, rb, rows)
    ensures Movements(rows) == TotalOver(rb, RowKeys(rows)) - TotalOver(ra, RowKeys(rows))
  {
    if rows == [] {
      assert RowKeys(rows) == {};
    } else {
      var rest := rows[1..];
      assert RowKeys(rows) - {rows[0].key} == RowKeys(rest) by {
        forall k
          ensures k in RowKeys(rows) - {rows[0].key} <==> k in RowKeys(rest)
        {
          if k in RowKeys(rest) {
            var i :| 0 <= i < |rest| && rest[i].key == k;
            assert rows[i + 1].key == k;
          }
          if k in RowKeys(rows) && k != rows[0].key {
            var i :| 0 <= i < |rows| && rows[i].key == k;
            assert rest[i - 1].key == k;
          }
        }
      }
      assert rows[0].key in RowKeys(rows);
      MovementsAre(ra, rb, rest);
      TotalWithout(ra, RowKeys(rows), rows[0].key);
      TotalWithout(rb, RowKeys(rows), rows[0].key);
      assert rows[0] == RowFor(ra, rb, rows[0].key);
    }
  }

  lemma TotalIs(t: Table, compared: set<string>)
    requires forall k :: k in t && !IsOverflow(k) ==> k in compared
    requires forall k :: k in compared ==> !IsOverflow(k)
    ensures Total(t) == TotalOver(t, compared) + OverflowTotal(t)
  {
    hide IsOverflow;
    var over, mine := set k | k in t && IsOverflow(k), set k | k in compared && k in t;
    assert t.Keys == mine + over;
    TotalSplits(t, mine, over);
    assert compared == mine + (compared - mine);
    TotalSplits(t, mine, compared - mine);
    TotalElsewhere(t, compared - mine);
  }

  /**
   The overall movement is the movement of the keys both arms have, plus what only the second has,
   minus what only the first has, plus the difference of the rows left out as overflow.
   */
  lemma MovementsReconcile(ra: Table, rb: Table, rows: seq<Row>)
    requires IsBreakdown(ra, rb, rows)
    ensures Total(rb) - Total(ra) == Movements(rows) + (OverflowTotal(rb) - OverflowTotal(ra))
  {
    forall i, j | 0 <= i < j < |rows|
      ensures rows[i].key != rows[j].key
    {
      assert rows[i] in rows && rows[j] in rows;
      assert Before(rows[i], rows[j]);
      BeforeRanks([rows[i]]);
    }
    assert forall i :: 0 <= i < |rows| ==> rows[i] in rows;
    MovementsAre(ra, rb, rows);
    forall k | Compared(ra, rb, k)
      ensures k in RowKeys(rows)
    {
      assert RowFor(ra, rb, k) in rows;
    }
    hide IsOverflow;
    TotalIs(ra, RowKeys(rows));
    TotalIs(rb, RowKeys(rows));
  }
}
