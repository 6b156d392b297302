/**
 Which copy of a collector a directory stands for.

 A directory may hold several readable copies of one collector. The boot sweep loads the newest;
 this module defines that choice on a directory taken as a value and says which renames keep it.

 File names (`N`), collectors (`K`) and files (`F`, bytes with their write time) are parameters: all
 that matters about them is collected in a `World`. `CollectorWorld` supplies the real one.
 */
module Selection {
  import opened Text
  import opened Sorting

  /** Why a file is moved out of the sweep's sight. */
  datatype Tag = Corrupt | Superseded

  datatype World<!N, !K, !F> = World(
    json: N -> bool,             // whether the sweep reads a file of this name
    canonical: K -> N,           // where a collector's file belongs
    staging: N -> N,             // where it waits on its way there
    aside: (N, Tag, nat) -> N,   // the n-th candidate name for a file set aside
    nameLess: (N, N) -> bool,
    keyLess: (K, K) -> bool,
    mtime: F -> int,
    read: F -> Option<K>)        // the collector a file describes, if it can be read

  /** What the sweep relies on; `CollectorWorld.WorldLaws` proves it of the real names. */
  ghost predicate Laws<N(!new), K(!new), F>(w: World<N, K, F>) {
    && (forall k :: w.json(w.canonical(k)) && w.json(w.staging(w.canonical(k))))
    && (forall k1, k2 :: w.staging(w.canonical(k1)) != w.canonical(k2))
    && (forall k1, k2 :: w.staging(w.canonical(k1)) == w.staging(w.canonical(k2)) ==> w.canonical(k1) == w.canonical(k2))
    && (forall p, t, n :: !w.json(w.aside(p, t, n)))
    && (forall p, t, m, n :: w.aside(p, t, m) == w.aside(p, t, n) ==> m == n)
    && TotalOrder(w.nameLess) && TotalOrder(w.keyLess)
  }

  /** Names the elements an order is asked about, so that its laws are used where they are needed only. */
  ghost predicate Asked<T>(x: T) {
    true
  }

  ghost predicate TotalOrder<T(!new)>(less: (T, T) -> bool) {
    && (forall x {:trigger Asked(x)} :: Asked(x) ==> !less(x, x))
    && (forall x, y {:trigger Asked(x), Asked(y)} :: Asked(x) && Asked(y) && x != y ==> less(x, y) || less(y, x))
    && (forall x, y, z {:trigger Asked(x), Asked(y), Asked(z)} ::
          Asked(x) && Asked(y) && Asked(z) && less(x, y) && less(y, z) ==> less(x, z))
  }

  lemma TotalOrderRanks<T(!new)>(less: (T, T) -> bool, s: seq<T>)
    requires TotalOrder(less)
    ensures Ranks(less, s)
  {
    forall x
      ensures !less(x, x)
    {
      assert Asked(x);
    }
    forall x, y, z | less(x, y) && less(y, z)
      ensures less(x, z)
    {
      assert Asked(x) && Asked(y) && Asked(z);
    }
    forall x, y | x in s && y in s && x != y
      ensures less(x, y) || less(y, x)
    {
      assert Asked(x) && Asked(y);
    }
  }

  function Renamed<N, F>(d: map<N, F>, from: N, to: N): map<N, F>
    requires from in d
  {
    (d - {from})[to := d[from]]
  }

  /** The files the sweep reads as copies of collector `k`. */
  ghost function Copies<N, K, F>(w: World<N, K, F>, d: map<N, F>, k: K): set<N> {
    set p | p in d && w.json(p) && w.read(d[p]) == Some(k)
  }

  /** The order of preference between two copies: age decides, then being at `canonical`, then the name. */
  predicate Precedes<N(==), K, F>(w: World<N, K, F>, p: N, pTime: int, q: N, qTime: int, canonical: N) {
    || pTime > qTime
    || (pTime == qTime && p == canonical && q != canonical)
    || (pTime == qTime && (p == canonical <==> q == canonical) && w.nameLess(p, q))
  }

  ghost predicate Beats<N, K, F>(w: World<N, K, F>, d: map<N, F>, k: K, p: N, q: N)
    requires p in d && q in d
  {
    Precedes(w, p, w.mtime(d[p]), q, w.mtime(d[q]), w.canonical(k))
  }

  /** `p` is the copy of `k` that a boot on `d` loads. */
  ghost predicate Newest<N(!new), K, F>(w: World<N, K, F>, d: map<N, F>, k: K, p: N) {
    p in Copies(w, d, k) && forall q :: q in Copies(w, d, k) && q != p ==> Beats(w, d, k, p, q)
  }

  /** A boot on `d` loads exactly the file `f` for collector `k`. */
  ghost predicate Loads<N(!new), K, F>(w: World<N, K, F>, d: map<N, F>, k: K, f: F) {
    exists p :: Newest(w, d, k, p) && d[p] == f
  }

  ghost predicate SameSelection<N(!new), K(!new), F(!new)>(w: World<N, K, F>, d1: map<N, F>, d2: map<N, F>) {
    forall k, f :: Loads(w, d1, k, f) <==> Loads(w, d2, k, f)
  }

  /** Strictly newer than every other copy, so still the choice wherever it is moved. */
  ghost predicate Dominates<N(!new), K, F>(w: World<N, K, F>, d: map<N, F>, k: K, p: N) {
    p in Copies(w, d, k) && forall q :: q in Copies(w, d, k) && q != p ==> w.mtime(d[q]) < w.mtime(d[p])
  }

  /** No other copy of `k` shares the newest write time, unless the newest is already in place. */
  ghost predicate Untied<N(!new), K, F>(w: World<N, K, F>, d: map<N, F>, k: K) {
    forall p :: Newest(w, d, k, p) ==> p == w.canonical(k) || Dominates(w, d, k, p)
  }

  /**
   The choice, without the order between two: no copy is newer, and of those as new the one at the canonical
   name is taken, or if there is none the first by name.
   */
  lemma NewestWhen<N(!new), K(!new), F>(w: World<N, K, F>, d: map<N, F>, k: K, p: N)
    requires Laws(w)
    ensures Newest(w, d, k, p) <==>
              && p in Copies(w, d, k)
              && (forall q :: q in Copies(w, d, k) ==> w.mtime(d[q]) <= w.mtime(d[p]))
              && (p == w.canonical(k) ||
                  forall q :: q in Copies(w, d, k) && q != p && w.mtime(d[q]) == w.mtime(d[p]) ==>
                    q != w.canonical(k) && w.nameLess(p, q))
  {
    assert Asked(p);
    forall q | p in Copies(w, d, k) && q in Copies(w, d, k) && q != p
      ensures Beats(w, d, k, p, q) <==>
                || w.mtime(d[q]) < w.mtime(d[p])
                || (w.mtime(d[q]) == w.mtime(d[p]) && (p == w.canonical(k) || (q != w.canonical(k) && w.nameLess(p, q))))
    {
    }
  }

  lemma NewestUnique<N(!new), K(!new), F>(w: World<N, K, F>, d: map<N, F>, k: K, p: N, q: N)
    requires Laws(w) && Newest(w, d, k, p) && Newest(w, d, k, q)
    ensures p == q
  {
    if p != q {
      assert Beats(w, d, k, p, q) && Beats(w, d, k, q, p);
      assert Asked(p) && Asked(q);
    }
  }

  lemma NewestLoads<N(!new), K(!new), F(!new)>(w: World<N, K, F>, d: map<N, F>, k: K, p: N)
    requires Laws(w) && Newest(w, d, k, p)
    ensures forall f :: Loads(w, d, k, f) <==> f == d[p]
  {
    forall q | Newest(w, d, k, q)
      ensures q == p
    {
      NewestUnique(w, d, k, p, q);
    }
  }

  lemma UnmovedCopies<N(!new), K, F(!new)>(w: World<N, K, F>, d1: map<N, F>, d2: map<N, F>, k: K)
    requires Copies(w, d1, k) == Copies(w, d2, k)
    requires forall p :: p in Copies(w, d1, k) ==> d1[p] == d2[p]
    ensures forall p :: Newest(w, d1, k, p) <==> Newest(w, d2, k, p)
    ensures forall p :: Dominates(w, d1, k, p) <==> Dominates(w, d2, k, p)
    ensures forall f :: Loads(w, d1, k, f) <==> Loads(w, d2, k, f)
  {
    forall p | p in Copies(w, d1, k)
      ensures Newest(w, d1, k, p) <==> Newest(w, d2, k, p)
    {
      assert forall q :: q in Copies(w, d1, k) ==> (Beats(w, d1, k, p, q) <==> Beats(w, d2, k, p, q));
    }
  }

  lemma SameSelectionTransitive<N(!new), K(!new), F(!new)>(w: World<N, K, F>, d1: map<N, F>, d2: map<N, F>, d3: map<N, F>)
    requires SameSelection(w, d1, d2) && SameSelection(w, d2, d3)
    ensures SameSelection(w, d1, d3)
  {
    forall k, f
      ensures Loads(w, d1, k, f) <==> Loads(w, d3, k, f)
    {
      assert Loads(w, d1, k, f) <==> Loads(w, d2, k, f);
    }
  }

  /** A rename leaves every collector but the moved file's own untouched. */
  lemma RenameKeepsOthers<N(!new), K, F(!new)>(w: World<N, K, F>, d: map<N, F>, from: N, to: N, k: K)
    requires from in d && to !in d && w.read(d[from]) != Some(k)
    ensures forall p :: Newest(w, d, k, p) <==> Newest(w, Renamed(d, from, to), k, p)
    ensures forall p :: Dominates(w, d, k, p) <==> Dominates(w, Renamed(d, from, to), k, p)
    ensures forall f :: Loads(w, d, k, f) <==> Loads(w, Renamed(d, from, to), k, f)
  {
    UnmovedCopies(w, d, Renamed(d, from, to), k);
  }

  /** Setting aside a file that cannot be read changes no collector's choice. */
  lemma AsideUnreadable<N(!new), K(!new), F(!new)>(w: World<N, K, F>, d: map<N, F>, from: N, to: N)
    requires from in d && to !in d && w.read(d[from]).None?
    ensures SameSelection(w, d, Renamed(d, from, to))
  {
    forall k, f
      ensures Loads(w, d, k, f) <==> Loads(w, Renamed(d, from, to), k, f)
    {
      RenameKeepsOthers(w, d, from, to, k);
    }
  }

  /** Setting aside an older copy changes no collector's choice. */
  lemma AsideLoser<N(!new), K(!new), F(!new)>(w: World<N, K, F>, d: map<N, F>, k: K, winner: N, from: N, to: N)
    requires Laws(w) && Newest(w, d, k, winner) && from in Copies(w, d, k) && from != winner
    requires to !in d && !w.json(to)
    ensures Newest(w, Renamed(d, from, to), k, winner)
    ensures SameSelection(w, d, Renamed(d, from, to))
  {
    var d' := Renamed(d, from, to);
    assert Copies(w, d', k) == Copies(w, d, k) - {from};
    forall q | q in Copies(w, d', k) && q != winner
      ensures Beats(w, d', k, winner, q)
    {
      assert Beats(w, d, k, winner, q);
    }
    NewestLoads(w, d, k, winner);
    NewestLoads(w, d', k, winner);
    forall k', f
      ensures Loads(w, d, k', f) <==> Loads(w, d', k', f)
    {
      if k' != k {
        RenameKeepsOthers(w, d, from, to, k');
      }
    }
  }

  /** A copy strictly newer than the rest stays the choice under any other `.json` name. */
  lemma MoveDominant<N(!new), K(!new), F(!new)>(w: World<N, K, F>, d: map<N, F>, k: K, from: N, to: N)
    requires Laws(w) && Newest(w, d, k, from) && Dominates(w, d, k, from) && to !in d && w.json(to)
    ensures Newest(w, Renamed(d, from, to), k, to) && Dominates(w, Renamed(d, from, to), k, to)
    ensures SameSelection(w, d, Renamed(d, from, to))
  {
    var d' := Renamed(d, from, to);
    assert Copies(w, d', k) == Copies(w, d, k) - {from} + {to};
    forall q | q in Copies(w, d', k) && q != to
      ensures Beats(w, d', k, to, q) && w.mtime(d'[q]) < w.mtime(d'[to])
    {
      assert w.mtime(d[q]) < w.mtime(d[from]);
    }
    NewestLoads(w, d, k, from);
    NewestLoads(w, d', k, to);
    forall k', f
      ensures Loads(w, d, k', f) <==> Loads(w, d', k', f)
    {
      if k' != k {
        RenameKeepsOthers(w, d, from, to, k');
      }
    }
  }

  /**
   A tied copy that could not be set aside makes the move to a staging name a gamble: the choice
   stays exactly when every other copy as new sorts after that name.
   */
  lemma MoveKeepsChoice<N(!new), K(!new), F(!new)>(w: World<N, K, F>, d: map<N, F>, k: K, from: N, to: N)
    requires Laws(w) && Newest(w, d, k, from) && from != w.canonical(k)
    requires to !in d && w.json(to) && to != w.canonical(k)
    ensures Newest(w, Renamed(d, from, to), k, to) <==>
            forall q :: q in Copies(w, d, k) && q != from ==> w.mtime(d[q]) < w.mtime(d[from]) || w.nameLess(to, q)
  {
    var d' := Renamed(d, from, to);
    assert Copies(w, d', k) == Copies(w, d, k) - {from} + {to};
    forall q | q in Copies(w, d, k) && q != from
      ensures Beats(w, d', k, to, q) <==> w.mtime(d[q]) < w.mtime(d[from]) || w.nameLess(to, q)
    {
      assert Beats(w, d, k, from, q);
    }
  }

  /** The choice survives the disappearance of any other copies. */
  lemma NewestAmongFewer<N(!new), K, F>(w: World<N, K, F>, d1: map<N, F>, d2: map<N, F>, k: K, p: N)
    requires Newest(w, d1, k, p) && p in Copies(w, d2, k) && Copies(w, d2, k) <= Copies(w, d1, k)
    requires forall q :: q in Copies(w, d2, k) ==> d2[q] == d1[q]
    ensures Newest(w, d2, k, p)
    ensures Dominates(w, d1, k, p) || Copies(w, d2, k) == {p} ==> Dominates(w, d2, k, p)
  {
    forall q | q in Copies(w, d2, k) && q != p
      ensures Beats(w, d2, k, p, q)
    {
      assert Beats(w, d1, k, p, q);
    }
  }

  datatype Loaded<+K, +F> = Loaded(key: K, file: F)

  /** One entry per readable collector, in key order, each the copy the directory stands for. */
  ghost predicate IsLoadOf<N(!new), K(!new), F(!new)>(w: World<N, K, F>, d: map<N, F>, cs: seq<Loaded<K, F>>) {
    && (forall i, j :: 0 <= i < j < |cs| ==> w.keyLess(cs[i].key, cs[j].key))
    && (forall i :: 0 <= i < |cs| ==> Loads(w, d, cs[i].key, cs[i].file))
    && (forall k, f :: Loads(w, d, k, f) ==> Loaded(k, f) in cs)
  }

  /** Directories that stand for the same copies load the same list of collectors. */
  lemma SameLoad<N(!new), K(!new), F(!new)>(
      w: World<N, K, F>, d1: map<N, F>, d2: map<N, F>, cs1: seq<Loaded<K, F>>, cs2: seq<Loaded<K, F>>)
    requires Laws(w) && SameSelection(w, d1, d2) && IsLoadOf(w, d1, cs1) && IsLoadOf(w, d2, cs2)
    ensures cs1 == cs2
  {
    forall c
      ensures c in cs1 <==> c in cs2
    {
      if c in cs1 { assert Loads(w, d1, c.key, c.file); }
      if c in cs2 { assert Loads(w, d2, c.key, c.file); }
    }
    var less := (a: Loaded<K, F>, b: Loaded<K, F>) => w.keyLess(a.key, b.key);
    TotalOrderRanks(w.keyLess, []);
    forall a: Loaded<K, F> | true
      ensures !less(a, a)
    {
      assert !w.keyLess(a.key, a.key);
    }
    forall a: Loaded<K, F>, b: Loaded<K, F>, c: Loaded<K, F> | less(a, b) && less(b, c)
      ensures less(a, c)
    {
      assert w.keyLess(a.key, b.key) && w.keyLess(b.key, c.key);
    }
    SortedUnique(cs1, cs2, less);
  }

  /** Every readable copy is its collector's only one and already has its canonical name. */
  ghost predicate Settled<N(!new), K, F>(w: World<N, K, F>, d: map<N, F>) {
    forall p :: p in d && w.json(p) ==> w.read(d[p]).Some? && p == w.canonical(w.read(d[p]).value)
  }

  /** No two collectors present share a canonical name. */
  ghost predicate NamesApart<N, K(!new), F>(w: World<N, K, F>, d: map<N, F>) {
    forall k1, k2 :: Copies(w, d, k1) != {} && Copies(w, d, k2) != {} && k1 != k2 ==> w.canonical(k1) != w.canonical(k2)
  }

  /** The copy chosen for `k2` sits where the out-of-place copy chosen for the earlier `k1` must wait. */
  ghost predicate BlocksStaging<N(!new), K, F>(w: World<N, K, F>, d: map<N, F>, k1: K, p1: N, k2: K, p2: N) {
    && w.keyLess(k1, k2) && Newest(w, d, k1, p1) && Newest(w, d, k2, p2)
    && p1 != w.canonical(k1) && p2 == w.staging(w.canonical(k1))
  }

  ghost predicate StagingBlocked<N(!new), K(!new), F>(w: World<N, K, F>, d: map<N, F>) {
    exists k1, p1, k2, p2 :: BlocksStaging(w, d, k1, p1, k2, p2)
  }

  /** Such a pair where, besides, the first copy sits at the second collector's canonical name. */
  ghost predicate Deadlocked<N(!new), K, F>(w: World<N, K, F>, d: map<N, F>, k1: K, p1: N, k2: K, p2: N) {
    BlocksStaging(w, d, k1, p1, k2, p2) && p1 == w.canonical(k2)
  }

  /** No pair that is deadlocked in the one directory is free in the other. */
  ghost predicate StillDeadlocked<N(!new), K(!new), F>(w: World<N, K, F>, d1: map<N, F>, d2: map<N, F>) {
    forall k1, p1, k2, p2 :: Deadlocked(w, d1, k1, p1, k2, p2) ==> Deadlocked(w, d2, k1, p1, k2, p2)
  }

  /** Two files by hand in each other's way are enough, whichever the collectors. */
  lemma DeadlockExists<N(!new), K(!new), F(!new)>(w: World<N, K, F>, k1: K, f1: F, k2: K, f2: F)
    requires Laws(w) && w.keyLess(k1, k2) && w.canonical(k1) != w.canonical(k2)
    requires w.read(f1) == Some(k1) && w.read(f2) == Some(k2)
    ensures var (p1, p2) := (w.canonical(k2), w.staging(w.canonical(k1)));
      Deadlocked(w, map[p1 := f1, p2 := f2], k1, p1, k2, p2)
  {
    var (p1, p2) := (w.canonical(k2), w.staging(w.canonical(k1)));
    var d := map[p1 := f1, p2 := f2];
    assert p1 != p2 && Asked(k1);
    assert Copies(w, d, k1) == {p1} && Copies(w, d, k2) == {p2};
  }
}
