/**
 The label of a group: one resolved value for each group key, joined by a separator that a value may
 itself contain.
 */
module GroupLabels {
  import opened Text
  import opened Interning

  function Join(parts: seq<string>): string {
    if parts == [] then ""
    else if |parts| == 1 then parts[0]
    else parts[0] + SEPARATOR + Join(parts[1..])
  }

  /** What the ids of a group resolve to, each in the table of its key. */
  function Parts(values: seq<seq<string>>, ids: seq<nat>): (r: seq<string>)
    requires |values| == |ids|
    ensures |r| == |ids| && forall i :: 0 <= i < |r| ==> r[i] == Label(values[i], ids[i])
  {
    seq(|ids|, i requires 0 <= i < |ids| => Label(values[i], ids[i]))
  }

  function GroupLabel(values: seq<seq<string>>, ids: seq<nat>): string
    requires |values| == |ids|
  {
    Join(Parts(values, ids))
  }

  // ---- When two groups have one label ------------------------------------------------------------

  /** `b` runs on past the separator after `a`, or its last two characters are the first two of that separator. */
  predicate RunsOn(a: string, s: string, b: string, t: string) {
    || (b == a + " /" && s == "/ " + t)
    || (a + SEPARATOR <= b && s == b[|a| + 3..] + SEPARATOR + t)
  }

  /** Two ways to split one text at a separator. */
  lemma OneBoundary(a: string, s: string, b: string, t: string)
    requires |a| <= |b|
    ensures a + SEPARATOR + s == b + SEPARATOR + t <==> (a == b && s == t) || RunsOn(a, s, b, t)
  {
    var (l, r) := (a + SEPARATOR + s, b + SEPARATOR + t);
    assert l[..|a|] == a && l[|a| + 3..] == s && r[..|b|] == b && r[|b| + 3..] == t;
    assert l[|a|..|a| + 3] == SEPARATOR && r[|b|..|b| + 3] == SEPARATOR;
    if |b| == |a| + 1 {
      assert l[|a| + 1] == SEPARATOR[1] && r[|b|] == SEPARATOR[0];
    } else if |b| == |a| + 2 {
      EndsInside(a, s, b, t);
    } else if |b| >= |a| + 3 {
      EndsBeyond(a, s, b, t);
    }
  }

  lemma EndsInside(a: string, s: string, b: string, t: string)
    requires |b| == |a| + 2
    ensures a + SEPARATOR + s == b + SEPARATOR + t <==> b == a + " /" && s == "/ " + t
  {
    var (l, r) := (a + SEPARATOR + s, b + SEPARATOR + t);
    if l == r {
      assert b == r[..|b|] == l[..|a| + 2] == a + " /";
      assert s == l[|a| + 3..] == r[|b| + 1..] == "/ " + t;
    }
    if b == a + " /" && s == "/ " + t {
      assert l == a + " / / " + t && r == a + " / / " + t;
    }
  }

  lemma EndsBeyond(a: string, s: string, b: string, t: string)
    requires |b| >= |a| + 3
    ensures a + SEPARATOR + s == b + SEPARATOR + t <==> a + SEPARATOR <= b && s == b[|a| + 3..] + SEPARATOR + t
  {
    var (l, r) := (a + SEPARATOR + s, b + SEPARATOR + t);
    if l == r {
      assert b[..|a| + 3] == r[..|a| + 3] == l[..|a| + 3] == a + SEPARATOR;
      assert s == l[|a| + 3..] == r[|a| + 3..] == b[|a| + 3..] + SEPARATOR + t;
    }
    if a + SEPARATOR <= b && s == b[|a| + 3..] + SEPARATOR + t {
      assert b == a + SEPARATOR + b[|a| + 3..];
    }
  }

  /** Up to place `k` the two agree, and there the separator is read in two ways. */
  predicate RunsOnAt(x: seq<string>, y: seq<string>, k: nat)
    requires |x| == |y| && k < |x|
  {
    && x[..k] == y[..k]
    && (RunsOn(x[k], Join(x[k + 1..]), y[k], Join(y[k + 1..])) || RunsOn(y[k], Join(y[k + 1..]), x[k], Join(x[k + 1..])))
  }

  lemma Onwards(x: seq<string>, y: seq<string>, k: nat)
    requires |x| == |y| && 0 < k < |x| && x[0] == y[0]
    ensures RunsOnAt(x, y, k) <==> RunsOnAt(x[1..], y[1..], k - 1)
  {
    assert x[1..][k..] == x[k + 1..] && y[1..][k..] == y[k + 1..];
    assert x[..k] == [x[0]] + x[1..][..k - 1] && y[..k] == [y[0]] + y[1..][..k - 1];
    assert x[..k][1..] == x[1..][..k - 1] && y[..k][1..] == y[1..][..k - 1];
    assert x[1..][k - 1] == x[k] && y[1..][k - 1] == y[k];
    hide RunsOn, Join;
  }

  lemma HeadsAlike(x: seq<string>, y: seq<string>)
    requires |x| == |y| > 1 && x[0] == y[0]
    ensures (exists k: nat :: k < |x| - 1 && RunsOnAt(x, y, k)) <==>
              exists k: nat :: k < |x[1..]| - 1 && RunsOnAt(x[1..], y[1..], k)
  {
    assert !RunsOnAt(x, y, 0);
    hide RunsOnAt;
    if k: nat :| k < |x| - 1 && RunsOnAt(x, y, k) {
      Onwards(x, y, k);
    }
    if k: nat :| k < |x[1..]| - 1 && RunsOnAt(x[1..], y[1..], k) {
      Onwards(x, y, k + 1);
    }
  }

  lemma HeadsDiffer(x: seq<string>, y: seq<string>)
    requires |x| == |y| > 1 && x[0] != y[0]
    ensures (exists k: nat :: k < |x| - 1 && RunsOnAt(x, y, k)) <==> RunsOnAt(x, y, 0)
    ensures RunsOnAt(x, y, 0) <==>
              if |x[0]| <= |y[0]| then RunsOn(x[0], Join(x[1..]), y[0], Join(y[1..]))
              else RunsOn(y[0], Join(y[1..]), x[0], Join(x[1..]))
  {
    assert x[..0] == y[..0];
    assert forall k :: 0 < k < |x| ==> x[..k][0] != y[..k][0];
  }

  /** Two different lists of as many parts are joined to one text exactly when, somewhere, a part runs on. */
  lemma {:induction false} JoinedAlikeWhen(x: seq<string>, y: seq<string>)
    requires |x| == |y|
    ensures Join(x) == Join(y) <==> x == y || exists k: nat :: k < |x| - 1 && RunsOnAt(x, y, k)
  {
    if |x| > 1 {
      JoinedAlikeWhen(x[1..], y[1..]);
      assert x == [x[0]] + x[1..] && y == [y[0]] + y[1..];
      if x[0] == y[0] {
        HeadsAlike(x, y);
        Prepended(x[0], Join(x[1..]), Join(y[1..]));
      } else {
        HeadsDiffer(x, y);
        hide RunsOnAt, RunsOn;
        if |x[0]| <= |y[0]| {
          OneBoundary(x[0], Join(x[1..]), y[0], Join(y[1..]));
        } else {
          OneBoundary(y[0], Join(y[1..]), x[0], Join(x[1..]));
        }
      }
    }
  }

  lemma Prepended(a: string, s: string, t: string)
    ensures a + SEPARATOR + s == a + SEPARATOR + t <==> s == t
  {
    assert (a + SEPARATOR + s)[|a| + 3..] == s && (a + SEPARATOR + t)[|a| + 3..] == t;
  }

  // ---- Which values cannot be misread ------------------------------------------------------------

  /** No separator in the part, nor one that the part begins and the text after it ends. */
  predicate Safe(part: string) {
    !Contains(part + " ", SEPARATOR)
  }

  lemma SafeNeverRunsOn(a: string, s: string, b: string, t: string)
    requires Safe(b)
    ensures !RunsOn(a, s, b, t)
  {
    if b == a + " /" {
      assert b + " " == a + SEPARATOR + "";
      ContainsAt(b + " ", a, SEPARATOR, "");
    }
    if a + SEPARATOR <= b {
      assert b + " " == a + SEPARATOR + (b[|a| + 3..] + " ");
      ContainsAt(b + " ", a, SEPARATOR, b[|a| + 3..] + " ");
    }
  }

  /** Where all parts but the last are safe, the joined text tells which parts it was joined from. */
  lemma SafePartsAreTold(x: seq<string>, y: seq<string>)
    requires |x| == |y| && Join(x) == Join(y)
    requires forall k :: 0 <= k < |x| - 1 ==> Safe(x[k]) && Safe(y[k])
    ensures x == y
  {
    JoinedAlikeWhen(x, y);
    if k: nat :| k < |x| - 1 && RunsOnAt(x, y, k) {
      SafeNeverRunsOn(x[k], Join(x[k + 1..]), y[k], Join(y[k + 1..]));
      SafeNeverRunsOn(y[k], Join(y[k + 1..]), x[k], Join(x[k + 1..]));
    }
  }

  /** And a part can be misread, next to some other, exactly when it is not safe. */
  lemma UnsafePartsAreNot(b: string)
    ensures (exists a, s, t :: a != b && |a| <= |b| && Join([a, s]) == Join([b, t])) <==> !Safe(b)
  {
    if !Safe(b) {
      var n := ContainsWhere(b + " ", SEPARATOR);
      Misread(b, n);
    }
    forall a, s, t | Safe(b) && a != b && |a| <= |b|
      ensures Join([a, s]) != Join([b, t])
    {
      PairJoined(a, s);
      PairJoined(b, t);
      OneBoundary(a, s, b, t);
      SafeNeverRunsOn(a, s, b, t);
    }
  }

  lemma PairJoined(a: string, s: string)
    ensures Join([a, s]) == a + SEPARATOR + s
  {
    assert [a, s][1..] == [s];
  }

  lemma Misread(b: string, n: nat)
    requires n + 3 <= |b + " "| && (b + " ")[n..n + 3] == SEPARATOR
    ensures exists a, s, t :: a != b && |a| <= |b| && Join([a, s]) == Join([b, t])
  {
    var a := b[..n];
    var s := if n + 3 <= |b| then b[n + 3..] + SEPARATOR + "" else "/ " + "";
    if n + 3 <= |b| {
      assert b[n..n + 3] == (b + " ")[n..n + 3];
      assert b[..n + 3] == a + SEPARATOR;
    } else {
      assert forall i :: n <= i < |b| ==> b[i] == (b + " ")[i] == SEPARATOR[i - n];
      assert b == a + " /";
    }
    OneBoundary(a, s, b, "");
    PairJoined(a, s);
    PairJoined(b, "");
    assert a != b && |a| <= |b| && Join([a, s]) == Join([b, ""]);
  }

  /** Two groups of any number of keys with one label: a separator inside a value changes sides. */
  lemma SeparatorChangesSides(u: string, v: string, w: string, rest: seq<string>)
    ensures [u + SEPARATOR + v, w] + rest != [u, v + SEPARATOR + w] + rest
    ensures Join([u + SEPARATOR + v, w] + rest) == Join([u, v + SEPARATOR + w] + rest)
  {
    var (x, y) := ([u + SEPARATOR + v, w] + rest, [u, v + SEPARATOR + w] + rest);
    assert x[0] != y[0];
    assert x[1..] == [w] + rest && y[1..] == [v + SEPARATOR + w] + rest;
    assert ([w] + rest)[1..] == rest && ([v + SEPARATOR + w] + rest)[1..] == rest;
    var tail := if rest == [] then "" else SEPARATOR + Join(rest);
    assert Join([w] + rest) == w + tail;
    assert Join([v + SEPARATOR + w] + rest) == v + SEPARATOR + w + tail;
    Regroup(u, v, w, tail, SEPARATOR);
  }

  lemma Regroup(u: string, v: string, w: string, tail: string, separator: string)
    ensures u + separator + v + separator + (w + tail) == u + separator + (v + separator + w + tail)
  {
  }
}
