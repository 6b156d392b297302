/** The collector directory as it is on disk: the names of `CollectorNames` satisfy what the sweep relies on. */
module CollectorWorld {
  import opened Text
  import opened CollectorNames
  import opened Selection
  import opened Migration
  import Placement

  datatype File = File(bytes: seq<Byte>, mtime: int)

  function Suffix(t: Tag): string {
    match t
    case Corrupt => ".corrupt"
    case Superseded => ".superseded"
  }

  /** `<path>.<suffix>`, then `<path>.<suffix>.N` for N = 1, 2, … */
  function Aside(path: Name, t: Tag, n: nat): Name {
    if n == 0 then path + Suffix(t) else path + Suffix(t) + "." + NatText(n)
  }

  /** Owner first, then name, both by bytes. */
  predicate KeyLess(a: Key, b: Key) {
    LexLess(a.owner, b.owner) || (a.owner == b.owner && LexLess(a.name, b.name))
  }

  /** `parse` is what reading makes of a file's bytes: nothing, or the collector they describe. */
  function OnDisk(parse: seq<Byte> -> Option<Key>): World<Name, Key, File> {
    World(
      IsJson, Canonical, p => if IsJson(p) then Staging(p) else p, Aside, TextLess, KeyLess,
      (f: File) => f.mtime, (f: File) => parse(f.bytes))
  }

  lemma AsideIsNotJson(p: Name, t: Tag, n: nat)
    ensures !IsJson(Aside(p, t, n))
  {
    var a := Aside(p, t, n);
    if n > 0 {
      NatTextDigits(n);
      assert a[|a| - 1] == NatText(n)[|NatText(n)| - 1];
    }
    if |a| > 5 {
      assert a[|a| - 5..][4] != ".json"[4];
    }
  }

  lemma AsideDistinct(p: Name, t: Tag, m: nat, n: nat)
    requires Aside(p, t, m) == Aside(p, t, n)
    ensures m == n
  {
    var stem := p + Suffix(t);
    assert m > 0 ==> Aside(p, t, m)[|stem| + 1..] == NatText(m);
    assert n > 0 ==> Aside(p, t, n)[|stem| + 1..] == NatText(n);
    if m > 0 && n > 0 {
      NatTextInjective(m, n);
    }
  }

  lemma KeyOrder()
    ensures TotalOrder(KeyLess)
  {
    forall a: Key, b: Key, c: Key
      ensures !KeyLess(a, a)
      ensures a != b ==> KeyLess(a, b) || KeyLess(b, a)
      ensures KeyLess(a, b) && KeyLess(b, c) ==> KeyLess(a, c)
    {
      LexTrichotomy(a.owner, b.owner);
      LexTrichotomy(a.name, b.name);
      if KeyLess(a, b) && KeyLess(b, c) {
        if LexLess(a.owner, b.owner) && LexLess(b.owner, c.owner) { LexTransitive(a.owner, b.owner, c.owner); }
        if LexLess(a.name, b.name) && LexLess(b.name, c.name) { LexTransitive(a.name, b.name, c.name); }
      }
    }
  }

  lemma NameOrder()
    ensures TotalOrder(TextLess)
  {
    forall a, b, c
      ensures !TextLess(a, a)
      ensures a != b ==> TextLess(a, b) || TextLess(b, a)
      ensures TextLess(a, b) && TextLess(b, c) ==> TextLess(a, c)
    {
      TextTrichotomy(a, b);
      if TextLess(a, b) && TextLess(b, c) {
        TextTransitive(a, b, c);
      }
    }
  }

  /** One owner's collectors stand together, in the order of their names. */
  lemma KeyOrderIs(a: Key, b: Key, c: Key)
    ensures a.owner == b.owner ==> (KeyLess(a, b) <==> LexLess(a.name, b.name))
    ensures a.owner == c.owner && KeyLess(a, b) && KeyLess(b, c) ==> b.owner == a.owner
    ensures a.owner != b.owner ==> (KeyLess(a, b) <==> LexLess(a.owner, b.owner))
  {
    LexTrichotomy(a.owner, b.owner);
    LexTrichotomy(b.owner, c.owner);
  }

  /** The names a file can be set aside under. */
  lemma AsideSpelled(p: Name)
    ensures Aside(p, Corrupt, 0) == p + ".corrupt" && Aside(p, Superseded, 0) == p + ".superseded"
    ensures Aside(p, Corrupt, 2) == p + ".corrupt" + ".2" && Aside(p, Superseded, 10) == p + ".superseded" + ".10"
  {
    assert NatText(2) == "2" && NatText(10) == NatText(1) + "0" == "10";
  }

  /** The real names are what the sweep relies on. */
  lemma WorldLaws(parse: seq<Byte> -> Option<Key>)
    ensures Laws(OnDisk(parse))
  {
    var w := OnDisk(parse);
    forall k1, k2
      ensures w.json(w.canonical(k1)) && w.json(w.staging(w.canonical(k1)))
      ensures w.staging(w.canonical(k1)) != w.canonical(k2)
      ensures w.staging(w.canonical(k1)) == w.staging(w.canonical(k2)) ==> w.canonical(k1) == w.canonical(k2)
    {
      CanonicalIsJson(k1);
      CanonicalIsJson(k2);
      StagingIsNotCanonical(k1, k2);
      if w.staging(w.canonical(k1)) == w.staging(w.canonical(k2)) {
        StagingInjective(Canonical(k1), Canonical(k2));
      }
    }
    forall p, t, m, n
      ensures !w.json(w.aside(p, t, n))
      ensures w.aside(p, t, m) == w.aside(p, t, n) ==> m == n
    {
      AsideIsNotJson(p, t, n);
      if w.aside(p, t, m) == w.aside(p, t, n) {
        AsideDistinct(p, t, m, n);
      }
    }
    KeyOrder();
    NameOrder();
  }

  predicate Collide(k1: Option<Key>, k2: Option<Key>) {
    k1.Some? && k2.Some? && k1 != k2 && HashesCollide(k1.value, k2.value)
  }

  /** Unless two long names in the directory share a 64-bit hash, every collector has a name to itself. */
  lemma NoCollisionsApart(parse: seq<Byte> -> Option<Key>, d: map<Name, File>)
    requires forall p, q :: p in d && q in d ==> !Collide(parse(d[p].bytes), parse(d[q].bytes))
    ensures NamesApart(OnDisk(parse), d)
  {
    var w := OnDisk(parse);
    forall k1, k2 | Copies(w, d, k1) != {} && Copies(w, d, k2) != {} && k1 != k2
      ensures w.canonical(k1) != w.canonical(k2)
    {
      var p :| p in Copies(w, d, k1);
      var q :| q in Copies(w, d, k2);
      assert !Collide(parse(d[p].bytes), parse(d[q].bytes));
      if Canonical(k1) == Canonical(k2) {
        CanonicalInjective(k1, k2);
      }
    }
  }

  /**
   Boots twice. If no rename of the first boot failed and no file was in another's way, the second, whatever
   may fail in it, has nothing to move and loads the same collectors.
   */
  method BootTwice(parse: seq<Byte> -> Option<Key>, d: map<Name, File>, fails: nat -> bool, failsNext: nat -> bool)
    returns (first: seq<Loaded<Key, File>>, attempts: nat, second: seq<Loaded<Key, File>>, renames: nat)
    requires NamesApart(OnDisk(parse), d) && !StagingBlocked(OnDisk(parse), d)
    ensures IsLoadOf(OnDisk(parse), d, first)
    ensures Placement.Clean(fails, attempts) ==> second == first && renames == 0
  {
    var w := OnDisk(parse);
    WorldLaws(parse);
    hide *;
    var before := new Directory(w, d, fails);
    ghost var paths;
    first, paths := before.LoadAll();
    attempts := before.attempts;
    ghost var left := before.files;
    if Placement.Clean(fails, attempts) {
      before.LeavesTheSame();
    }
    var after := new Directory(w, before.files, failsNext);
    second, paths := after.LoadAll();
    renames := after.attempts;
    if Placement.Clean(fails, attempts) {
      SameLoad(w, d, left, first, second);
    }
  }
}
