/**
 Claiming the files of a case, by any number of writers at once, in a directory that others use too.

 A claim opens `parts` files one after another, each only if it does not exist yet; if one cannot be
 had, those opened so far are removed again and another stem is tried. Three loose files and a single
 bundle are claimed the same way.
 */
module CaseClaim {
  import opened Text

  const MAX_STEM_ATTEMPTS: nat := 8

  // ---- Names -------------------------------------------------------------------------------------

  /** The three files a stem owns. */
  function FileName(stem: string, part: nat): string
    requires part < 3
  {
    stem + if part == 0 then ".md" else if part == 1 then ".logdata.jsonl" else ".spandata.jsonl"
  }

  /** No file belongs to two stems, or to one stem twice. */
  lemma FileNamesDistinct(s: string, i: nat, t: string, j: nat)
    requires i < 3 && j < 3 && FileName(s, i) == FileName(t, j)
    ensures s == t && i == j
  {
    var n := FileName(s, i);
    assert n == FileName(t, j);
    assert i == 0 <==> n[|n| - 1] == 'd';
    assert j == 0 <==> n[|n| - 1] == 'd';
    if i != 0 {
      assert i == 1 <==> n[|n| - 13] == 'l';
      assert j == 1 <==> n[|n| - 13] == 'l';
    }
    assert n[..|s|] == s && n[..|t|] == t;
  }

  /** What a first attempt's stem looks like: a prefix, then a date and a time of six digits each. */
  predicate IsBase(s: string) {
    |s| >= 7 && s[|s| - 7] == '-' && AllDigits(s[|s| - 6..])
  }

  function Rolled(base: string, id: string): string {
    base + "-" + id
  }

  /** A re-rolled stem is nobody's first choice. */
  lemma RolledIsNotBase(base: string, id: string)
    requires |id| == 4
    ensures !IsBase(Rolled(base, id))
  {
    var s := Rolled(base, id);
    if |s| >= 6 {
      assert s[|s| - 6..][1] == '-';
    }
  }

  // ---- The directory and its writers -------------------------------------------------------------

  datatype Path = Path(stem: string, part: nat)

  datatype Owner = Foreign | Writer(number: nat)

  datatype Phase =
    | Opening(done: nat)
    | Undoing(next: nat, done: nat, taken: bool)
    | Rolling
    | Claimed
    | Failed

  datatype Claim = Claim(base: string, attempt: nat, stem: string, phase: Phase)

  /** `stranded` are the files a rollback could not remove. */
  datatype State = State(files: map<Path, Owner>, claims: seq<Claim>, stranded: set<Path>)

  datatype Event =
    | Begin(base: string)
    | Open(w: nat, refused: bool)
    | Undo(w: nat, fails: bool)
    | Roll(w: nat, id: string)
    | Intrude(path: Path)              // somebody else creates a file

  predicate Can(s: State, e: Event) {
    match e
    case Begin(base) => IsBase(base)
    case Open(w, _) => w < |s.claims| && s.claims[w].phase.Opening?
    case Undo(w, _) => w < |s.claims| && s.claims[w].phase.Undoing?
    case Roll(w, id) => w < |s.claims| && s.claims[w].phase.Rolling? && |id| == 4
    case Intrude(p) => p !in s.files
  }

  function Moved(s: State, w: nat, phase: Phase): State
    requires w < |s.claims|
  {
    s.(claims := s.claims[w := s.claims[w].(phase := phase)])
  }

  function Next(parts: nat, s: State, e: Event): State
    requires Can(s, e)
  {
    match e
    case Begin(base) => s.(claims := s.claims + [Claim(base, 0, base, if parts == 0 then Claimed else Opening(0))])
    case Open(w, refused) =>
      var (c, done) := (s.claims[w], s.claims[w].phase.done);
      var p := Path(c.stem, done);
      if p in s.files then Moved(s, w, Undoing(0, done, true))
      else if refused then Moved(s, w, Undoing(0, done, false))
      else Moved(s, w, if done + 1 >= parts then Claimed else Opening(done + 1)).(files := s.files[p := Writer(w)])
    case Undo(w, fails) =>
      var (c, u) := (s.claims[w], s.claims[w].phase);
      var p := Path(c.stem, u.next);
      if u.next >= u.done then Moved(s, w, if u.taken then Rolling else Failed)
      else if fails then Moved(s, w, u.(next := u.next + 1)).(stranded := s.stranded + {p})
      else Moved(s, w, u.(next := u.next + 1)).(files := s.files - {p})
    case Roll(w, id) =>
      var c := s.claims[w];
      if c.attempt + 1 >= MAX_STEM_ATTEMPTS then Moved(s, w, Failed)
      else s.(claims := s.claims[w := Claim(c.base, c.attempt + 1, Rolled(c.base, id), Opening(0))])
    case Intrude(p) => s.(files := s.files[p := Foreign])
  }

  // ---- What every run keeps ----------------------------------------------------------------------

  /** The claim has the file in hand: created it, and has not given it back. */
  predicate Holds(parts: nat, c: Claim, part: nat) {
    match c.phase
    case Opening(done) => part < done
    case Undoing(next, done, _) => next <= part < done
    case Claimed => part < parts
    case _ => false
  }

  ghost predicate ClaimOk(parts: nat, s: State, w: nat)
    requires w < |s.claims|
  {
    var c := s.claims[w];
    && (forall part :: Holds(parts, c, part) ==> Path(c.stem, part) in s.files && s.files[Path(c.stem, part)] == Writer(w))
    && (c.phase.Opening? ==> c.phase.done < parts)
    && (c.phase.Undoing? ==> c.phase.next <= c.phase.done < parts)
    && IsBase(c.base) && (if c.attempt == 0 then c.stem == c.base else !IsBase(c.stem))
  }

  /** A writer's files are those its claim has in hand, and what it could not remove. */
  ghost predicate FileOk(parts: nat, s: State, p: Path)
    requires p in s.files
  {
    match s.files[p]
    case Foreign => true
    case Writer(w) =>
      && w < |s.claims|
      && (p in s.stranded || (p.stem == s.claims[w].stem && Holds(parts, s.claims[w], p.part)))
  }

  ghost predicate Inv(parts: nat, s: State) {
    && (forall w :: 0 <= w < |s.claims| ==> ClaimOk(parts, s, w))
    && (forall p :: p in s.files ==> FileOk(parts, s, p))
  }

  /** Whatever a claim has in hand after a step is its own. */
  lemma HandsKept(parts: nat, s: State, e: Event, w: nat, part: nat)
    requires parts > 0 && Can(s, e) && w < |s.claims| && ClaimOk(parts, s, w)
    requires (e.Open? || e.Undo?) && e.w < |s.claims| ==> ClaimOk(parts, s, e.w)
    requires Holds(parts, Next(parts, s, e).claims[w], part)
    ensures var t := Next(parts, s, e);
      Path(t.claims[w].stem, part) in t.files && t.files[Path(t.claims[w].stem, part)] == Writer(w)
  {
    hide IsBase;
    var t := Next(parts, s, e);
    assert t.claims[w].stem == s.claims[w].stem;
    assert Holds(parts, s.claims[w], part) || (e.Open? && e.w == w && part == s.claims[w].phase.done);
  }

  lemma ClaimsKept(parts: nat, s: State, e: Event, w: nat)
    requires parts > 0 && Inv(parts, s) && Can(s, e) && w < |Next(parts, s, e).claims|
    ensures ClaimOk(parts, Next(parts, s, e), w)
  {
    var t := Next(parts, s, e);
    if e.Roll? { RolledIsNotBase(s.claims[e.w].base, e.id); }
    if w < |s.claims| {
      assert ClaimOk(parts, s, w);
      if (e.Open? || e.Undo?) && e.w < |s.claims| {
        assert ClaimOk(parts, s, e.w);
      }
      forall part | Holds(parts, t.claims[w], part)
        ensures Path(t.claims[w].stem, part) in t.files && t.files[Path(t.claims[w].stem, part)] == Writer(w)
      {
        HandsKept(parts, s, e, w, part);
      }
      hide IsBase, Inv, Holds, FileOk;
    }
  }

  lemma FilesKept(parts: nat, s: State, e: Event, p: Path)
    requires parts > 0 && Inv(parts, s) && Can(s, e) && p in Next(parts, s, e).files
    ensures FileOk(parts, Next(parts, s, e), p)
  {
    hide IsBase;
    if e.Open? || e.Undo? {
      assert ClaimOk(parts, s, e.w);
    }
    if p in s.files {
      assert FileOk(parts, s, p);
      if s.files[p].Writer? && p !in s.stranded {
        assert ClaimOk(parts, s, s.files[p].number);
      }
    }
  }

  lemma InvKept(parts: nat, s: State, e: Event)
    requires parts > 0 && Inv(parts, s) && Can(s, e)
    ensures Inv(parts, Next(parts, s, e))
  {
    hide Inv, Next, Can, ClaimOk, FileOk;
    forall w | 0 <= w < |Next(parts, s, e).claims|
      ensures ClaimOk(parts, Next(parts, s, e), w)
    {
      ClaimsKept(parts, s, e, w);
    }
    forall p | p in Next(parts, s, e).files
      ensures FileOk(parts, Next(parts, s, e), p)
    {
      FilesKept(parts, s, e, p);
    }
    InvIs(parts, Next(parts, s, e));
  }

  lemma InvIs(parts: nat, s: State)
    requires forall w :: 0 <= w < |s.claims| ==> ClaimOk(parts, s, w)
    requires forall p :: p in s.files ==> FileOk(parts, s, p)
    ensures Inv(parts, s)
  {
  }

  // ---- One step at a time ------------------------------------------------------------------------

  /** No existing file is ever overwritten, and the only ones removed are a writer's own. */
  lemma NothingOverwritten(parts: nat, s: State, e: Event, p: Path)
    requires Inv(parts, s) && Can(s, e) && p in s.files
    ensures var t := Next(parts, s, e);
      if p in t.files then t.files[p] == s.files[p] else e.Undo? && s.files[p] == Writer(e.w)
  {
    if e.Undo? {
      assert ClaimOk(parts, s, e.w);
    }
  }

  /** Two claims that succeeded share no file. */
  lemma ClaimsDisjoint(parts: nat, s: State, v: nat, w: nat)
    requires parts > 0 && Inv(parts, s) && v < |s.claims| && w < |s.claims| && v != w
    requires s.claims[v].phase == Claimed && s.claims[w].phase == Claimed
    ensures s.claims[v].stem != s.claims[w].stem
    ensures forall part :: 0 <= part < parts ==>
              Path(s.claims[w].stem, part) in s.files && s.files[Path(s.claims[w].stem, part)] == Writer(w)
  {
    assert ClaimOk(parts, s, v) && ClaimOk(parts, s, w);
    assert Holds(parts, s.claims[v], 0) && Holds(parts, s.claims[w], 0);
    forall part | 0 <= part < parts
      ensures Path(s.claims[w].stem, part) in s.files && s.files[Path(s.claims[w].stem, part)] == Writer(w)
    {
      assert Holds(parts, s.claims[w], part);
    }
  }

  /** A claim given up, for good or for another stem, leaves nothing behind but what could not be removed. */
  lemma NothingLeftBehind(parts: nat, s: State, w: nat, p: Path)
    requires Inv(parts, s) && w < |s.claims| && s.claims[w].phase in {Rolling, Failed}
    requires p in s.files && s.files[p] == Writer(w)
    ensures p in s.stranded
  {
    assert FileOk(parts, s, p);
  }

  // ---- Over whole runs ---------------------------------------------------------------------------

  const EMPTY := State(map[], [], {})

  /** `e` neither creates somebody else's file under the stem nor makes an open fail for another reason. */
  predicate Undisturbed(base: string, e: Event) {
    !(e.Intrude? && e.path.stem == base) && !(e.Open? && e.refused)
  }

  /** A claim on its way to the bare stem. */
  predicate Heading(c: Claim, base: string) {
    c.stem == base && (c.phase == Claimed || (c.phase.Opening? && c.phase.done > 0))
  }

  /**
   Either nobody has touched the bare stem's files, and everyone who wants it has yet to open the
   first, or one writer has the first and nobody else has any.
   */
  ghost predicate BareOk(s: State, base: string) {
    && NoneStranded(s, base)
    && if Path(base, 0) !in s.files then
      && (forall p :: p in s.files ==> p.stem != base)
      && (forall w :: 0 <= w < |s.claims| && s.claims[w].base == base ==> s.claims[w].stem == base && s.claims[w].phase == Opening(0))
    else
      exists w :: 0 <= w < |s.claims| && OnlyHolder(s, base, w)
  }

  ghost predicate NoneStranded(s: State, base: string) {
    forall p :: p in s.stranded ==> p.stem != base
  }

  ghost predicate OnlyHolder(s: State, base: string, w: nat)
    requires w < |s.claims|
  {
    Heading(s.claims[w], base) && forall p :: p in s.files && p.stem == base ==> s.files[p] == Writer(w)
  }

  lemma BareKept(parts: nat, s: State, e: Event, base: string)
    requires parts > 0 && Inv(parts, s) && Can(s, e) && BareOk(s, base) && IsBase(base) && Undisturbed(base, e)
    ensures BareOk(Next(parts, s, e), base)
  {
    var t := Next(parts, s, e);
    if e.Roll? { RolledIsNotBase(s.claims[e.w].base, e.id); }
    if e.Open? || e.Undo? { assert ClaimOk(parts, s, e.w); }
    if e.Undo? && s.claims[e.w].phase.next < s.claims[e.w].phase.done {
      assert Holds(parts, s.claims[e.w], s.claims[e.w].phase.next);
    }
    if Path(base, 0) in s.files {
      var w: nat :| w < |s.claims| && OnlyHolder(s, base, w);
      HolderKept(parts, s, e, base, w);
    } else if Path(base, 0) in t.files {
      assert e.Open?;
      assert OnlyHolder(t, base, e.w);
    }
  }

  /** The writer that has the first file of the bare stem keeps it, and gets the others. */
  lemma HolderKept(parts: nat, s: State, e: Event, base: string, w: nat)
    requires parts > 0 && Can(s, e) && w < |s.claims| && OnlyHolder(s, base, w) && IsBase(base) && Undisturbed(base, e)
    requires ClaimOk(parts, s, w) && Path(base, 0) in s.files && (e.Open? || e.Undo? ==> ClaimOk(parts, s, e.w))
    requires NoneStranded(s, base) && forall p :: p in s.files ==> FileOk(parts, s, p)
    ensures NoneStranded(Next(parts, s, e), base)
    ensures w < |Next(parts, s, e).claims| && OnlyHolder(Next(parts, s, e), base, w) && Path(base, 0) in Next(parts, s, e).files
  {
    hide IsBase;
    if e.Undo? && s.claims[e.w].phase.next < s.claims[e.w].phase.done {
      assert Holds(parts, s.claims[e.w], s.claims[e.w].phase.next);
    }
    if e.Open? && s.claims[e.w].phase.done > 0 {
      assert Holds(parts, s.claims[e.w], 0);
    }
    if e.Open? && e.w == w {
      forall p | p in s.files && p.stem == base
        ensures p.part != s.claims[w].phase.done
      {
        assert FileOk(parts, s, p);
      }
    }
  }

  predicate Runs(parts: nat, s: State, es: seq<Event>)
    decreases |es|, 0
  {
    es == [] || (Runs(parts, s, es[..|es| - 1]) && Can(End(parts, s, es[..|es| - 1]), es[|es| - 1]))
  }

  function End(parts: nat, s: State, es: seq<Event>): State
    requires Runs(parts, s, es)
    decreases |es|, 1
  {
    if es == [] then s else Next(parts, End(parts, s, es[..|es| - 1]), es[|es| - 1])
  }

  lemma {:induction false} InvAlways(parts: nat, es: seq<Event>)
    requires parts > 0 && Runs(parts, EMPTY, es)
    ensures Inv(parts, End(parts, EMPTY, es))
    decreases |es|
  {
    if es != [] {
      InvAlways(parts, es[..|es| - 1]);
      hide Inv, Next, Can;
      InvKept(parts, End(parts, EMPTY, es[..|es| - 1]), es[|es| - 1]);
    }
  }

  lemma {:induction false} BareAlways(parts: nat, es: seq<Event>, base: string)
    requires parts > 0 && Runs(parts, EMPTY, es) && IsBase(base) && forall i :: 0 <= i < |es| ==> Undisturbed(base, es[i])
    ensures BareOk(End(parts, EMPTY, es), base)
    decreases |es|
  {
    if es != [] {
      BareAlways(parts, es[..|es| - 1], base);
      InvAlways(parts, es[..|es| - 1]);
      hide Inv, Next, Can, BareOk, IsBase;
      BareKept(parts, End(parts, EMPTY, es[..|es| - 1]), es[|es| - 1], base);
    }
  }

  predicate Finished(c: Claim) {
    c.phase == Claimed || c.phase == Failed
  }

  /**
   Whoever else claims at the same time: once all claims have come to an end, exactly one of those
   that wanted a bare stem has it.
   */
  lemma ExactlyOneBare(parts: nat, es: seq<Event>, base: string, v: nat)
    requires parts > 0 && Runs(parts, EMPTY, es) && IsBase(base) && forall i :: 0 <= i < |es| ==> Undisturbed(base, es[i])
    requires v < |End(parts, EMPTY, es).claims| && End(parts, EMPTY, es).claims[v].base == base
    requires forall w :: 0 <= w < |End(parts, EMPTY, es).claims| ==> Finished(End(parts, EMPTY, es).claims[w])
    ensures var s := End(parts, EMPTY, es);
      && (exists w :: 0 <= w < |s.claims| && s.claims[w].stem == base && s.claims[w].phase == Claimed)
      && (forall w, u :: 0 <= w < u < |s.claims| && s.claims[w].phase == Claimed && s.claims[u].phase == Claimed ==>
            s.claims[w].stem != s.claims[u].stem)
  {
    BareAlways(parts, es, base);
    InvAlways(parts, es);
    var s := End(parts, EMPTY, es);
    assert Finished(s.claims[v]);
    forall w, u | 0 <= w < u < |s.claims| && s.claims[w].phase == Claimed && s.claims[u].phase == Claimed
      ensures s.claims[w].stem != s.claims[u].stem
    {
      ClaimsDisjoint(parts, s, w, u);
    }
  }

  // ---- How a claim goes --------------------------------------------------------------------------

  lemma FileNamesSpelled(stem: string)
    ensures FileName(stem, 0) == stem + ".md" && FileName(stem, 1) == stem + ".logdata.jsonl"
    ensures FileName(stem, 2) == stem + ".spandata.jsonl"
  {
  }

  /**
   One attempt at the next file: it is created if there is none of its name; if there is, or it cannot be
   created, the claim turns to undoing what it has, and remembers which it was.
   */
  lemma OpenTells(parts: nat, s: State, w: nat, refused: bool)
    requires Can(s, Open(w, refused))
    ensures var (t, c, p) := (Next(parts, s, Open(w, refused)), s.claims[w], Path(s.claims[w].stem, s.claims[w].phase.done));
      && (p !in s.files && !refused ==> t.files == s.files[p := Writer(w)])
      && (p in s.files || refused ==> t.files == s.files && t.claims[w].phase == Undoing(0, c.phase.done, p in s.files))
      && (p !in s.files && !refused ==> t.claims[w].phase == if c.phase.done + 1 < parts then Opening(c.phase.done + 1) else Claimed)
  {
  }

  /** Undone, a claim that found a name taken tries another stem, up to eight in all; one that failed otherwise is over. */
  lemma UndoneGoesOn(parts: nat, s: State, w: nat, fails: bool, id: string)
    ensures Can(s, Undo(w, fails)) && s.claims[w].phase.next == s.claims[w].phase.done ==>
              Next(parts, s, Undo(w, fails)).claims[w].phase == if s.claims[w].phase.taken then Rolling else Failed
    ensures Can(s, Roll(w, id)) && s.claims[w].attempt < 7 ==>
              Next(parts, s, Roll(w, id)).claims[w]
              == Claim(s.claims[w].base, s.claims[w].attempt + 1, s.claims[w].base + "-" + id, Opening(0))
    ensures Can(s, Roll(w, id)) && s.claims[w].attempt >= 7 ==> Next(parts, s, Roll(w, id)).claims[w].phase == Failed
  {
  }

  /** How far a claim is from its end at most. */
  function StepsLeft(parts: nat, c: Claim): nat {
    var later := if c.attempt < MAX_STEM_ATTEMPTS then (MAX_STEM_ATTEMPTS - c.attempt) * (2 * parts + 4) else 0;
    match c.phase
    case Opening(done) => later + 2 * parts + 3 - if done <= parts then done else parts
    case Undoing(next, done, _) => later + 2 + if next <= done then done - next else 0
    case Rolling => later + 1
    case _ => 0
  }

  predicate Own(e: Event, w: nat) {
    (e.Open? || e.Undo? || e.Roll?) && e.w == w
  }

  /** Every step of its own brings a claim nearer to its end, whatever comes of it, and no other step concerns it. */
  lemma ClaimsOnlyAdvance(parts: nat, s: State, e: Event, w: nat)
    requires parts > 0 && Inv(parts, s) && Can(s, e) && w < |s.claims|
    ensures var t := Next(parts, s, e);
      && w < |t.claims|
      && (if Own(e, w) then StepsLeft(parts, t.claims[w]) < StepsLeft(parts, s.claims[w]) else t.claims[w] == s.claims[w])
  {
    assert ClaimOk(parts, s, w);
    if Own(e, w) && e.Roll? && s.claims[w].attempt + 1 < MAX_STEM_ATTEMPTS {
      var k := MAX_STEM_ATTEMPTS - s.claims[w].attempt;
      assert k * (2 * parts + 4) == (k - 1) * (2 * parts + 4) + (2 * parts + 4);
    }
  }

  /** And a claim that is not at its end can take one. */
  lemma ClaimsGoOn(s: State, w: nat, id: string)
    requires w < |s.claims| && !Finished(s.claims[w]) && |id| == 4
    ensures Can(s, Open(w, false)) || Can(s, Undo(w, false)) || Can(s, Roll(w, id))
  {
  }

  /** By itself in a directory that has none of its names, a claim gets the stem it wants. */
  lemma {:induction false} LoneClaimSucceeds(parts: nat, s: State, w: nat) returns (es: seq<Event>)
    requires w < |s.claims| && s.claims[w].phase.Opening? && s.claims[w].phase.done < parts
    requires forall part :: s.claims[w].phase.done <= part < parts ==> Path(s.claims[w].stem, part) !in s.files
    ensures |es| == parts - s.claims[w].phase.done && forall i :: 0 <= i < |es| ==> es[i] == Open(w, false)
    ensures Runs(parts, s, es) && w < |End(parts, s, es).claims|
    ensures End(parts, s, es).claims[w] == s.claims[w].(phase := Claimed)
    decreases parts - s.claims[w].phase.done
  {
    var e := Open(w, false);
    var t := Next(parts, s, e);
    var rest: seq<Event> := [];
    if s.claims[w].phase.done + 1 < parts {
      rest := LoneClaimSucceeds(parts, t, w);
    }
    assert Runs(parts, s, []) && End(parts, s, []) == s;
    RunsOn(parts, s, e, rest);
    es := [e] + rest;
  }

  lemma {:induction false} RunsOn(parts: nat, s: State, e: Event, rest: seq<Event>)
    requires Can(s, e) && Runs(parts, Next(parts, s, e), rest)
    ensures Runs(parts, s, [e] + rest) && End(parts, s, [e] + rest) == End(parts, Next(parts, s, e), rest)
    decreases |rest|
  {
    var es := [e] + rest;
    if rest == [] {
      assert es[..|es| - 1] == [] && es[|es| - 1] == e;
    } else {
      hide Next, Can;
      RunsOn(parts, s, e, rest[..|rest| - 1]);
      assert es[..|es| - 1] == [e] + rest[..|rest| - 1] && es[|es| - 1] == rest[|rest| - 1];
    }
  }
}
