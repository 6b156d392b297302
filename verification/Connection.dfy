/**
 The connection state machine of one session: callers, disconnect watchers and the reconnect loop,
 interleaved step by step.

 Anyone may report a disconnect at any time, about whichever bridge it had: the report carries no
 bridge, so a late one can take a fresh connection down, and a watcher may never report at all.
 */
module Connection {

  datatype Config = Config(named: bool, maxAttempts: nat, initialBackoff: nat, maxBackoff: nat)

  datatype Reason = SessionLost | Disconnected

  datatype Conn = Connected(bridge: nat) | Reconnecting | Failed(reason: Reason)

  /** What came of one attempt to connect and start the session again. */
  datatype Handshake = Refused | Fresh | Resumed

  /** A task on its way from one step to the next; `write` numbers the state change it made. */
  datatype Task =
    | Announcing(write: nat, reconnect: bool)    // to wake the waiters, then perhaps to reconnect
    | Spawning                                   // to start the reconnect loop
    | Trying(attempt: nat, backoff: nat)
    | Sleeping(attempt: nat, backoff: nat)
    | Installing(bridge: nat)                    // session resumed; to write `Connected`
    | Losing                                     // session gone; to write `Failed`
    | Installed(bridge: nat, write: nat)         // to wake the waiters
    | Telling(bridge: nat)                       // to broadcast `Reconnected`
    | Starting(bridge: nat)                      // to start the bridge's reader
    | Ended

  /** A call in need of a bridge. `since` is how many wake-ups there had been when it last asked for one. */
  datatype Waiter =
    | Armed(since: nat)
    | Parked(since: nat, seen: nat)              // `seen` is the last state change before it looked
    | Served(bridge: nat)
    | Turned(reason: Reason)

  datatype Note = Reconnected(bridge: nat) | Heard(bridge: nat)

  datatype State = State(
    conn: Conn, writes: nat, wakes: nat, tasks: seq<Task>, waiters: seq<Waiter>,
    bridges: nat, started: set<nat>, notes: seq<Note>)

  /** The first bridge is connected and read from before anyone else sees it. */
  const START := State(Connected(0), 0, 0, [], [], 1, {0}, [])

  datatype Event =
    | Report                                     // `enter_disconnect`, up to releasing the lock
    | Step(task: nat, outcome: Handshake)
    | Arrive
    | Look(waiter: nat)
    | Wake(waiter: nat)
    | Expire(waiter: nat)
    | Hear(bridge: nat)

  predicate Can(s: State, e: Event) {
    match e
    case Report => true
    case Step(t, _) => t < |s.tasks| && s.tasks[t] != Ended
    case Arrive => true
    case Look(w) => w < |s.waiters| && s.waiters[w].Armed?
    case Wake(w) => w < |s.waiters| && s.waiters[w].Parked? && s.waiters[w].since < s.wakes
    case Expire(w) => w < |s.waiters| && s.waiters[w].Parked?
    case Hear(b) => b in s.started
  }

  function Min(a: nat, b: nat): nat {
    if a < b then a else b
  }

  /** A state change under the lock, made by task `t`. */
  function Write(s: State, conn: Conn, t: nat, next: Task): State
    requires t < |s.tasks|
  {
    s.(conn := conn, writes := s.writes + 1, tasks := s.tasks[t := next])
  }

  function TakeStep(cfg: Config, s: State, t: nat, outcome: Handshake): State
    requires t < |s.tasks| && s.tasks[t] != Ended
  {
    match s.tasks[t]
    case Announcing(_, reconnect) => s.(wakes := s.wakes + 1, tasks := s.tasks[t := if reconnect then Spawning else Ended])
    case Spawning => s.(tasks := s.tasks[t := Trying(0, cfg.initialBackoff)])
    case Trying(attempt, backoff) =>
      if attempt >= cfg.maxAttempts then Write(s, Failed(Disconnected), t, Announcing(s.writes + 1, false))
      else if outcome == Refused then s.(tasks := s.tasks[t := Sleeping(attempt, backoff)])
      else if outcome == Fresh then s.(tasks := s.tasks[t := Losing])
      else s.(bridges := s.bridges + 1, tasks := s.tasks[t := Installing(s.bridges)])
    case Sleeping(attempt, backoff) => s.(tasks := s.tasks[t := Trying(attempt + 1, Min(2 * backoff, cfg.maxBackoff))])
    case Losing => Write(s, Failed(SessionLost), t, Announcing(s.writes + 1, false))
    case Installing(b) => Write(s, Connected(b), t, Installed(b, s.writes + 1))
    case Installed(b, _) => s.(wakes := s.wakes + 1, tasks := s.tasks[t := Telling(b)])
    case Telling(b) => s.(notes := s.notes + [Reconnected(b)], tasks := s.tasks[t := Starting(b)])
    case Starting(b) => s.(started := s.started + {b}, tasks := s.tasks[t := Ended])
  }

  function Looked(s: State, since: nat): Waiter {
    match s.conn
    case Connected(b) => Served(b)
    case Failed(r) => Turned(r)
    case Reconnecting => Parked(since, s.writes)
  }

  function Next(cfg: Config, s: State, e: Event): State
    requires Can(s, e)
  {
    match e
    case Report =>
      if !s.conn.Connected? then s
      else
        s.(conn := if cfg.named then Reconnecting else Failed(SessionLost),
           writes := s.writes + 1, tasks := s.tasks + [Announcing(s.writes + 1, cfg.named)])
    case Step(t, outcome) => TakeStep(cfg, s, t, outcome)
    case Arrive => s.(waiters := s.waiters + [Armed(s.wakes)])
    case Look(w) => s.(waiters := s.waiters[w := Looked(s, s.waiters[w].since)])
    case Wake(w) => s.(waiters := s.waiters[w := Armed(s.wakes)])
    case Expire(w) => s.(waiters := s.waiters[w := Turned(Disconnected)])
    case Hear(b) => s.(notes := s.notes + [Heard(b)])
  }

  // ---- What every run keeps ----------------------------------------------------------------------

  /** Part of a reconnect whose state change is still to come. */
  predicate Owes(t: Task) {
    (t.Announcing? && t.reconnect) || t.Spawning? || t.Trying? || t.Sleeping? || t.Installing? || t.Losing?
  }

  /** Has changed the state and is yet to wake the waiters. */
  predicate OwesWake(t: Task) {
    t.Announcing? || t.Installed?
  }

  /** On its way to start the reader of bridge `b`, already installed. */
  predicate WillStart(t: Task, b: nat) {
    (t.Installed? && t.bridge == b) || t == Telling(b) || t == Starting(b)
  }

  /** `Reconnecting` holds exactly when one reconnect still has its state change to make. */
  ghost predicate OneDriver(s: State) {
    && (s.conn == Reconnecting <==> exists t :: 0 <= t < |s.tasks| && Owes(s.tasks[t]))
    && (forall t, u :: 0 <= t < u < |s.tasks| ==> !(Owes(s.tasks[t]) && Owes(s.tasks[u])))
  }

  predicate TaskOk(cfg: Config, s: State, t: Task) {
    match t
    case Announcing(write, reconnect) => write <= s.writes && (reconnect ==> cfg.named)
    case Trying(attempt, backoff) => attempt <= cfg.maxAttempts && backoff == Backoff(cfg, attempt)
    case Sleeping(attempt, backoff) => attempt < cfg.maxAttempts && backoff == Backoff(cfg, attempt)
    case Installing(b) => 0 < b < s.bridges
    case Installed(b, write) => 0 < b < s.bridges && write <= s.writes
    case Telling(b) => 0 < b < s.bridges
    case Starting(b) => 0 < b < s.bridges && Reconnected(b) in s.notes
    case _ => true
  }

  /** A parked waiter that has missed a state change has been woken since, or is about to be. */
  ghost predicate WaiterOk(s: State, w: Waiter) {
    match w
    case Armed(since) => since <= s.wakes
    case Parked(since, seen) =>
      since <= s.wakes && seen <= s.writes
      && (s.writes > seen ==> since < s.wakes || exists t :: 0 <= t < |s.tasks| && OwesWake(s.tasks[t]) && s.tasks[t].write > seen)
    case _ => true
  }

  /** Every bridge that has been installed is read from, or will be. */
  ghost predicate HasReader(s: State, b: nat) {
    b in s.started || exists t :: 0 <= t < |s.tasks| && WillStart(s.tasks[t], b)
  }

  /** Every notification off a resumed bridge comes after its `Reconnected`. */
  ghost predicate Ordered(notes: seq<Note>) {
    forall i :: 0 <= i < |notes| && notes[i].Heard? && notes[i].bridge != 0 ==> Reconnected(notes[i].bridge) in notes[..i]
  }

  ghost predicate Inv(cfg: Config, s: State) {
    && OneDriver(s) && s.bridges > 0
    && (!cfg.named ==> s.conn != Reconnecting)
    && (forall t :: 0 <= t < |s.tasks| ==> TaskOk(cfg, s, s.tasks[t]))
    && (forall w :: 0 <= w < |s.waiters| ==> WaiterOk(s, s.waiters[w]))
    && (forall b :: b in s.started && b != 0 ==> Reconnected(b) in s.notes)
    && Ordered(s.notes)
    && (s.conn.Connected? ==> HasReader(s, s.conn.bridge))
    && (forall w :: 0 <= w < |s.waiters| && s.waiters[w].Served? ==> HasReader(s, s.waiters[w].bridge))
  }

  /** The wait before the attempt after number `n`. */
  function Backoff(cfg: Config, n: nat): nat {
    if n == 0 then cfg.initialBackoff else Min(2 * Backoff(cfg, n - 1), cfg.maxBackoff)
  }

  function Doubled(b: nat, n: nat): nat {
    if n == 0 then b else 2 * Doubled(b, n - 1)
  }

  /** Doubling, up to a ceiling. */
  lemma {:induction false} BackoffIs(cfg: Config, n: nat)
    ensures n > 0 ==> Backoff(cfg, n) == Min(Doubled(cfg.initialBackoff, n), cfg.maxBackoff)
  {
    if n > 0 {
      BackoffIs(cfg, n - 1);
    }
  }

  // ---- One step, one part of the invariant at a time ---------------------------------------------

  lemma DriverKept(cfg: Config, s: State, e: Event)
    requires OneDriver(s) && Can(s, e)
    ensures OneDriver(Next(cfg, s, e))
  {
    var r := Next(cfg, s, e);
    if e.Step? {
      assert forall u :: 0 <= u < |s.tasks| && u != e.task ==> r.tasks[u] == s.tasks[u];
      assert Owes(s.tasks[e.task]) ==> s.conn == Reconnecting;
      assert s.conn == Reconnecting && !Owes(s.tasks[e.task]) ==> exists u :: 0 <= u < |s.tasks| && u != e.task && Owes(s.tasks[u]);
      assert Owes(r.tasks[e.task]) ==> Owes(s.tasks[e.task]);
    }
    if e == Report && s.conn.Connected? {
      assert Owes(r.tasks[|s.tasks|]) <==> cfg.named;
    }
  }

  lemma TaskUntouched(cfg: Config, s: State, e: Event, t: nat)
    requires Can(s, e) && t < |s.tasks| && TaskOk(cfg, s, s.tasks[t]) && !(e.Step? && e.task == t)
    ensures t < |Next(cfg, s, e).tasks| && TaskOk(cfg, Next(cfg, s, e), Next(cfg, s, e).tasks[t])
  {
    var r := Next(cfg, s, e);
    assert r.tasks[t] == s.tasks[t] && r.bridges >= s.bridges && r.writes >= s.writes;
    assert forall n :: n in s.notes ==> n in r.notes;
    hide Next, TakeStep;
  }

  lemma TaskStepped(cfg: Config, s: State, t: nat, outcome: Handshake)
    requires t < |s.tasks| && s.tasks[t] != Ended && TaskOk(cfg, s, s.tasks[t]) && s.bridges > 0
    ensures TaskOk(cfg, TakeStep(cfg, s, t, outcome), TakeStep(cfg, s, t, outcome).tasks[t])
  {
    if s.tasks[t].Telling? {
      var r := TakeStep(cfg, s, t, outcome);
      assert r.notes[|s.notes|] == Reconnected(s.tasks[t].bridge);
    }
  }

  lemma TasksKept(cfg: Config, s: State, e: Event)
    requires Can(s, e) && s.bridges > 0 && forall t :: 0 <= t < |s.tasks| ==> TaskOk(cfg, s, s.tasks[t])
    ensures forall t :: 0 <= t < |Next(cfg, s, e).tasks| ==> TaskOk(cfg, Next(cfg, s, e), Next(cfg, s, e).tasks[t])
  {
    var r := Next(cfg, s, e);
    forall t | 0 <= t < |r.tasks|
      ensures TaskOk(cfg, r, r.tasks[t])
    {
      if e.Step? && e.task == t {
        TaskStepped(cfg, s, t, e.outcome);
      } else if t < |s.tasks| {
        TaskUntouched(cfg, s, e, t);
      }
    }
  }

  lemma WaitersKept(cfg: Config, s: State, e: Event)
    requires Can(s, e) && forall t :: 0 <= t < |s.tasks| ==> TaskOk(cfg, s, s.tasks[t])
    requires forall w :: 0 <= w < |s.waiters| ==> WaiterOk(s, s.waiters[w])
    ensures forall w :: 0 <= w < |Next(cfg, s, e).waiters| ==> WaiterOk(Next(cfg, s, e), Next(cfg, s, e).waiters[w])
  {
    var r := Next(cfg, s, e);
    forall w | 0 <= w < |r.waiters|
      ensures WaiterOk(r, r.waiters[w])
    {
      if w < |s.waiters| && r.waiters[w] == s.waiters[w] {
        WaiterKept(cfg, s, e, s.waiters[w]);
      }
    }
  }

  lemma WaiterKept(cfg: Config, s: State, e: Event, w: Waiter)
    requires Can(s, e) && WaiterOk(s, w)
    ensures WaiterOk(Next(cfg, s, e), w)
  {
    var r := Next(cfg, s, e);
    if w.Parked? && r.writes > w.seen && r.wakes <= w.since {
      if r.writes > s.writes {
        var t := if e == Report then |s.tasks| else e.task;
        assert OwesWake(r.tasks[t]) && r.tasks[t].write > w.seen;
      } else {
        var t :| 0 <= t < |s.tasks| && OwesWake(s.tasks[t]) && s.tasks[t].write > w.seen;
        assert r.tasks[t] == s.tasks[t];
      }
    }
  }

  lemma ReaderKept(cfg: Config, s: State, e: Event, b: nat)
    requires Can(s, e) && HasReader(s, b)
    ensures HasReader(Next(cfg, s, e), b)
  {
    var r := Next(cfg, s, e);
    if b !in s.started {
      var t :| 0 <= t < |s.tasks| && WillStart(s.tasks[t], b);
      assert b in r.started || WillStart(r.tasks[t], b);
    }
  }

  lemma ConnectionKept(cfg: Config, s: State, e: Event)
    requires Can(s, e) && (s.conn.Connected? ==> HasReader(s, s.conn.bridge))
    ensures Next(cfg, s, e).conn.Connected? ==> HasReader(Next(cfg, s, e), Next(cfg, s, e).conn.bridge)
  {
    var r := Next(cfg, s, e);
    if s.conn.Connected? {
      ReaderKept(cfg, s, e, s.conn.bridge);
    }
    if r.conn.Connected? && r.conn != s.conn {
      assert WillStart(r.tasks[e.task], r.conn.bridge);
    }
  }

  lemma NotesKept(cfg: Config, s: State, e: Event)
    requires Can(s, e) && Ordered(s.notes) && forall b :: b in s.started && b != 0 ==> Reconnected(b) in s.notes
    requires forall t :: 0 <= t < |s.tasks| ==> TaskOk(cfg, s, s.tasks[t])
    ensures Ordered(Next(cfg, s, e).notes)
    ensures forall b :: b in Next(cfg, s, e).started && b != 0 ==> Reconnected(b) in Next(cfg, s, e).notes
  {
    var r := Next(cfg, s, e);
    assert forall n :: n in s.notes ==> n in r.notes;
    assert e.Step? ==> TaskOk(cfg, s, s.tasks[e.task]);
    forall i | 0 <= i < |r.notes| && r.notes[i].Heard? && r.notes[i].bridge != 0
      ensures Reconnected(r.notes[i].bridge) in r.notes[..i]
    {
      if i < |s.notes| {
        assert r.notes[..i] == s.notes[..i];
      } else {
        assert r.notes[..i] == s.notes;
      }
    }
  }

  lemma InvKept(cfg: Config, s: State, e: Event)
    requires Inv(cfg, s) && Can(s, e)
    ensures Inv(cfg, Next(cfg, s, e))
  {
    DriverKept(cfg, s, e);
    TasksKept(cfg, s, e);
    WaitersKept(cfg, s, e);
    NotesKept(cfg, s, e);
    ConnectionKept(cfg, s, e);
    var r := Next(cfg, s, e);
    forall w | 0 <= w < |r.waiters| && r.waiters[w].Served?
      ensures HasReader(r, r.waiters[w].bridge)
    {
      ReaderKept(cfg, s, e, r.waiters[w].bridge);
    }
  }

  lemma InvStarts(cfg: Config)
    ensures Inv(cfg, START)
  {
  }

  // ---- Over whole runs ---------------------------------------------------------------------------

  predicate Runs(cfg: Config, s: State, es: seq<Event>)
    decreases |es|
  {
    es == [] || (Can(s, es[0]) && Runs(cfg, Next(cfg, s, es[0]), es[1..]))
  }

  function End(cfg: Config, s: State, es: seq<Event>): State
    requires Runs(cfg, s, es)
    decreases |es|
  {
    if es == [] then s else End(cfg, Next(cfg, s, es[0]), es[1..])
  }

  lemma {:induction false} InvAlways(cfg: Config, s: State, es: seq<Event>)
    requires Inv(cfg, s) && Runs(cfg, s, es)
    ensures Inv(cfg, End(cfg, s, es))
    decreases |es|
  {
    if es != [] {
      InvKept(cfg, s, es[0]);
      hide Inv, Next, Can;
      InvAlways(cfg, Next(cfg, s, es[0]), es[1..]);
    }
  }

  /** `Failed` is never left, and its reason never changes. */
  lemma {:induction false} FailedForEver(cfg: Config, s: State, es: seq<Event>)
    requires Inv(cfg, s) && s.conn.Failed? && Runs(cfg, s, es)
    ensures End(cfg, s, es).conn == s.conn
    decreases |es|
  {
    if es != [] {
      InvKept(cfg, s, es[0]);
      assert Next(cfg, s, es[0]).conn == s.conn by {
        if es[0].Step? { assert !Owes(s.tasks[es[0].task]); }
      }
      hide Inv, Next, Can;
      FailedForEver(cfg, Next(cfg, s, es[0]), es[1..]);
    }
  }

  /** The tasks that are part of a reconnect with its state change to come. */
  ghost function Drivers(s: State): set<nat> {
    set t | 0 <= t < |s.tasks| && Owes(s.tasks[t])
  }

  /** In every run: `Reconnecting` holds exactly when one reconnect has its state change to make, and there are never two. */
  lemma OneDriverAlways(cfg: Config, es: seq<Event>)
    requires Runs(cfg, START, es)
    ensures var s := End(cfg, START, es); |Drivers(s)| == if s.conn == Reconnecting then 1 else 0
  {
    InvStarts(cfg);
    InvAlways(cfg, START, es);
    var s := End(cfg, START, es);
    if s.conn == Reconnecting {
      var t :| 0 <= t < |s.tasks| && Owes(s.tasks[t]);
      assert Drivers(s) == {t};
    } else {
      assert Drivers(s) == {};
    }
  }

  /** A session without a name cannot be resumed, and nobody tries. */
  lemma AnonymousNeverReconnects(cfg: Config, es: seq<Event>)
    requires !cfg.named && Runs(cfg, START, es)
    ensures End(cfg, START, es).conn != Reconnecting
    ensures forall t :: 0 <= t < |End(cfg, START, es).tasks| ==> !Owes(End(cfg, START, es).tasks[t])
  {
    InvStarts(cfg);
    InvAlways(cfg, START, es);
  }

  /**
   No parked waiter misses a state change: if there has been one since it looked, it can wake, or a
   task is about to take the step after which it can.
   */
  lemma NoMissedWake(cfg: Config, es: seq<Event>, w: nat)
    requires Runs(cfg, START, es) && w < |End(cfg, START, es).waiters| && End(cfg, START, es).waiters[w].Parked?
    requires End(cfg, START, es).waiters[w].seen < End(cfg, START, es).writes
    ensures var s := End(cfg, START, es);
      Can(s, Wake(w)) || exists t: nat :: Can(s, Step(t, Refused)) && OwesWake(s.tasks[t]) && Can(Next(cfg, s, Step(t, Refused)), Wake(w))
  {
    InvStarts(cfg);
    InvAlways(cfg, START, es);
    var s := End(cfg, START, es);
    assert WaiterOk(s, s.waiters[w]);
    if !Can(s, Wake(w)) {
      var t: nat :| t < |s.tasks| && OwesWake(s.tasks[t]) && s.tasks[t].write > s.waiters[w].seen;
      assert Can(Next(cfg, s, Step(t, Refused)), Wake(w));
    }
  }

  /** `Reconnected` for a resumed bridge comes before everything read from it. */
  lemma ReconnectedComesFirst(cfg: Config, es: seq<Event>, i: nat)
    requires Runs(cfg, START, es) && i < |End(cfg, START, es).notes|
    requires var n := End(cfg, START, es).notes[i]; n.Heard? && n.bridge != 0
    ensures var notes := End(cfg, START, es).notes; Reconnected(notes[i].bridge) in notes[..i]
  {
    InvStarts(cfg);
    InvAlways(cfg, START, es);
  }

  /** Nobody is handed a bridge that nobody will ever read from. */
  lemma ServedBridgesAreRead(cfg: Config, es: seq<Event>, w: nat)
    requires Runs(cfg, START, es) && w < |End(cfg, START, es).waiters| && End(cfg, START, es).waiters[w].Served?
    ensures HasReader(End(cfg, START, es), End(cfg, START, es).waiters[w].bridge)
  {
    InvStarts(cfg);
    InvAlways(cfg, START, es);
  }

  // ---- A reconnect comes to an end ---------------------------------------------------------------

  /** How many steps a task has left at most. */
  function StepsLeft(cfg: Config, t: Task): nat {
    match t
    case Announcing(_, reconnect) => if reconnect then 2 * cfg.maxAttempts + 7 else 1
    case Spawning => 2 * cfg.maxAttempts + 6
    case Trying(n, _) => if n < cfg.maxAttempts then 2 * (cfg.maxAttempts - n) + 5 else 5
    case Sleeping(n, _) => if n < cfg.maxAttempts then 2 * (cfg.maxAttempts - n) + 4 else 6
    case Installing(_) => 4
    case Losing => 2
    case Installed(_, _) => 3
    case Telling(_) => 2
    case Starting(_) => 1
    case Ended => 0
  }

  /** A task's steps bring it nearer to its end; nobody else's step touches it. */
  lemma TasksOnlyAdvance(cfg: Config, s: State, e: Event, t: nat)
    requires Inv(cfg, s) && Can(s, e) && t < |s.tasks|
    ensures var r := Next(cfg, s, e);
      t < |r.tasks| && (if e.Step? && e.task == t then StepsLeft(cfg, r.tasks[t]) < StepsLeft(cfg, s.tasks[t]) else r.tasks[t] == s.tasks[t])
  {
    assert TaskOk(cfg, s, s.tasks[t]);
  }

  /** What the attempts from number `n` on come to: the first that is not refused decides. */
  function Verdict(cfg: Config, outcomes: nat -> Handshake, n: nat, bridge: nat): Conn
    decreases cfg.maxAttempts - n
  {
    if n >= cfg.maxAttempts then Failed(Disconnected)
    else match outcomes(n)
      case Refused => Verdict(cfg, outcomes, n + 1, bridge)
      case Fresh => Failed(SessionLost)
      case Resumed => Connected(bridge)
  }

  /** Where a reconnect is going to leave the connection. */
  function Outlook(cfg: Config, s: State, t: Task, outcomes: nat -> Handshake): Conn
    requires Owes(t)
  {
    match t
    case Trying(n, _) => Verdict(cfg, outcomes, n, s.bridges)
    case Sleeping(n, _) => Verdict(cfg, outcomes, n + 1, s.bridges)
    case Installing(b) => Connected(b)
    case Losing => Failed(SessionLost)
    case _ => Verdict(cfg, outcomes, 0, s.bridges)
  }

  /**
   A reconnect is never stuck: step by step it settles the connection, in no more attempts than
   configured, as the outcomes of the attempts have it.
   */
  lemma {:induction false} ReconnectEnds(cfg: Config, s: State, t: nat, outcomes: nat -> Handshake) returns (es: seq<Event>)
    requires Inv(cfg, s) && t < |s.tasks| && Owes(s.tasks[t])
    ensures Runs(cfg, s, es) && |es| <= StepsLeft(cfg, s.tasks[t]) && forall i :: 0 <= i < |es| ==> es[i].Step? && es[i].task == t
    ensures End(cfg, s, es).conn == Outlook(cfg, s, s.tasks[t], outcomes)
    ensures var r := End(cfg, s, es); r.conn.Connected? ==> t < |r.tasks| && r.tasks[t] == Installed(r.conn.bridge, r.writes)
    decreases StepsLeft(cfg, s.tasks[t])
  {
    var task := s.tasks[t];
    var e := Step(t, if task.Trying? then outcomes(task.attempt) else Refused);
    var r := Next(cfg, s, e);
    TasksOnlyAdvance(cfg, s, e, t);
    InvKept(cfg, s, e);
    assert TaskOk(cfg, s, task);
    var rest: seq<Event> := [];
    if Owes(r.tasks[t]) {
      assert Outlook(cfg, r, r.tasks[t], outcomes) == Outlook(cfg, s, task, outcomes);
      rest := ReconnectEnds(cfg, r, t, outcomes);
    } else {
      assert r.conn == Outlook(cfg, s, task, outcomes);
    }
    es := [e] + rest;
    assert es[0] == e && es[1..] == rest;
    assert End(cfg, s, es) == End(cfg, r, rest);
  }

  // ---- What a disconnect comes to ----------------------------------------------------------------

  /** The first attempt that is not refused decides; if all the configured ones are, the session is disconnected. */
  lemma {:induction false} VerdictWhen(cfg: Config, outcomes: nat -> Handshake, n: nat, bridge: nat, first: nat)
    requires n <= first && forall k :: n <= k < first ==> outcomes(k) == Refused
    ensures first >= cfg.maxAttempts ==> Verdict(cfg, outcomes, n, bridge) == Failed(Disconnected)
    ensures first < cfg.maxAttempts && outcomes(first) == Resumed ==> Verdict(cfg, outcomes, n, bridge) == Connected(bridge)
    ensures first < cfg.maxAttempts && outcomes(first) == Fresh ==> Verdict(cfg, outcomes, n, bridge) == Failed(SessionLost)
    decreases first - n
  {
    if n < first {
      VerdictWhen(cfg, outcomes, n + 1, bridge, first);
    }
  }

  /** A disconnect reported on a named session is followed by a reconnect, which ends as its attempts have it. */
  lemma NamedReconnects(cfg: Config, s: State, outcomes: nat -> Handshake) returns (es: seq<Event>)
    requires Inv(cfg, s) && cfg.named && s.conn.Connected?
    ensures Runs(cfg, s, es) && es != [] && es[0] == Report && forall i :: 1 <= i < |es| ==> es[i].Step? && es[i].task == |s.tasks|
    ensures End(cfg, s, es).conn == Verdict(cfg, outcomes, 0, s.bridges)
    ensures var r := End(cfg, s, es);
      r.conn.Connected? ==> |s.tasks| < |r.tasks| && r.tasks[|s.tasks|] == Installed(r.conn.bridge, r.writes)
  {
    var r := Next(cfg, s, Report);
    InvKept(cfg, s, Report);
    assert Owes(r.tasks[|s.tasks|]) && r.bridges == s.bridges;
    var rest := ReconnectEnds(cfg, r, |s.tasks|, outcomes);
    es := [Report] + rest;
    assert es[1..] == rest;
    assert Runs(cfg, s, es) && End(cfg, s, es) == End(cfg, r, rest);
  }

  /** An anonymous session is lost at once, and a report about a connection that is already down changes nothing. */
  lemma ReportOtherwise(cfg: Config, s: State)
    ensures !cfg.named && s.conn.Connected? ==> Next(cfg, s, Report).conn == Failed(SessionLost)
    ensures !s.conn.Connected? ==> Next(cfg, s, Report) == s
  {
  }

  ghost predicate NothingLost(s: State) {
    s.conn != Failed(SessionLost) && forall t :: 0 <= t < |s.tasks| ==> s.tasks[t] != Losing
  }

  lemma {:induction false} NothingLostKept(cfg: Config, s: State, es: seq<Event>)
    requires cfg.named && NothingLost(s) && Runs(cfg, s, es)
    requires forall i :: 0 <= i < |es| && es[i].Step? ==> es[i].outcome != Fresh
    ensures NothingLost(End(cfg, s, es))
    decreases |es|
  {
    if es != [] {
      var r := Next(cfg, s, es[0]);
      assert NothingLost(r) by {
        assert es[0].Step? ==> forall t :: 0 <= t < |s.tasks| && t != es[0].task ==> r.tasks[t] == s.tasks[t];
      }
      hide NothingLost, Next, Can;
      NothingLostKept(cfg, r, es[1..]);
    }
  }

  /** A named session is lost only when the daemon says that it is gone. */
  lemma LostOnlyWhenGone(cfg: Config, es: seq<Event>)
    requires cfg.named && Runs(cfg, START, es)
    requires forall i :: 0 <= i < |es| && es[i].Step? ==> es[i].outcome != Fresh
    ensures End(cfg, START, es).conn != Failed(SessionLost)
  {
    NothingLostKept(cfg, START, es);
  }

  lemma {:induction false} RunsConcat(cfg: Config, s: State, es: seq<Event>, fs: seq<Event>)
    requires Runs(cfg, s, es) && Runs(cfg, End(cfg, s, es), fs)
    ensures Runs(cfg, s, es + fs) && End(cfg, s, es + fs) == End(cfg, End(cfg, s, es), fs)
    decreases |es|
  {
    if es == [] {
      assert es + fs == fs;
    } else {
      hide Next, Can;
      RunsConcat(cfg, Next(cfg, s, es[0]), es[1..], fs);
      assert (es + fs)[1..] == es[1..] + fs;
    }
  }

  lemma OneStep(cfg: Config, s: State, e: Event)
    requires Can(s, e)
    ensures Runs(cfg, s, [e]) && End(cfg, s, [e]) == Next(cfg, s, e)
  {
    assert [e][1..] == [];
  }

  /** What has been installed gets announced and read from, in three steps by whoever installed it. */
  lemma InstalledIsRead(cfg: Config, s: State, t: nat) returns (es: seq<Event>)
    requires t < |s.tasks| && s.tasks[t].Installed?
    ensures Runs(cfg, s, es) && |es| == 3 && forall i :: 0 <= i < |es| ==> es[i].Step? && es[i].task == t
    ensures var (r, b) := (End(cfg, s, es), s.tasks[t].bridge);
      b in r.started && Reconnected(b) in r.notes && r.conn == s.conn && Can(r, Hear(b))
  {
    var (b, e) := (s.tasks[t].bridge, Step(t, Refused));
    var s1 := Next(cfg, s, e);
    assert s1.tasks[t] == Telling(b);
    var s2 := Next(cfg, s1, e);
    assert s2.tasks[t] == Starting(b) && s2.notes[|s1.notes|] == Reconnected(b);
    var s3 := Next(cfg, s2, e);
    assert s3.notes == s2.notes && s3.started == s2.started + {b};
    OneStep(cfg, s2, e);
    OneStep(cfg, s1, e);
    OneStep(cfg, s, e);
    hide Next, Can;
    RunsConcat(cfg, s1, [e], [e]);
    RunsConcat(cfg, s, [e], [e] + [e]);
    es := [e] + ([e] + [e]);
  }

  /**
   A named session whose connection is lost, and which some attempt resumes before the attempts run out, ends
   up connected over a new bridge, announced and read from.
   */
  lemma LostConnectionComesBack(cfg: Config, s: State, outcomes: nat -> Handshake, first: nat) returns (es: seq<Event>)
    requires Inv(cfg, s) && cfg.named && s.conn.Connected?
    requires first < cfg.maxAttempts && outcomes(first) == Resumed && forall k :: 0 <= k < first ==> outcomes(k) == Refused
    ensures Runs(cfg, s, es) && es != [] && es[0] == Report
    ensures var r := End(cfg, s, es); r.conn == Connected(s.bridges) && s.bridges in r.started && Reconnected(s.bridges) in r.notes
  {
    var down := NamedReconnects(cfg, s, outcomes);
    VerdictWhen(cfg, outcomes, 0, s.bridges, first);
    var up := InstalledIsRead(cfg, End(cfg, s, down), |s.tasks|);
    RunsConcat(cfg, s, down, up);
    es := down + up;
  }

  // ---- What those who wait are told --------------------------------------------------------------

  /** A look at the connection: handed its bridge, turned away for the reason it failed, or parked while it is down. */
  lemma LookTells(cfg: Config, s: State, w: nat)
    requires Can(s, Look(w))
    ensures var waiter := Next(cfg, s, Look(w)).waiters[w];
      && (waiter.Served? <==> s.conn.Connected?) && (waiter.Served? ==> s.conn == Connected(waiter.bridge))
      && (waiter.Turned? <==> s.conn.Failed?) && (waiter.Turned? ==> s.conn == Failed(waiter.reason))
      && (waiter.Parked? <==> s.conn == Reconnecting) && (waiter.Parked? ==> waiter == Parked(s.waiters[w].since, s.writes))
  {
  }

  /** Somebody who comes can look at once; who has waited too long is told that the session is disconnected. */
  lemma ComeAndGo(cfg: Config, s: State, w: nat)
    ensures Can(s, Arrive) && Can(Next(cfg, s, Arrive), Look(|s.waiters|))
    ensures w < |s.waiters| && s.waiters[w].Parked? ==> Can(s, Expire(w)) && Next(cfg, s, Expire(w)).waiters[w] == Turned(Disconnected)
  {
  }

  /** Steps of tasks leave waiters alone, and the state changes only as it is counted. */
  lemma {:induction false} StepsLeaveWaiters(cfg: Config, s: State, es: seq<Event>)
    requires Runs(cfg, s, es) && forall i :: 0 <= i < |es| ==> es[i].Step?
    ensures End(cfg, s, es).waiters == s.waiters && End(cfg, s, es).writes >= s.writes
    ensures End(cfg, s, es).conn != s.conn ==> End(cfg, s, es).writes > s.writes
    decreases |es|
  {
    if es != [] {
      var r := Next(cfg, s, es[0]);
      assert r.waiters == s.waiters && r.writes >= s.writes && (r.conn != s.conn ==> r.writes > s.writes);
      hide Next, Can;
      StepsLeaveWaiters(cfg, r, es[1..]);
    }
  }

  /** After a state change, a parked waiter can be woken and look again, within three steps that change nothing else. */
  lemma WaiterLooksAgain(cfg: Config, s: State, w: nat) returns (es: seq<Event>)
    requires Inv(cfg, s) && w < |s.waiters| && s.waiters[w].Parked? && s.waiters[w].seen < s.writes && s.conn != Reconnecting
    ensures Runs(cfg, s, es) && |es| <= 3
    ensures var r := End(cfg, s, es);
      && r.conn == s.conn && w < |r.waiters|
      && (s.conn.Connected? ==> r.waiters[w] == Served(s.conn.bridge)) && (s.conn.Failed? ==> r.waiters[w] == Turned(s.conn.reason))
  {
    var first: seq<Event>, s1 := [], s;
    assert WaiterOk(s, s.waiters[w]);
    if !Can(s, Wake(w)) {
      var t: nat :| t < |s.tasks| && OwesWake(s.tasks[t]) && s.tasks[t].write > s.waiters[w].seen;
      first, s1 := [Step(t, Refused)], Next(cfg, s, Step(t, Refused));
      OneStep(cfg, s, Step(t, Refused));
    }
    assert Can(s1, Wake(w)) && s1.conn == s.conn && s1.waiters == s.waiters;
    var s2 := Next(cfg, s1, Wake(w));
    assert Can(s2, Look(w)) && s2.conn == s.conn;
    LookTells(cfg, s2, w);
    OneStep(cfg, s1, Wake(w));
    OneStep(cfg, s2, Look(w));
    assert Next(cfg, s2, Look(w)).conn == s.conn && |Next(cfg, s2, Look(w)).waiters| == |s.waiters|;
    hide Next, Can, Inv;
    RunsConcat(cfg, s1, [Wake(w)], [Look(w)]);
    RunsConcat(cfg, s, first, [Wake(w)] + [Look(w)]);
    es := first + ([Wake(w)] + [Look(w)]);
  }

  /**
   Whoever waits for a reconnect is answered as it ends: handed the bridge it resumed on, or turned away for
   the reason it failed.
   */
  lemma WaiterIsAnswered(cfg: Config, s: State, w: nat, t: nat, outcomes: nat -> Handshake) returns (es: seq<Event>)
    requires Inv(cfg, s) && w < |s.waiters| && s.waiters[w].Parked? && t < |s.tasks| && Owes(s.tasks[t])
    ensures Runs(cfg, s, es)
    ensures var (r, end) := (End(cfg, s, es), Outlook(cfg, s, s.tasks[t], outcomes));
      && r.conn == end && w < |r.waiters|
      && (end.Connected? ==> r.waiters[w] == Served(end.bridge)) && (end.Failed? ==> r.waiters[w] == Turned(end.reason))
  {
    var change := ReconnectEnds(cfg, s, t, outcomes);
    var r := End(cfg, s, change);
    assert s.conn == Reconnecting && WaiterOk(s, s.waiters[w]);
    OutlookSettled(cfg, s, s.tasks[t], outcomes);
    StepsLeaveWaiters(cfg, s, change);
    InvAlways(cfg, s, change);
    hide Inv, Outlook, Runs, WaiterOk;
    var look := WaiterLooksAgain(cfg, r, w);
    RunsConcat(cfg, s, change, look);
    es := change + look;
  }

  lemma {:induction false} VerdictSettled(cfg: Config, outcomes: nat -> Handshake, n: nat, bridge: nat)
    ensures Verdict(cfg, outcomes, n, bridge) != Reconnecting
    decreases cfg.maxAttempts - n
  {
    if n < cfg.maxAttempts {
      VerdictSettled(cfg, outcomes, n + 1, bridge);
    }
  }

  lemma OutlookSettled(cfg: Config, s: State, t: Task, outcomes: nat -> Handshake)
    requires Owes(t)
    ensures Outlook(cfg, s, t, outcomes) != Reconnecting
  {
    VerdictSettled(cfg, outcomes, if t.Trying? then t.attempt else if t.Sleeping? then t.attempt + 1 else 0, s.bridges);
  }
}
