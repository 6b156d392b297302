/**
 One connection to the daemon: any number of callers, and the one reader that routes replies.

 The bridge is a state machine over its atomic steps. Callers and reader take turns in any order;
 a caller may be dropped at any await, a write may fail, the daemon may send frames with any id,
 and the connection may end at any time.
 */
module Bridge {
  import opened Text

  /** The calls awaiting a reply, by id, and whether the connection is gone: one lock for both. */
  datatype Table = Table(calls: set<nat>, closed: bool)

  function Registered(t: Table, id: nat): (bool, Table) {
    if t.closed then (false, t) else (true, t.(calls := t.calls + {id}))
  }

  function Taken(t: Table, id: nat): (bool, Table) {
    (id in t.calls, t.(calls := t.calls - {id}))
  }

  function Shut(t: Table): Table {
    Table({}, true)
  }

  /** The table as it is kept: what each holder of the lock does to it. */
  class Pending {
    var calls: set<nat>
    var closed: bool

    ghost function Now(): Table
      reads this
    {
      Table(calls, closed)
    }

    constructor ()
      ensures Now() == Table({}, false)
    {
      calls, closed := {}, false;
    }

    method Register(id: nat) returns (ok: bool)
      modifies this
      ensures (ok, Now()) == Registered(old(Now()), id)
    {
      ok := !closed;
      if ok {
        calls := calls + {id};
      }
    }

    method Take(id: nat) returns (found: bool)
      modifies this
      ensures (found, Now()) == Taken(old(Now()), id)
    {
      found := id in calls;
      calls := calls - {id};
    }

    method Close()
      modifies this
      ensures Now() == Shut(old(Now()))
    {
      closed := true;
      calls := {};
    }
  }

  /** A reply off the wire: whose it claims to be, and whether it reports an error. */
  datatype Frame = Frame(id: nat, isError: bool)

  /** What a call returns. `serial` numbers the frame the answer came in. */
  datatype Outcome = Ok(serial: nat) | Rpc(serial: nat) | Closed | Transport

  datatype Phase =
    | Numbered                       // has its id
    | Listed                         // in the table; its request not yet written
    | Waiting                        // request written, awaiting the reply
    | Returned(outcome: Outcome)
    | Dropped                        // the caller went away

  /** The sending end of a call's reply channel. */
  datatype Sender =
    | Unborn                         // never put in the table
    | InTable
    | InHand(serial: nat)              // taken out by the reader, the frame not yet sent
    | Sent(serial: nat)
    | Gone                           // dropped without sending

  /** `since` is how many frames had been read when the call entered the table. */
  datatype Call = Call(phase: Phase, sender: Sender, since: nat)

  datatype Reader = NotStarted | Reading | Delivering(call: nat, serial: nat) | Stopping | Announcing | Stopped

  /** Ids are handed out from 1, so the call numbered `c` has id `c + 1`. */
  datatype State = State(calls: seq<Call>, table: Table, reader: Reader, frames: seq<Frame>)

  function Id(c: nat): nat { c + 1 }

  const START := State([], Table({}, false), NotStarted, [])

  datatype Event =
    | Begin                          // fetch_add on the id counter
    | Register(call: nat)
    | Write(call: nat, ok: bool)
    | Receive(call: nat)
    | Abandon(call: nat)
    | StartReader
    | Read(frame: Frame)
    | Send
    | Break                          // end of stream, or a read error
    | Close
    | Announce                       // wakes the disconnect watcher

  predicate InProgress(p: Phase) {
    p.Numbered? || p.Listed? || p.Waiting?
  }

  predicate Can(s: State, e: Event) {
    match e
    case Begin => true
    case Register(c) => c < |s.calls| && s.calls[c].phase == Numbered
    case Write(c, _) => c < |s.calls| && s.calls[c].phase == Listed
    case Receive(c) => c < |s.calls| && s.calls[c].phase == Waiting && (s.calls[c].sender.Sent? || s.calls[c].sender == Gone)
    case Abandon(c) => c < |s.calls| && InProgress(s.calls[c].phase)
    case StartReader => s.reader == NotStarted
    case Read(_) => s.reader == Reading
    case Send => s.reader.Delivering? && s.reader.call < |s.calls|
    case Break => s.reader == Reading
    case Close => s.reader == Stopping
    case Announce => s.reader == Announcing
  }

  function Became(s: State, c: nat, call: Call): State
    requires c < |s.calls|
  {
    s.(calls := s.calls[c := call])
  }

  function Answer(s: State, sender: Sender): Outcome {
    if sender.Sent? && sender.serial < |s.frames| then
      if s.frames[sender.serial].isError then Rpc(sender.serial) else Ok(sender.serial)
    else Closed
  }

  /** Dropping a sender wakes its receiver with an error. */
  function DropSender(call: Call): Call {
    if call.sender == InTable then call.(sender := Gone) else call
  }

  function Next(s: State, e: Event): State
    requires Can(s, e)
  {
    match e
    case Begin => s.(calls := s.calls + [Call(Numbered, Unborn, 0)])
    case Register(c) =>
      var (ok, table) := Registered(s.table, Id(c));
      if ok then Became(s, c, Call(Listed, InTable, |s.frames|)).(table := table)
      else Became(s, c, s.calls[c].(phase := Returned(Closed)))
    case Write(c, ok) =>
      // On failure the call returns at once; its sender stays in the table.
      Became(s, c, s.calls[c].(phase := if ok then Waiting else Returned(Transport)))
    case Receive(c) => Became(s, c, s.calls[c].(phase := Returned(Answer(s, s.calls[c].sender))))
    case Abandon(c) => Became(s, c, s.calls[c].(phase := Phase.Dropped))
    case StartReader => s.(reader := Reading)
    case Read(frame) =>
      var t := s.(frames := s.frames + [frame]);
      var (found, table) := Taken(s.table, frame.id);
      if found && 1 <= frame.id <= |s.calls| then
        var c := frame.id - 1;
        Became(t, c, s.calls[c].(sender := InHand(|s.frames|))).(table := table, reader := Delivering(c, |s.frames|))
      else t
    case Send => Became(s, s.reader.call, s.calls[s.reader.call].(sender := Sent(s.reader.serial))).(reader := Reading)
    case Break => s.(reader := Stopping)
    case Close =>
      s.(calls := seq(|s.calls|, c requires 0 <= c < |s.calls| => DropSender(s.calls[c])), table := Shut(s.table), reader := Announcing)
    case Announce => s.(reader := Stopped)
  }

  // ---- What every run keeps ----------------------------------------------------------------------

  predicate ReaderDone(r: Reader) {
    r == Announcing || r == Stopped
  }

  /** None of the frames read from number `from` up to `to` was for call `c`. */
  ghost predicate Unanswered(s: State, c: nat, from: nat, to: nat) {
    forall k :: from <= k < to && k < |s.frames| ==> s.frames[k].id != Id(c)
  }

  /** Frame `k` is the first one for `c` since it entered the table. */
  ghost predicate FirstReply(s: State, c: nat, k: nat)
    requires c < |s.calls|
  {
    s.calls[c].since <= k < |s.frames| && s.frames[k].id == Id(c) && Unanswered(s, c, s.calls[c].since, k)
  }

  ghost predicate SenderOk(s: State, c: nat)
    requires c < |s.calls|
  {
    var call := s.calls[c];
    && call.since <= |s.frames|
    && (call.sender == InTable <==> Id(c) in s.table.calls)
    && (call.sender == InTable ==> Unanswered(s, c, call.since, |s.frames|))
    && (call.sender.InHand? ==> s.reader == Delivering(c, call.sender.serial) && FirstReply(s, c, call.sender.serial))
    && (call.sender.Sent? ==> FirstReply(s, c, call.sender.serial))
    && (call.sender == Gone ==> s.table.closed)
  }

  ghost predicate PhaseOk(s: State, c: nat)
    requires c < |s.calls|
  {
    var call := s.calls[c];
    && (call.phase == Numbered ==> call.sender == Unborn)
    && (call.phase == Listed || call.phase == Waiting ==> call.sender != Unborn)
    && (call.phase.Returned? ==>
          match call.phase.outcome
          case Ok(k) => call.sender == Sent(k) && k < |s.frames| && !s.frames[k].isError
          case Rpc(k) => call.sender == Sent(k) && k < |s.frames| && s.frames[k].isError
          case Closed => s.table.closed
          case Transport => call.sender != Unborn)
  }

  ghost predicate Inv(s: State) {
    && (forall c :: 0 <= c < |s.calls| ==> SenderOk(s, c) && PhaseOk(s, c))
    && (forall id :: id in s.table.calls ==> 1 <= id <= |s.calls|)
    && (s.table.closed <==> ReaderDone(s.reader))
    && (s.table.closed ==> s.table.calls == {})
    && (s.reader.Delivering? ==> s.reader.call < |s.calls| && s.calls[s.reader.call].sender == InHand(s.reader.serial))
  }

  /** A step leaves alone the calls it is not about, and reads frames for nobody else. */
  lemma CallKept(s: State, t: State, c: nat)
    requires c < |s.calls| && c < |t.calls| && SenderOk(s, c) && PhaseOk(s, c) && t.calls[c] == s.calls[c]
    requires Id(c) in t.table.calls <==> Id(c) in s.table.calls
    requires s.table.closed ==> t.table.closed
    requires t.frames == s.frames || exists f: Frame :: t.frames == s.frames + [f] && (f.id == Id(c) ==> s.calls[c].sender != InTable)
    requires s.calls[c].sender.InHand? ==> t.reader == s.reader
    ensures SenderOk(t, c) && PhaseOk(t, c)
  {
  }

  predicate ByCaller(e: Event) {
    e.Begin? || e.Register? || e.Write? || e.Receive? || e.Abandon?
  }

  lemma CallerKeeps(s: State, e: Event)
    requires Inv(s) && Can(s, e) && ByCaller(e)
    ensures Inv(Next(s, e))
  {
    var t := Next(s, e);
    if s.reader.Delivering? {
      assert SenderOk(s, s.reader.call) && PhaseOk(s, s.reader.call);
    }
    forall c | 0 <= c < |t.calls|
      ensures SenderOk(t, c) && PhaseOk(t, c)
    {
      if c < |s.calls| {
        assert SenderOk(s, c) && PhaseOk(s, c);
        if t.calls[c] == s.calls[c] {
          CallKept(s, t, c);
        }
      }
    }
  }

  lemma ReaderKeeps(s: State, e: Event)
    requires Inv(s) && Can(s, e) && !ByCaller(e)
    ensures Inv(Next(s, e))
  {
    var t := Next(s, e);
    if s.reader.Delivering? {
      assert SenderOk(s, s.reader.call) && PhaseOk(s, s.reader.call);
    }
    forall c | 0 <= c < |t.calls|
      ensures SenderOk(t, c) && PhaseOk(t, c)
    {
      if c < |s.calls| {
        assert SenderOk(s, c) && PhaseOk(s, c);
        if t.calls[c] == s.calls[c] {
          CallKept(s, t, c);
        }
      }
    }
  }

  /** Every step keeps the invariant. */
  lemma InvKept(s: State, e: Event)
    requires Inv(s) && Can(s, e)
    ensures Inv(Next(s, e))
  {
    hide Inv, Can, Next;
    if ByCaller(e) { CallerKeeps(s, e); } else { ReaderKeeps(s, e); }
  }

  // ---- Over whole runs ---------------------------------------------------------------------------

  predicate Runs(s: State, es: seq<Event>)
    decreases |es|
  {
    es == [] || (Can(s, es[0]) && Runs(Next(s, es[0]), es[1..]))
  }

  function End(s: State, es: seq<Event>): State
    requires Runs(s, es)
    decreases |es|
  {
    if es == [] then s else End(Next(s, es[0]), es[1..])
  }

  lemma {:induction false} InvAlways(s: State, es: seq<Event>)
    requires Inv(s) && Runs(s, es)
    ensures Inv(End(s, es))
    decreases |es|
  {
    if es != [] {
      InvKept(s, es[0]);
      hide Inv, Next, Can;
      InvAlways(Next(s, es[0]), es[1..]);
    }
  }

  /** Closed means no pending calls, for ever after. */
  lemma {:induction false} ClosedForEver(s: State, es: seq<Event>)
    requires Inv(s) && s.table.closed && Runs(s, es)
    ensures End(s, es).table == Table({}, true)
    decreases |es|
  {
    if es != [] {
      InvKept(s, es[0]);
      assert Next(s, es[0]).table.closed;
      hide Inv, Next, Can;
      ClosedForEver(Next(s, es[0]), es[1..]);
    }
  }

  /** What a call has returned is never changed, nor is a reply that was sent to it lost. */
  lemma {:induction false} AnswersAreFinal(s: State, es: seq<Event>, c: nat)
    requires Inv(s) && Runs(s, es) && c < |s.calls|
    ensures c < |End(s, es).calls|
    ensures s.calls[c].phase.Returned? ==> End(s, es).calls[c].phase == s.calls[c].phase
    ensures s.calls[c].sender.Sent? ==> End(s, es).calls[c].sender == s.calls[c].sender
    decreases |es|
  {
    if es != [] {
      InvKept(s, es[0]);
      assert SenderOk(s, c) && PhaseOk(s, c);
      var t := Next(s, es[0]);
      assert c < |t.calls|;
      assert s.calls[c].phase.Returned? ==> t.calls[c].phase == s.calls[c].phase;
      assert s.calls[c].sender.Sent? ==> t.calls[c].sender == s.calls[c].sender;
      hide Inv, Next, Can, SenderOk, PhaseOk;
      AnswersAreFinal(t, es[1..], c);
    }
  }

  /**
   A caller gets an answer only from a frame with its own id — the first one read since it entered
   the table — and no frame answers two callers.
   */
  lemma OnlyOwnReplies(es: seq<Event>, c: nat, k: nat)
    requires Runs(START, es) && c < |End(START, es).calls|
    requires End(START, es).calls[c].phase in {Returned(Ok(k)), Returned(Rpc(k))}
    ensures var s := End(START, es);
      && FirstReply(s, c, k) && (s.calls[c].phase == Returned(Rpc(k)) <==> s.frames[k].isError)
      && forall d :: 0 <= d < |s.calls| && d != c ==> s.calls[d].phase !in {Returned(Ok(k)), Returned(Rpc(k))}
  {
    InvAlways(START, es);
    var s := End(START, es);
    assert SenderOk(s, c) && PhaseOk(s, c);
    forall d | 0 <= d < |s.calls| && d != c
      ensures s.calls[d].phase !in {Returned(Ok(k)), Returned(Rpc(k))}
    {
      assert SenderOk(s, d) && PhaseOk(s, d);
    }
  }

  /**
   A caller awaiting its reply is in the table with nothing for it read yet, or the reader has its
   reply in hand, or it can return at once. It is never forgotten.
   */
  lemma AwaitingIsAccountedFor(es: seq<Event>, c: nat)
    requires Runs(START, es) && c < |End(START, es).calls| && End(START, es).calls[c].phase == Waiting
    ensures var s := End(START, es);
      || (Id(c) in s.table.calls && !s.table.closed && Unanswered(s, c, s.calls[c].since, |s.frames|))
      || (s.reader.Delivering? && s.reader.call == c)
      || Can(s, Receive(c))
  {
    InvAlways(START, es);
    assert SenderOk(End(START, es), c) && PhaseOk(End(START, es), c);
  }

  /** While the connection lives, a listed call has been answered exactly when a frame for it has come. */
  lemma AnsweredExactlyWhenRead(es: seq<Event>, c: nat)
    requires Runs(START, es) && c < |End(START, es).calls|
    requires var s := End(START, es); s.reader == Reading && s.calls[c].sender != Unborn
    ensures var s := End(START, es);
      s.calls[c].sender.Sent? <==> exists k :: s.calls[c].since <= k < |s.frames| && s.frames[k].id == Id(c)
  {
    InvAlways(START, es);
    assert SenderOk(End(START, es), c);
  }

  // ---- Nobody hangs once the reader has stopped --------------------------------------------------

  predicate Own(e: Event, c: nat) {
    match e
    case Register(d) => d == c
    case Write(d, _) => d == c
    case Receive(d) => d == c
    case Abandon(d) => d == c
    case _ => false
  }

  /** How many steps of its own a call has left at most. */
  function Remaining(s: State, c: nat): nat {
    if c >= |s.calls| then 4
    else match s.calls[c].phase
      case Numbered => 3
      case Listed => 2
      case Waiting => 1
      case Returned(_) => 0
      case Dropped => 0
  }

  /** A call's own steps bring it nearer to its end, and nobody else's take it further away. */
  lemma StepsOnlyAdvance(s: State, e: Event, c: nat)
    requires Can(s, e) && c < |s.calls|
    ensures c < |Next(s, e).calls|
    ensures Remaining(Next(s, e), c) <= Remaining(s, c)
    ensures Own(e, c) ==> Remaining(Next(s, e), c) < Remaining(s, c)
  {
  }

  /** The next thing a call does, left to itself. */
  function OwnStep(s: State, c: nat): Event
    requires c < |s.calls| && InProgress(s.calls[c].phase)
  {
    match s.calls[c].phase
    case Numbered => Register(c)
    case Listed => Write(c, true)
    case _ => Receive(c)
  }

  /** Once the connection is closed, nothing a caller waits for is still to come: each can go on at once. */
  lemma NobodyBlocks(s: State, c: nat)
    requires Inv(s) && s.table.closed && c < |s.calls| && InProgress(s.calls[c].phase)
    ensures Can(s, OwnStep(s, c)) && Own(OwnStep(s, c), c)
  {
    assert SenderOk(s, c) && PhaseOk(s, c);
  }

  /** What a call with this sender returns: the reply it was sent, as error or result, and otherwise that the connection closed. */
  ghost predicate AnsweredBy(s: State, sender: Sender, outcome: Outcome) {
    match sender
    case Sent(k) => k < |s.frames| && outcome == if s.frames[k].isError then Rpc(k) else Ok(k)
    case _ => outcome == Closed
  }

  /** In any reachable state, open or closed: receiving gives the reply that was sent, or that there will be none. */
  lemma ReceiveTells(es: seq<Event>, c: nat)
    requires Runs(START, es) && Can(End(START, es), Receive(c))
    ensures var s := End(START, es);
      && Next(s, Receive(c)).calls[c].phase.Returned?
      && AnsweredBy(s, s.calls[c].sender, Next(s, Receive(c)).calls[c].phase.outcome)
      && (s.calls[c].sender.Sent? || s.table.closed)
  {
    InvAlways(START, es);
    assert SenderOk(End(START, es), c);
  }

  /** Left to itself, every call in progress on a closed connection returns. */
  lemma {:induction false} EveryCallReturns(s: State, c: nat) returns (es: seq<Event>)
    requires Inv(s) && s.table.closed && c < |s.calls| && InProgress(s.calls[c].phase)
    ensures Runs(s, es) && |es| <= Remaining(s, c) && forall i :: 0 <= i < |es| ==> Own(es[i], c)
    ensures c < |End(s, es).calls| && End(s, es).calls[c].phase.Returned?
    // A reply sent in time is returned, whatever has happened to the connection since.
    ensures AnsweredBy(s, s.calls[c].sender, End(s, es).calls[c].phase.outcome)
    decreases Remaining(s, c)
  {
    NobodyBlocks(s, c);
    var e := OwnStep(s, c);
    var t := Next(s, e);
    InvKept(s, e);
    StepsOnlyAdvance(s, e, c);
    assert SenderOk(s, c) && PhaseOk(s, c);
    var rest: seq<Event> := [];
    if InProgress(t.calls[c].phase) {
      assert t.calls[c].sender == s.calls[c].sender && t.frames == s.frames;
      rest := EveryCallReturns(t, c);
    }
    es := [e] + rest;
    assert es[0] == e && es[1..] == rest;
    assert End(s, es) == End(t, rest);
  }

  // ---- A call that is answered -------------------------------------------------------------------

  lemma {:induction false} RunsConcat(s: State, es: seq<Event>, fs: seq<Event>)
    requires Runs(s, es) && Runs(End(s, es), fs)
    ensures Runs(s, es + fs) && End(s, es + fs) == End(End(s, es), fs)
    decreases |es|
  {
    if es == [] {
      assert es + fs == fs;
    } else {
      hide Next, Can;
      RunsConcat(Next(s, es[0]), es[1..], fs);
      assert (es + fs)[1..] == es[1..] + fs;
    }
  }

  lemma TwoSteps(s: State, e: Event, f: Event)
    requires Can(s, e) && Can(Next(s, e), f)
    ensures Runs(s, [e, f]) && End(s, [e, f]) == Next(Next(s, e), f)
  {
    assert [e, f][1..] == [f] && [f][1..] == [];
    var t := Next(s, e);
    hide Next, Can;
    assert Runs(t, [f]) && End(t, [f]) == Next(t, f);
  }

  /** A new call on a living connection comes to wait for its reply. */
  lemma CallGoesOut(s: State) returns (es: seq<Event>)
    requires Inv(s) && s.reader == Reading
    ensures Runs(s, es) && var r := End(s, es);
      && |r.calls| == |s.calls| + 1 && r.calls[|s.calls|] == Call(Waiting, InTable, |s.frames|)
      && r.reader == Reading && r.frames == s.frames && Inv(r)
  {
    var c := |s.calls|;
    var s1 := Next(s, Begin);
    InvKept(s, Begin);
    var s2 := Next(s1, Register(c));
    InvKept(s1, Register(c));
    var s3 := Next(s2, Write(c, true));
    InvKept(s2, Write(c, true));
    TwoSteps(s1, Register(c), Write(c, true));
    es := [Begin] + [Register(c), Write(c, true)];
    assert es[1..] == [Register(c), Write(c, true)];
  }

  /** A frame for a waiting call on a living connection reaches it: reader and call need one more step each. */
  lemma ReplyComesBack(s: State, c: nat, isError: bool) returns (es: seq<Event>)
    requires Inv(s) && s.reader == Reading && c < |s.calls| && s.calls[c].phase == Waiting && s.calls[c].sender == InTable
    ensures Runs(s, es) && var r := End(s, es);
      && c < |r.calls| && r.reader == Reading && r.frames == s.frames + [Frame(Id(c), isError)]
      && r.calls[c].phase == Returned(if isError then Rpc(|s.frames|) else Ok(|s.frames|))
  {
    assert SenderOk(s, c);
    var frame := Frame(Id(c), isError);
    var s1 := Next(s, Read(frame));
    assert s1.reader == Delivering(c, |s.frames|) && s1.frames[|s.frames|] == frame;
    var s2 := Next(s1, Send);
    assert s2.calls[c].sender == Sent(|s.frames|) && s2.calls[c].phase == Waiting;
    TwoSteps(s1, Send, Receive(c));
    es := [Read(frame)] + [Send, Receive(c)];
    assert es[1..] == [Send, Receive(c)];
  }

  /** From any reachable state with a reader, a call can go out and come back with the reply the daemon sends it. */
  lemma CallSucceeds(s: State, isError: bool) returns (es: seq<Event>)
    requires Inv(s) && s.reader == Reading
    ensures Runs(s, es) && var r := End(s, es);
      |s.calls| < |r.calls| && r.calls[|s.calls|].phase == Returned(if isError then Rpc(|s.frames|) else Ok(|s.frames|))
  {
    var out := CallGoesOut(s);
    var back := ReplyComesBack(End(s, out), |s.calls|, isError);
    RunsConcat(s, out, back);
    es := out + back;
  }

  /** A call that never gets its request written returns a transport error; one that comes too late is told so at once. */
  lemma CallFails(s: State, c: nat)
    ensures Can(s, Write(c, false)) ==> Next(s, Write(c, false)).calls[c].phase == Returned(Transport)
    ensures Can(s, Register(c)) && s.table.closed ==> Next(s, Register(c)).calls[c].phase == Returned(Closed)
  {
  }

  /** How many steps the reader is from its end, if nothing more is read. */
  function ReaderLeft(r: Reader): nat {
    match r
    case NotStarted => 4
    case Delivering(_, _) => 4
    case Reading => 3
    case Stopping => 2
    case Announcing => 1
    case Stopped => 0
  }

  /** The reader can start, and whatever it is doing, it can come to its end and wake the watcher. */
  lemma ReaderStops(s: State) returns (es: seq<Event>)
    requires Inv(s)
    ensures Runs(s, es) && End(s, es).reader == Stopped && |es| == ReaderLeft(s.reader)
    decreases ReaderLeft(s.reader)
  {
    if s.reader == Stopped {
      es := [];
    } else {
      var e := match s.reader
        case NotStarted => StartReader
        case Delivering(_, _) => Send
        case Reading => Break
        case Stopping => Close
        case _ => Announce;
      InvKept(s, e);
      var rest := ReaderStops(Next(s, e));
      es := [e] + rest;
      assert es[1..] == rest;
    }
  }
}
