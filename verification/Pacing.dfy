/** Pacing an accept loop that retries by itself: after a repeated failure the next accept waits. */
module Pacing {
  import opened Text

  const MAX_U32: nat := 0xFFFF_FFFF

  /** What the listener yields. A peer's error belongs to one connection; a listener's repeats. */
  datatype Item = Accepted | PeerError | ListenerError | Finished

  datatype Pacer = Pacer(failuresInARow: nat, pausing: bool)

  /** One poll: whether a pause now over, and what the listener would yield (`None`: nothing yet). */
  datatype Poll = Poll(pauseOver: bool, offered: Option<Item>)

  /** Whether the poll gets as far as the listener. */
  predicate Reaches(p: Pacer, poll: Poll) {
    !p.pausing || poll.pauseOver
  }

  function Answer(p: Pacer, poll: Poll): Option<Item> {
    if Reaches(p, poll) then poll.offered else None
  }

  function AfterPoll(p: Pacer, poll: Poll): Pacer {
    if !Reaches(p, poll) then p
    else
      match poll.offered
      case None => p.(pausing := false)
      case Some(Accepted) => Pacer(0, false)
      case Some(ListenerError) =>
        var n := if p.failuresInARow < MAX_U32 then p.failuresInARow + 1 else MAX_U32;
        Pacer(n, n > 1)
      case _ => p.(pausing := false)
  }

  class PacedAccepts {
    var failuresInARow: nat
    var pausing: bool

    ghost function Now(): Pacer
      reads this
    {
      Pacer(failuresInARow, pausing)
    }

    constructor ()
      ensures Now() == Pacer(0, false)
    {
      failuresInARow, pausing := 0, false;
    }

    method PollNext(poll: Poll) returns (item: Option<Item>)
      modifies this
      ensures item == Answer(old(Now()), poll) && Now() == AfterPoll(old(Now()), poll)
      // While a pause is under way nothing happens; otherwise the caller gets what the listener offers.
      ensures old(pausing) && !poll.pauseOver ==> item.None? && pausing && failuresInARow == old(failuresInARow)
      ensures !old(pausing) || poll.pauseOver ==>
                && item == poll.offered && (pausing <==> item == Some(ListenerError) && old(failuresInARow) > 0)
                && (item == Some(Accepted) ==> failuresInARow == 0)
                && (item == Some(ListenerError) ==> failuresInARow == old(failuresInARow) + 1 || failuresInARow == MAX_U32)
                && (item !in {Some(Accepted), Some(ListenerError)} ==> failuresInARow == old(failuresInARow))
    {
      if pausing {
        if !poll.pauseOver {
          return None;
        }
        pausing := false;
      }
      item := poll.offered;
      if item == Some(Accepted) {
        failuresInARow := 0;
      } else if item == Some(ListenerError) {
        failuresInARow := if failuresInARow < MAX_U32 then failuresInARow + 1 else MAX_U32;
        if failuresInARow > 1 {
          pausing := true;
        }
      }
    }
  }

  function At(p: Pacer, polls: seq<Poll>, n: nat): Pacer
    requires n <= |polls|
  {
    if n == 0 then p else AfterPoll(At(p, polls, n - 1), polls[n - 1])
  }

  /** A pause begun lasts until a poll finds it over; only from then on is the listener asked again. */
  lemma {:induction false} PauseEnds(p: Pacer, polls: seq<Poll>, i: nat, j: nat) returns (k: nat)
    requires i <= j < |polls| && At(p, polls, i).pausing && Reaches(At(p, polls, j), polls[j])
    ensures i <= k <= j && polls[k].pauseOver
    decreases j - i
  {
    if polls[i].pauseOver {
      k := i;
    } else {
      assert At(p, polls, i + 1) == At(p, polls, i);
      k := PauseEnds(p, polls, i + 1, j);
    }
  }

  /**
   The listener cannot be made to spin: after a failure of its own that is not the first in its row,
   it is asked again only once a pause is over.
   */
  lemma RepeatedFailuresWait(p: Pacer, polls: seq<Poll>, i: nat, j: nat) returns (k: nat)
    requires i < j < |polls| && At(p, polls, i).failuresInARow > 0
    requires Answer(At(p, polls, i), polls[i]) == Some(ListenerError) && Reaches(At(p, polls, j), polls[j])
    ensures i < k <= j && polls[k].pauseOver
  {
    assert At(p, polls, i + 1) == AfterPoll(At(p, polls, i), polls[i]);
    k := PauseEnds(p, polls, i + 1, j);
  }

  const START := Pacer(0, false)

  /** How many of the listener's own failures the caller has been given since the last connection. */
  function Streak(polls: seq<Poll>, n: nat): nat
    requires n <= |polls|
  {
    if n == 0 then 0
    else match Answer(At(START, polls, n - 1), polls[n - 1])
      case Some(Accepted) => 0
      case Some(ListenerError) => Streak(polls, n - 1) + 1
      case _ => Streak(polls, n - 1)
  }

  /** The count kept is the length of the row of failures, as far as 32 bits go, and a pause means that there were two. */
  lemma {:induction false} RowCounted(polls: seq<Poll>, n: nat)
    requires n <= |polls|
    ensures var p := At(START, polls, n);
      && p.failuresInARow == (if Streak(polls, n) < MAX_U32 then Streak(polls, n) else MAX_U32)
      && (p.pausing ==> Streak(polls, n) > 1)
  {
    if n > 0 {
      RowCounted(polls, n - 1);
    }
  }
}
