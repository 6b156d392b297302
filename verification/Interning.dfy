/** Interning names and group values, up to a cap: what an id resolves to, and when two resolve alike. */
module Interning {
  import opened Text
  import opened Sorting

  const OVERFLOW_ID: nat := 0
  const ABSENT_ID: nat := 1
  const FIRST_REAL_ID: nat := 2
  const OVERFLOW_LABEL := "__overflow__"
  const ABSENT_LABEL := "__absent__"
  const SEPARATOR := " / "

  /** What an id stands for, `values` being the values interned so far. */
  function Label(values: seq<string>, id: nat): string {
    if id == OVERFLOW_ID then OVERFLOW_LABEL
    else if id == ABSENT_ID then ABSENT_LABEL
    else if id - FIRST_REAL_ID < |values| then values[id - FIRST_REAL_ID]
    else OVERFLOW_LABEL
  }

  /** The id a value has: that of its place, or the overflow's. */
  ghost function IdIn(values: seq<string>, value: string): (id: nat)
    ensures if value in values then FIRST_REAL_ID <= id < FIRST_REAL_ID + |values| && values[id - FIRST_REAL_ID] == value
            else id == OVERFLOW_ID
  {
    if value in values then
      var i :| 0 <= i < |values| && values[i] == value;
      FIRST_REAL_ID + i
    else OVERFLOW_ID
  }

  /** The values kept once `value` has been offered. */
  function Kept(values: seq<string>, cap: nat, value: string): seq<string> {
    if value in values || |values| >= cap then values else values + [value]
  }

  class Interner {
    var toId: map<string, nat>
    var toValue: seq<string>
    const cap: nat
    var capped: bool

    ghost predicate Valid()
      reads this
    {
      && |toValue| <= cap
      && (forall v :: v in toId <==> v in toValue)
      && (forall v :: v in toId ==> toId[v] == IdIn(toValue, v))
      && NoRepeats(toValue)
    }

    constructor (cap: nat)
      ensures Valid() && toValue == [] && !capped && this.cap == cap
    {
      toId, toValue, this.cap, capped := map[], [], cap, false;
    }

    /** A value new to a full table goes to the overflow; any other has an id of its own from then on. */
    method Intern(value: string) returns (id: nat)
      requires Valid()
      modifies this
      ensures Valid() && id == IdIn(toValue, value)
      ensures toValue == Kept(old(toValue), cap, value)
      ensures capped == (old(capped) || id == OVERFLOW_ID)
    {
      if value in toId {
        return toId[value];
      }
      if |toValue| >= cap {
        capped := true;
        return OVERFLOW_ID;
      }
      id := FIRST_REAL_ID + |toValue|;
      toValue := toValue + [value];
      toId := toId[value := id];
      forall v | v in toId
        ensures toId[v] == IdIn(toValue, v)
      {
        assert v != value ==> toId[v] == IdIn(old(toValue), v);
      }
    }

    method Resolve(id: nat) returns (value: string)
      requires Valid()
      ensures value == Label(toValue, id)
    {
      if id == OVERFLOW_ID {
        value := OVERFLOW_LABEL;
      } else if id == ABSENT_ID {
        value := ABSENT_LABEL;
      } else {
        value := if id - FIRST_REAL_ID < |toValue| then toValue[id - FIRST_REAL_ID] else OVERFLOW_LABEL;
      }
    }
  }

  /** An id stays what it was as the table grows, and stands for the value it was given for, if it was kept. */
  lemma IdsAreStable(values: seq<string>, more: seq<string>, value: string)
    ensures value in values ==> Label(values + more, IdIn(values, value)) == value
    ensures value !in values ==> Label(values + more, IdIn(values, value)) == OVERFLOW_LABEL
  {
    assert (values + more)[..|values|] == values;
  }

  /** Reserved for what did not fit: the overflow's own id, and any the table has nothing for. */
  predicate ReadsOverflow(values: seq<string>, id: nat) {
    id == OVERFLOW_ID || id >= FIRST_REAL_ID + |values|
  }

  ghost predicate LabelsApart(values: seq<string>, ids: set<nat>) {
    forall id1, id2 :: id1 in ids && id2 in ids && id1 != id2 ==> Label(values, id1) != Label(values, id2)
  }

  /** `text` is the value of an id that has a row. */
  ghost predicate Spelled(values: seq<string>, ids: set<nat>, text: string) {
    exists i :: 0 <= i < |values| && FIRST_REAL_ID + i in ids && values[i] == text
  }

  /**
   Of the ids that have rows, no two resolve to one label exactly when no value with a row is spelled like
   a reserved label that has a row too, and there is at most one row for what did not fit.
   */
  lemma LabelsApartWhen(values: seq<string>, ids: set<nat>)
    requires NoRepeats(values)
    ensures LabelsApart(values, ids) <==>
              && !(Spelled(values, ids, OVERFLOW_LABEL) && exists id :: id in ids && ReadsOverflow(values, id))
              && !(Spelled(values, ids, ABSENT_LABEL) && ABSENT_ID in ids)
              && (forall id1, id2 ::
                    id1 in ids && id2 in ids && ReadsOverflow(values, id1) && ReadsOverflow(values, id2) ==> id1 == id2)
  {
    assert |OVERFLOW_LABEL| != |ABSENT_LABEL|;
    if LabelsApart(values, ids) {
      forall i | 0 <= i < |values| && FIRST_REAL_ID + i in ids
        ensures Label(values, FIRST_REAL_ID + i) == values[i]
      {
      }
    } else {
      var id1, id2 :| id1 in ids && id2 in ids && id1 != id2 && Label(values, id1) == Label(values, id2);
      SameLabel(values, ids, id1, id2);
    }
  }

  lemma SameLabel(values: seq<string>, ids: set<nat>, id1: nat, id2: nat)
    requires NoRepeats(values) && id1 in ids && id2 in ids && id1 != id2 && Label(values, id1) == Label(values, id2)
    ensures
      || (ReadsOverflow(values, id1) && ReadsOverflow(values, id2))
      || (Spelled(values, ids, OVERFLOW_LABEL) && (ReadsOverflow(values, id1) || ReadsOverflow(values, id2)))
      || (Spelled(values, ids, ABSENT_LABEL) && (id1 == ABSENT_ID || id2 == ABSENT_ID))
  {
    assert |OVERFLOW_LABEL| != |ABSENT_LABEL|;
    var (r1, r2) := (id1 - FIRST_REAL_ID, id2 - FIRST_REAL_ID);
    assert 0 <= r1 < |values| ==> FIRST_REAL_ID + r1 in ids && values[r1] == Label(values, id1);
    assert 0 <= r2 < |values| ==> FIRST_REAL_ID + r2 in ids && values[r2] == Label(values, id2);
  }
}
