/** No operation of a lane is ever stuck: whatever the turns so far, some turns more settle it. */
module LaneProgress {
  import opened Outcomes
  import opened Lanes

  lemma {:induction false} TurnsJoin(a: State, b: State, c: State, m: nat, n: nat)
    requires FromTo(a, b, m) && FromTo(b, c, n)
    ensures FromTo(a, c, m + n)
    decreases m
  {
    hide Next;
    if m > 0 {
      var middle :| Next(a, middle) && FromTo(middle, b, m - 1);
      TurnsJoin(middle, b, c, m - 1, n);
    }
  }

  lemma {:induction false} OneTurn(s: State, after: State)
    requires Next(s, after)
    ensures FromTo(s, after, 1)
  {
    hide Next;
    assert FromTo(after, after, 0);
  }

  /** Every operation joined later stands as it did. */
  ghost predicate LaterStay(s: State, after: State, id: nat) {
    && |after.operations| == |s.operations|
    && forall j :: id < j < |s.operations| ==> after.operations[j] == s.operations[j]
  }

  /** An operation that has started reads, if it has not, and writes. */
  lemma {:induction false} StartedSettles(s: State, first: map<Key, Text>, id: nat) returns (after: State, turns: nat)
    requires Keeps(s, first) && (Reads(s, id) || Writes(s, id))
    ensures FromTo(s, after, turns) && turns <= 2 && Keeps(after, first) && LaterStay(s, after, id)
    ensures after.operations[id].phase == Settled(true)
  {
    hide Keeps;
    if Reads(s, id) {
      var read := Read(s, id);
      assert Next(s, read);
      ReadingKeeps(s, id, first);
      assert Writes(read, id);
      after := Write(read, id);
      assert Next(read, after);
      WritingKeeps(read, id, first);
      OneTurn(s, read);
      OneTurn(read, after);
      TurnsJoin(s, read, after, 1, 1);
      turns := 2;
    } else {
      after := Write(s, id);
      assert Next(s, after);
      WritingKeeps(s, id, first);
      OneTurn(s, after);
      turns := 1;
    }
  }

  lemma {:induction false} StartsNext(s: State, id: nat)
    requires CanStart(s, id)
    ensures Next(s, WithPhase(s, id, Started))
  {
  }

  /** One that waits can start once the one it waits for has settled. */
  lemma {:induction false} FreedSettles(s: State, first: map<Key, Text>, id: nat) returns (after: State, turns: nat)
    requires Keeps(s, first) && CanStart(s, id)
    ensures FromTo(s, after, turns) && turns <= 3 && Keeps(after, first) && LaterStay(s, after, id)
    ensures after.operations[id].phase == Settled(true)
  {
    hide Keeps, Next;
    var started := WithPhase(s, id, Started);
    StartsNext(s, id);
    StartingKeeps(s, id, first);
    OneTurn(s, started);
    var more;
    after, more := StartedSettles(started, first, id);
    TurnsJoin(s, started, after, 1, more);
    turns := 1 + more;
  }

  /** One that cannot start waits for an earlier one that has not settled. */
  lemma {:induction false} WaitsForOne(s: State, first: map<Key, Text>, id: nat)
    requires Keeps(s, first) && id < |s.operations| && s.operations[id].phase.Queued? && !CanStart(s, id)
    ensures var previous := s.operations[id].previous;
            previous.Some? && previous.value < id && !s.operations[previous.value].phase.Settled?
  {
    hide Sequential, InOrder, LanesKept, LanesNamed;
    assert LinkedAt(s, id);
  }

  /** One behind others lets them settle first. */
  lemma {:induction false} UnsettledSettles(s: State, first: map<Key, Text>, id: nat) returns (after: State, turns: nat)
    requires Keeps(s, first) && id < |s.operations| && !s.operations[id].phase.Settled?
    ensures FromTo(s, after, turns) && turns <= 3 * (id + 1) && Keeps(after, first) && LaterStay(s, after, id)
    ensures after.operations[id].phase == Settled(true)
  {
    hide Keeps, FromTo;
    if Reads(s, id) || Writes(s, id) {
      after, turns := StartedSettles(s, first, id);
    } else if CanStart(s, id) {
      after, turns := FreedSettles(s, first, id);
    } else {
      WaitsForOne(s, first, id);
      var middle, before := UnsettledSettles(s, first, s.operations[id].previous.value);
      assert CanStart(middle, id);
      var more;
      after, more := FreedSettles(middle, first, id);
      TurnsJoin(s, middle, after, before, more);
      turns := before + more;
    }
  }

  /** In every interleaving of any number of operations, whatever failed before, some turns more write the
      update of any that has not settled: at most three for it and three for each that joined before it. */
  lemma {:induction false} NoneIsStuck(states: seq<State>, first: map<Key, Text>, id: nat)
    requires IsRun(states, first)
    requires var s := states[|states| - 1]; id < |s.operations| && !s.operations[id].phase.Settled?
    ensures exists after, turns: nat {:trigger FromTo(states[|states| - 1], after, turns)} ::
              && FromTo(states[|states| - 1], after, turns) && turns <= 3 * (id + 1)
              && id < |after.operations| && after.operations[id].phase == Settled(true)
  {
    RunsKeep(states, first);
    hide IsRun, Next;
    var after, turns := UnsettledSettles(states[|states| - 1], first, id);
  }
}
