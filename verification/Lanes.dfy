/** The store's lanes: one chain of operations for each key, any number of chains running at once. */
module Lanes {
  import opened Outcomes

  type Key = string

  /** A record as the storage holds it, serialised. */
  type Text = string

  /** What a key holds, nothing where it was never written. */
  type Value = Option<Text>

  /** A queued operation waits for the one before it; a settled one wrote its update, or failed and wrote nothing. */
  datatype Phase = Queued | Started | HasRead(value: Value) | Settled(wrote: bool)

  datatype Operation = Operation(key: Key, update: Value -> Value, previous: Option<nat>, phase: Phase)

  /** The stored values, each lane's last operation, and the operations in the order they joined. */
  datatype State = State(storage: map<Key, Text>, lanes: map<Key, nat>, operations: seq<Operation>)

  function Held(storage: map<Key, Text>, key: Key): Value {
    if key in storage then Some(storage[key]) else None
  }

  // ---- Turns

  function LastOf(s: State, key: Key): Option<nat> {
    if key in s.lanes then Some(s.lanes[key]) else None
  }

  function Joined(s: State, key: Key, update: Value -> Value): State {
    var operation := Operation(key, update, LastOf(s, key), Queued);
    s.(lanes := s.lanes[key := |s.operations|], operations := s.operations + [operation])
  }

  predicate CanStart(s: State, id: nat) {
    && id < |s.operations| && s.operations[id].phase.Queued?
    && (s.operations[id].previous.Some? ==>
          s.operations[id].previous.value < |s.operations|
            && s.operations[s.operations[id].previous.value].phase.Settled?)
  }

  function WithPhase(s: State, id: nat, phase: Phase): State
    requires id < |s.operations|
  {
    s.(operations := s.operations[id := s.operations[id].(phase := phase)])
  }

  predicate Reads(s: State, id: nat) {
    id < |s.operations| && s.operations[id].phase.Started?
  }

  predicate Writes(s: State, id: nat) {
    id < |s.operations| && s.operations[id].phase.HasRead?
  }

  function Read(s: State, id: nat): State
    requires Reads(s, id)
  {
    WithPhase(s, id, HasRead(Held(s.storage, s.operations[id].key)))
  }

  /** What an update leaves of a value: what it hands back, or the value as it was where it hands back nothing. */
  function Left(value: Value, next: Value): Value {
    if next.Some? then next else value
  }

  function Stored(storage: map<Key, Text>, key: Key, next: Value): map<Key, Text> {
    if next.Some? then storage[key := next.value] else storage
  }

  /** Writes what the update makes of the value read, and nothing where it hands back nothing. */
  function Write(s: State, id: nat): State
    requires Writes(s, id)
  {
    var operation := s.operations[id];
    WithPhase(s, id, Settled(true)).(storage := Stored(s.storage, operation.key,
      operation.update(operation.phase.value)))
  }

  /** The lane is cleaned once its last operation has settled. */
  predicate CanClean(s: State, id: nat) {
    id < |s.operations| && s.operations[id].phase.Settled? && LastOf(s, s.operations[id].key) == Some(id)
  }

  /** One turn of any operation, in any order. */
  ghost predicate Next(s: State, after: State) {
    || (exists key, update :: after == Joined(s, key, update))
    || (exists id: nat :: CanStart(s, id) && after == WithPhase(s, id, Started))
    || (exists id: nat :: Reads(s, id) && after == Read(s, id))
    || (exists id: nat :: Writes(s, id) && after == Write(s, id))
    || (exists id: nat :: (Reads(s, id) || Writes(s, id)) && after == WithPhase(s, id, Settled(false)))
    || (exists id: nat :: CanClean(s, id) && after == s.(lanes := s.lanes - {s.operations[id].key}))
  }

  // ---- What every turn keeps

  /** Two operations of one key, the first joined earlier. */
  predicate Before(s: State, i: nat, j: nat) {
    i < j < |s.operations| && s.operations[i].key == s.operations[j].key
  }

  /** No operation starts before every earlier one of its key has settled. */
  ghost predicate InOrder(s: State) {
    forall i: nat, j: nat :: Before(s, i, j) && !s.operations[j].phase.Queued? ==> s.operations[i].phase.Settled?
  }

  /** Each operation waits for the one just before it in its lane, or has none left to wait for. */
  ghost predicate Linked(s: State) {
    forall j: nat :: j < |s.operations| ==> LinkedAt(s, j)
  }

  ghost predicate LinkedAt(s: State, j: nat)
    requires j < |s.operations|
  {
    match s.operations[j].previous
    case Some(p) => Before(s, p, j) && forall i: nat :: Before(s, i, j) ==> i <= p
    case None => forall i: nat :: Before(s, i, j) ==> s.operations[i].phase.Settled?
  }

  /** A lane names its last operation, and a key without a lane has nothing left to settle. */
  ghost predicate LanesKept(s: State) {
    forall i: nat :: i < |s.operations| ==>
      var key := s.operations[i].key;
      if key in s.lanes then i <= s.lanes[key] < |s.operations| && s.operations[s.lanes[key]].key == key
      else s.operations[i].phase.Settled?
  }

  ghost predicate LanesNamed(s: State) {
    forall key :: key in s.lanes ==> s.lanes[key] < |s.operations| && s.operations[s.lanes[key]].key == key
  }

  /** What the writes of a key make of its first value, one whole update after another, in the order they joined. */
  ghost function Applied(operations: seq<Operation>, key: Key, first: Value): Value {
    if operations == [] then first else
      var last := operations[|operations| - 1];
      var before := Applied(operations[..|operations| - 1], key, first);
      if last.key == key && last.phase == Settled(true) then Left(before, last.update(before)) else before
  }

  /** Every key holds what its writes, one after another, make of it; and whoever has read holds that value. */
  ghost predicate Sequential(s: State, first: map<Key, Text>) {
    && (forall key :: Held(s.storage, key) == Applied(s.operations, key, Held(first, key)))
    && forall i: nat :: i < |s.operations| && s.operations[i].phase.HasRead? ==>
         s.operations[i].phase.value == Held(s.storage, s.operations[i].key)
  }

  ghost predicate Keeps(s: State, first: map<Key, Text>) {
    InOrder(s) && Linked(s) && LanesKept(s) && LanesNamed(s) && Sequential(s, first)
  }

  lemma {:induction false} JoiningKeeps(s: State, key: Key, update: Value -> Value, first: map<Key, Text>)
    requires Keeps(s, first)
    ensures Keeps(Joined(s, key, update), first)
  {
    var after := Joined(s, key, update);
    assert after.operations[..|s.operations|] == s.operations;
    JoiningLinks(s, key, update);
    forall k
      ensures Applied(after.operations, k, Held(first, k)) == Applied(s.operations, k, Held(first, k))
    {
    }
  }

  lemma {:induction false} JoiningLinks(s: State, key: Key, update: Value -> Value)
    requires InOrder(s) && Linked(s) && LanesKept(s) && LanesNamed(s)
    ensures Linked(Joined(s, key, update))
  {
    var after, n := Joined(s, key, update), |s.operations|;
    forall j: nat | j < |after.operations|
      ensures LinkedAt(after, j)
    {
      assert forall i: nat :: Before(after, i, j) ==> i < n;
      if j < n {
        assert LinkedAt(s, j);
        assert forall i: nat :: Before(after, i, j) <==> Before(s, i, j);
      }
    }
  }

  /** Writing a phase moves a key's applied value only if it is a write, or was one. */
  lemma {:induction false} PhaseApplies(operations: seq<Operation>, id: nat, phase: Phase, key: Key, first: Value)
    requires id < |operations| && !operations[id].phase.Settled? && phase != Settled(true)
    ensures Applied(operations[id := operations[id].(phase := phase)], key, first) == Applied(operations, key, first)
  {
    var last := |operations| - 1;
    var now := operations[id := operations[id].(phase := phase)];
    if id < last {
      assert now[..last] == operations[..last][id := operations[id].(phase := phase)];
      PhaseApplies(operations[..last], id, phase, key, first);
    } else {
      assert now[..last] == operations[..last];
    }
  }

  lemma {:induction false} PhaseLinks(s: State, id: nat, phase: Phase)
    requires id < |s.operations| && Linked(s) && (s.operations[id].phase.Settled? ==> phase.Settled?)
    ensures Linked(WithPhase(s, id, phase))
  {
    var after := WithPhase(s, id, phase);
    forall j: nat | j < |after.operations|
      ensures LinkedAt(after, j)
    {
      assert LinkedAt(s, j);
      assert forall i: nat :: Before(after, i, j) <==> Before(s, i, j);
    }
  }

  lemma {:induction false} StartingIsInOrder(s: State, id: nat)
    requires InOrder(s) && Linked(s) && CanStart(s, id)
    ensures forall i: nat :: Before(s, i, id) ==> s.operations[i].phase.Settled?
  {
    assert LinkedAt(s, id);
    var previous := s.operations[id].previous;
    if previous.Some? {
      forall i: nat | Before(s, i, id)
        ensures s.operations[i].phase.Settled?
      {
        assert i < previous.value ==> Before(s, i, previous.value);
      }
    }
  }

  lemma {:induction false} StartingKeeps(s: State, id: nat, first: map<Key, Text>)
    requires Keeps(s, first) && CanStart(s, id)
    ensures Keeps(WithPhase(s, id, Started), first)
  {
    StartingIsInOrder(s, id);
    PhaseLinks(s, id, Started);
    forall key {
      PhaseApplies(s.operations, id, Started, key, Held(first, key));
    }
    var after := WithPhase(s, id, Started);
    assert forall i: nat, j: nat :: Before(after, i, j) <==> Before(s, i, j);
  }

  lemma {:induction false} ReadingKeeps(s: State, id: nat, first: map<Key, Text>)
    requires Keeps(s, first) && Reads(s, id)
    ensures Keeps(Read(s, id), first)
  {
    var phase := HasRead(Held(s.storage, s.operations[id].key));
    PhaseLinks(s, id, phase);
    forall key {
      PhaseApplies(s.operations, id, phase, key, Held(first, key));
    }
    var after := Read(s, id);
    assert forall i: nat, j: nat :: Before(after, i, j) <==> Before(s, i, j);
  }

  lemma {:induction false} FailingKeeps(s: State, id: nat, first: map<Key, Text>)
    requires Keeps(s, first) && (Reads(s, id) || Writes(s, id))
    ensures Keeps(WithPhase(s, id, Settled(false)), first)
  {
    PhaseLinks(s, id, Settled(false));
    forall key {
      PhaseApplies(s.operations, id, Settled(false), key, Held(first, key));
    }
    var after := WithPhase(s, id, Settled(false));
    assert forall i: nat, j: nat :: Before(after, i, j) <==> Before(s, i, j);
  }

  /** A write applies after every earlier one of its key, and no later one of its key has been applied. */
  lemma {:induction false} WriteApplies(operations: seq<Operation>, id: nat, key: Key, first: Value)
    requires id < |operations| && !operations[id].phase.Settled?
    requires forall j :: id < j < |operations| && operations[j].key == operations[id].key ==>
             !operations[j].phase.Settled?
    ensures var before := Applied(operations, key, first);
            Applied(operations[id := operations[id].(phase := Settled(true))], key, first)
            == if operations[id].key == key then Left(before, operations[id].update(before)) else before
  {
    var last := |operations| - 1;
    var now := operations[id := operations[id].(phase := Settled(true))];
    if id < last {
      assert now[..last] == operations[..last][id := operations[id].(phase := Settled(true))];
      WriteApplies(operations[..last], id, key, first);
    } else {
      assert now[..last] == operations[..last];
    }
  }

  lemma {:induction false} WritingKeeps(s: State, id: nat, first: map<Key, Text>)
    requires Keeps(s, first) && Writes(s, id)
    ensures Keeps(Write(s, id), first)
  {
    var after, key := Write(s, id), s.operations[id].key;
    PhaseLinks(s, id, Settled(true));
    forall j: nat | id < j < |s.operations| && s.operations[j].key == key
      ensures s.operations[j].phase.Queued?
    {
      assert Before(s, id, j);
    }
    WritingIsSequential(s, id, first);
    assert forall i: nat, j: nat :: Before(after, i, j) <==> Before(s, i, j);
    assert Linked(after) by {
      LinksAlone(WithPhase(s, id, Settled(true)), after);
    }
  }

  lemma {:induction false} LinksAlone(a: State, b: State)
    requires a.operations == b.operations && Linked(a)
    ensures Linked(b)
  {
    forall j: nat | j < |b.operations|
      ensures LinkedAt(b, j)
    {
      assert LinkedAt(a, j);
      assert forall i: nat :: Before(b, i, j) <==> Before(a, i, j);
    }
  }

  lemma {:induction false} WritingIsSequential(s: State, id: nat, first: map<Key, Text>)
    requires InOrder(s) && Sequential(s, first) && Writes(s, id)
    requires forall j: nat :: id < j < |s.operations| && s.operations[j].key == s.operations[id].key ==>
             s.operations[j].phase.Queued?
    ensures Sequential(Write(s, id), first)
  {
    var after := Write(s, id);
    forall key
      ensures Held(after.storage, key) == Applied(after.operations, key, Held(first, key))
    {
      WriteApplies(s.operations, id, key, Held(first, key));
    }
    forall i: nat | i < |after.operations| && after.operations[i].phase.HasRead?
      ensures after.operations[i].phase.value == Held(after.storage, after.operations[i].key)
    {
      if s.operations[i].key == s.operations[id].key {
        assert i < id ==> Before(s, i, id);
      }
    }
  }

  lemma {:induction false} CleaningKeeps(s: State, id: nat, first: map<Key, Text>)
    requires Keeps(s, first) && CanClean(s, id)
    ensures Keeps(s.(lanes := s.lanes - {s.operations[id].key}), first)
  {
    var after := s.(lanes := s.lanes - {s.operations[id].key});
    LinksAlone(s, after);
    forall i: nat | i < |s.operations| && s.operations[i].key == s.operations[id].key
      ensures s.operations[i].phase.Settled?
    {
      assert i != id ==> Before(s, i, id);
    }
    assert forall i: nat, j: nat :: Before(after, i, j) <==> Before(s, i, j);
  }

  lemma {:induction false} NextKeeps(s: State, after: State, first: map<Key, Text>)
    requires Keeps(s, first) && Next(s, after)
    ensures Keeps(after, first)
  {
    hide Keeps, Joined, WithPhase, Read, Write;
    if key, update :| after == Joined(s, key, update) {
      JoiningKeeps(s, key, update, first);
    } else if id: nat :| CanStart(s, id) && after == WithPhase(s, id, Started) {
      StartingKeeps(s, id, first);
    } else if id: nat :| Reads(s, id) && after == Read(s, id) {
      ReadingKeeps(s, id, first);
    } else if id: nat :| Writes(s, id) && after == Write(s, id) {
      WritingKeeps(s, id, first);
    } else if id: nat :| (Reads(s, id) || Writes(s, id)) && after == WithPhase(s, id, Settled(false)) {
      FailingKeeps(s, id, first);
    } else {
      var id: nat :| CanClean(s, id) && after == s.(lanes := s.lanes - {s.operations[id].key});
      CleaningKeeps(s, id, first);
    }
  }

  // ---- Over runs

  ghost predicate IsRun(states: seq<State>, first: map<Key, Text>) {
    && states != [] && states[0] == State(first, map[], [])
    && forall i :: 0 < i < |states| ==> Next(states[i - 1], states[i])
  }

  lemma {:induction false} RunsKeep(states: seq<State>, first: map<Key, Text>)
    requires IsRun(states, first)
    ensures Keeps(states[|states| - 1], first)
  {
    var last := |states| - 1;
    if last > 0 {
      assert forall i :: 0 < i < last ==> states[..last][i] == states[i];
      RunsKeep(states[..last], first);
      assert Next(states[last - 1], states[last]);
      NextKeeps(states[last - 1], states[last], first);
    }
  }

  predicate Runs(phase: Phase) {
    phase.Started? || phase.HasRead?
  }

  /** In every interleaving of any number of operations, two of one key never run at
      once, and the earlier one joined has settled before the later one starts. */
  lemma {:induction false} OneAtATimeInOrder(states: seq<State>, first: map<Key, Text>, i: nat, j: nat)
    requires IsRun(states, first)
    requires var s := states[|states| - 1]; Before(s, i, j) && !s.operations[j].phase.Queued?
    ensures states[|states| - 1].operations[i].phase.Settled?
    ensures !Runs(states[|states| - 1].operations[i].phase) || !Runs(states[|states| - 1].operations[j].phase)
  {
    RunsKeep(states, first);
    hide IsRun, Next;
  }

  /** And what each key holds is what its writes make of its first value,
      whole updates one after another in the order they joined. */
  lemma {:induction false} EqualsSequentialUpdates(states: seq<State>, first: map<Key, Text>, key: Key)
    requires IsRun(states, first)
    ensures var s := states[|states| - 1];
            Held(s.storage, key) == Applied(s.operations, key, Held(first, key))
  {
    RunsKeep(states, first);
    hide IsRun, Next;
  }

  // ---- The store

  class SignerStore {
    var storage: map<Key, Text>
    var lanes: map<Key, nat>
    var operations: seq<Operation>

    function Now(): State
      reads this
    {
      State(storage, lanes, operations)
    }

    constructor (stored: map<Key, Text>)
      ensures Now() == State(stored, map[], [])
    {
      storage, lanes, operations := stored, map[], [];
    }

    /** Joins a key's lane behind whoever is last in it. */
    method Join(key: Key, update: Value -> Value) returns (id: nat)
      modifies this
      ensures Now() == Joined(old(Now()), key, update) && id == |old(operations)|
    {
      id := |operations|;
      var previous := if key in lanes then Some(lanes[key]) else None;
      operations := operations + [Operation(key, update, previous, Queued)];
      lanes := lanes[key := id];
    }

    method Start(id: nat)
      requires CanStart(Now(), id)
      modifies this`operations
      ensures Now() == WithPhase(old(Now()), id, Started)
    {
      operations := operations[id := operations[id].(phase := Started)];
    }

    method ReadValue(id: nat)
      requires Reads(Now(), id)
      modifies this`operations
      ensures Now() == Read(old(Now()), id)
    {
      var key := operations[id].key;
      operations := operations[id := operations[id].(phase := HasRead(if key in storage then Some(storage[key])
        else None))];
    }

    method WriteValue(id: nat) returns (value: Value)
      requires Writes(Now(), id)
      modifies this`operations, this`storage
      ensures Now() == Write(old(Now()), id) && value == old(operations)[id].update(old(operations)[id].phase.value)
    {
      value := operations[id].update(operations[id].phase.value);
      if value.Some? {
        storage := storage[operations[id].key := value.value];
      }
      operations := operations[id := operations[id].(phase := Settled(true))];
    }

    method Clean(id: nat)
      requires CanClean(Now(), id)
      modifies this`lanes
      ensures Now() == old(Now()).(lanes := old(lanes) - {operations[id].key})
    {
      var key := operations[id].key;
      lanes := map other | other in lanes && other != key :: lanes[other];
    }

    /** Reads, updates and writes a free key as one step, in its lane from joining to cleaning. */
    method UpdateAt(key: Key, update: Value -> Value) returns (value: Value)
      requires key in lanes ==> lanes[key] < |operations| && operations[lanes[key]].phase.Settled?
      modifies this
      ensures value == update(Held(old(storage), key)) && storage == Stored(old(storage), key, value)
      ensures lanes == old(lanes) - {key}
      ensures FromTo(old(Now()), Now(), 5)
    {
      hide FromTo;
      ghost var start := Now();
      var id := Join(key, update);
      Start(id);
      ReadValue(id);
      value := WriteValue(id);
      Clean(id);
      OneUpdate(start, key, update);
    }
  }

  /** Where an update alone in its lane leads. */
  lemma {:induction false} OneUpdate(s: State, key: Key, update: Value -> Value)
    requires key in s.lanes ==> s.lanes[key] < |s.operations| && s.operations[s.lanes[key]].phase.Settled?
    ensures var id, joined := |s.operations|, Joined(s, key, update);
            var started := WithPhase(joined, id, Started);
            var written := Write(Read(started, id), id);
            FromTo(s, written.(lanes := written.lanes - {key}), 5)
  {
    var id, joined := |s.operations|, Joined(s, key, update);
    var started := WithPhase(joined, id, Started);
    var read := Read(started, id);
    var written := Write(read, id);
    assert CanStart(joined, id) && Reads(started, id) && Writes(read, id) && CanClean(written, id);
    var cleaned := written.(lanes := written.lanes - {key});
    assert written.operations[id].key == key;
    assert Next(s, joined);
    assert Next(joined, started) && Next(started, read) && Next(read, written) && Next(written, cleaned);
    FiveTurns(s, joined, started, read, written, cleaned);
  }

  lemma {:induction false} FiveTurns(s0: State, s1: State, s2: State, s3: State, s4: State, s5: State)
    requires Next(s0, s1) && Next(s1, s2) && Next(s2, s3) && Next(s3, s4) && Next(s4, s5)
    ensures FromTo(s0, s5, 5)
  {
    hide Next;
    assert FromTo(s5, s5, 0) && FromTo(s4, s5, 1) && FromTo(s3, s5, 2) && FromTo(s2, s5, 3) && FromTo(s1, s5, 4);
  }

  /** So many turns lead from one state to another. */
  ghost predicate FromTo(from: State, to: State, turns: nat)
    decreases turns
  {
    if turns == 0 then from == to else exists middle :: Next(from, middle) && FromTo(middle, to, turns - 1)
  }
}
