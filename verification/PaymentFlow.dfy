/** Sending payments and following them out, cut off anywhere: one
    await after another, in any order, by any number of runs. */
module PaymentFlow {
  import opened Outcomes
  import opened Payments

  // ---- The watch list

  datatype Entry = Entry(status: Option<nat>)

  /** The payments being followed, each with the status last
      announced; every method reads and writes the list at once. */
  class ActivityTracker {
    var entries: map<PaymentHash, Entry>

    constructor (stored: map<PaymentHash, Entry>)
      ensures entries == stored
    {
      entries := stored;
    }

    /** Puts an unlisted hash on the list with no status; the answer says whether the list grew. */
    method WatchIfAbsent(hash: PaymentHash) returns (added: bool)
      modifies this
      ensures added <==> hash !in old(entries)
      ensures entries.Keys == old(entries).Keys + {hash}
      ensures forall other :: other in old(entries) ==> entries[other] == old(entries)[other]
      ensures added ==> entries[hash] == Entry(None)
    {
      added := hash !in entries;
      if added {
        entries := entries[hash := Entry(None)];
      }
    }

    /** Sets a listed hash's status; the answer says whether it was listed. */
    method Mark(hash: PaymentHash, status: nat) returns (known: bool)
      modifies this
      ensures known <==> hash in old(entries)
      ensures entries == if known then old(entries)[hash := Entry(Some(status))] else old(entries)
    {
      known := hash in entries;
      if known {
        entries := entries[hash := Entry(Some(status))];
      }
    }

    /** Takes a hash off the list, where it is on it. */
    method Forget(hash: PaymentHash)
      modifies this
      ensures entries == old(entries) - {hash}
    {
      entries := map other | other in entries && other != hash :: entries[other];
    }
  }

  // ---- The state both sides share

  /** What an intent's record says here: whose it is, and whether it still approves. */
  datatype Debit = Debit(hash: PaymentHash, open: bool)

  /** Where a transfer stands: each phase is what its next turn does. */
  datatype Phase = Watching | Recording | Unwatching | Sending | Awaiting | Closing | Dropping

  datatype Transfer = Transfer(hash: PaymentHash, phase: Phase)

  /** Where the step stands with one hash. */
  datatype Turn =
    | Reading
    | Answered(ended: bool)
    | CheckingWatch
    | CheckingIntent
    | Deciding(has: bool)
    | Ending
    | Delivering
    | Forgetting

  /** `seen` is how many payments had been sent under the hash when the node's answer was read. */
  datatype Answering = Answering(hash: PaymentHash, turn: Turn, seen: nat)

  /** One tick's pass over the list; once past its deadline it is abandoned, and may still be waiting on an await. */
  datatype Run = Run(queue: seq<PaymentHash>, abandoned: bool, current: Option<Answering>)

  /** The stored records survive a kill; the sets, the transfers and the runs do not. */
  datatype State = State(
    watched: set<PaymentHash>,
    debits: map<Bound, Debit>,
    sending: set<PaymentHash>,
    reading: set<PaymentHash>,
    transfers: map<nat, Transfer>,
    runs: map<nat, Run>,
    sent: map<PaymentHash, nat>
  )

  predicate IsOpen(s: State, hash: PaymentHash) {
    hash.bound in s.debits && s.debits[hash.bound] == Debit(hash, true)
  }

  predicate IsRecorded(s: State, hash: PaymentHash) {
    hash.bound in s.debits && s.debits[hash.bound].hash == hash
  }

  /** Another payment holds the bytes of the hash an intent is kept under. */
  predicate HasTwin(s: State, hash: PaymentHash) {
    hash.bound in s.debits && s.debits[hash.bound].hash != hash
  }

  function SentUnder(s: State, hash: PaymentHash): nat {
    if hash in s.sent then s.sent[hash] else 0
  }

  // ---- A transfer's turns

  datatype Recorded = Approved | AlreadyOpen | RefusedOtherwise

  datatype Reply = Delivered | SessionExists | Refused | Unknown

  datatype Action =
    // transfer
    | Begin(id: nat, hash: PaymentHash)
    | Watch(id: nat)
    | Record(id: nat, outcome: Recorded)
    | Unwatch(id: nat)
    | Send(id: nat)
    | Reply(id: nat, reply: Reply)
    | Close(id: nat)
    | Drop(id: nat)
    | Fail(id: nat)
    // the payment step
    | Tick(run: nat, order: seq<PaymentHash>)
    | Take(run: nat)
    | Read(run: nat, ended: bool)
    | Go(run: nat)
    | Abandon(run: nat)
    | Give(run: nat)
    // the process
    | Kill

  function Ended(s: State, id: nat): State
    requires id in s.transfers
  {
    s.(transfers := s.transfers - {id}, sending := s.sending - {s.transfers[id].hash})
  }

  function Moved(s: State, id: nat, phase: Phase): State
    requires id in s.transfers
  {
    s.(transfers := s.transfers[id := s.transfers[id].(phase := phase)])
  }

  predicate At(s: State, id: nat, phase: Phase) {
    id in s.transfers && s.transfers[id].phase == phase
  }

  /** One turn tests both sets and takes the hash. */
  function BeginTransfer(s: State, id: nat, hash: PaymentHash): Option<State> {
    if id in s.transfers || hash in s.sending || hash in s.reading then None
    else Some(s.(sending := s.sending + {hash}, transfers := s.transfers[id := Transfer(hash, Watching)]))
  }

  /** The transfer ends here when the list already holds its hash. */
  function WatchFirst(s: State, id: nat): Option<State> {
    if !At(s, id, Watching) then None
    else if s.transfers[id].hash in s.watched then Some(Ended(s, id))
    else Some(Moved(s, id, Recording).(watched := s.watched + {s.transfers[id].hash}))
  }

  /** What the gate answers fixes the outcome: `PaymentRecords.AttemptIsRecorded` ties the two. */
  function RecordIntent(s: State, id: nat, outcome: Recorded): Option<State> {
    if !At(s, id, Recording) then None else
      var hash := s.transfers[id].hash;
      match outcome
      case Approved =>
        if IsOpen(s, hash) || HasTwin(s, hash) then None
        else Some(Moved(s, id, Sending).(debits := s.debits[hash.bound := Debit(hash, true)]))
      // The entry stays for the step to find, since the intent it belongs to is open.
      case AlreadyOpen => if !IsOpen(s, hash) then None else Some(Ended(s, id))
      case RefusedOtherwise => if IsOpen(s, hash) then None else Some(Moved(s, id, Unwatching))
  }

  function SendPayment(s: State, id: nat): Option<State> {
    if !At(s, id, Sending) then None else
      var hash := s.transfers[id].hash;
      Some(Moved(s, id, Awaiting).(sent := s.sent[hash := SentUnder(s, hash) + 1]))
  }

  /** Only a refusal that ran nothing closes the intent; whatever is unknown is left to the step. */
  function HearReply(s: State, id: nat, reply: Reply): Option<State> {
    if !At(s, id, Awaiting) then None
    else if reply.Refused? then Some(Moved(s, id, Closing)) else Some(Ended(s, id))
  }

  function CloseOwn(s: State, id: nat): Option<State> {
    if !At(s, id, Closing) then None else
      var hash := s.transfers[id].hash;
      if !IsRecorded(s, hash) then Some(Ended(s, id))
      else Some(Moved(s, id, Dropping).(debits := s.debits[hash.bound := Debit(hash, false)]))
  }

  function ForgetOwn(s: State, id: nat, phase: Phase): Option<State> {
    if !At(s, id, phase) then None
    else Some(Ended(s, id).(watched := s.watched - {s.transfers[id].hash}))
  }

  // ---- A run's turns

  predicate Enumerates(order: seq<PaymentHash>, hashes: set<PaymentHash>) {
    (set hash | hash in order) == hashes
  }

  predicate IsLive(s: State, id: nat) {
    id in s.runs && !s.runs[id].abandoned
  }

  predicate Busy(s: State, id: nat) {
    id in s.runs && s.runs[id].current.Some?
  }

  function Current(s: State, id: nat): Answering
    requires Busy(s, id)
  {
    s.runs[id].current.value
  }

  /** The run before has ended or was abandoned by the time the next one lists what is watched. */
  function StartRun(s: State, id: nat, order: seq<PaymentHash>): Option<State> {
    if id in s.runs || (exists other :: other in s.runs && IsLive(s, other)) || !Enumerates(order, s.watched) then None
    else Some(s.(runs := s.runs[id := Run(order, false, None)]))
  }

  /** The run may go on to its next hash. */
  predicate CanTake(s: State, id: nat) {
    IsLive(s, id) && !Busy(s, id) && s.runs[id].queue != [] && s.runs[id].queue[0] !in s.sending
  }

  /** A hash being sent is skipped, and any other is taken without an
      await in between, whether or not it is being read. */
  function TakeNext(s: State, id: nat): Option<State> {
    if id !in s.runs || Busy(s, id) then None else
      var run := s.runs[id];
      if run.queue == [] || run.abandoned then Some(s.(runs := s.runs - {id}))
      else if run.queue[0] in s.sending then Some(s.(runs := s.runs[id := run.(queue := run.queue[1..])]))
      else
        var taken := run.(queue := run.queue[1..], current := Some(Answering(run.queue[0], Reading, 0)));
        Some(s.(reading := s.reading + {run.queue[0]}, runs := s.runs[id := taken]))
  }

  /** Done with the hash: it leaves the set, whoever put it there. */
  function Released(s: State, id: nat): State
    requires Busy(s, id)
  {
    s.(reading := s.reading - {Current(s, id).hash}, runs := s.runs[id := s.runs[id].(current := None)])
  }

  function Standing(s: State, id: nat, current: Answering): State
    requires id in s.runs
  {
    s.(runs := s.runs[id := s.runs[id].(current := Some(current))])
  }

  function Turned(s: State, id: nat, turn: Turn): State
    requires Busy(s, id)
  {
    Standing(s, id, Current(s, id).(turn := turn))
  }

  function ClosedDebits(s: State, hash: PaymentHash): map<Bound, Debit> {
    if IsRecorded(s, hash) then s.debits[hash.bound := Debit(hash, false)] else s.debits
  }

  /** The node answers: whether fiber ended the payment, or holds none. */
  function ReadAnswer(s: State, id: nat, ended: bool): Option<State> {
    if !Busy(s, id) || Current(s, id).turn != Reading then None else
      var hash := Current(s, id).hash;
      Some(Standing(s, id, Answering(hash, Answered(ended), SentUnder(s, hash))))
  }

  /** The run's next turn: each await, each check of its deadline, each write. */
  function GoOn(s: State, id: nat): Option<State> {
    if !Busy(s, id) then None else
      var abandoned := s.runs[id].abandoned;
      var hash := Current(s, id).hash;
      match Current(s, id).turn
      case Reading => None
      case Answered(ended) => Some(if abandoned || !ended then Released(s, id) else Turned(s, id, CheckingWatch))
      // Nothing to end once the list has lost the hash.
      case CheckingWatch => Some(if hash in s.watched then Turned(s, id, CheckingIntent) else Released(s, id))
      case CheckingIntent => Some(Turned(s, id, Deciding(IsRecorded(s, hash))))
      case Deciding(has) =>
        Some(if !has then Turned(s, id, Delivering) else if abandoned then Released(s, id) else Turned(s, id, Ending))
      case Ending =>
        if !IsRecorded(s, hash) then Some(Released(s, id))
        else Some(Turned(s, id, Delivering).(debits := ClosedDebits(s, hash)))
      case Delivering => Some(if abandoned then Released(s, id) else Turned(s, id, Forgetting))
      case Forgetting => Some(Released(s, id).(watched := s.watched - {hash}))
  }

  /** One turn of either side, a failure of either, or the end of the process. */
  function Next(s: State, action: Action): Option<State> {
    match action
    case Begin(id, hash) => BeginTransfer(s, id, hash)
    case Watch(id) => WatchFirst(s, id)
    case Record(id, outcome) => RecordIntent(s, id, outcome)
    case Unwatch(id) => ForgetOwn(s, id, Unwatching)
    case Send(id) => SendPayment(s, id)
    case Reply(id, reply) => HearReply(s, id, reply)
    case Close(id) => CloseOwn(s, id)
    case Drop(id) => ForgetOwn(s, id, Dropping)
    // Any await can fail: the transfer ends, its hash let go.
    case Fail(id) => if id in s.transfers then Some(Ended(s, id)) else None
    case Tick(run, order) => StartRun(s, run, order)
    case Take(run) => TakeNext(s, run)
    case Read(run, ended) => ReadAnswer(s, run, ended)
    case Go(run) => GoOn(s, run)
    case Abandon(run) => if run !in s.runs then None
      else Some(s.(runs := s.runs[run := s.runs[run].(abandoned := true)]))
    // Any await of a run can fail: the answer ends, its hash let go.
    case Give(run) => if !Busy(s, run) then None else Some(Released(s, run))
    case Kill => Some(s.(sending := {}, reading := {}, transfers := map[], runs := map[]))
  }

  const START: State := State({}, map[], {}, {}, map[], map[], map[])

  /** Where a sequence of turns leads, if each could be taken. */
  function From(s: State, actions: seq<Action>): Option<State>
    decreases |actions|
  {
    if actions == [] then Some(s) else
      var next := Next(s, actions[0]);
      if next.None? then None else From(next.value, actions[1..])
  }

  function After(actions: seq<Action>): Option<State> {
    From(START, actions)
  }

  // ---- Runs that keep apart

  /** The turn takes a hash another run is still reading. */
  predicate TakesRead(s: State, action: Action) {
    action.Take? && CanTake(s, action.run) && s.runs[action.run].queue[0] in s.reading
  }

  /** No run takes a hash another is still reading. */
  predicate Apart(s: State, actions: seq<Action>)
    decreases |actions|
  {
    actions != [] ==>
      !TakesRead(s, actions[0]) && (Next(s, actions[0]).Some? ==> Apart(Next(s, actions[0]).value, actions[1..]))
  }

  // ---- What every such interleaving keeps

  /** An open intent's full hash is watched. */
  ghost predicate OpenIsWatched(s: State) {
    forall hash :: IsOpen(s, hash) ==> hash in s.watched
  }

  predicate Reads(s: State, id: nat, hash: PaymentHash) {
    Busy(s, id) && Current(s, id).hash == hash
  }

  /** A hash is being sent exactly while one transfer of it is in progress; and but
      for the twins given, it is read exactly while one run answers it. */
  ghost predicate Exclusive(s: State, twins: set<PaymentHash>) {
    && (forall id :: id in s.transfers ==> s.transfers[id].hash in s.sending)
    && (forall i, j :: i in s.transfers && j in s.transfers && s.transfers[i].hash == s.transfers[j].hash ==> i == j)
    && (forall id, hash :: Reads(s, id, hash) && hash !in twins ==> hash in s.reading)
    && (forall hash :: hash in s.reading && hash !in twins ==> exists id :: Reads(s, id, hash))
    && (forall i, j, hash :: Reads(s, i, hash) && Reads(s, j, hash) && hash !in twins ==> i == j)
    && s.sending !! s.reading
  }

  ghost predicate OneLive(s: State) {
    forall i, j :: IsLive(s, i) && IsLive(s, j) ==> i == j
  }

  /** Where a transfer stands says whether its hash is watched,
      whether its intent is recorded, and whether it is open. */
  ghost predicate TransfersStand(s: State, twins: set<PaymentHash>) {
    forall id :: id in s.transfers ==>
      var Transfer(hash, phase) := s.transfers[id];
      && (phase.Recording? && hash !in twins ==> hash in s.watched)
      && (phase.Sending? || phase.Awaiting? || phase.Closing? || phase.Dropping? ==> IsRecorded(s, hash))
      && (phase.Unwatching? || phase.Dropping? ==> !IsOpen(s, hash))
  }

  /** Nothing was sent under the hash since its answer was read, and past its end its intent is closed. */
  ghost predicate AnswersStand(s: State) {
    forall id :: Busy(s, id) ==> AnswerStands(s, Current(s, id))
  }

  predicate AnswerStands(s: State, current: Answering) {
    var Answering(hash, turn, seen) := current;
    && (!turn.Reading? ==> seen == SentUnder(s, hash))
    && (turn.Delivering? || turn.Forgetting? || turn == Deciding(false) ==> !IsOpen(s, hash))
  }

  /** What holds in between turns; of the twins given, each of a hash
      that no intent can be recorded under, less is asked. */
  ghost predicate Keeps(s: State, twins: set<PaymentHash>) {
    && (forall hash :: hash in twins ==> HasTwin(s, hash))
    && OpenIsWatched(s) && Exclusive(s, twins) && OneLive(s) && TransfersStand(s, twins) && AnswersStand(s)
  }

  /** Less is asked of more twins. */
  lemma {:induction false} KeepsOfTwins(s: State, twins: set<PaymentHash>)
    requires Keeps(s, {}) && forall hash :: hash in twins ==> HasTwin(s, hash)
    ensures Keeps(s, twins)
  {
  }

  lemma {:induction false} EndingKeeps(s: State, id: nat, twins: set<PaymentHash>)
    requires Keeps(s, twins) && id in s.transfers
    ensures Keeps(Ended(s, id), twins)
  {
    SameRuns(s, Ended(s, id));
  }

  /** Runs untouched answer the same hashes. */
  lemma {:induction false} SameRuns(s: State, after: State)
    requires after.runs == s.runs
    ensures forall id, hash :: Reads(after, id, hash) <==> Reads(s, id, hash)
    ensures forall id :: IsLive(after, id) <==> IsLive(s, id)
    ensures forall id :: Busy(after, id) <==> Busy(s, id)
    ensures forall id :: Busy(s, id) ==> Current(after, id) == Current(s, id)
  {
  }

  /** Nobody else touches a hash being sent. */
  lemma {:induction false} ForgettingKeeps(s: State, id: nat, phase: Phase, twins: set<PaymentHash>)
    requires Keeps(s, twins) && At(s, id, phase) && (phase.Unwatching? || phase.Dropping?)
    ensures Keeps(ForgetOwn(s, id, phase).value, twins)
  {
    EndingKeeps(s, id, twins);
    var hash := s.transfers[id].hash;
    assert !IsOpen(s, hash);
    var ended, after := Ended(s, id), ForgetOwn(s, id, phase).value;
    SameRuns(ended, after);
    assert forall other :: other in after.transfers ==> after.transfers[other].hash != hash;
    assert forall other :: IsOpen(after, other) <==> IsOpen(ended, other);
  }

  lemma {:induction false} BeginKeeps(s: State, id: nat, hash: PaymentHash, twins: set<PaymentHash>)
    requires Keeps(s, twins) && BeginTransfer(s, id, hash).Some?
    ensures Keeps(BeginTransfer(s, id, hash).value, twins)
  {
    SameRuns(s, BeginTransfer(s, id, hash).value);
  }

  lemma {:induction false} WatchKeeps(s: State, id: nat, twins: set<PaymentHash>)
    requires Keeps(s, twins) && WatchFirst(s, id).Some?
    ensures Keeps(WatchFirst(s, id).value, twins)
  {
    EndingKeeps(s, id, twins);
    SameRuns(s, WatchFirst(s, id).value);
  }

  lemma {:induction false} RecordKeeps(s: State, id: nat, outcome: Recorded, twins: set<PaymentHash>)
    requires Keeps(s, twins) && RecordIntent(s, id, outcome).Some?
    ensures Keeps(RecordIntent(s, id, outcome).value, twins)
  {
    EndingKeeps(s, id, twins);
    var after := RecordIntent(s, id, outcome).value;
    if outcome.Approved? {
      OpeningKeeps(s, id, after, twins);
    } else if outcome.RefusedOtherwise? {
      SameRuns(s, after);
    }
  }

  lemma {:induction false} OpeningKeeps(s: State, id: nat, after: State, twins: set<PaymentHash>)
    requires Keeps(s, twins) && At(s, id, Recording)
    requires var hash := s.transfers[id].hash;
             && after == Moved(s, id, Sending).(debits := s.debits[hash.bound := Debit(hash, true)])
             && !HasTwin(s, hash)
    ensures Keeps(after, twins)
  {
    OpeningKeepsTransfers(s, id, after, twins);
    OpeningKeepsAnswers(s, id, after, twins);
    SameRuns(s, after);
    hide AnswersStand, TransfersStand, OpenIsWatched, Reads, IsLive;
  }

  lemma {:induction false} OpeningKeepsTransfers(s: State, id: nat, after: State, twins: set<PaymentHash>)
    requires Keeps(s, twins) && At(s, id, Recording)
    requires var hash := s.transfers[id].hash;
             && after == Moved(s, id, Sending).(debits := s.debits[hash.bound := Debit(hash, true)])
             && !HasTwin(s, hash)
    ensures OpenIsWatched(after) && TransfersStand(after, twins)
  {
    var hash := s.transfers[id].hash;
    assert forall other :: IsOpen(after, other) ==> other == hash || IsOpen(s, other);
    assert forall other :: other in s.transfers && other != id ==> s.transfers[other].hash != hash;
    hide AnswersStand, OneLive;
  }

  lemma {:induction false} OpeningKeepsAnswers(s: State, id: nat, after: State, twins: set<PaymentHash>)
    requires Keeps(s, twins) && At(s, id, Recording)
    requires var hash := s.transfers[id].hash;
             && after == Moved(s, id, Sending).(debits := s.debits[hash.bound := Debit(hash, true)])
             && !HasTwin(s, hash)
    ensures AnswersStand(after)
  {
    var hash := s.transfers[id].hash;
    SameRuns(s, after);
    assert forall other :: !Reads(s, other, hash);
    forall other | Busy(after, other)
      ensures AnswerStands(after, Current(after, other))
    {
      assert Reads(s, other, Current(s, other).hash);
      assert AnswerStands(s, Current(s, other));
    }
  }

  lemma {:induction false} SendKeeps(s: State, id: nat, twins: set<PaymentHash>)
    requires Keeps(s, twins) && SendPayment(s, id).Some?
    ensures Keeps(SendPayment(s, id).value, twins)
  {
    var hash, after := s.transfers[id].hash, SendPayment(s, id).value;
    SameRuns(s, after);
    forall other | Busy(after, other)
      ensures AnswerStands(after, Current(after, other))
    {
      assert Reads(s, other, Current(s, other).hash);
      assert AnswerStands(s, Current(s, other));
    }
  }

  lemma {:induction false} ReplyKeeps(s: State, id: nat, reply: Reply, twins: set<PaymentHash>)
    requires Keeps(s, twins) && HearReply(s, id, reply).Some?
    ensures Keeps(HearReply(s, id, reply).value, twins)
  {
    EndingKeeps(s, id, twins);
    SameRuns(s, HearReply(s, id, reply).value);
  }

  /** Closing the intent of a hash keeps everything: it only closes. */
  lemma {:induction false} ClosingKeeps(s: State, hash: PaymentHash, twins: set<PaymentHash>)
    requires Keeps(s, twins)
    ensures Keeps(s.(debits := ClosedDebits(s, hash)), twins)
    ensures !IsOpen(s.(debits := ClosedDebits(s, hash)), hash)
  {
    var after := s.(debits := ClosedDebits(s, hash));
    SameRuns(s, after);
    assert forall other :: IsOpen(after, other) ==> IsOpen(s, other);
    forall id | Busy(after, id)
      ensures AnswerStands(after, Current(after, id))
    {
      assert AnswerStands(s, Current(s, id));
    }
  }

  lemma {:induction false} CloseKeeps(s: State, id: nat, twins: set<PaymentHash>)
    requires Keeps(s, twins) && CloseOwn(s, id).Some?
    ensures Keeps(CloseOwn(s, id).value, twins)
  {
    EndingKeeps(s, id, twins);
    var hash := s.transfers[id].hash;
    if IsRecorded(s, hash) {
      ClosingKeeps(s, hash, twins);
      var closed := s.(debits := ClosedDebits(s, hash));
      SameRuns(closed, CloseOwn(s, id).value);
    }
  }

  // ---- Runs

  /** What one run's rewriting leaves of the others. */
  lemma {:induction false} OtherRuns(s: State, id: nat, after: State)
    requires id in s.runs
    requires after.runs == if id in after.runs then s.runs[id := after.runs[id]] else s.runs - {id}
    ensures forall other, hash :: other != id ==> (Reads(after, other, hash) <==> Reads(s, other, hash))
    ensures forall other :: other != id ==> (IsLive(after, other) <==> IsLive(s, other))
    ensures forall other :: other != id ==> (Busy(after, other) <==> Busy(s, other))
    ensures forall other :: other != id && Busy(s, other) ==> Current(after, other) == Current(s, other)
  {
  }

  /** A hash nobody reads may be taken, and so may one of the twins. */
  lemma {:induction false} TakingKeeps(s: State, id: nat, twins: set<PaymentHash>)
    requires Keeps(s, twins) && CanTake(s, id)
    requires s.runs[id].queue[0] !in s.reading || s.runs[id].queue[0] in twins
    ensures Keeps(TakeNext(s, id).value, twins)
  {
    var after, hash := TakeNext(s, id).value, s.runs[id].queue[0];
    OtherRuns(s, id, after);
    assert Reads(after, id, hash);
    forall other | other in after.reading && other !in twins
      ensures exists reader :: Reads(after, reader, other)
    {
      if other != hash {
        var reader :| Reads(s, reader, other);
        assert Reads(after, reader, other);
      }
    }
  }

  lemma {:induction false} TakeKeeps(s: State, id: nat, twins: set<PaymentHash>)
    requires Keeps(s, twins) && TakeNext(s, id).Some? && !TakesRead(s, Take(id))
    ensures Keeps(TakeNext(s, id).value, twins)
  {
    if CanTake(s, id) {
      TakingKeeps(s, id, twins);
    } else {
      var after := TakeNext(s, id).value;
      OtherRuns(s, id, after);
      forall hash | hash in after.reading && hash !in twins
        ensures exists reader :: Reads(after, reader, hash)
      {
        var reader :| Reads(s, reader, hash);
        assert Reads(after, reader, hash);
      }
    }
  }

  lemma {:induction false} ReleasingKeeps(s: State, id: nat, twins: set<PaymentHash>)
    requires Keeps(s, twins) && Busy(s, id)
    ensures Keeps(Released(s, id), twins)
  {
    var after := Released(s, id);
    assert after.runs == s.runs[id := s.runs[id].(current := None)];
    OtherRuns(s, id, after);
    assert Reads(s, id, Current(s, id).hash);
    forall hash | hash in after.reading && hash !in twins
      ensures exists reader :: Reads(after, reader, hash)
    {
      var reader :| Reads(s, reader, hash);
      assert Reads(after, reader, hash);
    }
  }

  /** A run may stand at any turn its answer allows. */
  lemma {:induction false} StandingKeeps(s: State, id: nat, current: Answering, twins: set<PaymentHash>)
    requires Keeps(s, twins) && Busy(s, id) && current.hash == Current(s, id).hash && AnswerStands(s, current)
    ensures Keeps(Standing(s, id, current), twins)
  {
    var after := Standing(s, id, current);
    assert after.runs == s.runs[id := s.runs[id].(current := Some(current))];
    OtherRuns(s, id, after);
    assert forall hash :: Reads(after, id, hash) <==> Reads(s, id, hash);
    assert forall other :: IsLive(after, other) <==> IsLive(s, other);
    forall hash | hash in after.reading && hash !in twins
      ensures exists reader :: Reads(after, reader, hash)
    {
      var reader :| Reads(s, reader, hash);
      assert Reads(after, reader, hash);
    }
  }

  lemma {:induction false} EndingIntentKeeps(s: State, id: nat, twins: set<PaymentHash>)
    requires Keeps(s, twins) && Busy(s, id) && Current(s, id).turn.Ending?
    ensures Keeps(GoOn(s, id).value, twins)
  {
    var hash := Current(s, id).hash;
    ReleasingKeeps(s, id, twins);
    if IsRecorded(s, hash) {
      ClosingKeeps(s, hash, twins);
      var closed := s.(debits := ClosedDebits(s, hash));
      assert AnswerStands(s, Current(s, id));
      StandingKeeps(closed, id, Current(s, id).(turn := Delivering), twins);
      assert GoOn(s, id).value == Standing(closed, id, Current(s, id).(turn := Delivering));
    }
  }

  lemma {:induction false} ForgettingTurnKeeps(s: State, id: nat, twins: set<PaymentHash>)
    requires Keeps(s, twins) && Busy(s, id) && Current(s, id).turn.Forgetting?
    ensures Keeps(GoOn(s, id).value, twins)
  {
    ReleasingKeeps(s, id, twins);
    var hash, released, after := Current(s, id).hash, Released(s, id), GoOn(s, id).value;
    SameRuns(released, after);
    assert AnswerStands(s, Current(s, id));
    assert Reads(s, id, hash);
    assert hash in twins || forall other :: other in s.transfers ==> s.transfers[other].hash != hash;
    assert forall other :: IsOpen(after, other) <==> IsOpen(released, other);
  }

  lemma {:induction false} GoKeeps(s: State, id: nat, twins: set<PaymentHash>)
    requires Keeps(s, twins) && GoOn(s, id).Some?
    ensures Keeps(GoOn(s, id).value, twins)
  {
    var current := Current(s, id);
    assert AnswerStands(s, current);
    if current.turn.Ending? {
      EndingIntentKeeps(s, id, twins);
    } else if current.turn.Forgetting? {
      ForgettingTurnKeeps(s, id, twins);
    } else {
      ReleasingKeeps(s, id, twins);
      hide Keeps;
      match current.turn {
        case Answered(_) => StandingKeeps(s, id, current.(turn := CheckingWatch), twins);
        case CheckingWatch => StandingKeeps(s, id, current.(turn := CheckingIntent), twins);
        case CheckingIntent => StandingKeeps(s, id, current.(turn := Deciding(IsRecorded(s, current.hash))), twins);
        case Deciding(has) => StandingKeeps(s, id, current.(turn := if has then Ending else Delivering), twins);
        case Delivering => StandingKeeps(s, id, current.(turn := Forgetting), twins);
        case _ =>
      }
    }
  }

  lemma {:induction false} ReadKeeps(s: State, id: nat, ended: bool, twins: set<PaymentHash>)
    requires Keeps(s, twins) && ReadAnswer(s, id, ended).Some?
    ensures Keeps(ReadAnswer(s, id, ended).value, twins)
  {
    var hash := Current(s, id).hash;
    StandingKeeps(s, id, Answering(hash, Answered(ended), SentUnder(s, hash)), twins);
  }

  lemma {:induction false} TickKeeps(s: State, id: nat, order: seq<PaymentHash>, twins: set<PaymentHash>)
    requires Keeps(s, twins) && StartRun(s, id, order).Some?
    ensures Keeps(StartRun(s, id, order).value, twins)
  {
    var after := StartRun(s, id, order).value;
    assert forall other, hash :: Reads(after, other, hash) <==> Reads(s, other, hash);
    assert forall other :: IsLive(after, other) ==> other == id;
    forall other | Busy(after, other)
      ensures AnswerStands(after, Current(after, other))
    {
      assert Busy(s, other) && Current(after, other) == Current(s, other);
    }
  }

  lemma {:induction false} AbandonKeeps(s: State, id: nat, twins: set<PaymentHash>)
    requires Keeps(s, twins) && id in s.runs
    ensures Keeps(Next(s, Abandon(id)).value, twins)
  {
    var after := Next(s, Abandon(id)).value;
    assert after.runs == s.runs[id := s.runs[id].(abandoned := true)];
    assert forall other, hash :: Reads(after, other, hash) <==> Reads(s, other, hash);
    assert forall other :: IsLive(after, other) ==> IsLive(s, other);
    forall other | Busy(after, other)
      ensures AnswerStands(after, Current(after, other))
    {
      assert Busy(s, other) && Current(after, other) == Current(s, other);
    }
  }

  lemma {:induction false} KillKeeps(s: State, twins: set<PaymentHash>)
    requires Keeps(s, twins)
    ensures Keeps(Next(s, Kill).value, twins)
  {
    var after := Next(s, Kill).value;
    assert forall hash :: IsOpen(after, hash) <==> IsOpen(s, hash);
  }

  lemma {:induction false} NextKeeps(s: State, action: Action, twins: set<PaymentHash>)
    requires Keeps(s, twins) && Next(s, action).Some? && !TakesRead(s, action)
    ensures Keeps(Next(s, action).value, twins)
  {
    hide Keeps, Ended, BeginTransfer, WatchFirst, RecordIntent, SendPayment, HearReply, CloseOwn, StartRun, TakeNext,
         ReadAnswer, GoOn, Released, TakesRead;
    match action {
      case Begin(id, hash) => BeginKeeps(s, id, hash, twins);
      case Watch(id) => WatchKeeps(s, id, twins);
      case Record(id, outcome) => RecordKeeps(s, id, outcome, twins);
      case Unwatch(id) => ForgettingKeeps(s, id, Unwatching, twins);
      case Send(id) => SendKeeps(s, id, twins);
      case Reply(id, reply) => ReplyKeeps(s, id, reply, twins);
      case Close(id) => CloseKeeps(s, id, twins);
      case Drop(id) => ForgettingKeeps(s, id, Dropping, twins);
      case Fail(id) => EndingKeeps(s, id, twins);
      case Tick(run, order) => TickKeeps(s, run, order, twins);
      case Take(run) => TakeKeeps(s, run, twins);
      case Read(run, ended) => ReadKeeps(s, run, ended, twins);
      case Go(run) => GoKeeps(s, run, twins);
      case Abandon(run) => AbandonKeeps(s, run, twins);
      case Give(run) => ReleasingKeeps(s, run, twins);
      case Kill => KillKeeps(s, twins);
    }
  }

  lemma {:induction false} KeepsFrom(s: State, actions: seq<Action>, twins: set<PaymentHash>)
    requires Keeps(s, twins) && From(s, actions).Some? && Apart(s, actions)
    ensures Keeps(From(s, actions).value, twins)
    decreases |actions|
  {
    if actions != [] {
      hide Next, Keeps, TakesRead;
      NextKeeps(s, actions[0], twins);
      KeepsFrom(Next(s, actions[0]).value, actions[1..], twins);
    }
  }

  /** In every interleaving whose runs keep apart, whatever is abandoned,
      fails or is killed, an open intent's full hash is watched. */
  lemma {:induction false} EveryInterleavingKeeps(actions: seq<Action>)
    requires After(actions).Some? && Apart(START, actions)
    ensures Keeps(After(actions).value, {})
    ensures OpenIsWatched(After(actions).value)
  {
    hide From, Apart;
    assert Keeps(START, {});
    KeepsFrom(START, actions, {});
  }

  /** And no run, abandoned or not, closes or forgets a payment but on an answer
      read after the last send under its hash, with no send in progress. */
  lemma {:induction false} EndsOnTheLatestAnswer(actions: seq<Action>, run: nat)
    requires After(actions).Some? && Apart(START, actions) && Busy(After(actions).value, run)
    requires var turn := Current(After(actions).value, run).turn; turn.Ending? || turn.Forgetting?
    ensures var s := After(actions).value;
            var current := Current(s, run);
            current.seen == SentUnder(s, current.hash) && current.hash !in s.sending
  {
    EveryInterleavingKeeps(actions);
    hide After, Apart;
    var s := After(actions).value;
    assert Reads(s, run, Current(s, run).hash);
    assert AnswerStands(s, Current(s, run));
  }

  /** What any run forgets has no open intent left. */
  lemma {:induction false} ForgetsOnlyClosed(actions: seq<Action>, run: nat)
    requires After(actions).Some? && Apart(START, actions) && Busy(After(actions).value, run)
    requires Current(After(actions).value, run).turn.Forgetting?
    ensures !IsOpen(After(actions).value, Current(After(actions).value, run).hash)
  {
    EveryInterleavingKeeps(actions);
    hide After, Apart;
    var s := After(actions).value;
    assert AnswerStands(s, Current(s, run));
  }

  // ---- Runs that wait for each other keep apart

  /** No tick lists what is watched while a run is left, abandoned or not. */
  predicate Wait(s: State, actions: seq<Action>)
    decreases |actions|
  {
    actions != [] ==>
      (actions[0].Tick? ==> s.runs == map[])
      && (Next(s, actions[0]).Some? ==> Wait(Next(s, actions[0]).value, actions[1..]))
  }

  ghost predicate OneRun(s: State) {
    forall i, j :: i in s.runs && j in s.runs ==> i == j
  }

  lemma {:induction false} OneRunStays(s: State, action: Action)
    requires OneRun(s) && Next(s, action).Some? && (action.Tick? ==> s.runs == map[])
    ensures OneRun(Next(s, action).value)
  {
    if !action.Tick? {
      RunsOnlyEnd(s, action);
      hide Next;
    }
  }

  /** Only a tick adds a run. */
  lemma {:induction false} RunsOnlyEnd(s: State, action: Action)
    requires Next(s, action).Some? && !action.Tick?
    ensures Next(s, action).value.runs.Keys <= s.runs.Keys
  {
    match action {
      case Take(run) => hide GoOn, RecordIntent;
      case Go(run) => GoKeepsRuns(s, run);
      case _ => hide GoOn, TakeNext;
    }
  }

  lemma {:induction false} GoKeepsRuns(s: State, run: nat)
    requires GoOn(s, run).Some?
    ensures GoOn(s, run).value.runs.Keys == s.runs.Keys
  {
  }

  lemma {:induction false} WaitingStaysApart(s: State, actions: seq<Action>)
    requires Keeps(s, {}) && OneRun(s) && Wait(s, actions)
    ensures Apart(s, actions)
    decreases |actions|
  {
    if actions != [] {
      var action := actions[0];
      assert !TakesRead(s, action);
      if Next(s, action).Some? {
        NextKeeps(s, action, {});
        OneRunStays(s, action);
        hide Next, Keeps, OneRun, TakesRead;
        WaitingStaysApart(Next(s, action).value, actions[1..]);
      }
    }
  }

  /** So nothing can go wrong while each run ends before the next begins, as it does when none outlives its deadline. */
  lemma {:induction false} WaitingRunsKeepApart(actions: seq<Action>)
    requires Wait(START, actions)
    ensures Apart(START, actions)
  {
    hide Wait, Apart;
    WaitingStaysApart(START, actions);
  }
}
