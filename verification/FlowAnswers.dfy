/** What a transfer and a run of the step do with what they are told: which answer ends a payment,
    which reply takes one back, and what each of them leaves when nothing cuts it off. */
module FlowAnswers {
  import opened Outcomes
  import opened Payments
  import opened PaymentFlow
  import opened PaymentOverlap

  lemma {:induction false} AfterOneMore(actions: seq<Action>, last: Action)
    ensures After(actions + [last])
            == if After(actions).None? then None else Next(After(actions).value, last)
  {
    FromJoins(START, actions, [last]);
    if After(actions).Some? && Next(After(actions).value, last).Some? {
      var none: seq<Action> := [];
      assert [last][1..] == none;
      assert From(Next(After(actions).value, last).value, none) == Next(After(actions).value, last);
    }
  }

  // ---- What a run was answered

  /** What the node last said to a run of the hash it has in hand: whether it ended the payment. */
  function LastRead(actions: seq<Action>, run: nat): Option<bool> {
    if actions == [] then None else
      var last := actions[|actions| - 1];
      if last == Take(run) || last.Kill? then None
      else if last.Read? && last.run == run then Some(last.ended)
      else LastRead(actions[..|actions| - 1], run)
  }

  /** Past its read a run acts on that answer, and past weighing it only on one that ended the payment. */
  ghost predicate ActsOn(s: State, actions: seq<Action>) {
    forall run :: Busy(s, run) && !Current(s, run).turn.Reading? ==>
      LastRead(actions, run)
      == Some(if Current(s, run).turn.Answered? then Current(s, run).turn.ended else true)
  }

  lemma {:induction false} ActsOnOneMore(s: State, actions: seq<Action>, last: Action)
    requires ActsOn(s, actions) && Next(s, last).Some?
    ensures ActsOn(Next(s, last).value, actions + [last])
  {
    var after, more := Next(s, last).value, actions + [last];
    assert more[..|more| - 1] == actions;
    forall run | Busy(after, run) && !Current(after, run).turn.Reading?
      ensures LastRead(more, run)
              == Some(if Current(after, run).turn.Answered? then Current(after, run).turn.ended else true)
    {
      RunTurn(s, last, run);
    }
  }

  /** Where a run can have come from, by one turn. */
  lemma {:induction false} RunTurn(s: State, last: Action, run: nat)
    requires Next(s, last).Some? && Busy(Next(s, last).value, run) && !Current(Next(s, last).value, run).turn.Reading?
    ensures !last.Kill? && last != Take(run) && Busy(s, run)
    ensures Current(Next(s, last).value, run).hash == Current(s, run).hash
    ensures var before, now := Current(s, run).turn, Current(Next(s, last).value, run).turn;
            if last.Read? && last.run == run then now == Answered(last.ended)
            else if last == Go(run) then
              !now.Answered? && !before.Reading? && (before.Answered? ==> before.ended)
            else now == before
  {
    match last {
      case Go(_) => GoTurn(s, last, run);
      case Tick(_, _) => StepTurn(s, last, run);
      case Take(_) => StepTurn(s, last, run);
      case Read(_, _) => StepTurn(s, last, run);
      case Abandon(_) => StepTurn(s, last, run);
      case Give(_) => StepTurn(s, last, run);
      case Kill =>
      case _ => TransferTurnsLeaveRuns(s, last);
    }
  }

  lemma {:induction false} GoTurn(s: State, last: Action, run: nat)
    requires Next(s, last).Some? && last.Go? && Busy(Next(s, last).value, run)
    requires !Current(Next(s, last).value, run).turn.Reading?
    ensures Busy(s, run) && Current(Next(s, last).value, run).hash == Current(s, run).hash
    ensures var before, now := Current(s, run).turn, Current(Next(s, last).value, run).turn;
            if last == Go(run) then !now.Answered? && !before.Reading? && (before.Answered? ==> before.ended)
              else now == before
  {
  }

  lemma {:induction false} StepTurn(s: State, last: Action, run: nat)
    requires Next(s, last).Some? && Busy(Next(s, last).value, run) && !Current(Next(s, last).value, run).turn.Reading?
    requires last.Tick? || last.Take? || last.Read? || last.Abandon? || last.Give?
    ensures last != Take(run) && Busy(s, run) && Current(Next(s, last).value, run).hash == Current(s, run).hash
    ensures var before, now := Current(s, run).turn, Current(Next(s, last).value, run).turn;
            if last.Read? && last.run == run then now == Answered(last.ended) else now == before
  {
  }

  lemma {:induction false} TransferTurnsLeaveRuns(s: State, last: Action)
    requires Next(s, last).Some?
    requires !last.Tick? && !last.Take? && !last.Read? && !last.Go? && !last.Abandon? && !last.Give? && !last.Kill?
    ensures Next(s, last).value.runs == s.runs
  {
  }

  lemma {:induction false} RunsActOnAnswers(actions: seq<Action>)
    requires After(actions).Some?
    ensures ActsOn(After(actions).value, actions)
  {
    if actions != [] {
      var before, last := actions[..|actions| - 1], actions[|actions| - 1];
      assert actions == before + [last];
      AfterOneMore(before, last);
      RunsActOnAnswers(before);
      hide Next, ActsOn;
      ActsOnOneMore(After(before).value, before, last);
    }
  }

  /** In every interleaving whatever, a run that closes, announces or
      forgets a payment was last told that it has ended. */
  lemma {:induction false} EndsOnlyTheEnded(actions: seq<Action>, run: nat)
    requires After(actions).Some? && Busy(After(actions).value, run)
    requires var turn := Current(After(actions).value, run).turn; turn.Ending? || turn.Delivering? || turn.Forgetting?
    ensures LastRead(actions, run) == Some(true)
  {
    RunsActOnAnswers(actions);
    hide After;
  }

  /** After an answer that it has not, the run lets go of the hash and changes no record. */
  lemma {:induction false} NotEndedChangesNothing(s: State, run: nat)
    requires Busy(s, run) && Current(s, run).turn == Reading
    ensures var read := Next(s, Read(run, false)).value;
            var after := Next(read, Go(run));
            && Next(s, Read(run, false)).Some? && after.Some?
            && after.value == s.(reading := s.reading - {Current(s, run).hash}, runs := after.value.runs)
            && !Busy(after.value, run)
  {
  }

  /** After an answer that it has, a run left alone closes the intent,
      if one is recorded, forgets the hash and lets go of it. */
  lemma {:induction false} EndedIsForgotten(s: State, run: nat)
    requires Busy(s, run) && IsLive(s, run) && Current(s, run).turn == Reading
    requires Current(s, run).hash in s.watched
    ensures var hash := Current(s, run).hash;
            var actions := Passes(run, IsRecorded(s, hash)) + [Go(run)];
            && From(s, actions).Some?
            && var after := From(s, actions).value;
               && after.debits == (if hash.bound in s.debits && s.debits[hash.bound].hash == hash
                                   then s.debits[hash.bound := Debit(hash, false)] else s.debits)
               && after.watched == s.watched - {hash} && after.reading == s.reading - {hash}
               && after.sending == s.sending && after.transfers == s.transfers && after.sent == s.sent
               && !Busy(after, run)
  {
    var hash := Current(s, run).hash;
    PassesLead(s, run);
    var passes, ending := Passes(run, IsRecorded(s, hash)), AtForgetting(s, run);
    FromJoins(s, passes, [Go(run)]);
    assert Next(ending, Go(run)).Some?;
    var last := Next(ending, Go(run)).value;
    OneLeads(ending, Go(run), last);
  }

  /** A hash no longer listed is let go of, ended or not. */
  lemma {:induction false} UnlistedIsLeft(s: State, run: nat)
    requires Busy(s, run) && IsLive(s, run) && Current(s, run).turn == CheckingWatch
    requires Current(s, run).hash !in s.watched
    ensures var after := Next(s, Go(run));
            && after.Some?
            && after.value == s.(reading := s.reading - {Current(s, run).hash}, runs := after.value.runs)
            && !Busy(after.value, run)
  {
  }

  /** A run that was abandoned records nothing more once it reads what was answered. */
  lemma {:induction false} AbandonedIsLeft(s: State, run: nat, ended: bool)
    requires Busy(s, run) && !IsLive(s, run)
    requires var turn := Current(s, run).turn;
             turn == Answered(ended) || turn == Deciding(true) || turn == Delivering
    ensures var after := Next(s, Go(run));
            && after.Some?
            && after.value == s.(reading := s.reading - {Current(s, run).hash}, runs := after.value.runs)
            && !Busy(after.value, run)
  {
  }

  // ---- What each turn records

  /** The only turns that open or close an intent, and what they leave. */
  lemma {:induction false} IntentsChangeOnlyBy(s: State, action: Action)
    requires Next(s, action).Some?
    ensures var debits := Next(s, action).value.debits;
            match action
            case Record(id, outcome) =>
              id in s.transfers
              && debits == (if outcome.Approved?
                            then s.debits[s.transfers[id].hash.bound := Debit(s.transfers[id].hash, true)]
                              else s.debits)
            case Close(id) => id in s.transfers && debits == ClosedDebits(s, s.transfers[id].hash)
            case Go(run) =>
              Busy(s, run)
              && debits == (if Current(s, run).turn == Ending then ClosedDebits(s, Current(s, run).hash) else s.debits)
            case _ => debits == s.debits
  {
  }

  /** The only turns that change the list, and what they leave. */
  lemma {:induction false} ListChangesOnlyBy(s: State, action: Action)
    requires Next(s, action).Some?
    ensures var watched := Next(s, action).value.watched;
            match action
            case Watch(id) => id in s.transfers && watched == s.watched + {s.transfers[id].hash}
            case Unwatch(id) => id in s.transfers && watched == s.watched - {s.transfers[id].hash}
            case Drop(id) => id in s.transfers && watched == s.watched - {s.transfers[id].hash}
            case Go(run) =>
              Busy(s, run)
              && watched == (if Current(s, run).turn == Forgetting then s.watched - {Current(s, run).hash}
                else s.watched)
            case _ => watched == s.watched
  {
    hide RecordIntent, HearReply, CloseOwn, SendPayment;
    if action.Record? || action.Reply? || action.Close? || action.Send? {
      TalkLeavesList(s, action);
    }
  }

  lemma {:induction false} TalkLeavesList(s: State, action: Action)
    requires Next(s, action).Some? && (action.Record? || action.Reply? || action.Close? || action.Send?)
    ensures Next(s, action).value.watched == s.watched
  {
  }

  // ---- What a transfer was told

  /** The last turn a transfer took. */
  function LastOf(actions: seq<Action>, id: nat): Option<Action> {
    if actions == [] then None else
      var last := actions[|actions| - 1];
      if Takes(last, id) then Some(last) else if last.Kill? then None else LastOf(actions[..|actions| - 1], id)
  }

  predicate Takes(action: Action, id: nat) {
    match action
    case Begin(other, _) => other == id
    case Watch(other) => other == id
    case Record(other, _) => other == id
    case Unwatch(other) => other == id
    case Send(other) => other == id
    case Reply(other, _) => other == id
    case Close(other) => other == id
    case Drop(other) => other == id
    case Fail(other) => other == id
    case _ => false
  }

  /** Where a transfer stands is what it was told last: it sends what was
      approved, takes back what was refused, and nothing else. */
  function StandsAfter(phase: Phase, id: nat, hash: PaymentHash): Action {
    match phase
    case Watching => Begin(id, hash)
    case Recording => Watch(id)
    case Unwatching => Record(id, RefusedOtherwise)
    case Sending => Record(id, Approved)
    case Awaiting => Send(id)
    case Closing => Reply(id, Refused)
    case Dropping => Close(id)
  }

  ghost predicate Told(s: State, actions: seq<Action>) {
    forall id :: id in s.transfers ==>
      LastOf(actions, id) == Some(StandsAfter(s.transfers[id].phase, id, s.transfers[id].hash))
  }

  lemma {:induction false} ToldOneMore(s: State, actions: seq<Action>, last: Action)
    requires Told(s, actions) && Next(s, last).Some?
    ensures Told(Next(s, last).value, actions + [last])
  {
    var after, more := Next(s, last).value, actions + [last];
    assert more[..|more| - 1] == actions;
    forall id | id in after.transfers
      ensures LastOf(more, id) == Some(StandsAfter(after.transfers[id].phase, id, after.transfers[id].hash))
    {
      if Takes(last, id) {
        TurnTaken(s, last, id);
      } else {
        TurnNotTaken(s, last, id);
      }
    }
  }

  lemma {:induction false} TurnTaken(s: State, last: Action, id: nat)
    requires Next(s, last).Some? && Takes(last, id) && id in Next(s, last).value.transfers
    ensures last == StandsAfter(Next(s, last).value.transfers[id].phase, id, Next(s, last).value.transfers[id].hash)
  {
  }

  lemma {:induction false} TurnNotTaken(s: State, last: Action, id: nat)
    requires Next(s, last).Some? && !Takes(last, id) && id in Next(s, last).value.transfers
    ensures id in s.transfers && s.transfers[id] == Next(s, last).value.transfers[id] && !last.Kill?
  {
    hide StartRun, TakeNext, GoOn, ReadAnswer;
    if last.Tick? || last.Take? || last.Go? || last.Read? {
      StepLeavesTransfers(s, last);
    }
  }

  lemma {:induction false} StepLeavesTransfers(s: State, last: Action)
    requires Next(s, last).Some? && (last.Tick? || last.Take? || last.Go? || last.Read?)
    ensures Next(s, last).value.transfers == s.transfers
  {
  }

  /** In every interleaving, a transfer is about to do what it was last told to: to send what the gate
      approved, to close what the node refused, to unwatch what the gate refused with nothing open. */
  lemma {:induction false} TransfersDoAsTold(actions: seq<Action>)
    requires After(actions).Some?
    ensures Told(After(actions).value, actions)
  {
    if actions != [] {
      var before, last := actions[..|actions| - 1], actions[|actions| - 1];
      assert actions == before + [last];
      AfterOneMore(before, last);
      TransfersDoAsTold(before);
      hide Next, Told;
      ToldOneMore(After(before).value, before, last);
    }
  }

  // ---- A transfer left alone

  /** The turns a transfer takes up to its reply. */
  function UpToReply(id: nat, hash: PaymentHash, reply: PaymentFlow.Reply): seq<Action> {
    [Begin(id, hash)] + [Watch(id)] + [Record(id, Approved)] + [Send(id)] + [Reply(id, reply)]
  }

  predicate CanPay(s: State, id: nat, hash: PaymentHash) {
    && id !in s.transfers && hash !in s.sending && hash !in s.reading && hash !in s.watched
    && !IsOpen(s, hash) && !HasTwin(s, hash)
  }

  /** The state with one more payment on its way. */
  function WithSent(s: State, hash: PaymentHash): State {
    s.(watched := s.watched + {hash}, debits := s.debits[hash.bound := Debit(hash, true)],
       sent := s.sent[hash := SentUnder(s, hash) + 1])
  }

  /** A transfer whose payment the node has been asked for. */
  function Asked(s: State, id: nat, hash: PaymentHash, phase: Phase): State {
    WithSent(s, hash).(sending := s.sending + {hash}, transfers := s.transfers[id := Transfer(hash, phase)])
  }

  lemma {:induction false} RecordsLead(s: State, id: nat, hash: PaymentHash)
    requires CanPay(s, id, hash)
    ensures Leads(s, [Begin(id, hash)] + [Watch(id)] + [Record(id, Approved)],
                  Asked(s, id, hash, PaymentFlow.Sending).(sent := s.sent))
  {
    var s1 := Next(s, Begin(id, hash)).value;
    var s2 := Next(s1, Watch(id)).value;
    var s3 := Asked(s, id, hash, PaymentFlow.Sending).(sent := s.sent);
    assert Next(s2, Record(id, Approved)).value.transfers == s3.transfers;
    OneLeads(s, Begin(id, hash), s1);
    hide Leads;
    Then(s, [Begin(id, hash)], s1, Watch(id), s2);
    Then(s, [Begin(id, hash)] + [Watch(id)], s2, Record(id, Approved), s3);
  }

  lemma {:induction false} AsksLead(s: State, id: nat, hash: PaymentHash)
    requires CanPay(s, id, hash)
    ensures Leads(s, [Begin(id, hash)] + [Watch(id)] + [Record(id, Approved)] + [Send(id)],
            Asked(s, id, hash, Awaiting))
  {
    RecordsLead(s, id, hash);
    hide Leads;
    var s3, s4 := Asked(s, id, hash, PaymentFlow.Sending).(sent := s.sent), Asked(s, id, hash, Awaiting);
    assert Next(s3, Send(id)).value.transfers == s4.transfers;
    Then(s, [Begin(id, hash)] + [Watch(id)] + [Record(id, Approved)], s3, Send(id), s4);
  }

  lemma {:induction false} RepliesLead(s: State, id: nat, hash: PaymentHash, reply: PaymentFlow.Reply)
    requires CanPay(s, id, hash)
    ensures Leads(s, UpToReply(id, hash, reply), if reply.Refused? then Asked(s, id, hash, Closing)
            else WithSent(s, hash))
  {
    AsksLead(s, id, hash);
    hide Leads;
    var asked, after := Asked(s, id, hash, Awaiting), if reply.Refused? then Asked(s, id, hash, Closing)
      else WithSent(s, hash);
    var heard := Next(asked, Reply(id, reply)).value;
    assert heard.transfers == after.transfers && heard.sending == after.sending;
    Then(s, [Begin(id, hash)] + [Watch(id)] + [Record(id, Approved)] + [Send(id)], asked, Reply(id, reply), after);
  }

  /** A payment delivered, found running, or left unknown stays approved and followed. */
  lemma {:induction false} SentIsFollowed(s: State, id: nat, hash: PaymentHash, reply: PaymentFlow.Reply)
    requires CanPay(s, id, hash) && !reply.Refused?
    ensures From(s, UpToReply(id, hash, reply)) == Some(WithSent(s, hash))
  {
    RepliesLead(s, id, hash, reply);
    hide From, Apart;
  }

  /** A payment refused is taken back: its intent closed, its hash off the list. */
  lemma {:induction false} RefusedIsTakenBack(s: State, id: nat, hash: PaymentHash)
    requires CanPay(s, id, hash)
    ensures From(s, UpToReply(id, hash, Refused) + [Close(id)] + [Drop(id)])
            == Some(s.(debits := s.debits[hash.bound := Debit(hash, false)],
                       sent := s.sent[hash := SentUnder(s, hash) + 1]))
  {
    RepliesLead(s, id, hash, Refused);
    TakesBack(s, id, hash);
    hide Leads, UpToReply, Asked;
    var s6 := Next(Asked(s, id, hash, Closing), Close(id)).value;
    var s7 := Next(s6, Drop(id)).value;
    Then(s, UpToReply(id, hash, Refused), Asked(s, id, hash, Closing), Close(id), s6);
    Then(s, UpToReply(id, hash, Refused) + [Close(id)], s6, Drop(id), s7);
    LeadsGoes(s, UpToReply(id, hash, Refused) + [Close(id)] + [Drop(id)], s7);
  }

  lemma {:induction false} TakesBack(s: State, id: nat, hash: PaymentHash)
    requires CanPay(s, id, hash)
    ensures var s6 := Next(Asked(s, id, hash, Closing), Close(id));
            && s6.Some? && Next(s6.value, Drop(id))
            == Some(s.(debits := s.debits[hash.bound := Debit(hash, false)],
                       sent := s.sent[hash := SentUnder(s, hash) + 1]))
  {
    var s6 := Next(Asked(s, id, hash, Closing), Close(id)).value;
    assert s6.transfers == s.transfers[id := Transfer(hash, Dropping)];
    assert s6.debits == s.debits[hash.bound := Debit(hash, false)];
    var s7 := Next(s6, Drop(id)).value;
    assert s7.transfers == s.transfers && s7.sending == s.sending && s7.watched == s.watched;
  }

  lemma {:induction false} LeadsGoes(s: State, actions: seq<Action>, after: State)
    requires Leads(s, actions, after)
    ensures From(s, actions) == Some(after)
  {
  }

  /** A hash already followed, or being sent or read, starts nothing. */
  lemma {:induction false} BusyHashIsRefused(s: State, id: nat, hash: PaymentHash)
    requires id !in s.transfers
    ensures Next(s, Begin(id, hash)).None? <==> hash in s.sending || hash in s.reading
    ensures Next(s, Begin(id, hash)).Some? && hash in s.watched ==>
              Next(Next(s, Begin(id, hash)).value, Watch(id)) == Some(s)
  {
    if hash !in s.sending && hash !in s.reading {
      var s1 := Next(s, Begin(id, hash)).value;
      assert s1.transfers - {id} == s.transfers && s1.sending - {hash} == s.sending;
    }
  }

  /** A gate that refuses leaves the list as it found it, but for an
      intent that is open, whose hash stays for the step to find. */
  lemma {:induction false} GateRefuses(s: State, id: nat, hash: PaymentHash)
    requires id !in s.transfers && hash !in s.sending && hash !in s.reading && hash !in s.watched
    ensures var watching := Next(Next(s, Begin(id, hash)).value, Watch(id)).value;
            && (IsOpen(s, hash) ==>
                  Next(watching, Record(id, AlreadyOpen)) == Some(s.(watched := s.watched + {hash})))
            && (!IsOpen(s, hash) ==>
                  && Next(watching, Record(id, RefusedOtherwise)).Some?
                  && Next(Next(watching, Record(id, RefusedOtherwise)).value, Unwatch(id)) == Some(s))
  {
    var s1 := Next(s, Begin(id, hash)).value;
    var s2 := Next(s1, Watch(id)).value;
    assert s2.transfers - {id} == s.transfers && s2.sending - {hash} == s.sending && s2.watched - {hash} == s.watched;
    if !IsOpen(s, hash) {
      var s3 := Next(s2, Record(id, RefusedOtherwise)).value;
      assert s3.transfers - {id} == s.transfers;
    }
  }

  // ---- A run left alone

  /** With no run going on, a tick lists all that is watched, once for any name not taken. */
  lemma {:induction false} TickListsAll(s: State, run: nat, order: seq<PaymentHash>)
    requires run !in s.runs && forall other :: other in s.runs ==> s.runs[other].abandoned
    ensures Next(s, Tick(run, order)).Some? <==> forall hash :: hash in order <==> hash in s.watched
    ensures Next(s, Tick(run, order)).Some? ==>
              Next(s, Tick(run, order)).value == s.(runs := s.runs[run := Run(order, false, None)])
  {
    assert forall hash :: hash in order <==> hash in (set h | h in order);
  }

  /** A run between two hashes ends once abandoned or done, passes over a hash being sent, and reads any other. */
  lemma {:induction false} NextHashIsTaken(s: State, id: nat)
    requires id in s.runs && !Busy(s, id)
    ensures var run, after := s.runs[id], Next(s, Take(id));
            && after.Some?
            && if run.abandoned || run.queue == [] then after.value == s.(runs := s.runs - {id})
               else if run.queue[0] in s.sending
               then after.value == s.(runs := s.runs[id := Run(run.queue[1..], false, None)])
               else
                 var now := Run(run.queue[1..], false, Some(Answering(run.queue[0], Reading, 0)));
                 after.value == s.(reading := s.reading + {run.queue[0]}, runs := s.runs[id := now])
  {
  }
}
