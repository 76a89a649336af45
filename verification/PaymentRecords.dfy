/** The payment flow's debit intents are the gate's: what the gate
    answers, and what it records, is a turn of the flow. */
module PaymentRecords {
  import opened Outcomes
  import opened Payments
  import opened Released
  import Gate = Engine
  import Flow = PaymentFlow

  /** The gate's intents as the flow sees them: a hash and whether its intent is open. */
  function DebitsOf(d: Gate.Device): map<Bound, Flow.Debit> {
    map bound | bound in d.intents :: Flow.Debit(d.intents[bound].hash, d.intents[bound].open)
  }

  /** What a transfer makes of the gate's answer; any other failure ends it where it stands. */
  function OutcomeOf(attempt: Outcome<Gate.Device>): Option<Flow.Recorded> {
    if attempt.Accept? then Some(Flow.Approved)
    else match attempt.code
      case IntentOpen => Some(Flow.AlreadyOpen)
      case HashTwin => Some(Flow.RefusedOtherwise)
      case OwnInvoice => Some(Flow.RefusedOtherwise)
      case IntentCharged => Some(Flow.RefusedOtherwise)
      case _ => None
  }

  /** In any reachable state, what the gate answers an attempt with is a
      turn the flow can take, and leaves the same intents. */
  lemma {:induction false} AttemptIsRecorded(events: seq<Runs.Event>, s: Flow.State, id: nat, maximum: nat)
    requires s.debits == DebitsOf(Runs.Run(events)) && Flow.At(s, id, Flow.Recording)
    ensures var d := Runs.Run(events);
            var attempt := Gate.RecordIntent(d, s.transfers[id].hash, maximum);
            match OutcomeOf(attempt)
            case Some(outcome) =>
              && Flow.RecordIntent(s, id, outcome).Some?
              && Flow.RecordIntent(s, id, outcome).value.debits == DebitsOf(Gate.AfterOf(attempt, d))
            case None => DebitsOf(Gate.AfterOf(attempt, d)) == s.debits
  {
    RunsStayCovered(events);
    hide Runs.Run, Covered, Gate.RecordIntent, Flow.RecordIntent, OutcomeOf;
    AnswerIsRecorded(Runs.Run(events), s, id, maximum);
  }

  lemma {:induction false} AnswerIsRecorded(d: Gate.Device, s: Flow.State, id: nat, maximum: nat)
    requires forall bound :: bound in d.intents ==> bound !in d.invoices
    requires s.debits == DebitsOf(d) && Flow.At(s, id, Flow.Recording)
    ensures var attempt := Gate.RecordIntent(d, s.transfers[id].hash, maximum);
            match OutcomeOf(attempt)
            case Some(outcome) =>
              && Flow.RecordIntent(s, id, outcome).Some?
              && Flow.RecordIntent(s, id, outcome).value.debits == DebitsOf(Gate.AfterOf(attempt, d))
            case None => DebitsOf(Gate.AfterOf(attempt, d)) == s.debits
  {
    hide Gate.ChargedAnywhere, Gate.AllHeld;
  }

  /** A close is accepted exactly where the flow finds the intent recorded, and closes that intent alone. */
  lemma {:induction false} CloseIsRecorded(d: Gate.Device, s: Flow.State, hash: PaymentHash)
    requires s.debits == DebitsOf(d)
    ensures Gate.CloseIntent(d, hash).Accept? <==> Flow.IsRecorded(s, hash)
    ensures DebitsOf(Gate.AfterOf(Gate.CloseIntent(d, hash), d)) == Flow.ClosedDebits(s, hash)
  {
  }

  /** Nothing else the device does opens an intent, closes one or moves its hash. */
  lemma {:induction false} OthersLeaveIntents(d: Gate.Device, e: Runs.Event)
    requires !e.Approves? && !e.Ends?
    ensures DebitsOf(Runs.Step(d, e)) == DebitsOf(d)
  {
    var move := Runs.StepMoves(d, e);
    var l, after := Runs.LedgerOf(d), Runs.LedgerOf(Runs.Step(d, e));
    hide Runs.Step;
    MoveLeavesIntents(l, move, after);
  }

  lemma {:induction false} MoveLeavesIntents(l: Runs.Ledger, move: Runs.Move, after: Runs.Ledger)
    requires Runs.Moves(l, move, after) && !move.Budgets? && !move.Shuts?
    ensures after.intents.Keys == l.intents.Keys
    ensures forall bound :: bound in l.intents ==>
              after.intents[bound].hash == l.intents[bound].hash && after.intents[bound].open == l.intents[bound].open
  {
    hide Runs.Reads, Gate.HashesOf;
  }
}
