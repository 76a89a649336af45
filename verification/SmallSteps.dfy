/** Claims and payment records written read by read and write by write, beside the writers that wait
    for nobody: whatever state they are cut off in is a state of a run of whole steps. */
module SmallSteps {
  import opened Outcomes
  import opened Payments
  import opened HoldRelease
  import opened Watchtower
  import opened Records
  import opened Engine
  import opened Runs
  import opened SignOnce
  import opened Interleaving

  /** How far a claim has come: reading payment records, reading other channels, or filing before its write. */
  datatype Phase = Reading(hashes: set<Bound>) | Looking(others: set<nat>) | Filing(hashes: set<Bound>)

  /** What holds the balance lane: nothing, an accepted answer to write, or a claim with what it has read. */
  datatype Pending =
    | Idle
    | Answered(e: Event, answer: Device)
    | Claiming(index: nat, claim: Claim, allowReuse: bool, record: Record, context: Context, phase: Phase)

  /** The records, what holds the lane, and every session a claim was answered for. */
  datatype State = State(device: Device, pending: Pending, served: set<SlotServed>)

  datatype Turn =
    | Elsewhere(e: Event)
    | Asks(e: Event)
    | Puts
    | Starts(index: nat, claim: Claim, allowReuse: bool)
    | ReadsUnder(hash: Bound)
    | Looks
    | LooksAt(other: nat)
    | Decides
    | Files(hash: Bound)
    | Writes
    | Kills

  /** The steps that rewrite one payment record in the balance lane. */
  predicate OnRecords(e: Event) {
    e.Approves? || e.Ends? || e.Bills? || e.Releases?
  }

  /** The hashes a claim reads payment records under. */
  function Involved(claim: Claim, record: Record): set<Bound> {
    HashesOf(TlcsOf(claim.operation) + record.views.remote.tlcs + record.views.local.tlcs)
  }

  function ToFile(claim: Claim, record: Record): set<Bound> {
    if IsRepeat(record, claim) then {} else HashesOf(TlcsOf(claim.operation))
  }

  // ---- The turns of a claim

  function Started(d: Device, index: nat, claim: Claim, allowReuse: bool): Pending
    requires index in d.channels
  {
    var record := d.channels[index];
    var phase := if claim.operation.CommitmentTx? then Reading(Involved(claim, record)) else Looking({});
    Claiming(index, claim, allowReuse, record, NO_CONTEXT, phase)
  }

  function WithRead(d: Device, context: Context, hash: Bound): Context {
    context.(
      intents := if hash in d.intents then context.intents[hash := d.intents[hash]] else context.intents,
      invoices := if hash in d.invoices then context.invoices[hash := d.invoices[hash]] else context.invoices)
  }

  function ReadUnder(d: Device, p: Pending, hash: Bound): Option<Pending> {
    if !p.Claiming? || !p.phase.Reading? || hash !in p.phase.hashes then None
    else Some(p.(context := WithRead(d, p.context, hash), phase := Reading(p.phase.hashes - {hash})))
  }

  function Look(p: Pending): Option<Pending> {
    if !p.Claiming? || p.phase != Reading({}) then None
    else Some(p.(phase := Looking(ListedOn(p.context.intents, p.context.invoices) - {p.index})))
  }

  /** A channel without a record ends the claim. */
  function LookAt(d: Device, p: Pending, other: nat): Option<Pending> {
    if !p.Claiming? || !p.phase.Looking? || other !in p.phase.others then None
    else if other !in d.channels then Some(Idle)
    else
      var others := p.context.others[other := d.channels[other].views];
      Some(p.(context := p.context.(others := others), phase := Looking(p.phase.others - {other})))
  }

  ghost function Decision(p: Pending): Option<Pending> {
    if !p.Claiming? || p.phase != Looking({}) then None
    else if Decide(p.claim, p.allowReuse, p.record, p.context).Refuse? then Some(Idle)
    else Some(p.(phase := Filing(ToFile(p.claim, p.record))))
  }

  function FileOne(s: State, hash: Bound): Option<State> {
    var p := s.pending;
    if !p.Claiming? || !p.phase.Filing? || hash !in p.phase.hashes then None
    else Some(s.(device := File(s.device, {hash}, p.index), pending := p.(phase := Filing(p.phase.hashes - {hash}))))
  }

  /** The decision once more, on the record as it is by now; a refusal writes nothing. */
  ghost function Write(s: State): Option<State> {
    var p := s.pending;
    if !p.Claiming? || p.phase != Filing({}) || p.index !in s.device.channels then None else
      var decided := Decide(p.claim, p.allowReuse, s.device.channels[p.index], p.context);
      if decided.Refuse? then Some(s.(pending := Idle)) else
        var channels := s.device.channels[p.index := decided.value.record];
        Some(State(s.device.(channels := channels), Idle,
                   s.served + {SlotServed(p.index, SlotOf(p.claim), p.claim.session)}))
  }

  ghost function Put(s: State): Option<State> {
    if !s.pending.Answered? then None else
      var answer := s.pending.answer;
      Some(s.(device := s.device.(intents := answer.intents, invoices := answer.invoices), pending := Idle))
  }

  /** A record's step is answered on what is stored; a refusal writes nothing. */
  ghost function Ask(s: State, e: Event): Option<State> {
    if !s.pending.Idle? || !OnRecords(e) then None
    else if Attempt(s.device, e).Refuse? then Some(s)
    else Some(s.(pending := Answered(e, Attempt(s.device, e).value)))
  }

  /** A claim past the dispatch and its own checks waits for the lane, and then reads its channel's record. */
  ghost function Start(s: State, index: nat, claim: Claim, allowReuse: bool): Option<State> {
    if !s.pending.Idle? || DispatchFault(claim).Some? || ClaimFault(s.device, index, claim).Some? then None
    else Some(s.(pending := Started(s.device, index, claim, allowReuse)))
  }

  function WithPending(s: State, pending: Option<Pending>): Option<State> {
    if pending.None? then None else Some(s.(pending := pending.value))
  }

  /** One turn: of whoever holds the lane, of a writer outside it, or the end of the process. */
  ghost function Next(s: State, turn: Turn): Option<State> {
    match turn
    case Elsewhere(e) => if Outside(e) then Some(s.(device := Step(s.device, e))) else None
    case Asks(e) => Ask(s, e)
    case Puts => Put(s)
    case Starts(index, claim, allowReuse) => Start(s, index, claim, allowReuse)
    case ReadsUnder(hash) => WithPending(s, ReadUnder(s.device, s.pending, hash))
    case Looks => WithPending(s, Look(s.pending))
    case LooksAt(other) => WithPending(s, LookAt(s.device, s.pending, other))
    case Decides => WithPending(s, Decision(s.pending))
    case Files(hash) => FileOne(s, hash)
    case Writes => Write(s)
    case Kills => Some(s.(pending := Idle))
  }

  const START: State := State(NO_RECORDS, Idle, {})

  ghost function After(turns: seq<Turn>): Option<State> {
    if turns == [] then Some(START) else
      var before := After(turns[..|turns| - 1]);
      if before.None? then None else Next(before.value, turns[|turns| - 1])
  }

  // ---- What a state has of a run

  /** The payment records read so far are the device's. */
  predicate HasRead(d: Device, context: Context, hashes: set<Bound>) {
    context.intents == IntentsUnder(d.intents, hashes) && context.invoices == InvoicesUnder(d.invoices, hashes)
  }

  /** The other channels looked at so far show what the device holds of them. */
  predicate HasLooked(d: Device, context: Context, looked: set<nat>) {
    looked <= d.channels.Keys && context.others == OtherViews(d, looked)
  }

  /** A claim has read what is there, and has the record as it was before others wrote evidence and claims to it. */
  ghost predicate ClaimStands(d: Device, p: Pending)
    requires p.Claiming?
  {
    && DispatchFault(p.claim).None? && ClaimFault(d, p.index, p.claim).None?
    && OutsideWritten(p.record, d.channels[p.index])
    && match p.phase
       case Reading(hashes) =>
         && p.claim.operation.CommitmentTx? && hashes <= Involved(p.claim, p.record)
         && HasRead(d, p.context, Involved(p.claim, p.record) - hashes) && p.context.others == map[]
       case Looking(others) =>
         if p.claim.operation.CommitmentTx? then
           var listed := ListedOn(p.context.intents, p.context.invoices) - {p.index};
           && HasRead(d, p.context, Involved(p.claim, p.record))
           && others <= listed && HasLooked(d, p.context, listed - others)
         else others == {} && p.context == NO_CONTEXT
       case Filing(hashes) =>
         && hashes <= ToFile(p.claim, p.record)
         && LoadContext(d, p.index, p.claim.operation) == Accept(p.context)
         && CheckAndClaim(d, p.index, p.claim, p.allowReuse).Accept?
  }

  /** The hashes a claim has filed its channel under so far. */
  function Filed(p: Pending): set<Bound> {
    if p.Claiming? && p.phase.Filing? then ToFile(p.claim, p.record) - p.phase.hashes else {}
  }

  function IndexOf(p: Pending): nat {
    if p.Claiming? then p.index else 0
  }

  /** The answer to write is what the step would write now. */
  ghost predicate AnswerStands(d: Device, e: Event, answer: Device) {
    && OnRecords(e) && Attempt(d, e).Accept?
    && Attempt(d, e).value == d.(intents := answer.intents, invoices := answer.invoices)
  }

  /** The state is a run's, but for the hashes a claim has filed and not yet written. */
  ghost predicate Stands(s: State, events: seq<Event>) {
    && s.served == ServedIn(events)
    && s.device == File(Run(events), Filed(s.pending), IndexOf(s.pending))
    && (s.pending.Answered? ==> AnswerStands(Run(events), s.pending.e, s.pending.answer))
    && (s.pending.Claiming? ==> ClaimStands(Run(events), s.pending))
  }

  lemma {:induction false} FilesNone(d: Device, index: nat)
    ensures File(d, {}, index) == d
  {
    assert FiledIntents(d.intents, {}, index) == d.intents && FiledInvoices(d.invoices, {}, index) == d.invoices;
  }

  lemma {:induction false} FilesOneMore(d: Device, hashes: set<Bound>, hash: Bound, index: nat)
    ensures File(File(d, hashes, index), {hash}, index) == File(d, hashes + {hash}, index)
  {
    var once, both := File(d, hashes, index), File(d, hashes + {hash}, index);
    assert FiledIntents(once.intents, {hash}, index) == both.intents;
    assert FiledInvoices(once.invoices, {hash}, index) == both.invoices;
  }

  lemma {:induction false} RunOneMore(events: seq<Event>, e: Event)
    ensures Run(events + [e]) == Step(Run(events), e)
    ensures ServedIn(events + [e])
            == ServedIn(events)
               + if Answers(Run(events), e) then {SlotServed(e.index, SlotOf(e.claim), e.claim.session)} else {}
  {
    assert (events + [e])[..|events|] == events;
  }

  // ---- Writers outside the lane

  /** They read and write nothing a claim files. */
  lemma {:induction false} OutsideBesideFiling(d: Device, hashes: set<Bound>, index: nat, e: Event)
    requires Outside(e)
    ensures Step(File(d, hashes, index), e) == File(Step(d, e), hashes, index)
  {
    hide DecideSpend, WithSignature, WithApplied, FiledIntents, FiledInvoices;
  }

  /** An accepted answer stays the answer: it reads what those writers leave as it was. */
  lemma {:induction false} SameAnswer(d: Device, later: Device, e: Event, answer: Device)
    requires OutsideWrittenAll(d, later) && AnswerStands(d, e, answer)
    ensures AnswerStands(later, e, answer)
  {
    hide ReleaseFault, Charges;
    match e {
      case Approves(hash, _) =>
        if hash.bound in d.intents {
          SameListed(d, later, d.intents[hash.bound].channels);
        }
      case Releases(hash, _) =>
        if hash.bound in d.invoices && AllHeld(d, d.invoices[hash.bound].channels) {
          SameListed(d, later, d.invoices[hash.bound].channels);
        }
      case _ =>
    }
  }

  lemma {:induction false} SameListed(d: Device, later: Device, listed: seq<nat>)
    requires OutsideWrittenAll(d, later)
    ensures AllHeld(d, listed) ==> AllHeld(later, listed) && ViewsOf(later, listed) == ViewsOf(d, listed)
    ensures AllHeld(d, listed) ==> forall index :: index in listed ==>
            later.channels[index].views == d.channels[index].views
  {
    forall index | index in listed && index in d.channels
      ensures later.channels[index].views == d.channels[index].views
    {
      assert OutsideWritten(d.channels[index], later.channels[index]);
    }
  }

  lemma {:induction false} SameLooked(d: Device, later: Device, context: Context, looked: set<nat>)
    requires OutsideWrittenAll(d, later) && HasLooked(d, context, looked)
    ensures HasLooked(later, context, looked)
  {
    forall other | other in looked
      ensures later.channels[other].views == d.channels[other].views
    {
      assert OutsideWritten(d.channels[other], later.channels[other]);
    }
  }

  /** A claim's reads stand through a write outside the lane, and so does its decision. */
  lemma {:induction false} SameClaim(d: Device, e: Event, p: Pending)
    requires Outside(e) && p.Claiming? && ClaimStands(d, p)
    ensures ClaimStands(Step(d, e), p)
  {
    var later := Step(d, e);
    OutsideStep(d, e);
    assert OutsideWritten(d.channels[p.index], later.channels[p.index]);
    hide Step, Decide, LoadContext, Involved, ListedOn, CheckAndClaim;
    match p.phase {
      case Reading(_) =>
      case Looking(others) =>
        if p.claim.operation.CommitmentTx? {
          SameLooked(d, later, p.context, ListedOn(p.context.intents, p.context.invoices) - {p.index} - others);
        }
      case Filing(_) =>
        SameContext(d, later, p.index, p.claim.operation);
        assert RunFrom(d, [e]) == later by {
          assert [e][..0] == [];
          assert RunFrom(d, []) == d;
        }
        DecidedIsWritten(d, p.index, p.claim, p.allowReuse, [e]);
    }
  }

  lemma {:induction false} ElsewhereStands(s: State, events: seq<Event>, e: Event)
    requires Stands(s, events) && Outside(e)
    ensures Stands(s.(device := Step(s.device, e)), events + [e])
  {
    var d := Run(events);
    RunOneMore(events, e);
    OutsideBesideFiling(d, Filed(s.pending), IndexOf(s.pending), e);
    OutsideStep(d, e);
    hide Run, Step, ServedIn, File, Filed, ClaimStands, AnswerStands, OutsideWrittenAll;
    if s.pending.Answered? {
      SameAnswer(d, Step(d, e), s.pending.e, s.pending.answer);
    }
    if s.pending.Claiming? {
      SameClaim(d, e, s.pending);
    }
  }

  // ---- Payment records

  lemma {:induction false} AskStands(s: State, events: seq<Event>, e: Event)
    requires Stands(s, events) && Ask(s, e).Some?
    ensures Stands(Ask(s, e).value, events)
  {
    FilesNone(Run(events), 0);
    hide Run, ServedIn, File;
    if Attempt(s.device, e).Accept? {
      RecordsAlone(s.device, e);
      hide Attempt;
    }
  }

  /** A record's step rewrites payment records alone. */
  lemma {:induction false} RecordsAlone(d: Device, e: Event)
    requires OnRecords(e) && Attempt(d, e).Accept?
    ensures Attempt(d, e).value
            == d.(intents := Attempt(d, e).value.intents, invoices := Attempt(d, e).value.invoices)
  {
    hide ReleaseFault, ChargedAnywhere;
  }

  lemma {:induction false} PutStands(s: State, events: seq<Event>) returns (after: seq<Event>)
    requires Stands(s, events) && Put(s).Some?
    ensures Stands(Put(s).value, after)
  {
    var d, e := Run(events), s.pending.e;
    after := events + [e];
    FilesNone(d, 0);
    RunOneMore(events, e);
    assert Step(d, e) == Attempt(d, e).value;
    FilesNone(Step(d, e), 0);
    hide Run, Step, Attempt, ServedIn, File;
  }

  // ---- A claim

  lemma {:induction false} StartStands(s: State, events: seq<Event>, index: nat, claim: Claim, allowReuse: bool)
    requires Stands(s, events) && Start(s, index, claim, allowReuse).Some?
    ensures Stands(Start(s, index, claim, allowReuse).value, events)
  {
    FilesNone(Run(events), 0);
    FilesNone(Run(events), index);
    hide Run, ServedIn, File, HashesOf, LoadContext, CheckAndClaim;
    var record := s.device.channels[index];
    assert Involved(claim, record) - Involved(claim, record) == {};
    NothingUnder(s.device.intents, s.device.invoices);
  }

  lemma {:induction false} ReadStands(d: Device, p: Pending, hash: Bound)
    requires p.Claiming? && ClaimStands(d, p) && ReadUnder(d, p, hash).Some?
    ensures ClaimStands(d, ReadUnder(d, p, hash).value)
  {
    var all, done := Involved(p.claim, p.record), Involved(p.claim, p.record) - p.phase.hashes;
    IntentsGrow(d.intents, done, hash);
    InvoicesGrow(d.invoices, done, hash);
    assert all - (p.phase.hashes - {hash}) == done + {hash};
    hide IntentsUnder, InvoicesUnder, Involved, IntentsList, InvoicesList, LoadContext, CheckAndClaim;
  }

  lemma {:induction false} LookStands(d: Device, p: Pending)
    requires p.Claiming? && ClaimStands(d, p) && Look(p).Some?
    ensures ClaimStands(d, Look(p).value)
  {
    assert Involved(p.claim, p.record) - {} == Involved(p.claim, p.record);
    hide IntentsUnder, InvoicesUnder, Involved, ListedOn, LoadContext, CheckAndClaim;
    var listed := ListedOn(p.context.intents, p.context.invoices) - {p.index};
    assert listed - listed == {};
  }

  lemma {:induction false} LookAtStands(d: Device, p: Pending, other: nat)
    requires p.Claiming? && ClaimStands(d, p) && LookAt(d, p, other).Some? && LookAt(d, p, other) != Some(Idle)
    ensures ClaimStands(d, LookAt(d, p, other).value)
  {
    hide IntentsUnder, InvoicesUnder, Involved, ListedOn, LoadContext, CheckAndClaim;
    var listed := ListedOn(p.context.intents, p.context.invoices) - {p.index};
    assert listed - (p.phase.others - {other}) == (listed - p.phase.others) + {other};
  }

  /** Everything read, the context is the device's. */
  lemma {:induction false} AllIsRead(d: Device, p: Pending)
    requires p.Claiming? && ClaimStands(d, p) && p.phase == Looking({})
    ensures LoadContext(d, p.index, p.claim.operation) == Accept(p.context)
  {
    if p.claim.operation.CommitmentTx? {
      assert Involved(p.claim, p.record) == Involved(p.claim, d.channels[p.index]);
      hide HashesOf, IntentsUnder, InvoicesUnder, ListedOn;
      var listed := ListedOn(p.context.intents, p.context.invoices) - {p.index};
      assert listed - {} == listed;
    }
  }

  lemma {:induction false} DecisionStands(d: Device, p: Pending)
    requires p.Claiming? && ClaimStands(d, p) && Decision(p).Some? && Decision(p) != Some(Idle)
    ensures ClaimStands(d, Decision(p).value) && Filed(Decision(p).value) == {}
  {
    AllIsRead(d, p);
    SameDecision(p.claim, p.allowReuse, p.record, d.channels[p.index], p.context);
    hide Decide, LoadContext, ToFile, File;
  }

  lemma {:induction false} FileOneStands(s: State, events: seq<Event>, hash: Bound)
    requires Stands(s, events) && FileOne(s, hash).Some?
    ensures Stands(FileOne(s, hash).value, events)
  {
    var p := s.pending;
    var all := ToFile(p.claim, p.record);
    FilesOneMore(Run(events), all - p.phase.hashes, hash, p.index);
    assert all - (p.phase.hashes - {hash}) == (all - p.phase.hashes) + {hash};
    hide Run, ServedIn, File, ToFile, LoadContext, CheckAndClaim;
  }

  /** The write is the claim's step, whole. */
  lemma {:induction false} WriteStands(s: State, events: seq<Event>) returns (after: seq<Event>)
    requires Stands(s, events) && Write(s).Some?
    ensures Stands(Write(s).value, after)
  {
    var p, d := s.pending, Run(events);
    var e := Signs(p.index, p.claim, p.allowReuse);
    after := events + [e];
    RunOneMore(events, e);
    WrittenWhole(s, d);
    FilesNone(Step(d, e), 0);
    hide Run, Step, ServedIn, File, CheckAndClaim, ClaimStands;
  }

  lemma {:induction false} WrittenWhole(s: State, d: Device)
    requires Write(s).Some? && s.pending.Claiming?
    requires s.device == File(d, Filed(s.pending), s.pending.index) && ClaimStands(d, s.pending)
    ensures var e := Signs(s.pending.index, s.pending.claim, s.pending.allowReuse);
            && Answers(d, e) && Write(s).value.device == Step(d, e) && Write(s).value.pending.Idle?
            && Write(s).value.served
               == s.served + {SlotServed(e.index, SlotOf(e.claim), e.claim.session)}
  {
    var p := s.pending;
    var record := d.channels[p.index];
    assert s.device.channels == d.channels;
    assert IsRepeat(record, p.claim) == IsRepeat(p.record, p.claim);
    assert ToFile(p.claim, p.record) - {} == ToFile(p.claim, p.record);
    if IsRepeat(record, p.claim) {
      RepeatKeepsRecord(p.claim, p.allowReuse, record, p.context);
      FilesNone(d, p.index);
      assert d.channels[p.index := record] == d.channels;
    }
    hide Decide, LoadContext, HashesOf, FiledIntents, FiledInvoices;
  }

  // ---- Every interleaving

  /** Where a claim is cut off, the hashes it filed are a run's, as a step cut off after them. */
  lemma {:induction false} CutOff(s: State, events: seq<Event>) returns (after: seq<Event>)
    requires Stands(s, events)
    ensures s.device == Run(after) && s.served == ServedIn(after)
  {
    after := events;
    var p := s.pending;
    if p.Claiming? && p.phase.Filing? && !IsRepeat(p.record, p.claim) {
      var e := FilesOnly(p.index, p.claim, p.allowReuse, Filed(p));
      after := events + [e];
      RunOneMore(events, e);
      var d := Run(events);
      assert IsRepeat(d.channels[p.index], p.claim) == IsRepeat(p.record, p.claim);
      assert HashesOf(TlcsOf(p.claim.operation)) * Filed(p) == Filed(p);
      hide Run, ServedIn, File, CheckAndClaim, LoadContext, HashesOf;
      assert Step(d, e) == File(d, Filed(p), p.index);
    } else {
      FilesNone(Run(events), IndexOf(p));
      hide Run, ServedIn, File;
    }
  }

  lemma {:induction false} PendingStands(s: State, events: seq<Event>, pending: Pending)
    requires Stands(s, events) && Filed(s.pending) == {} && Filed(pending) == {}
    requires pending.Idle? || (pending.Claiming? && ClaimStands(Run(events), pending))
    ensures Stands(s.(pending := pending), events)
  {
    FilesNone(Run(events), IndexOf(s.pending));
    FilesNone(Run(events), IndexOf(pending));
    hide Run, ServedIn, File, ClaimStands;
  }

  lemma {:induction false} TurnStands(s: State, events: seq<Event>, turn: Turn) returns (after: seq<Event>)
    requires Stands(s, events) && Next(s, turn).Some?
    ensures Stands(Next(s, turn).value, after)
  {
    after := events;
    FilesNone(Run(events), IndexOf(s.pending));
    hide Stands, Run, Step, File, ClaimStands, Ask, Put, Start, FileOne, Write;
    match turn {
      case Elsewhere(e) =>
        ElsewhereStands(s, events, e);
        after := events + [e];
      case Asks(e) => AskStands(s, events, e);
      case Puts => after := PutStands(s, events);
      case Starts(index, claim, allowReuse) => StartStands(s, events, index, claim, allowReuse);
      case Files(hash) => FileOneStands(s, events, hash);
      case Writes => after := WriteStands(s, events);
      case Kills =>
        after := CutOff(s, events);
        IdleStands(s, after);
      case _ => ReadingStands(s, events, turn);
    }
  }

  lemma {:induction false} IdleStands(s: State, events: seq<Event>)
    requires s.device == Run(events) && s.served == ServedIn(events)
    ensures Stands(s.(pending := Idle), events)
  {
    FilesNone(Run(events), 0);
  }

  /** The turns that only read. */
  lemma {:induction false} ReadingStands(s: State, events: seq<Event>, turn: Turn)
    requires Stands(s, events) && Next(s, turn).Some?
    requires turn.ReadsUnder? || turn.Looks? || turn.LooksAt? || turn.Decides?
    ensures Stands(Next(s, turn).value, events)
  {
    var d, p, pending := Run(events), s.pending, Next(s, turn).value.pending;
    FilesNone(d, IndexOf(p));
    assert s.device == d;
    hide Run, ServedIn, File, ClaimStands, Decide, LoadContext, CheckAndClaim;
    if pending.Claiming? {
      match turn {
        case ReadsUnder(hash) => ReadStands(d, p, hash);
        case Looks => LookStands(d, p);
        case LooksAt(other) => LookAtStands(d, p, other);
        case Decides => DecisionStands(d, p);
      }
    }
    hide Stands;
    PendingStands(s, events, pending);
  }

  lemma {:induction false} TurnsStand(turns: seq<Turn>) returns (events: seq<Event>)
    requires After(turns).Some?
    ensures Stands(After(turns).value, events)
  {
    if turns == [] {
      events := [];
      IdleStands(START, []);
    } else {
      var before := TurnsStand(turns[..|turns| - 1]);
      hide Stands, Next;
      events := TurnStands(After(turns[..|turns| - 1]).value, before, turns[|turns| - 1]);
    }
  }

  /** In every interleaving of reads and writes, whatever is cut off, the records are those some
      run of whole steps leaves, and the sessions answered for are those it served. */
  lemma {:induction false} EveryStateIsARuns(turns: seq<Turn>) returns (events: seq<Event>)
    requires After(turns).Some?
    ensures After(turns).value.device == Run(events)
    ensures After(turns).value.served == ServedIn(events)
  {
    var before := TurnsStand(turns);
    hide Stands, After, Run;
    events := CutOff(After(turns).value, before);
  }
}
