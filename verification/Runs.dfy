/** Runs of the device: every step the host and the node can take, in any order, crashes and mode changes included. */
module Runs {
  import opened Outcomes
  import opened Sums
  import opened Payments
  import opened BalanceRule
  import opened HoldRelease
  import opened Watchtower
  import opened SettlementWitness
  import opened Records
  import opened Engine

  /** One step; every one that is refused leaves the records as they are. */
  datatype Event =
    | Registers(index: nat, funded: nat)
    | Approves(hash: PaymentHash, maximum: nat)
    | Ends(hash: PaymentHash)
    | Bills(hash: PaymentHash, amount: nat, algorithm: HashAlgorithm, number: nat)
    | Releases(hash: PaymentHash, timing: Timing)
    | Signs(index: nat, claim: Claim, allowReuse: bool)
    // A claim cut off after it filed the channel under some of its hashes.
    | FilesOnly(index: nat, claim: Claim, allowReuse: bool, reached: set<Bound>)
    | Revokes(index: nat, version: nat, signature: nat)
    | Spends(keys: Keys, index: nat, approval: Option<Approval>, request: Request)
    | SignsSpend(index: nat, id: nat, signature: nat)
    | AppliesSpend(index: nat, id: nat)

  const NO_RECORDS: Device := Device(map[], map[], map[])

  /** The dispatch's checks before the gate: a sent commitment carries
      its slot's number, and no announcement is signed. */
  function DispatchFault(claim: Claim): Option<Refusal> {
    match claim.operation
    case CommitmentTx(_, view, kept, _) => if view.Remote? && kept.number != claim.number then Some(Malformed) else None
    case ClosingTx(_, _) => None
    case Revocation(_, _, revoked) => if revoked + 1 != claim.number then Some(Malformed) else None
    case ChannelAnnouncement(_) => Some(PolicyRefusal)
  }

  ghost function Sign(d: Device, index: nat, claim: Claim, allowReuse: bool): Outcome<Claimed> {
    if DispatchFault(claim).Some? then Refuse(DispatchFault(claim).value)
      else CheckAndClaim(d, index, claim, allowReuse)
  }

  ghost function Attempt(d: Device, e: Event): Outcome<Device> {
    match e
    case Registers(index, funded) => Register(d, index, funded)
    case Approves(hash, maximum) => RecordIntent(d, hash, maximum)
    case Ends(hash) => CloseIntent(d, hash)
    case Bills(hash, amount, algorithm, number) => RecordInvoice(d, hash, amount, algorithm, number)
    case Releases(hash, timing) => MarkReleased(d, hash, timing)
    case Signs(index, claim, allowReuse) =>
      var claimed :- Sign(d, index, claim, allowReuse);
      Accept(claimed.device)
    case FilesOnly(index, claim, allowReuse, reached) =>
      var claimed :- Sign(d, index, claim, allowReuse);
      if IsRepeat(d.channels[index], claim) then Accept(d)
      else Accept(File(d, HashesOf(TlcsOf(claim.operation)) * reached, index))
    case Revokes(index, version, signature) => RecordRevocation(d, index, version, signature)
    case Spends(keys, index, approval, request) => CheckSpend(d, keys, index, approval, request)
    case SignsSpend(index, id, signature) => RecordSpendSignature(d, index, id, signature)
    case AppliesSpend(index, id) => MarkSpendApplied(d, index, id)
  }

  ghost function Step(d: Device, e: Event): Device {
    AfterOf(Attempt(d, e), d)
  }

  ghost function Run(events: seq<Event>): Device {
    if events == [] then NO_RECORDS else Step(Run(events[..|events| - 1]), events[|events| - 1])
  }

  /** The highest budget ever approved under each hash. */
  ghost function Highest(events: seq<Event>): map<Bound, nat> {
    if events == [] then map[] else
      var last := events[|events| - 1];
      var before := Highest(events[..|events| - 1]);
      if last.Approves? && RecordIntent(Run(events[..|events| - 1]), last.hash, last.maximum).Accept?
      then before[last.hash.bound := Max(Get(before, last.hash.bound), last.maximum)]
      else before
  }

  // ---- What a step moves of the money

  datatype Account = Account(funded: nat, views: Views)

  /** A device with everything dropped that moves no funds. */
  datatype Ledger = Ledger(accounts: map<nat, Account>, intents: map<Bound, Intent>, invoices: map<Bound, Invoice>)

  function LedgerOf(d: Device): Ledger {
    Ledger(map i | i in d.channels :: Account(d.channels[i].funded, d.channels[i].views), d.intents, d.invoices)
  }

  datatype Move =
    | Stays
    | Opens(index: nat, funded: nat)
    | Budgets(hash: PaymentHash, maximum: nat)
    | Shuts(hash: PaymentHash)
    | Invoices(hash: PaymentHash, amount: nat, algorithm: HashAlgorithm, number: nat)
    | Pays(hash: PaymentHash, timing: Timing)
    | Files(hashes: set<Bound>, index: nat)
    | Commits(index: nat, view: View, next: Stated, context: Context)

  /** The context of a commitment is the ledger's, under every hash its views and its next list show. */
  ghost predicate Reads(l: Ledger, index: nat, next: Stated, context: Context)
    requires index in l.accounts
  {
    var views := l.accounts[index].views;
    var hashes := HashesOf(next.tlcs + views.remote.tlcs + views.local.tlcs);
    && context.intents == IntentsUnder(l.intents, hashes)
    && context.invoices == InvoicesUnder(l.invoices, hashes)
    && context.others.Keys == ListedOn(context.intents, context.invoices) - {index}
    && context.others.Keys <= l.accounts.Keys
    && forall other :: other in context.others ==> context.others[other] == l.accounts[other].views
  }

  ghost predicate Opened(l: Ledger, index: nat, funded: nat, after: Ledger) {
    var opening := OpeningSnapshot(funded);
    index !in l.accounts && after == l.(accounts := l.accounts[index := Account(funded, Views(opening, opening))])
  }

  ghost predicate Budgeted(l: Ledger, hash: PaymentHash, maximum: nat, after: Ledger) {
    && hash.bound !in l.invoices
    && (hash.bound in l.intents ==>
          && l.intents[hash.bound].hash == hash && !l.intents[hash.bound].open
          && forall index :: index in l.intents[hash.bound].channels ==>
               index in l.accounts && !Charges(l.accounts[index].views, hash.bound))
    && var channels := if hash.bound in l.intents then l.intents[hash.bound].channels else [];
       after == l.(intents := l.intents[hash.bound := Intent(hash, maximum, true, channels)])
  }

  ghost predicate Shut(l: Ledger, hash: PaymentHash, after: Ledger) {
    && hash.bound in l.intents
    && after == l.(intents := l.intents[hash.bound := l.intents[hash.bound].(open := false)])
  }

  ghost predicate Invoiced(
    l: Ledger, hash: PaymentHash, amount: nat, algorithm: HashAlgorithm, number: nat, after: Ledger) {
    && amount > 0 && hash.bound !in l.intents && hash.bound !in l.invoices
    && after == l.(invoices := l.invoices[hash.bound := Invoice(hash, amount, algorithm, number, false, [])])
  }

  ghost predicate Paid(l: Ledger, hash: PaymentHash, timing: Timing, after: Ledger) {
    && hash.bound in l.invoices
    && var invoice := l.invoices[hash.bound];
       && invoice.hash == hash && !invoice.released
       && (forall index :: index in invoice.channels ==> index in l.accounts)
       && ReleaseFault(invoice, invoice.channels, ListedViews(l, invoice.channels), timing).None?
       && after == l.(invoices := l.invoices[hash.bound := invoice.(released := true)])
  }

  ghost predicate FiledUnder(l: Ledger, hashes: set<Bound>, index: nat, after: Ledger) {
    && index in l.accounts
    && after == l.(intents := FiledIntents(l.intents, hashes, index),
      invoices := FiledInvoices(l.invoices, hashes, index))
  }

  ghost predicate Committed(l: Ledger, index: nat, view: View, next: Stated, context: Context, after: Ledger) {
    && index in l.accounts
    && Reads(l, index, next, context)
    && var judged := Judge(view, l.accounts[index].views, next, context);
       && judged.Accept?
       && after == Ledger(
            l.accounts[index := l.accounts[index].(views := l.accounts[index].views.With(view, judged.value))],
            FiledIntents(l.intents, HashesOf(next.tlcs), index),
            FiledInvoices(l.invoices, HashesOf(next.tlcs), index))
  }

  /** One move of the ledger. */
  ghost predicate Moves(l: Ledger, move: Move, after: Ledger) {
    match move
    case Stays => after == l
    case Opens(index, funded) => Opened(l, index, funded, after)
    case Budgets(hash, maximum) => Budgeted(l, hash, maximum, after)
    case Shuts(hash) => Shut(l, hash, after)
    case Invoices(hash, amount, algorithm, number) => Invoiced(l, hash, amount, algorithm, number, after)
    case Pays(hash, timing) => Paid(l, hash, timing, after)
    case Files(hashes, index) => FiledUnder(l, hashes, index, after)
    case Commits(index, view, next, context) => Committed(l, index, view, next, context, after)
  }

  lemma {:induction false} CommitMoves(l: Ledger, move: Move, after: Ledger)
    requires Moves(l, move, after) && move.Commits?
    ensures Committed(l, move.index, move.view, move.next, move.context, after)
  {
    hide Committed;
  }

  function ListedViews(l: Ledger, listed: seq<nat>): map<nat, Views>
    requires forall index :: index in listed ==> index in l.accounts
  {
    map index | index in listed :: l.accounts[index].views
  }

  /** Rewriting a record without touching its views leaves the ledger as it is. */
  lemma {:induction false} RecordAloneStays(d: Device, index: nat, record: Record)
    requires index in d.channels
    requires record.funded == d.channels[index].funded && record.views == d.channels[index].views
    ensures LedgerOf(d.(channels := d.channels[index := record])) == LedgerOf(d)
  {
    assert LedgerOf(d.(channels := d.channels[index := record])).accounts == LedgerOf(d).accounts;
  }

  lemma {:induction false} ContextIsRead(d: Device, index: nat, operation: Operation)
    requires index in d.channels && operation.CommitmentTx? && LoadContext(d, index, operation).Accept?
    ensures Reads(LedgerOf(d), index, operation.stated, LoadContext(d, index, operation).value)
  {
    hide HashesOf, ListedOn, IntentsUnder, InvoicesUnder;
  }

  /** A first-time commitment commits; any other claim leaves the ledger. */
  lemma {:induction false} ClaimMoves(d: Device, index: nat, claim: Claim, allowReuse: bool)
    requires CheckAndClaim(d, index, claim, allowReuse).Accept?
    ensures var after := CheckAndClaim(d, index, claim, allowReuse).value.device;
            if claim.operation.CommitmentTx? && !IsRepeat(d.channels[index], claim)
            then && LoadContext(d, index, claim.operation).Accept?
                 && Committed(LedgerOf(d), index, claim.operation.view, claim.operation.stated,
                              LoadContext(d, index, claim.operation).value, LedgerOf(after))
            else LedgerOf(after) == LedgerOf(d)
  {
    hide Decide, Judge, ClosesFairly, LoadContext, Reads, FiledIntents, FiledInvoices;
    if !IsRepeat(d.channels[index], claim) {
      var context := LoadContext(d, index, claim.operation).value;
      DecisionIsWritten(claim, allowReuse, d.channels[index], context);
      var record := Decide(claim, allowReuse, d.channels[index], context).value.record;
      var filed := File(d, HashesOf(TlcsOf(claim.operation)), index);
      if claim.operation.CommitmentTx? {
        ContextIsRead(d, index, claim.operation);
        assert LedgerOf(filed.(channels := d.channels[index := record])).accounts
               == LedgerOf(d).accounts[index := Account(record.funded, record.views)];
      } else {
        FilesNothing(d, index);
        RecordAloneStays(d, index, record);
      }
    }
  }

  lemma {:induction false} FilesNothing(d: Device, index: nat)
    ensures File(d, HashesOf([]), index) == d
  {
    assert FiledIntents(d.intents, {}, index) == d.intents && FiledInvoices(d.invoices, {}, index) == d.invoices;
    assert HashesOf([]) == {};
  }

  lemma {:induction false} RegisterMoves(d: Device, index: nat, funded: nat)
    requires Register(d, index, funded).Accept? && index !in d.channels
    ensures Opened(LedgerOf(d), index, funded, LedgerOf(Register(d, index, funded).value))
  {
    assert LedgerOf(Register(d, index, funded).value).accounts
           == LedgerOf(d).accounts[index := Account(funded, Views(OpeningSnapshot(funded), OpeningSnapshot(funded)))];
  }

  lemma {:induction false} ReleaseMoves(d: Device, hash: PaymentHash, timing: Timing)
    requires MarkReleased(d, hash, timing).Accept? && !d.invoices[hash.bound].released
    ensures Paid(LedgerOf(d), hash, timing, LedgerOf(MarkReleased(d, hash, timing).value))
  {
    hide ReleaseFault;
    var listed := d.invoices[hash.bound].channels;
    assert ListedViews(LedgerOf(d), listed) == ViewsOf(d, listed);
  }

  lemma {:induction false} ApprovalMoves(d: Device, hash: PaymentHash, maximum: nat)
    requires RecordIntent(d, hash, maximum).Accept?
    ensures Budgeted(LedgerOf(d), hash, maximum, LedgerOf(RecordIntent(d, hash, maximum).value))
  {
    hide Charges;
  }

  /** Every step moves the ledger, or leaves it. */
  lemma {:induction false} StepMoves(d: Device, e: Event) returns (move: Move)
    ensures Moves(LedgerOf(d), move, LedgerOf(Step(d, e)))
    ensures move.Budgets? ==> e.Approves? && e.hash == move.hash && e.maximum == move.maximum && Attempt(d, e).Accept?
    ensures e.Approves? && Attempt(d, e).Accept? ==> move.Budgets?
    ensures move.Invoices? ==> e.Bills? && e.hash == move.hash && e.hash.bound !in d.invoices && Attempt(d, e).Accept?
    ensures move.Pays? ==> e.Releases? && e.hash == move.hash
    ensures move.Shuts? ==> e.Ends? && e.hash == move.hash
  {
    hide CheckAndClaim, DecideSpend, LoadContext, RecordIntent, Opened, Paid, Budgeted, Committed, WithSignature,
         WithApplied, FiledIntents, FiledInvoices, HashesOf, MarkReleased;
    if Attempt(d, e).Refuse? {
      return Stays;
    }
    match e {
      case Registers(index, funded) =>
        if index !in d.channels {
          RegisterMoves(d, index, funded);
        }
        return if index in d.channels then Stays else Opens(index, funded);
      case Approves(hash, maximum) =>
        ApprovalMoves(d, hash, maximum);
        return Budgets(hash, maximum);
      case Ends(hash) =>
        return Shuts(hash);
      case Bills(hash, amount, algorithm, number) =>
        return if hash.bound in d.invoices then Stays else Invoices(hash, amount, algorithm, number);
      case Releases(hash, timing) =>
        ReleaseLeaves(d, hash, timing);
        if !d.invoices[hash.bound].released {
          ReleaseMoves(d, hash, timing);
        }
        return if d.invoices[hash.bound].released then Stays else Pays(hash, timing);
      case Signs(index, claim, allowReuse) =>
        ClaimMoves(d, index, claim, allowReuse);
        ClaimFinds(d, index, claim, allowReuse);
        return if claim.operation.CommitmentTx? && !IsRepeat(d.channels[index], claim)
          then Commits(index, claim.operation.view, claim.operation.stated,
            LoadContext(d, index, claim.operation).value)
          else Stays;
      case FilesOnly(index, claim, allowReuse, reached) =>
        ClaimFinds(d, index, claim, allowReuse);
        return if IsRepeat(d.channels[index], claim) then Stays
          else Files(HashesOf(TlcsOf(claim.operation)) * reached, index);
      case Revokes(index, version, signature) =>
        RecordAloneStays(d, index, Step(d, e).channels[index]);
        return Stays;
      case Spends(keys, index, approval, request) =>
        RecordAloneStays(d, index, Step(d, e).channels[index]);
        return Stays;
      case SignsSpend(index, id, signature) =>
        RecordAloneStays(d, index, Step(d, e).channels[index]);
        return Stays;
      case AppliesSpend(index, id) =>
        RecordAloneStays(d, index, Step(d, e).channels[index]);
        return Stays;
    }
  }

  lemma {:induction false} ClaimFinds(d: Device, index: nat, claim: Claim, allowReuse: bool)
    requires CheckAndClaim(d, index, claim, allowReuse).Accept?
    ensures index in d.channels
  {
    hide Decide, LoadContext;
  }

  lemma {:induction false} ReleaseLeaves(d: Device, hash: PaymentHash, timing: Timing)
    requires MarkReleased(d, hash, timing).Accept?
    ensures hash.bound in d.invoices
    ensures d.invoices[hash.bound].released ==> MarkReleased(d, hash, timing).value == d
  {
  }
}
