/** A channel's record: its sign-once slots, its lanes, its commitments per view, and what one claim does to them. */
module Records {
  import opened Outcomes
  import opened Payments
  import opened BalanceRule
  import opened BalanceMethods
  import opened Watchtower

  datatype NonceContext = CommitmentNonce | RevokeNonce | AnnouncementNonce

  datatype Slot = Slot(context: NonceContext, number: nat)

  datatype Lane = CommitmentLocal | RevokeLocal | RevokeRemote | AnnouncementLane

  /** What a request asks for; `message` is the digest the device rebuilds from the operation. */
  datatype Operation =
    | CommitmentTx(message: nat, view: View, kept: Kept, stated: Stated)
    | ClosingTx(message: nat, payout: nat)
    | Revocation(message: nat, view: View, revoked: nat)
    | ChannelAnnouncement(message: nat)

  /** What tells two signing sessions apart. */
  datatype Session = Session(keys: nat, nonce: nat, message: nat)

  /** A signing request; `pinned` tells whether the channel's pins and capacity bounds admit the operation. */
  datatype Claim = Claim(number: nat, session: Session, operation: Operation, pinned: bool)

  datatype Commitments = Commitments(remote: Option<Kept>, local: Option<Kept>, previous: Option<Kept>) {
    function Of(view: View): Option<Kept> {
      if view.Remote? then remote else local
    }
  }

  datatype Record = Record(
    funded: nat,
    lastSigned: map<Lane, nat>,
    sessions: map<Slot, Session>,
    reuses: map<Slot, Session>,
    commitments: Commitments,
    revocations: map<nat, nat>,
    views: Views,
    spends: seq<Spend>
  )

  function BookOf(record: Record): Book {
    Book(record.commitments.remote, record.commitments.previous, record.commitments.local, record.spends)
  }

  function ContextOf(operation: Operation): NonceContext {
    match operation
    case CommitmentTx(_, _, _, _) => CommitmentNonce
    // No nonce context belongs to closes alone.
    case ClosingTx(_, _) => CommitmentNonce
    case Revocation(_, _, _) => RevokeNonce
    case ChannelAnnouncement(_) => AnnouncementNonce
  }

  function SlotOf(claim: Claim): Slot {
    Slot(ContextOf(claim.operation), claim.number)
  }

  function LaneOf(operation: Operation): Lane {
    match operation
    case CommitmentTx(_, _, _, _) => CommitmentLocal
    case ClosingTx(_, _) => CommitmentLocal
    case Revocation(_, view, _) => if view.Remote? then RevokeLocal else RevokeRemote
    case ChannelAnnouncement(_) => AnnouncementLane
  }

  /** The TLCs a claim would show. */
  function TlcsOf(operation: Operation): seq<Tlc> {
    if operation.CommitmentTx? then operation.stated.tlcs else []
  }

  // ---- The checks of a claim, in order

  predicate Served(slots: map<Slot, Session>, slot: Slot, session: Session) {
    slot in slots && slots[slot] == session
  }

  predicate IsRepeat(record: Record, claim: Claim) {
    Served(record.sessions, SlotOf(claim), claim.session) || Served(record.reuses, SlotOf(claim), claim.session)
  }

  /** Behind its lane: at or below the last number for a slot not served yet, strictly below it for one being reused. */
  predicate IsStale(record: Record, claim: Claim) {
    var lane := LaneOf(claim.operation);
    && lane in record.lastSigned
    && if SlotOf(claim) in record.sessions then claim.number < record.lastSigned[lane]
       else claim.number <= record.lastSigned[lane]
  }

  /** Nothing is revoked unless the view's latest commitment has the slot's own number. */
  predicate ReplacementSigned(record: Record, claim: Claim) {
    claim.operation.Revocation? ==>
      var replacement := record.commitments.Of(claim.operation.view);
      replacement.Some? && replacement.value.number == claim.number
  }

  /** The version follows the last one, and the one below the last, if
      ever signed, is revoked with its evidence kept. */
  predicate SucceedsRemote(record: Record, version: nat, last: nat) {
    && version == last + 1
    && (last > 0 && Slot(CommitmentNonce, last - 1) in record.sessions ==>
          && RevokeLocal in record.lastSigned
          && record.lastSigned[RevokeLocal] == last
          && last - 1 in record.revocations)
  }

  function NextCommitments(record: Record, operation: Operation): Outcome<Commitments> {
    if !operation.CommitmentTx? then Accept(record.commitments) else
      var Commitments(remote, local, previous) := record.commitments;
      if operation.view.Local? then
        if local.Some? && operation.kept.number <= local.value.number then Refuse(StaleState)
        else Accept(Commitments(remote, Some(operation.kept), previous))
      else if remote.None? then Accept(Commitments(Some(operation.kept), local, previous))
      else if !SucceedsRemote(record, operation.kept.number, remote.value.number) then Refuse(StaleState)
      // The last commitment becomes the one before the last, still open to the peer.
      else Accept(Commitments(Some(operation.kept), local, remote))
  }

  /** The views an operation leads to; only commitments change one, and only commitments and closes are judged. */
  ghost function ApplyBalanceRule(record: Record, operation: Operation, context: Context): Outcome<Views> {
    match operation
    case CommitmentTx(_, view, _, stated) =>
      // Only a lane nothing was signed on holds the commitment to the funding.
      if CommitmentLocal !in record.lastSigned && !OpensAt(record.funded, stated) then Refuse(PolicyRefusal) else
        var after :- Judge(view, record.views, stated, context);
        Accept(record.views.With(view, after))
    case ClosingTx(_, payout) =>
      if ClosesFairly(record.views, payout) then Accept(record.views) else Refuse(PolicyRefusal)
    case Revocation(_, _, _) => Accept(record.views)
    case ChannelAnnouncement(_) => Accept(record.views)
  }

  datatype Status = FreshSlot | RepeatedSlot | ReusedSlot

  datatype Decided = Decided(status: Status, record: Record)

  /** The slot serves the session, and its lane moves to it. */
  function Written(record: Record, claim: Claim, commitments: Commitments, views: Views): Decided {
    var slot := SlotOf(claim);
    var moved := record.(
      lastSigned := record.lastSigned[LaneOf(claim.operation) := claim.number],
      commitments := commitments,
      views := views);
    if slot in record.sessions
    then Decided(ReusedSlot, moved.(reuses := record.reuses[slot := claim.session]))
    else Decided(FreshSlot, moved.(sessions := record.sessions[slot := claim.session]))
  }

  /** The decision on a claim: its status and the record it leaves, or the first refusal. */
  ghost function Decide(claim: Claim, allowReuse: bool, record: Record, context: Context): Outcome<Decided> {
    var slot := SlotOf(claim);
    if Served(record.sessions, slot, claim.session) then Accept(Decided(RepeatedSlot, record))
    else if Served(record.reuses, slot, claim.session) then Accept(Decided(ReusedSlot, record))
    // A slot has room for two sessions at most, and for one where reuse is not allowed.
    else if slot in record.sessions && (slot in record.reuses || !allowReuse) then Refuse(PolicyRefusal)
    else if IsStale(record, claim) || !ReplacementSigned(record, claim) then Refuse(StaleState)
    else
      var commitments :- NextCommitments(record, claim.operation);
      if !claim.pinned then Refuse(PolicyRefusal) else
        var views :- ApplyBalanceRule(record, claim.operation, context);
        Accept(Written(record, claim, commitments, views))
  }

  /** Tells whether a close is fair, view by view. */
  method JudgeClosingTx(views: Views, payout: nat) returns (fair: bool)
    ensures fair <==> ClosesFairly(views, payout)
  {
    var order := [Remote, Local];
    for i := 0 to 2
      invariant forall j :: 0 <= j < i ==>
        views.Of(order[j]).tlcs == [] && payout + MAX_SHUTDOWN_FEE_SHANNONS >= views.Of(order[j]).exposure
    {
      var snapshot := views.Of(order[i]);
      if snapshot.tlcs != [] || payout + MAX_SHUTDOWN_FEE_SHANNONS < snapshot.exposure {
        return false;
      }
    }
    assert order[0] == Remote && order[1] == Local;
    fair := true;
  }

  method DecideClaim(claim: Claim, allowReuse: bool, record: Record, context: Context) returns (r: Outcome<Decided>)
    ensures r == Decide(claim, allowReuse, record, context)
  {
    hide Judge;
    var slot := SlotOf(claim);
    if Served(record.sessions, slot, claim.session) {
      return Accept(Decided(RepeatedSlot, record));
    }
    if Served(record.reuses, slot, claim.session) {
      return Accept(Decided(ReusedSlot, record));
    }
    if slot in record.sessions && (slot in record.reuses || !allowReuse) {
      return Refuse(PolicyRefusal);
    }
    if IsStale(record, claim) || !ReplacementSigned(record, claim) {
      return Refuse(StaleState);
    }
    var commitments := NextCommitments(record, claim.operation);
    if commitments.Refuse? {
      return Refuse(commitments.code);
    }
    if !claim.pinned {
      return Refuse(PolicyRefusal);
    }
    var views := record.views;
    match claim.operation {
      case CommitmentTx(_, view, _, stated) =>
        if CommitmentLocal !in record.lastSigned && !OpensAt(record.funded, stated) {
          return Refuse(PolicyRefusal);
        }
        var after := JudgeCommitment(view, record.views, stated, context);
        if after.Refuse? {
          return Refuse(after.code);
        }
        views := record.views.With(view, after.value);
      case ClosingTx(_, payout) =>
        var fair := JudgeClosingTx(record.views, payout);
        if !fair {
          return Refuse(PolicyRefusal);
        }
      case Revocation(_, _, _) =>
      case ChannelAnnouncement(_) =>
    }
    r := Accept(Written(record, claim, commitments.value, views));
  }

  /** A claim accepted for the first time passed every check, and is written whole. */
  lemma {:induction false} DecisionIsWritten(claim: Claim, allowReuse: bool, record: Record, context: Context)
    requires Decide(claim, allowReuse, record, context).Accept? && !IsRepeat(record, claim)
    ensures SlotOf(claim) in record.sessions ==> SlotOf(claim) !in record.reuses && allowReuse
    ensures !IsStale(record, claim) && ReplacementSigned(record, claim)
    ensures NextCommitments(record, claim.operation).Accept?
    ensures ApplyBalanceRule(record, claim.operation, context).Accept?
    ensures Decide(claim, allowReuse, record, context).value
            == Written(record, claim, NextCommitments(record, claim.operation).value,
                       ApplyBalanceRule(record, claim.operation, context).value)
  {
    hide ApplyBalanceRule, NextCommitments, IsStale, ReplacementSigned, Written;
  }
}
