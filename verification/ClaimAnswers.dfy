/** What the gate answers a claim, both ways: when it is signed, with
    which status, and what its record holds afterwards. */
module ClaimAnswers {
  import opened Outcomes
  import opened Sums
  import opened Payments
  import opened BalanceRule
  import opened Watchtower
  import opened Records
  import opened Engine
  import opened Runs
  import opened SignOnce
  import opened Budgets
  import opened RuleAnswers
  import opened HonestMoves
  import opened Shown
  import opened Unmixed

  // ---- The slot and the lane

  /** A commitment and a close share a slot and the local lane; a revocation of the peer's
      view takes the local revocation lane, and one of the device's the remote one. */
  lemma {:induction false} SlotsAndLanes(
    number: nat, session: Session, pinned: bool, message: nat, kept: Kept, stated: Stated, n: nat)
    ensures forall view: View ::
              var claim := Claim(number, session, CommitmentTx(message, view, kept, stated), pinned);
              SlotOf(claim) == Slot(CommitmentNonce, number) && LaneOf(claim.operation) == CommitmentLocal
    ensures var claim := Claim(number, session, ClosingTx(message, n), pinned);
            SlotOf(claim) == Slot(CommitmentNonce, number) && LaneOf(claim.operation) == CommitmentLocal
    ensures var claim := Claim(number, session, Revocation(message, Remote, n), pinned);
            SlotOf(claim) == Slot(RevokeNonce, number) && LaneOf(claim.operation) == RevokeLocal
    ensures var claim := Claim(number, session, Revocation(message, Local, n), pinned);
            SlotOf(claim) == Slot(RevokeNonce, number) && LaneOf(claim.operation) == RevokeRemote
    ensures var claim := Claim(number, session, ChannelAnnouncement(message), pinned);
            SlotOf(claim) == Slot(AnnouncementNonce, number) && LaneOf(claim.operation) == AnnouncementLane
  {
  }

  predicate ServedFirst(record: Record, claim: Claim) {
    SlotOf(claim) in record.sessions && record.sessions[SlotOf(claim)] == claim.session
  }

  /** The slot has served this very session, first or second. */
  predicate Answered(record: Record, claim: Claim) {
    var slot := SlotOf(claim);
    || ServedFirst(record, claim)
    || (slot in record.reuses && record.reuses[slot] == claim.session)
  }

  /** The slot has room: it served nobody, or one session and a second is allowed. */
  predicate HasRoom(record: Record, claim: Claim, allowReuse: bool) {
    var slot := SlotOf(claim);
    slot !in record.sessions || (allowReuse && slot !in record.reuses)
  }

  /** The lane does not go back: past its last number for a slot not served yet, at it or past it for one served. */
  predicate GoesOn(record: Record, claim: Claim) {
    var lane := LaneOf(claim.operation);
    lane in record.lastSigned ==>
      if SlotOf(claim) in record.sessions then claim.number >= record.lastSigned[lane]
      else claim.number > record.lastSigned[lane]
  }

  /** A revocation is at the number of its view's last commitment. */
  predicate HasReplacement(record: Record, claim: Claim) {
    match claim.operation
    case Revocation(_, Remote, _) => record.commitments.remote.Some?
      && record.commitments.remote.value.number == claim.number
    case Revocation(_, Local, _) => record.commitments.local.Some?
      && record.commitments.local.value.number == claim.number
    case _ => true
  }

  /** A commitment's version: any above the last in the device's view; in the peer's the next, and that only
      once the version two below it is revoked and its signature kept, if its slot was ever served. */
  predicate Follows(record: Record, operation: Operation) {
    match operation
    case CommitmentTx(_, Local, kept, _) =>
      record.commitments.local.Some? ==> record.commitments.local.value.number < kept.number
    case CommitmentTx(_, Remote, kept, _) =>
      record.commitments.remote.Some? ==>
        var last := record.commitments.remote.value.number;
        && kept.number == last + 1
        && (last >= 1 && Slot(CommitmentNonce, last - 1) in record.sessions ==>
              && RevokeLocal in record.lastSigned && record.lastSigned[RevokeLocal] == last
              && last - 1 in record.revocations)
    case _ => true
  }

  /** The funds: the first commitment of a channel is bare and at its funding, each one passes the rule, and
      a close finds both views bare and leaves the device within 100,000,000 shannons of each. */
  ghost predicate FundsPass(record: Record, operation: Operation, context: Context) {
    match operation
    case CommitmentTx(_, view, _, stated) =>
      && (CommitmentLocal !in record.lastSigned ==> stated.tlcs == [] && stated.exposure == record.funded)
      && Acceptable(view, record.views, stated, context)
    case ClosingTx(_, payout) =>
      && record.views.remote.tlcs == [] && payout + 100_000_000 >= record.views.remote.exposure
      && record.views.local.tlcs == [] && payout + 100_000_000 >= record.views.local.exposure
    case _ => true
  }

  lemma {:induction false} FundsAre(record: Record, operation: Operation, context: Context)
    ensures ApplyBalanceRule(record, operation, context).Accept? <==> FundsPass(record, operation, context)
    ensures ApplyBalanceRule(record, operation, context).Refuse? ==>
              ApplyBalanceRule(record, operation, context) == Refuse(PolicyRefusal)
    ensures ApplyBalanceRule(record, operation, context).Accept? ==>
              ApplyBalanceRule(record, operation, context).value
              == if operation.CommitmentTx?
                 then record.views.With(operation.view,
                   Judge(operation.view, record.views, operation.stated, context).value)
                 else record.views
  {
    if operation.CommitmentTx? {
      AcceptedExactly(operation.view, record.views, operation.stated, context);
    }
    if operation.ClosingTx? {
      ClosesAre(record.views, operation.payout);
    }
    hide Judge, Acceptable, ClosesFairly;
  }

  lemma {:induction false} ClosesAre(views: Views, payout: nat)
    ensures ClosesFairly(views, payout)
            <==> && views.remote.tlcs == [] && payout + 100_000_000 >= views.remote.exposure
                 && views.local.tlcs == [] && payout + 100_000_000 >= views.local.exposure
  {
    assert forall view: View :: views.Of(view) == if view == Remote then views.remote else views.local;
    assert views.Of(Remote) == views.remote && views.Of(Local) == views.local;
  }

  lemma {:induction false} FollowsIs(record: Record, operation: Operation)
    ensures NextCommitments(record, operation).Accept? <==> Follows(record, operation)
    ensures NextCommitments(record, operation).Refuse? ==> NextCommitments(record, operation) == Refuse(StaleState)
    ensures NextCommitments(record, operation).Accept? ==>
              var was, now := record.commitments, NextCommitments(record, operation).value;
              match operation
              case CommitmentTx(_, Local, kept, _) =>
                now.local == Some(kept) && now.remote == was.remote && now.previous == was.previous
              case CommitmentTx(_, Remote, kept, _) =>
                now.remote == Some(kept) && now.local == was.local
                && now.previous == (if was.remote.Some? then was.remote else was.previous)
              case _ => now == was
  {
  }

  /** A claim answered before is answered so again, and its record stays. */
  lemma {:induction false} RepeatsAreAnswered(claim: Claim, allowReuse: bool, record: Record, context: Context)
    requires Answered(record, claim)
    ensures Decide(claim, allowReuse, record, context)
            == Accept(Decided(if ServedFirst(record, claim) then RepeatedSlot else ReusedSlot, record))
  {
  }

  /** Any other is signed exactly when its slot has room, its lane goes on, a revocation has its replacement, a
      commitment follows, the pins admit it and the funds pass; the refusals are a policy's for the slot, the pins and
      the funds, and stale otherwise. */
  lemma {:induction false} SignedExactly(claim: Claim, allowReuse: bool, record: Record, context: Context)
    requires !Answered(record, claim)
    ensures var answer := Decide(claim, allowReuse, record, context);
            if !HasRoom(record, claim, allowReuse) then answer == Refuse(PolicyRefusal)
            else if !GoesOn(record, claim) || !HasReplacement(record, claim) || !Follows(record, claim.operation)
            then answer == Refuse(StaleState)
            else if !claim.pinned || !FundsPass(record, claim.operation, context) then answer == Refuse(PolicyRefusal)
            else answer.Accept?
  {
    FollowsIs(record, claim.operation);
    FundsAre(record, claim.operation, context);
    hide NextCommitments, ApplyBalanceRule, Follows, FundsPass, Written;
    match claim.operation {
      case Revocation(_, view, _) =>
        assert view == Remote || view == Local;
      case _ =>
    }
  }

  /** What a newly signed claim leaves: its session in its slot, its lane at its number, its
      commitment and its view's snapshot, and every other field and place as it was. */
  lemma {:induction false} SignedLeaves(claim: Claim, allowReuse: bool, record: Record, context: Context)
    requires !Answered(record, claim) && Decide(claim, allowReuse, record, context).Accept?
    ensures var Decided(status, after) := Decide(claim, allowReuse, record, context).value;
            var slot := SlotOf(claim);
            && status == (if slot in record.sessions then ReusedSlot else FreshSlot)
            && after.sessions == (if slot in record.sessions then record.sessions
              else record.sessions[slot := claim.session])
            && after.reuses == (if slot in record.sessions then record.reuses[slot := claim.session] else record.reuses)
            && after.lastSigned == record.lastSigned[LaneOf(claim.operation) := claim.number]
            && after.funded == record.funded && after.revocations == record.revocations && after.spends == record.spends
            && NextCommitments(record, claim.operation) == Accept(after.commitments)
            && ApplyBalanceRule(record, claim.operation, context) == Accept(after.views)
  {
    hide NextCommitments, ApplyBalanceRule, IsStale, ReplacementSigned;
  }

  // ---- What the device's records make of it

  /** The hash is shown by the next list or by either view of the channel. */
  ghost predicate IsShown(views: Views, next: seq<Tlc>, bound: Bound) {
    exists tlc :: (tlc in next || tlc in views.remote.tlcs || tlc in views.local.tlcs) && tlc.bound == bound
  }

  /** Some record of the hash names the channel. */
  predicate IsNamed(d: Device, bound: Bound, other: nat) {
    || (bound in d.intents && other in d.intents[bound].channels)
    || (bound in d.invoices && other in d.invoices[bound].channels)
  }

  /** The context is the device's records of the hashes shown, and the
      views of the other channels those records name. */
  ghost predicate IsContext(d: Device, index: nat, next: seq<Tlc>, context: Context)
    requires index in d.channels
  {
    var views := d.channels[index].views;
    && (forall bound ::
          && (bound in context.intents <==> bound in d.intents && IsShown(views, next, bound))
          && (bound in context.invoices <==> bound in d.invoices && IsShown(views, next, bound)))
    && (forall bound :: bound in context.intents ==> context.intents[bound] == d.intents[bound])
    && (forall bound :: bound in context.invoices ==> context.invoices[bound] == d.invoices[bound])
    && (forall other ::
          other in context.others
          <==> other != index && exists bound :: IsShown(views, next, bound) && IsNamed(d, bound, other))
    && (forall other :: other in context.others ==>
      other in d.channels && context.others[other] == d.channels[other].views)
  }

  lemma {:induction false} HashesAreShown(views: Views, next: seq<Tlc>, bound: Bound)
    ensures bound in HashesOf(next + views.remote.tlcs + views.local.tlcs) <==> IsShown(views, next, bound)
  {
    var shown := next + views.remote.tlcs + views.local.tlcs;
    assert forall tlc :: tlc in shown <==> tlc in next || tlc in views.remote.tlcs || tlc in views.local.tlcs;
  }

  /** In every reachable state a commitment's context loads, and it is the records'. */
  lemma {:induction false} ContextIsTheRecords(events: seq<Event>, index: nat, operation: Operation)
    requires index in Run(events).channels && operation.CommitmentTx?
    ensures LoadContext(Run(events), index, operation).Accept?
    ensures IsContext(Run(events), index, operation.stated.tlcs, LoadContext(Run(events), index, operation).value)
  {
    var d := Run(events);
    RunsKeepListed(events);
    ContextLoads(d, index, operation);
    ContextIsSpelled(d, index, operation);
  }

  lemma {:induction false} ContextIsSpelled(d: Device, index: nat, operation: Operation)
    requires index in d.channels && operation.CommitmentTx? && LoadContext(d, index, operation).Accept?
    ensures IsContext(d, index, operation.stated.tlcs, LoadContext(d, index, operation).value)
  {
    hide HashesOf, IsShown;
    var views, next := d.channels[index].views, operation.stated.tlcs;
    forall bound {
      HashesAreShown(views, next, bound);
    }
  }

  // ---- The whole answer

  lemma {:induction false} ContextIsThere(events: seq<Event>, index: nat, operation: Operation)
    requires index in Run(events).channels
    ensures LoadContext(Run(events), index, operation).Accept?
  {
    RunsKeepListed(events);
    ContextLoads(Run(events), index, operation);
  }

  /** In every reachable state: what the gate answers a claim, check by check. */
  lemma {:induction false} ClaimedExactly(events: seq<Event>, index: nat, claim: Claim, allowReuse: bool)
    ensures var d, answer := Run(events), CheckAndClaim(Run(events), index, claim, allowReuse);
            if claim.number >= 0x1_0000_0000_0000 || (claim.operation.ChannelAnnouncement? && claim.number != 0)
            then answer == Refuse(Malformed)
            else if index !in d.channels then answer == Refuse(UnknownChannel)
            else if claim.session.message != claim.operation.message then answer == Refuse(Malformed)
            else if Answered(d.channels[index], claim)
            then answer == Accept(Claimed(if ServedFirst(d.channels[index], claim) then RepeatedSlot
              else ReusedSlot, d))
            else if !HasRoom(d.channels[index], claim, allowReuse) then answer == Refuse(PolicyRefusal)
            else if !GoesOn(d.channels[index], claim) || !HasReplacement(d.channels[index], claim)
                    || !Follows(d.channels[index], claim.operation)
            then answer == Refuse(StaleState)
            else && LoadContext(d, index, claim.operation).Accept?
                 && if claim.pinned && FundsPass(d.channels[index], claim.operation,
                   LoadContext(d, index, claim.operation).value)
                    then answer.Accept? else answer == Refuse(PolicyRefusal)
  {
    hide Run, LoadContext, Decide, FundsPass, Follows, GoesOn, HasReplacement, HashesOf, FiledIntents, FiledInvoices;
    if index in Run(events).channels {
      var record := Run(events).channels[index];
      ContextIsThere(events, index, claim.operation);
      var context := LoadContext(Run(events), index, claim.operation).value;
      if Answered(record, claim) {
        RepeatsAreAnswered(claim, allowReuse, record, context);
      } else {
        SignedExactly(claim, allowReuse, record, context);
      }
    }
  }

  /** What a newly signed claim leaves of the device: its channel's record as
      decided, and its channel named under every hash it shows. */
  lemma {:induction false} ClaimedLeaves(d: Device, index: nat, claim: Claim, allowReuse: bool)
    requires CheckAndClaim(d, index, claim, allowReuse).Accept? && index in d.channels
             && !Answered(d.channels[index], claim)
    ensures LoadContext(d, index, claim.operation).Accept?
    ensures Decide(claim, allowReuse, d.channels[index], LoadContext(d, index, claim.operation).value).Accept?
    ensures var Claimed(status, after) := CheckAndClaim(d, index, claim, allowReuse).value;
            var decided := Decide(claim, allowReuse, d.channels[index],
              LoadContext(d, index, claim.operation).value).value;
            && status == decided.status && after.channels == d.channels[index := decided.record]
            && after.intents.Keys == d.intents.Keys && after.invoices.Keys == d.invoices.Keys
            && (forall bound :: bound in d.intents ==>
                  NamesToo(d.intents[bound].channels, after.intents[bound].channels, index, ShownBy(claim, bound))
                  && after.intents[bound] == d.intents[bound].(channels := after.intents[bound].channels))
            && (forall bound :: bound in d.invoices ==>
                  NamesToo(d.invoices[bound].channels, after.invoices[bound].channels, index, ShownBy(claim, bound))
                  && after.invoices[bound] == d.invoices[bound].(channels := after.invoices[bound].channels))
  {
    hide Decide, LoadContext;
  }

  /** The list names the channel too, and nothing else it did not. */
  predicate NamesToo(before: seq<nat>, after: seq<nat>, index: nat, named: bool) {
    after == if named && index !in before then before + [index] else before
  }

  /** The claim is a commitment that shows the hash. */
  predicate ShownBy(claim: Claim, bound: Bound) {
    claim.operation.CommitmentTx? && exists tlc :: tlc in claim.operation.stated.tlcs && tlc.bound == bound
  }

  // ---- A payment offered, from its request to the records

  /** What every other channel takes of a payment's budget, each at its worse view. */
  ghost function TakenByOthers(d: Device, index: nat, bound: Bound): map<nat, int> {
    map other | other in d.channels && other != index ::
      Worse(Takes(d.channels[other].views.remote, bound), Takes(d.channels[other].views.local, bound))
  }

  lemma {:induction false} TakenIsDrawn(d: Device, index: nat, bound: Bound)
    ensures var draws: map<nat, int> := Draws(LedgerOf(d), bound) - {index};
            draws == TakenByOthers(d, index, bound)
  {
    hide Takes, Drawn;
    forall s: Snapshot {
      TakesIs(s, bound);
    }
  }

  lemma {:induction false} OthersTake(events: seq<Event>, index: nat, operation: Operation, bound: Bound)
    requires index in Run(events).channels && operation.CommitmentTx?
    requires bound in Run(events).intents && IsShown(Run(events).channels[index].views, operation.stated.tlcs, bound)
    ensures LoadContext(Run(events), index, operation).Accept?
    ensures Sum<nat>(TakenElsewhere(LoadContext(Run(events), index, operation).value, bound))
            == Sum<nat>(TakenByOthers(Run(events), index, bound))
  {
    hide Run, LoadContext, Reads, DrawsFiled, IsShown, WithinBudgets, TakenElsewhere, TakenByOthers, Draws, OtherDraws;
    var d := Run(events);
    ContextIsTheRecords(events, index, operation);
    DrawsStayWithinBudgets(events);
    ContextIsRead(d, index, operation);
    var context := LoadContext(d, index, operation).value;
    assert bound in context.intents;
    OthersAreAllDraws(LedgerOf(d), index, operation.stated, context, bound);
    TakenIs(context, bound);
    TakenIsDrawn(d, index, bound);
  }

  /** The commitment the claim is for shows one payment more than its
      view, out of the device's balance, and nothing else new. */
  ghost predicate OffersOneMore(record: Record, claim: Claim, tlc: Tlc) {
    && claim.operation.CommitmentTx?
    && var before, next := record.views.Of(claim.operation.view), claim.operation.stated;
       && Adds(before, next, tlc) && tlc.direction == Offered && next.exposure + tlc.amount == before.exposure
  }

  /** The user's open intent covers it beside all that is drawn on it on every channel. */
  ghost predicate IsApproved(d: Device, index: nat, view: View, tlc: Tlc)
    requires index in d.channels
  {
    && tlc.bound in d.intents
    && var intent := d.intents[tlc.bound];
       && intent.open && Fits(tlc, intent.hash)
       && Takes(d.channels[index].views.Of(view), tlc.bound) + tlc.amount
          + Sum<nat>(TakenByOthers(d, index, tlc.bound)) <= intent.maximum
  }

  /** No TLC of a released invoice is shown, and those that offer nothing are their intents' own. */
  ghost predicate NothingInTheWay(d: Device, views: Views, next: seq<Tlc>) {
    forall tlc :: tlc in next || tlc in views.remote.tlcs || tlc in views.local.tlcs ==>
      && (tlc.direction == Received && tlc.bound in d.invoices && Fits(tlc, d.invoices[tlc.bound].hash) ==>
            !d.invoices[tlc.bound].released)
      && (tlc.direction == Offered && tlc.amount == 0 && tlc.bound in d.intents ==>
        Fits(tlc, d.intents[tlc.bound].hash))
  }

  /** Nothing but the funds speaks against the claim. */
  predicate InOrder(d: Device, index: nat, claim: Claim, allowReuse: bool) {
    && claim.number < 0x1_0000_0000_0000 && claim.session.message == claim.operation.message
    && (claim.operation.ChannelAnnouncement? ==> claim.number == 0)
    && index in d.channels
    && var record := d.channels[index];
       && !Answered(record, claim) && HasRoom(record, claim, allowReuse) && GoesOn(record, claim)
       && HasReplacement(record, claim) && Follows(record, claim.operation) && claim.pinned
  }

  lemma {:induction false} OfferIsJudged(events: seq<Event>, index: nat, claim: Claim, tlc: Tlc)
    requires index in Run(events).channels && OffersOneMore(Run(events).channels[index], claim, tlc)
    requires IsApproved(Run(events), index, claim.operation.view, tlc)
    requires NothingInTheWay(Run(events), Run(events).channels[index].views, claim.operation.stated.tlcs)
    ensures LoadContext(Run(events), index, claim.operation).Accept?
    ensures var views, next, view := Run(events).channels[index].views, claim.operation.stated, claim.operation.view;
            Judge(view, views, next, LoadContext(Run(events), index, claim.operation).value)
            == Accept(Snapshot(next.exposure, next.tlcs, views.Of(view).charged, views.Of(view).credited))
  {
    var d, views, next, view := Run(events), Run(events).channels[index].views, claim.operation.stated,
      claim.operation.view;
    assert tlc in next.tlcs by {
      assert tlc in multiset(next.tlcs);
    }
    assert IsShown(views, next.tlcs, tlc.bound);
    ContextIsTheRecords(events, index, claim.operation);
    OthersTake(events, index, claim.operation, tlc.bound);
    OfferedIsAuthorised(events);
    var context := LoadContext(d, index, claim.operation).value;
    hide Run, LoadContext, TakenElsewhere, TakenByOthers, Takes, Judge, IsShown;
    OwnBefore(d, index, view, next.tlcs, context);
    NoneIsReleased(d, index, next.tlcs, context);
    OfferIsSigned(view, views, next, context, tlc);
  }

  lemma {:induction false} OwnBefore(d: Device, index: nat, view: View, next: seq<Tlc>, context: Context)
    requires index in d.channels && OfferedAuthorised(LedgerOf(d)) && IsContext(d, index, next, context)
    requires NothingInTheWay(d, d.channels[index].views, next)
    ensures OffersOwn(d.channels[index].views.Of(view).tlcs, context)
  {
    hide IsShown;
    var views := d.channels[index].views;
    forall tlc | tlc in views.Of(view).tlcs && tlc.direction == Offered && tlc.bound in context.intents
      ensures Fits(tlc, context.intents[tlc.bound].hash)
    {
      assert index in LedgerOf(d).accounts && Shows(LedgerOf(d).accounts[index].views, tlc);
      assert TlcAuthorised(LedgerOf(d).intents, tlc);
    }
  }

  lemma {:induction false} NoneIsReleased(d: Device, index: nat, next: seq<Tlc>, context: Context)
    requires index in d.channels && IsContext(d, index, next, context)
             && NothingInTheWay(d, d.channels[index].views, next)
    ensures NoneReleased(d.channels[index].views, next, context)
  {
    hide IsShown;
  }

  /** In every reachable state, a payment the user approved is signed once the claim is in order: the slot is served,
      the lane moves, the view gains the TLC and gives up its amount, nothing is charged or credited, every other
      channel stays, and the intent names the channel. */
  lemma {:induction false} OfferIsClaimed(events: seq<Event>, index: nat, claim: Claim, allowReuse: bool, tlc: Tlc)
    requires InOrder(Run(events), index, claim, allowReuse)
    requires OffersOneMore(Run(events).channels[index], claim, tlc)
    requires CommitmentLocal in Run(events).channels[index].lastSigned
    requires IsApproved(Run(events), index, claim.operation.view, tlc)
    requires NothingInTheWay(Run(events), Run(events).channels[index].views, claim.operation.stated.tlcs)
    ensures CheckAndClaim(Run(events), index, claim, allowReuse).Accept?
    ensures var d, Claimed(status, after) := Run(events), CheckAndClaim(Run(events), index, claim, allowReuse).value;
            var views, next, view := d.channels[index].views, claim.operation.stated, claim.operation.view;
            && status == (if SlotOf(claim) in d.channels[index].sessions then ReusedSlot else FreshSlot)
            && index in after.channels && after.channels == d.channels[index := after.channels[index]]
            && after.channels[index].lastSigned == d.channels[index].lastSigned[CommitmentLocal := claim.number]
            && after.channels[index].views
               == views.With(view, Snapshot(next.exposure, next.tlcs, views.Of(view).charged, views.Of(view).credited))
            && tlc.bound in after.intents && index in after.intents[tlc.bound].channels
  {
    hide Run, LoadContext, TakenByOthers, Takes, NothingInTheWay, Judge, Decide, Follows, GoesOn, HasReplacement,
         NextCommitments, CheckAndClaim, ApplyBalanceRule;
    var d, record := Run(events), Run(events).channels[index];
    OfferIsJudged(events, index, claim, tlc);
    var context := LoadContext(d, index, claim.operation).value;
    assert tlc in multiset(claim.operation.stated.tlcs);
    assert ShownBy(claim, tlc.bound);
    OfferPasses(record, claim, context);
    FundsAre(record, claim.operation, context);
    ClaimedExactly(events, index, claim, allowReuse);
    ClaimedLeaves(d, index, claim, allowReuse);
    SignedLeaves(claim, allowReuse, record, context);
  }

  lemma {:induction false} OfferPasses(record: Record, claim: Claim, context: Context)
    requires claim.operation.CommitmentTx? && CommitmentLocal in record.lastSigned
    requires Judge(claim.operation.view, record.views, claim.operation.stated, context).Accept?
    ensures FundsPass(record, claim.operation, context)
  {
    AcceptedExactly(claim.operation.view, record.views, claim.operation.stated, context);
    hide Judge, Acceptable;
  }
}
