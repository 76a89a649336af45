/** What every step does to one channel's record, and that no slot ever serves more than its sessions. */
module SignOnce {
  import opened Outcomes
  import opened BalanceRule
  import opened Watchtower
  import opened Records
  import opened HoldRelease
  import opened Engine
  import opened Runs

  /** A claim accepted for the first time: it passed the checks and the record was written whole. */
  ghost predicate SignedFirst(record: Record, claim: Claim, allowReuse: bool, after: Record) {
    && !IsRepeat(record, claim)
    && (SlotOf(claim) in record.sessions ==> SlotOf(claim) !in record.reuses && allowReuse)
    && !IsStale(record, claim)
    && ReplacementSigned(record, claim)
    && NextCommitments(record, claim.operation).Accept?
    && DispatchFault(claim).None?
    && after == Written(record, claim, NextCommitments(record, claim.operation).value, after.views).record
  }

  ghost predicate RevocationsWritten(record: Record, after: Record) {
    after == record.(revocations := after.revocations) && record.revocations.Keys <= after.revocations.Keys
  }

  ghost predicate SpendsWritten(record: Record, after: Record) {
    after == record.(spends := after.spends)
  }

  lemma {:induction false} FirstSigning(d: Device, index: nat, claim: Claim, allowReuse: bool)
    requires Sign(d, index, claim, allowReuse).Accept? && !IsRepeat(d.channels[index], claim)
    ensures index in d.channels
    ensures var after := Sign(d, index, claim, allowReuse).value.device;
            && index in after.channels
            && SignedFirst(d.channels[index], claim, allowReuse, after.channels[index])
            && forall other :: other in d.channels && other != index ==>
                 other in after.channels && after.channels[other] == d.channels[other]
  {
    var context := LoadContext(d, index, claim.operation).value;
    DecisionIsWritten(claim, allowReuse, d.channels[index], context);
    hide Decide, LoadContext, ApplyBalanceRule, NextCommitments, IsStale, ReplacementSigned;
  }

  lemma {:induction false} RepeatKeepsDevice(d: Device, index: nat, claim: Claim, allowReuse: bool)
    requires Sign(d, index, claim, allowReuse).Accept? && IsRepeat(d.channels[index], claim)
    ensures Sign(d, index, claim, allowReuse).value.device == d
  {
    hide Decide, LoadContext;
  }

  // ---- Repeats

  /** No payment record lists an index that was never registered. */
  ghost predicate ListedAreHeld(l: Ledger) {
    && (forall bound, index :: bound in l.intents && index in l.intents[bound].channels ==> index in l.accounts)
    && (forall bound, index :: bound in l.invoices && index in l.invoices[bound].channels ==> index in l.accounts)
  }

  lemma {:induction false} MoveKeepsListed(l: Ledger, move: Move, after: Ledger)
    requires ListedAreHeld(l) && Moves(l, move, after)
    ensures ListedAreHeld(after)
  {
    hide Judge, Reads, ReleaseFault, HashesOf, Charges;
  }

  lemma {:induction false} RunsKeepListed(events: seq<Event>)
    ensures ListedAreHeld(LedgerOf(Run(events)))
  {
    if events != [] {
      var before := events[..|events| - 1];
      RunsKeepListed(before);
      var move := StepMoves(Run(before), events[|events| - 1]);
      hide Step, Moves, ListedAreHeld;
      MoveKeepsListed(LedgerOf(Run(before)), move, LedgerOf(Run(events)));
    }
  }

  /** No reachable record lists a channel that cannot be read. */
  lemma {:induction false} ContextLoads(d: Device, index: nat, operation: Operation)
    requires ListedAreHeld(LedgerOf(d)) && index in d.channels
    ensures LoadContext(d, index, operation).Accept?
  {
    if operation.CommitmentTx? {
      var views := d.channels[index].views;
      var hashes := HashesOf(operation.stated.tlcs + views.remote.tlcs + views.local.tlcs);
      hide HashesOf;
      forall other | other in ListedOn(IntentsUnder(d.intents, hashes), InvoicesUnder(d.invoices, hashes))
        ensures other in d.channels
      {
        assert other in LedgerOf(d).accounts;
      }
    }
  }

  /** In any reachable state, a well-formed claim whose slot has served its session is answered
      again, with the verdict its slot gave it, and every record of the device stays as it is. */
  lemma {:induction false} RepeatsChangeNothing(events: seq<Event>, index: nat, claim: Claim, allowReuse: bool)
    requires DispatchFault(claim).None? && ClaimFault(Run(events), index, claim).None?
    requires IsRepeat(Run(events).channels[index], claim)
    ensures var d := Run(events);
            var status := if Served(d.channels[index].sessions, SlotOf(claim), claim.session) then RepeatedSlot
              else ReusedSlot;
            Sign(d, index, claim, allowReuse) == Accept(Claimed(status, d))
  {
    RunsKeepListed(events);
    ContextLoads(Run(events), index, claim.operation);
    hide Run, LoadContext;
  }

  /** How one step can have left a channel's record. */
  lemma {:induction false} RecordSteps(d: Device, e: Event, index: nat)
    requires index in d.channels
    ensures index in Step(d, e).channels
    ensures var record, after := d.channels[index], Step(d, e).channels[index];
            || after == record
            || RevocationsWritten(record, after)
            || (SpendsWritten(record, after) && (e.Spends? || e.SignsSpend? || e.AppliesSpend?) && e.index == index
                && Attempt(d, e).Accept?)
            || (e.Signs? && e.index == index && Sign(d, index, e.claim, e.allowReuse).Accept?
                && SignedFirst(record, e.claim, e.allowReuse, after))
  {
    hide CheckAndClaim, DecideSpend, MarkReleased, RecordIntent, WithSignature, WithApplied, SignedFirst;
    if e.Signs? && Sign(d, e.index, e.claim, e.allowReuse).Accept? {
      ClaimFinds(d, e.index, e.claim, e.allowReuse);
      if IsRepeat(d.channels[e.index], e.claim) {
        RepeatKeepsDevice(d, e.index, e.claim, e.allowReuse);
      } else {
        FirstSigning(d, e.index, e.claim, e.allowReuse);
      }
    } else if e.FilesOnly? && Attempt(d, e).Accept? {
      ClaimFinds(d, e.index, e.claim, e.allowReuse);
    } else if e.Releases? {
      ReleaseKeepsChannels(d, e);
    } else if e.Approves? {
      ApprovalKeepsChannels(d, e);
    }
  }

  lemma {:induction false} ReleaseKeepsChannels(d: Device, e: Event)
    requires e.Releases?
    ensures Step(d, e).channels == d.channels
  {
  }

  lemma {:induction false} ApprovalKeepsChannels(d: Device, e: Event)
    requires e.Approves?
    ensures Step(d, e).channels == d.channels
  {
  }

  /** A channel that appears has signed nothing. */
  lemma {:induction false} NewChannelIsEmpty(d: Device, e: Event, index: nat)
    requires index !in d.channels && index in Step(d, e).channels
    ensures var record := Step(d, e).channels[index];
            && record.sessions == map[] && record.reuses == map[] && record.lastSigned == map[]
            && record.commitments == Commitments(None, None, None) && record.revocations == map[] && record.spends == []
  {
    hide Decide, DecideSpend, MarkReleased, RecordIntent, LoadContext, WithSignature, WithApplied;
    if e.Releases? {
      ReleaseKeepsChannels(d, e);
    } else if e.Approves? {
      ApprovalKeepsChannels(d, e);
    }
  }

  // ---- Lanes

  ghost predicate LanesKept(record: Record, after: Record) {
    forall lane :: lane in record.lastSigned ==>
      lane in after.lastSigned && record.lastSigned[lane] <= after.lastSigned[lane]
  }

  /** No step lowers the last number any lane signed. */
  lemma {:induction false} LanesNeverFall(d: Device, e: Event, index: nat)
    requires index in d.channels
    ensures index in Step(d, e).channels
    ensures LanesKept(d.channels[index], Step(d, e).channels[index])
  {
    RecordSteps(d, e, index);
    hide Step, Attempt, Sign, NextCommitments, ReplacementSigned;
  }

  /** Nor does any run, whatever restarts and mode changes it goes through. */
  lemma {:induction false} LanesNeverFallInRuns(events: seq<Event>, more: seq<Event>, index: nat)
    requires index in Run(events).channels
    ensures index in Run(events + more).channels
    ensures LanesKept(Run(events).channels[index], Run(events + more).channels[index])
  {
    if more == [] {
      assert events + more == events;
    } else {
      var before := more[..|more| - 1];
      assert (events + more)[..|events + more| - 1] == events + before;
      LanesNeverFallInRuns(events, before, index);
      LanesNeverFall(Run(events + before), more[|more| - 1], index);
      hide Step;
    }
  }

  // ---- Slots

  datatype SlotServed = SlotServed(index: nat, slot: Slot, session: Session)

  ghost predicate Answers(d: Device, e: Event) {
    e.Signs? && Sign(d, e.index, e.claim, e.allowReuse).Accept?
  }

  /** Every session a signable verdict was returned for, in its slot. */
  ghost function ServedIn(events: seq<Event>): set<SlotServed> {
    if events == [] then {} else
      var before, last := events[..|events| - 1], events[|events| - 1];
      ServedIn(before) + if Answers(Run(before), last)
                         then {SlotServed(last.index, SlotOf(last.claim), last.claim.session)} else {}
  }

  /** The registry is exactly what was served. */
  ghost predicate Registry(d: Device, served: set<SlotServed>) {
    && (forall index, slot, session :: SlotServed(index, slot, session) in served ==> index in d.channels)
    && forall index, slot, session :: index in d.channels ==>
         (SlotServed(index, slot, session) in served
          <==> Served(d.channels[index].sessions, slot, session) || Served(d.channels[index].reuses, slot, session))
  }

  lemma {:induction false} RecordKeepsRegistry(
    record: Record, claim: Claim, allowReuse: bool, after: Record, slot: Slot, session: Session)
    requires SignedFirst(record, claim, allowReuse, after)
    ensures Served(after.sessions, slot, session) || Served(after.reuses, slot, session)
            <==> Served(record.sessions, slot, session) || Served(record.reuses, slot, session)
                 || (slot == SlotOf(claim) && session == claim.session)
  {
    hide IsStale, ReplacementSigned, NextCommitments;
  }

  lemma {:induction false} StepKeepsRegistry(d: Device, e: Event, served: set<SlotServed>)
    requires Registry(d, served)
    ensures Registry(
              Step(d, e),
              served + if Answers(d, e) then {SlotServed(e.index, SlotOf(e.claim), e.claim.session)} else {})
  {
    var now := served + if Answers(d, e) then {SlotServed(e.index, SlotOf(e.claim), e.claim.session)} else {};
    if Answers(d, e) {
      ClaimFinds(d, e.index, e.claim, e.allowReuse);
      if IsRepeat(d.channels[e.index], e.claim) {
        RepeatKeepsDevice(d, e.index, e.claim, e.allowReuse);
        assert now == served;
        return;
      }
      FirstSigning(d, e.index, e.claim, e.allowReuse);
    }
    hide Sign, SignedFirst, Attempt;
    forall index | index in d.channels {
      RecordSteps(d, e, index);
    }
    forall index, slot, session | index in Step(d, e).channels
      ensures SlotServed(index, slot, session) in now
              <==> Served(Step(d, e).channels[index].sessions, slot, session)
                   || Served(Step(d, e).channels[index].reuses, slot, session)
    {
      SlotStep(d, e, served, index, slot, session);
    }
    hide Step;
  }

  lemma {:induction false} SlotStep(
    d: Device, e: Event, served: set<SlotServed>, index: nat, slot: Slot, session: Session)
    requires Registry(d, served) && index in Step(d, e).channels
    requires Answers(d, e) ==> e.index in d.channels && !IsRepeat(d.channels[e.index], e.claim)
    ensures SlotServed(index, slot, session) in served
              || (Answers(d, e) && index == e.index && slot == SlotOf(e.claim) && session == e.claim.session)
            <==> Served(Step(d, e).channels[index].sessions, slot, session)
                 || Served(Step(d, e).channels[index].reuses, slot, session)
  {
    if index !in d.channels {
      NewChannelIsEmpty(d, e, index);
    } else {
      RecordSteps(d, e, index);
      var record, after := d.channels[index], Step(d, e).channels[index];
      if Answers(d, e) && e.index == index {
        FirstSigning(d, e.index, e.claim, e.allowReuse);
        RecordKeepsRegistry(record, e.claim, e.allowReuse, after, slot, session);
      } else {
        hide SignedFirst, Attempt, Step;
      }
    }
    hide Sign, Attempt, Step;
  }

  lemma {:induction false} RunsKeepRegistry(events: seq<Event>)
    ensures Registry(Run(events), ServedIn(events))
  {
    if events != [] {
      RunsKeepRegistry(events[..|events| - 1]);
      StepKeepsRegistry(Run(events[..|events| - 1]), events[|events| - 1], ServedIn(events[..|events| - 1]));
      hide Step, Registry, Answers;
    }
  }

  /** Over every run, restarts and mode changes included, a slot serves at most two sessions. */
  lemma {:induction false} AtMostTwoSessions(
    events: seq<Event>, index: nat, slot: Slot, a: Session, b: Session, c: Session)
    requires SlotServed(index, slot, a) in ServedIn(events)
    requires SlotServed(index, slot, b) in ServedIn(events)
    requires SlotServed(index, slot, c) in ServedIn(events)
    ensures a == b || b == c || a == c
  {
    RunsKeepRegistry(events);
    hide Run, ServedIn;
    assert Registry(Run(events), ServedIn(events));
  }

  lemma {:induction false} NoReuseWithoutLeave(events: seq<Event>, index: nat)
    requires forall e :: e in events && e.Signs? ==> !e.allowReuse
    requires index in Run(events).channels
    ensures Run(events).channels[index].reuses == map[]
  {
    if events != [] {
      var before, last := events[..|events| - 1], events[|events| - 1];
      if index in Run(before).channels {
        NoReuseWithoutLeave(before, index);
        RecordSteps(Run(before), last, index);
      } else {
        NewChannelIsEmpty(Run(before), last, index);
      }
      hide Step, Attempt, Sign, IsStale, ReplacementSigned, NextCommitments;
    }
  }

  /** And at most one, when reuse was always refused. */
  lemma {:induction false} OneSessionWhenRefused(events: seq<Event>, index: nat, slot: Slot, a: Session, b: Session)
    requires forall e :: e in events && e.Signs? ==> !e.allowReuse
    requires SlotServed(index, slot, a) in ServedIn(events)
    requires SlotServed(index, slot, b) in ServedIn(events)
    ensures a == b
  {
    RunsKeepRegistry(events);
    assert index in Run(events).channels;
    NoReuseWithoutLeave(events, index);
    hide Run, ServedIn;
  }
}
