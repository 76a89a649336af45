/** The claim decided is the claim written, whatever writers outside the balance lane do in between. */
module Interleaving {
  import opened Outcomes
  import opened Payments
  import opened BalanceRule
  import opened Watchtower
  import opened Records
  import opened Engine
  import opened Runs

  /** The steps that do not wait for the balance lane: they open a
      channel's record, or rewrite its evidence or its claims. */
  predicate Outside(e: Event) {
    e.Registers? || e.Revokes? || e.Spends? || e.SignsSpend? || e.AppliesSpend?
  }

  /** What outside steps can do to a record that is there: add evidence, and rewrite claims. */
  ghost predicate OutsideWritten(record: Record, later: Record) {
    && later == record.(revocations := later.revocations, spends := later.spends)
    && record.revocations.Keys <= later.revocations.Keys
  }

  ghost predicate OutsideWrittenAll(d: Device, later: Device) {
    && d.channels.Keys <= later.channels.Keys
    && later.intents == d.intents && later.invoices == d.invoices
    && forall index :: index in d.channels ==> OutsideWritten(d.channels[index], later.channels[index])
  }

  ghost function RunFrom(d: Device, events: seq<Event>): Device {
    if events == [] then d else Step(RunFrom(d, events[..|events| - 1]), events[|events| - 1])
  }

  lemma {:induction false} OutsideStep(d: Device, e: Event)
    requires Outside(e)
    ensures OutsideWrittenAll(d, Step(d, e))
  {
    hide DecideSpend, WithSignature, WithApplied;
  }

  lemma {:induction false} OutsideRun(d: Device, events: seq<Event>)
    requires forall e :: e in events ==> Outside(e)
    ensures OutsideWrittenAll(d, RunFrom(d, events))
  {
    if events != [] {
      OutsideRun(d, events[..|events| - 1]);
      OutsideStep(RunFrom(d, events[..|events| - 1]), events[|events| - 1]);
      hide Step;
    }
  }

  /** What a decision leaves, over the evidence and claims another record holds. */
  function Onto(record: Record, later: Record): Record {
    record.(revocations := later.revocations, spends := later.spends)
  }

  /** A claim accepted on a record is accepted after any outside writes, with the same verdict and the same fields. */
  lemma {:induction false} SameDecision(claim: Claim, allowReuse: bool, record: Record, later: Record, context: Context)
    requires Decide(claim, allowReuse, record, context).Accept? && OutsideWritten(record, later)
    ensures Decide(claim, allowReuse, later, context).Accept?
    ensures var decided := Decide(claim, allowReuse, record, context).value;
            Decide(claim, allowReuse, later, context).value == Decided(decided.status, Onto(decided.record, later))
  {
    hide Judge, ClosesFairly;
    if !IsRepeat(record, claim) {
      DecisionIsWritten(claim, allowReuse, record, context);
      SameCommitments(record, later, claim.operation);
      hide NextCommitments;
    }
  }

  /** Outside writes leave a commitment's succession as it was, once it held. */
  lemma {:induction false} SameCommitments(record: Record, later: Record, operation: Operation)
    requires NextCommitments(record, operation).Accept? && OutsideWritten(record, later)
    ensures NextCommitments(later, operation) == NextCommitments(record, operation)
  {
  }

  /** A context that loads is the same after outside writes: channels opened since are on no record it read. */
  lemma {:induction false} SameContext(d: Device, later: Device, index: nat, operation: Operation)
    requires index in d.channels && OutsideWrittenAll(d, later) && LoadContext(d, index, operation).Accept?
    ensures LoadContext(later, index, operation) == LoadContext(d, index, operation)
  {
    if operation.CommitmentTx? {
      var views := d.channels[index].views;
      assert later.channels[index].views == views;
      var hashes := HashesOf(operation.stated.tlcs + views.remote.tlcs + views.local.tlcs);
      var others := ListedOn(IntentsUnder(d.intents, hashes), InvoicesUnder(d.invoices, hashes)) - {index};
      hide HashesOf, ListedOn, IntentsUnder, InvoicesUnder;
      forall other | other in others
        ensures later.channels[other].views == d.channels[other].views
      {
      }
      assert OtherViews(later, others) == OtherViews(d, others);
    }
  }

  /** The last write of a claim decided on `d`: the decision runs again,
      on the record as it then is and the context read before. */
  ghost function WriteClaim(d: Device, later: Device, index: nat, claim: Claim, allowReuse: bool): Outcome<Claimed>
    requires index in d.channels && index in later.channels && LoadContext(d, index, claim.operation).Accept?
  {
    var decided :- Decide(claim, allowReuse, later.channels[index], LoadContext(d, index, claim.operation).value);
    if IsRepeat(d.channels[index], claim) then Accept(Claimed(decided.status, later)) else
      var filed := File(later, HashesOf(TlcsOf(claim.operation)), index);
      Accept(Claimed(decided.status, filed.(channels := later.channels[index := decided.record])))
  }

  /** A claim accepted at the decision is written with the same
      verdict, as one step after every outside write before it. */
  lemma {:induction false} DecidedIsWritten(d: Device, index: nat, claim: Claim, allowReuse: bool, between: seq<Event>)
    requires CheckAndClaim(d, index, claim, allowReuse).Accept?
    requires forall e :: e in between ==> Outside(e)
    ensures var later := RunFrom(d, between);
            && index in d.channels && index in later.channels && LoadContext(d, index, claim.operation).Accept?
            && WriteClaim(d, later, index, claim, allowReuse).Accept?
            && WriteClaim(d, later, index, claim, allowReuse) == CheckAndClaim(later, index, claim, allowReuse)
            && CheckAndClaim(later, index, claim, allowReuse).value.status
              == CheckAndClaim(d, index, claim, allowReuse).value.status
            && CheckAndClaim(later, index, claim, allowReuse).value.device.channels[index]
               == Onto(CheckAndClaim(d, index, claim, allowReuse).value.device.channels[index], later.channels[index])
  {
    OutsideRun(d, between);
    var later := RunFrom(d, between);
    SameContext(d, later, index, claim.operation);
    SameDecision(claim, allowReuse, d.channels[index], later.channels[index],
      LoadContext(d, index, claim.operation).value);
    assert IsRepeat(later.channels[index], claim) == IsRepeat(d.channels[index], claim);
    hide RunFrom, LoadContext, FiledIntents, FiledInvoices, HashesOf;
    if IsRepeat(d.channels[index], claim) {
      RepeatKeepsRecord(claim, allowReuse, d.channels[index], LoadContext(d, index, claim.operation).value);
    }
    hide Decide;
  }

  lemma {:induction false} RepeatKeepsRecord(claim: Claim, allowReuse: bool, record: Record, context: Context)
    requires IsRepeat(record, claim)
    ensures Decide(claim, allowReuse, record, context).Accept?
            && Decide(claim, allowReuse, record, context).value.record == record
  {
  }
}
