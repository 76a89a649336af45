/** Which commitments and revocations are ever signed, and what the record proves about the ones it no longer keeps. */
module Versions {
  import opened Outcomes
  import opened Payments
  import opened BalanceRule
  import opened Watchtower
  import opened Records
  import opened Engine
  import opened Runs
  import opened SignOnce

  datatype SignedAs = SignedAs(index: nat, view: View, kept: Kept, message: nat)

  datatype RevokedAs = RevokedAs(index: nat, view: View, version: nat)

  /** The step signs an operation it had not signed in that slot before. */
  ghost predicate SignsAnew(d: Device, e: Event) {
    Answers(d, e) && !IsRepeat(d.channels[e.index], e.claim)
  }

  ghost function SignedNow(d: Device, e: Event): set<SignedAs> {
    if SignsAnew(d, e) && e.claim.operation.CommitmentTx?
    then {SignedAs(e.index, e.claim.operation.view, e.claim.operation.kept, e.claim.operation.message)} else {}
  }

  ghost function RevokedNow(d: Device, e: Event): set<RevokedAs> {
    if SignsAnew(d, e) && e.claim.operation.Revocation?
    then {RevokedAs(e.index, e.claim.operation.view, e.claim.operation.revoked)} else {}
  }

  /** Every commitment ever signed. */
  ghost function SignedIn(events: seq<Event>): set<SignedAs> {
    if events == [] then {} else
      SignedIn(events[..|events| - 1]) + SignedNow(Run(events[..|events| - 1]), events[|events| - 1])
  }

  /** Every revocation ever signed. */
  ghost function RevokedIn(events: seq<Event>): set<RevokedAs> {
    if events == [] then {} else
      RevokedIn(events[..|events| - 1]) + RevokedNow(Run(events[..|events| - 1]), events[|events| - 1])
  }

  // ---- What a record keeps of what it signed

  /** Signed versions reach up to the last one kept, no two commitments share one, and remote ones leave no gap. */
  ghost predicate VersionsKept(record: Record, index: nat, signed: set<SignedAs>) {
    && (forall s :: s in signed && s.index == index ==>
          record.commitments.Of(s.view).Some? && s.kept.number <= record.commitments.Of(s.view).value.number)
    && (forall s, t :: s in signed && t in signed && s.index == index && SameVersion(s, t) ==> s == t)
    && (forall view: View :: record.commitments.Of(view).Some? ==>
          IsSigned(signed, index, view, record.commitments.Of(view).value))
  }

  predicate SameVersion(s: SignedAs, t: SignedAs) {
    s.index == t.index && s.view == t.view && s.kept.number == t.kept.number
  }

  ghost predicate IsSigned(signed: set<SignedAs>, index: nat, view: View, kept: Kept) {
    exists s :: s in signed && s.index == index && s.view == view && s.kept == kept
  }

  ghost predicate VersionSigned(signed: set<SignedAs>, index: nat, version: nat) {
    exists s :: s in signed && s.index == index && s.view == Remote && s.kept.number == version
  }

  /** A remote version's slot served it, its predecessor's evidence is
      recorded once it is two behind, and no gap is left. */
  ghost predicate RemoteKept(record: Record, index: nat, signed: set<SignedAs>) {
    && (forall s :: s in signed && s.index == index && s.view == Remote ==>
          Slot(CommitmentNonce, s.kept.number) in record.sessions)
    && (record.commitments.remote.Some? ==>
          var last := record.commitments.remote.value.number;
          && (forall s :: s in signed && s.index == index && s.view == Remote && s.kept.number + 2 <= last ==>
                s.kept.number in record.revocations)
          && (forall s, version: nat :: s in signed && s.index == index && s.view == Remote ==>
                (s.kept.number <= version <= last ==> VersionSigned(signed, index, version)))
          && (record.commitments.previous.Some? ==>
                record.commitments.previous.value.number + 1 == last
                && IsSigned(signed, index, Remote, record.commitments.previous.value))
          && (forall s :: s in signed && s.index == index && s.view == Remote && s.kept.number + 1 == last ==>
                record.commitments.previous == Some(s.kept)))
    && (record.commitments.remote.None? ==> record.commitments.previous.None?)
  }

  ghost predicate RevokedBelow(record: Record, index: nat, revoked: set<RevokedAs>) {
    forall r :: r in revoked && r.index == index ==>
      record.commitments.Of(r.view).Some? && r.version < record.commitments.Of(r.view).value.number
  }

  // ---- One signing

  /** A signed commitment becomes its view's last, at a version above the one before; the other view's last stays. */
  lemma {:induction false} SigningMovesLast(record: Record, claim: Claim, allowReuse: bool, after: Record, view: View)
    requires SignedFirst(record, claim, allowReuse, after)
    ensures after.commitments.Of(view)
            == if claim.operation.CommitmentTx? && claim.operation.view == view then Some(claim.operation.kept)
               else record.commitments.Of(view)
    ensures claim.operation.CommitmentTx? && claim.operation.view == view && record.commitments.Of(view).Some? ==>
              record.commitments.Of(view).value.number < claim.operation.kept.number
  {
    hide IsStale, ReplacementSigned;
  }

  lemma {:induction false} SigningKeepsVersions(
    record: Record, claim: Claim, allowReuse: bool, after: Record, index: nat, signed: set<SignedAs>)
    requires SignedFirst(record, claim, allowReuse, after) && VersionsKept(record, index, signed)
    ensures VersionsKept(after, index, signed + NewlySigned(claim, index))
  {
    forall view: View {
      SigningMovesLast(record, claim, allowReuse, after, view);
    }
    forall view: View | after.commitments.Of(view).Some? {
      SigningKeepsLast(record, claim, allowReuse, after, index, signed, view);
    }
    hide IsSigned, SignedFirst;
  }

  lemma {:induction false} SigningKeepsLast(
    record: Record, claim: Claim, allowReuse: bool, after: Record, index: nat, signed: set<SignedAs>, view: View)
    requires SignedFirst(record, claim, allowReuse, after) && VersionsKept(record, index, signed)
    requires after.commitments.Of(view).Some?
    ensures IsSigned(signed + NewlySigned(claim, index), index, view, after.commitments.Of(view).value)
  {
    SigningMovesLast(record, claim, allowReuse, after, view);
    hide SignedFirst;
    var now := signed + NewlySigned(claim, index);
    if claim.operation.CommitmentTx? && claim.operation.view == view {
      assert SignedAs(index, view, claim.operation.kept, claim.operation.message) in now;
    } else {
      var s :| s in signed && s.index == index && s.view == view && s.kept == record.commitments.Of(view).value;
      assert s in now;
    }
  }

  ghost function NewlySigned(claim: Claim, index: nat): set<SignedAs> {
    if claim.operation.CommitmentTx?
    then {SignedAs(index, claim.operation.view, claim.operation.kept, claim.operation.message)} else {}
  }

  lemma {:induction false} SigningKeepsRemote(
    record: Record, claim: Claim, allowReuse: bool, after: Record, index: nat, signed: set<SignedAs>)
    requires SignedFirst(record, claim, allowReuse, after) && VersionsKept(record, index, signed)
             && RemoteKept(record, index, signed)
    ensures RemoteKept(after, index, signed + NewlySigned(claim, index))
  {
    hide IsStale, ReplacementSigned;
    var now := signed + NewlySigned(claim, index);
    if claim.operation.CommitmentTx? && claim.operation.view.Remote? {
      RemoteSigningKeeps(record, claim, allowReuse, after, index, signed);
    } else {
      assert after.commitments.remote == record.commitments.remote
             && after.commitments.previous == record.commitments.previous;
      assert forall s :: s in now && s.view == Remote ==> s in signed;
      assert forall version: nat :: VersionSigned(signed, index, version) ==> VersionSigned(now, index, version);
      assert forall kept :: IsSigned(signed, index, Remote, kept) ==> IsSigned(now, index, Remote, kept);
      assert forall slot :: slot in record.sessions ==> slot in after.sessions;
    }
  }

  lemma {:induction false} RemoteSigningKeeps(
    record: Record, claim: Claim, allowReuse: bool, after: Record, index: nat, signed: set<SignedAs>)
    requires SignedFirst(record, claim, allowReuse, after) && VersionsKept(record, index, signed)
             && RemoteKept(record, index, signed)
    requires claim.operation.CommitmentTx? && claim.operation.view.Remote?
    ensures RemoteKept(after, index, signed + NewlySigned(claim, index))
  {
    hide IsStale, ReplacementSigned;
    var now := signed + NewlySigned(claim, index);
    var kept := claim.operation.kept;
    var newest := SignedAs(index, Remote, kept, claim.operation.message);
    assert newest in now && after.commitments.remote == Some(kept);
    assert forall slot :: slot in record.sessions ==> slot in after.sessions;
    assert Slot(CommitmentNonce, kept.number) in after.sessions;
    var remote := record.commitments.remote;
    if remote.None? {
      assert forall s :: s in now && s.index == index && s.view == Remote ==> s == newest;
      assert VersionSigned(now, index, kept.number);
    } else {
      var last := remote.value.number;
      assert SucceedsRemote(record, kept.number, last);
      forall s | s in now && s.index == index && s.view == Remote && s.kept.number + 2 <= kept.number
        ensures s.kept.number in after.revocations
      {
        assert s in signed;
      }
      forall s, version: nat | s in now && s.index == index && s.view == Remote
        && s.kept.number <= version <= kept.number
        ensures VersionSigned(now, index, version)
      {
        if version <= last {
          assert s in signed;
          assert VersionSigned(signed, index, version);
        }
      }
      assert record.commitments.Of(Remote) == remote;
      assert IsSigned(signed, index, Remote, remote.value);
      assert IsSigned(now, index, Remote, remote.value);
      forall s | s in now && s.index == index && s.view == Remote && s.kept.number + 1 == kept.number
        ensures after.commitments.previous == Some(s.kept)
      {
        assert s in signed && s.kept.number == last;
      }
    }
  }

  lemma {:induction false} SigningKeepsRevoked(
    record: Record, claim: Claim, allowReuse: bool, after: Record, index: nat, revoked: set<RevokedAs>)
    requires SignedFirst(record, claim, allowReuse, after) && RevokedBelow(record, index, revoked)
    ensures RevokedBelow(after, index, revoked + if claim.operation.Revocation?
                                                 then {RevokedAs(index, claim.operation.view, claim.operation.revoked)}
                                                 else {})
  {
    hide IsStale;
  }

  // ---- Over runs

  ghost predicate HistoryKept(d: Device, signed: set<SignedAs>, revoked: set<RevokedAs>) {
    && (forall s :: s in signed ==> s.index in d.channels)
    && (forall r :: r in revoked ==> r.index in d.channels)
    && forall index :: index in d.channels ==> ChannelKept(d.channels[index], index, signed, revoked)
  }

  ghost predicate ChannelKept(record: Record, index: nat, signed: set<SignedAs>, revoked: set<RevokedAs>) {
    VersionsKept(record, index, signed) && RemoteKept(record, index, signed) && RevokedBelow(record, index, revoked)
  }

  /** What a channel keeps depends on its own history alone, and on no field but four. */
  lemma {:induction false} OwnHistoryAlone(
    a: Record, b: Record, index: nat, signed: set<SignedAs>, more: set<SignedAs>, revoked: set<RevokedAs>,
    moreRevoked: set<RevokedAs>)
    requires ChannelKept(a, index, signed, revoked)
    requires b.commitments == a.commitments && b.sessions == a.sessions && a.revocations.Keys <= b.revocations.Keys
    requires forall s :: s in more && s.index == index <==> s in signed && s.index == index
    requires forall r :: r in moreRevoked && r.index == index ==> r in revoked
    ensures ChannelKept(b, index, more, moreRevoked)
  {
    assert forall version: nat :: VersionSigned(signed, index, version) ==> VersionSigned(more, index, version);
    forall view: View, kept | IsSigned(signed, index, view, kept)
      ensures IsSigned(more, index, view, kept)
    {
      var s :| s in signed && s.index == index && s.view == view && s.kept == kept;
      assert s in more;
    }
  }

  lemma {:induction false} NewChannelKept(
    d: Device, e: Event, index: nat, signed: set<SignedAs>, revoked: set<RevokedAs>)
    requires HistoryKept(d, signed, revoked) && index !in d.channels && index in Step(d, e).channels
    ensures ChannelKept(Step(d, e).channels[index], index, signed + SignedNow(d, e), revoked + RevokedNow(d, e))
  {
    NewChannelIsEmpty(d, e, index);
    if SignsAnew(d, e) {
      ClaimFinds(d, e.index, e.claim, e.allowReuse);
    }
    hide Step, Sign, Attempt, SignsAnew, ChannelKept;
    var more, moreRevoked := signed + SignedNow(d, e), revoked + RevokedNow(d, e);
    assert forall s :: s in more ==> s.index != index;
    assert forall r :: r in moreRevoked ==> r.index != index;
    EmptyIsKept(Step(d, e).channels[index], index, more, moreRevoked);
  }

  lemma {:induction false} EmptyIsKept(record: Record, index: nat, signed: set<SignedAs>, revoked: set<RevokedAs>)
    requires record.commitments == Commitments(None, None, None)
    requires (forall s :: s in signed ==> s.index != index) && (forall r :: r in revoked ==> r.index != index)
    ensures ChannelKept(record, index, signed, revoked)
  {
  }

  lemma {:induction false} SigningChannelKept(
    record: Record, claim: Claim, allowReuse: bool, after: Record, index: nat, signed: set<SignedAs>,
    revoked: set<RevokedAs>)
    requires SignedFirst(record, claim, allowReuse, after) && ChannelKept(record, index, signed, revoked)
    ensures ChannelKept(after, index, signed + NewlySigned(claim, index),
                        revoked + if claim.operation.Revocation?
                                  then {RevokedAs(index, claim.operation.view, claim.operation.revoked)} else {})
  {
    SigningKeepsVersions(record, claim, allowReuse, after, index, signed);
    SigningKeepsRemote(record, claim, allowReuse, after, index, signed);
    SigningKeepsRevoked(record, claim, allowReuse, after, index, revoked);
    hide SignedFirst, VersionsKept, RemoteKept, RevokedBelow;
  }

  lemma {:induction false} SigningStepKept(
    d: Device, e: Event, index: nat, signed: set<SignedAs>, revoked: set<RevokedAs>)
    requires index in d.channels && ChannelKept(d.channels[index], index, signed, revoked)
    requires SignsAnew(d, e) && e.index == index
    ensures index in Step(d, e).channels
    ensures ChannelKept(Step(d, e).channels[index], index, signed + SignedNow(d, e), revoked + RevokedNow(d, e))
  {
    FirstSigning(d, index, e.claim, e.allowReuse);
    assert Step(d, e) == Sign(d, index, e.claim, e.allowReuse).value.device;
    hide Step, Sign, SignedFirst, ChannelKept, Answers;
    SigningChannelKept(d.channels[index], e.claim, e.allowReuse, Step(d, e).channels[index], index, signed, revoked);
    assert SignedNow(d, e) == NewlySigned(e.claim, index);
  }

  /** What a step signs is on the channel it signs on. */
  lemma {:induction false} SignsOnItsChannel(d: Device, e: Event)
    ensures forall s :: s in SignedNow(d, e) ==> SignsAnew(d, e) && s.index == e.index
    ensures forall r :: r in RevokedNow(d, e) ==> SignsAnew(d, e) && r.index == e.index
  {
    hide Sign, NextCommitments, Served, Answers;
  }

  lemma {:induction false} OtherStepKept(
    d: Device, e: Event, index: nat, signed: set<SignedAs>, revoked: set<RevokedAs>)
    requires index in d.channels && ChannelKept(d.channels[index], index, signed, revoked)
    requires !(SignsAnew(d, e) && e.index == index)
    ensures index in Step(d, e).channels
    ensures ChannelKept(Step(d, e).channels[index], index, signed + SignedNow(d, e), revoked + RevokedNow(d, e))
  {
    UnsignedStep(d, e, index);
    SignsOnItsChannel(d, e);
    hide Step, ChannelKept, SignsAnew, SignedNow, RevokedNow;
    OwnHistoryAlone(d.channels[index], Step(d, e).channels[index], index,
                    signed, signed + SignedNow(d, e), revoked, revoked + RevokedNow(d, e));
  }

  lemma {:induction false} ChannelStepKept(
    d: Device, e: Event, index: nat, signed: set<SignedAs>, revoked: set<RevokedAs>)
    requires HistoryKept(d, signed, revoked) && index in Step(d, e).channels
    ensures ChannelKept(Step(d, e).channels[index], index, signed + SignedNow(d, e), revoked + RevokedNow(d, e))
  {
    hide Step, Sign, ChannelKept, SignedNow, RevokedNow;
    if index !in d.channels {
      NewChannelKept(d, e, index, signed, revoked);
    } else if SignsAnew(d, e) && e.index == index {
      SigningStepKept(d, e, index, signed, revoked);
    } else {
      OtherStepKept(d, e, index, signed, revoked);
    }
  }

  /** A step that signs nothing new on a channel keeps its commitments and slots, and only adds evidence. */
  lemma {:induction false} UnsignedStep(d: Device, e: Event, index: nat)
    requires index in d.channels && !(SignsAnew(d, e) && e.index == index)
    ensures index in Step(d, e).channels
    ensures var record, after := d.channels[index], Step(d, e).channels[index];
            && after.commitments == record.commitments && after.sessions == record.sessions
            && record.revocations.Keys <= after.revocations.Keys
  {
    RecordSteps(d, e, index);
    hide Step, Attempt, Sign, NextCommitments, IsStale, ReplacementSigned;
  }

  lemma {:induction false} StepKeepsHistory(d: Device, e: Event, signed: set<SignedAs>, revoked: set<RevokedAs>)
    requires HistoryKept(d, signed, revoked)
    ensures HistoryKept(Step(d, e), signed + SignedNow(d, e), revoked + RevokedNow(d, e))
  {
    hide Step, Sign, ChannelKept, SignsAnew, SignedNow, RevokedNow;
    forall index | index in Step(d, e).channels {
      ChannelStepKept(d, e, index, signed, revoked);
    }
    forall index | index in d.channels
      ensures index in Step(d, e).channels
    {
      ChannelsRemain(d, e, index);
    }
    SignsOnItsChannel(d, e);
    SignsOnAChannel(d, e);
  }

  lemma {:induction false} ChannelsRemain(d: Device, e: Event, index: nat)
    requires index in d.channels
    ensures index in Step(d, e).channels
  {
    RecordSteps(d, e, index);
  }

  lemma {:induction false} SignsOnAChannel(d: Device, e: Event)
    ensures SignsAnew(d, e) ==> e.Signs? && e.index in d.channels
  {
    hide CheckAndClaim;
    if SignsAnew(d, e) {
      ClaimFinds(d, e.index, e.claim, e.allowReuse);
    }
  }

  lemma {:induction false} RunsKeepHistory(events: seq<Event>)
    ensures HistoryKept(Run(events), SignedIn(events), RevokedIn(events))
  {
    hide Step, HistoryKept, SignedNow, RevokedNow;
    if events == [] {
      NoHistoryIsKept();
    } else {
      var before, last := events[..|events| - 1], events[|events| - 1];
      RunsKeepHistory(before);
      StepKeepsHistory(Run(before), last, SignedIn(before), RevokedIn(before));
    }
  }

  lemma {:induction false} NoHistoryIsKept()
    ensures HistoryKept(NO_RECORDS, {}, {})
  {
  }

  /** No two different commitments are ever signed under one view and version of a channel. */
  lemma {:induction false} OneCommitmentPerVersion(events: seq<Event>, a: SignedAs, b: SignedAs)
    requires a in SignedIn(events) && b in SignedIn(events)
    requires SameVersion(a, b)
    ensures a == b
  {
    RunsKeepHistory(events);
    hide Run, SignedIn, RemoteKept, RevokedBelow;
    assert ChannelKept(Run(events).channels[a.index], a.index, SignedIn(events), RevokedIn(events));
  }

  /** A new commitment's version: above every one signed in its view, and for the peer's, one above the last. */
  lemma {:induction false} VersionsRise(events: seq<Event>, e: Event, s: SignedAs)
    requires SignsAnew(Run(events), e) && e.claim.operation.CommitmentTx?
    requires s in SignedIn(events) && s.index == e.index && s.view == e.claim.operation.view
    ensures s.kept.number < e.claim.operation.kept.number
    ensures s.view.Remote? ==>
              var last := Run(events).channels[e.index].commitments.remote;
              last.Some? && e.claim.operation.kept.number == last.value.number + 1
  {
    RunsKeepHistory(events);
    FirstSigning(Run(events), e.index, e.claim, e.allowReuse);
    hide Run, SignedIn, Sign, RemoteKept, RevokedBelow, IsStale, ReplacementSigned;
    assert ChannelKept(Run(events).channels[e.index], e.index, SignedIn(events), RevokedIn(events));
  }

  /** Remote versions leave no gap: every one from a signed version to the last was signed. */
  lemma {:induction false} RemoteVersionsAreConsecutive(events: seq<Event>, s: SignedAs, version: nat)
    requires s in SignedIn(events) && s.view.Remote? && s.kept.number <= version
    requires s.index in Run(events).channels && Run(events).channels[s.index].commitments.remote.Some?
    requires version <= Run(events).channels[s.index].commitments.remote.value.number
    ensures VersionSigned(SignedIn(events), s.index, version)
  {
    RunsKeepHistory(events);
    hide Run, SignedIn, VersionsKept, RevokedBelow;
    assert ChannelKept(Run(events).channels[s.index], s.index, SignedIn(events), RevokedIn(events));
  }

  /** Every revocation ever signed is of a version below its view's last commitment: the latest is never revoked. */
  lemma {:induction false} LatestIsNeverRevoked(events: seq<Event>, r: RevokedAs)
    requires r in RevokedIn(events)
    ensures r.index in Run(events).channels
    ensures var last := Run(events).channels[r.index].commitments.Of(r.view);
            last.Some? && r.version < last.value.number
  {
    RunsKeepHistory(events);
    hide Run, RevokedIn, VersionsKept, RemoteKept;
    assert ChannelKept(Run(events).channels[r.index], r.index, SignedIn(events), RevokedIn(events));
  }

  /** Every remote version signed and at least two below the last has its revocation signature recorded. */
  lemma {:induction false} OldRemoteIsRevoked(events: seq<Event>, s: SignedAs)
    requires s in SignedIn(events) && s.view.Remote?
    ensures s.index in Run(events).channels
    ensures var record := Run(events).channels[s.index];
            && record.commitments.remote.Some?
            && (s.kept.number + 2 <= record.commitments.remote.value.number ==> s.kept.number in record.revocations)
  {
    RunsKeepHistory(events);
    hide Run, SignedIn, RevokedBelow;
    assert ChannelKept(Run(events).channels[s.index], s.index, SignedIn(events), RevokedIn(events));
  }

  // ---- Registered commitments

  ghost predicate IsRegisteredRemote(record: Record, kept: Kept) {
    Registered(Remote, kept) in RegisteredIn(BookOf(record))
  }

  /** Signed in the remote view, and without its revocation signature. */
  ghost predicate IsOutstanding(events: seq<Event>, index: nat, kept: Kept)
    requires index in Run(events).channels
  {
    IsSigned(SignedIn(events), index, Remote, kept) && kept.number !in Run(events).channels[index].revocations
  }

  lemma {:induction false} RegisteredIsSigned(record: Record, index: nat, signed: set<SignedAs>, kept: Kept)
    requires VersionsKept(record, index, signed) && RemoteKept(record, index, signed)
    requires IsRegisteredRemote(record, kept)
    ensures IsSigned(signed, index, Remote, kept)
  {
    RegisteredIsLastOrPrevious(record, kept);
    hide IsRegisteredRemote;
    assert record.commitments.Of(Remote) == record.commitments.remote;
  }

  /** Whatever happened, the peer's commitments without evidence are registered, and those registered were signed. */
  lemma {:induction false} OutstandingAreRegistered(events: seq<Event>, index: nat)
    requires index in Run(events).channels
    ensures forall kept :: IsOutstanding(events, index, kept) ==> IsRegisteredRemote(Run(events).channels[index], kept)
    ensures forall kept :: IsRegisteredRemote(Run(events).channels[index], kept) ==>
              IsSigned(SignedIn(events), index, Remote, kept)
  {
    var record, signed := Run(events).channels[index], SignedIn(events);
    RunsKeepHistory(events);
    assert ChannelKept(record, index, signed, RevokedIn(events));
    hide Run, SignedIn, VersionsKept, RemoteKept, RevokedBelow, IsRegisteredRemote;
    forall kept | IsRegisteredRemote(record, kept)
      ensures IsSigned(signed, index, Remote, kept)
    {
      RegisteredIsSigned(record, index, signed, kept);
    }
    forall kept | IsOutstanding(events, index, kept)
      ensures IsRegisteredRemote(record, kept)
    {
      var s :| s in signed && s.index == index && s.view == Remote && s.kept == kept;
      LastTwoAreRegistered(record, index, signed, s);
    }
  }

  /** The version is no more than one behind the last one signed for the peer. */
  predicate AmongLastTwo(record: Record, version: nat) {
    record.commitments.remote.Some? && version + 1 >= record.commitments.remote.value.number
  }

  /** The registered remote commitments are exactly the signed ones of the last two versions. */
  lemma {:induction false} RegisteredAreTheLastTwo(events: seq<Event>, index: nat)
    requires index in Run(events).channels
    ensures forall kept :: IsRegisteredRemote(Run(events).channels[index], kept) <==>
              IsSigned(SignedIn(events), index, Remote, kept) && AmongLastTwo(Run(events).channels[index], kept.number)
  {
    var record, signed := Run(events).channels[index], SignedIn(events);
    RunsKeepHistory(events);
    assert ChannelKept(record, index, signed, RevokedIn(events));
    hide Run, SignedIn, RevokedBelow, VersionsKept, RemoteKept, IsRegisteredRemote;
    forall kept
      ensures IsRegisteredRemote(record, kept) <==>
              IsSigned(signed, index, Remote, kept) && AmongLastTwo(record, kept.number)
    {
      if IsRegisteredRemote(record, kept) {
        RegisteredIsSigned(record, index, signed, kept);
        RegisteredIsAmong(record, index, signed, kept);
      } else if IsSigned(signed, index, Remote, kept) && AmongLastTwo(record, kept.number) {
        var s :| s in signed && s.index == index && s.view == Remote && s.kept == kept;
        AmongIsRegistered(record, index, signed, s);
      }
    }
  }

  lemma {:induction false} RegisteredIsAmong(record: Record, index: nat, signed: set<SignedAs>, kept: Kept)
    requires RemoteKept(record, index, signed) && IsRegisteredRemote(record, kept)
    ensures AmongLastTwo(record, kept.number)
  {
    RegisteredIsLastOrPrevious(record, kept);
    hide IsRegisteredRemote, IsSigned;
  }

  lemma {:induction false} AmongIsRegistered(record: Record, index: nat, signed: set<SignedAs>, s: SignedAs)
    requires VersionsKept(record, index, signed) && RemoteKept(record, index, signed)
    requires s in signed && s.index == index && s.view == Remote && AmongLastTwo(record, s.kept.number)
    ensures IsRegisteredRemote(record, s.kept)
  {
    RegisteredIsLastOrPrevious(record, s.kept);
    hide IsRegisteredRemote;
    var last := record.commitments.Of(Remote).value;
    assert IsSigned(signed, index, Remote, last);
    if s.kept.number == last.number {
      var t :| t in signed && t.index == index && t.view == Remote && t.kept == last;
      assert s == t;
    }
  }

  /** Neither of the two versions stored for the peer has its evidence recorded. */
  predicate NeitherRevoked(record: Record) {
    && (record.commitments.remote.Some? ==> record.commitments.remote.value.number !in record.revocations)
    && (record.commitments.previous.Some? ==> record.commitments.previous.value.number !in record.revocations)
  }

  /** The registered remote commitments are exactly those without
      evidence if and only if neither stored version has any. */
  lemma {:induction false} RegisteredAreOutstanding(events: seq<Event>, index: nat)
    requires index in Run(events).channels
    ensures (forall kept :: IsRegisteredRemote(Run(events).channels[index], kept) <==>
            IsOutstanding(events, index, kept))
            <==> NeitherRevoked(Run(events).channels[index])
  {
    OutstandingAreRegistered(events, index);
    var record := Run(events).channels[index];
    hide Run, SignedIn, IsSigned, IsRegisteredRemote;
    forall kept {
      RegisteredIsLastOrPrevious(record, kept);
    }
    if record.commitments.remote.Some? {
      assert IsRegisteredRemote(record, record.commitments.remote.value);
    }
    if record.commitments.previous.Some? {
      assert IsRegisteredRemote(record, record.commitments.previous.value);
    }
  }

  lemma {:induction false} RegisteredIsLastOrPrevious(record: Record, kept: Kept)
    ensures IsRegisteredRemote(record, kept) <==>
              record.commitments.remote == Some(kept) || record.commitments.previous == Some(kept)
  {
  }

  lemma {:induction false} LastTwoAreRegistered(record: Record, index: nat, signed: set<SignedAs>, s: SignedAs)
    requires VersionsKept(record, index, signed) && RemoteKept(record, index, signed)
    requires s in signed && s.index == index && s.view == Remote && s.kept.number !in record.revocations
    ensures IsRegisteredRemote(record, s.kept)
  {
    assert AmongLastTwo(record, s.kept.number);
    hide VersionsKept, RemoteKept, AmongLastTwo;
    AmongIsRegistered(record, index, signed, s);
  }

  // ---- A run where a registered commitment does have evidence

  lemma {:induction false} EmptyContext(d: Device, index: nat, operation: Operation)
    requires index in d.channels && operation.CommitmentTx? && operation.stated.tlcs == []
    requires d.channels[index].views.remote.tlcs == [] && d.channels[index].views.local.tlcs == []
    ensures LoadContext(d, index, operation) == Accept(NO_CONTEXT)
  {
    var none: seq<Tlc> := [];
    assert none + none + none == none;
    assert HashesOf(none) == {};
    assert IntentsUnder(d.intents, {}) == map[] && InvoicesUnder(d.invoices, {}) == map[];
    assert ListedOn(map[], map[]) == {};
    assert OtherViews(d, {}) == map[];
  }

  lemma {:induction false} SteadyJudge(view: View, views: Views)
    requires views.Of(view).tlcs == [] && views.Of(Other(view)).tlcs == []
    ensures Judge(view, views, Stated(views.Of(view).exposure, []), NO_CONTEXT) == Accept(views.Of(view))
  {
  }

  /** A fresh commitment that moves nothing, or a revocation, signed on the device's only channel. */
  lemma {:induction false} SignsSteadily(record: Record, claim: Claim)
    requires record.views.remote.tlcs == [] && record.views.local.tlcs == []
    requires claim.number <= MAX_COMMITMENT_NUMBER && claim.session.message == claim.operation.message && claim.pinned
    requires claim.operation.CommitmentTx? || claim.operation.Revocation?
    requires claim.operation.CommitmentTx? ==>
               claim.operation.stated == Stated(record.views.Of(claim.operation.view).exposure, [])
               && (CommitmentLocal in record.lastSigned || claim.operation.stated.exposure == record.funded)
    requires DispatchFault(claim).None? && SlotOf(claim) !in record.sessions && SlotOf(claim) !in record.reuses
    requires !IsStale(record, claim) && ReplacementSigned(record, claim)
             && NextCommitments(record, claim.operation).Accept?
    ensures var d := Device(map[0 := record], map[], map[]);
            var after := Written(record, claim, NextCommitments(record, claim.operation).value, record.views).record;
            Step(d, Signs(0, claim, false)) == Device(map[0 := after], map[], map[])
  {
    var d := Device(map[0 := record], map[], map[]);
    var after := Written(record, claim, NextCommitments(record, claim.operation).value, record.views).record;
    if claim.operation.CommitmentTx? {
      EmptyContext(d, 0, claim.operation);
      SteadyJudge(claim.operation.view, record.views);
      assert record.views.With(claim.operation.view, record.views.Of(claim.operation.view)) == record.views;
    }
    hide Judge, IsStale, ReplacementSigned, NextCommitments;
    assert ApplyBalanceRule(record, claim.operation, NO_CONTEXT) == Accept(record.views);
    assert Decide(claim, false, record, NO_CONTEXT)
           == Accept(Written(record, claim, NextCommitments(record, claim.operation).value, record.views));
    FilesNothing(d, 0);
    assert CheckAndClaim(d, 0, claim, false)
           == Accept(Claimed(FreshSlot, Device(d.channels[0 := after], map[], map[])));
    assert d.channels[0 := after] == map[0 := after];
  }

  const SOME_CELL: Cell := Cell(0, Script([], 0, []), false)

  function CommitmentAt(version: nat): Claim {
    Claim(version, Session(0, version, version),
      CommitmentTx(version, Remote, Kept(version, SOME_CELL, []), Stated(100, [])), true)
  }

  const FIRST_REVOCATION: Claim := Claim(1, Session(0, 1, 2), Revocation(2, Remote, 0), true)

  /** The channel with version 0 signed, then version 1, then version 0 revoked, then its evidence recorded. */
  function RecordAfter(steps: nat): Record {
    var opening := OpeningSnapshot(100);
    var views := Views(opening, opening);
    var first, second := Slot(CommitmentNonce, 0), Slot(CommitmentNonce, 1);
    var zero, one := Kept(0, SOME_CELL, []), Kept(1, SOME_CELL, []);
    if steps == 0 then
      Record(100, map[], map[], map[], Commitments(None, None, None), map[], views, [])
    else if steps == 1 then
      Record(100, map[CommitmentLocal := 0], map[first := Session(0, 0, 0)], map[],
             Commitments(Some(zero), None, None), map[], views, [])
    else if steps == 2 then
      Record(100, map[CommitmentLocal := 1], map[first := Session(0, 0, 0), second := Session(0, 1, 1)], map[],
             Commitments(Some(one), None, Some(zero)), map[], views, [])
    else
      Record(100, map[CommitmentLocal := 1, RevokeLocal := 1],
             map[first := Session(0, 0, 0), second := Session(0, 1, 1),
               Slot(RevokeNonce, 1) := Session(0, 1, 2)], map[],
             Commitments(Some(one), None, Some(zero)), if steps == 3 then map[] else map[0 := 0], views, [])
  }

  const RUN: seq<Event> := [Registers(0, 100), Signs(0, CommitmentAt(0), false), Signs(0, CommitmentAt(1), false),
                            Signs(0, FIRST_REVOCATION, false), Revokes(0, 0, 0)]

  lemma {:induction false} FirstSteps()
    ensures Run(RUN[..2]) == Device(map[0 := RecordAfter(1)], map[], map[])
  {
    assert RUN[..1][..0] == [] && RUN[..2][..1] == RUN[..1];
    assert Run(RUN[..0]) == NO_RECORDS;
    assert Run(RUN[..1]) == Device(map[0 := RecordAfter(0)], map[], map[]);
    SignsSteadily(RecordAfter(0), CommitmentAt(0));
  }

  lemma {:induction false} SecondCommitment()
    ensures Step(Device(map[0 := RecordAfter(1)], map[], map[]), Signs(0, CommitmentAt(1), false))
            == Device(map[0 := RecordAfter(2)], map[], map[])
  {
    var record, claim := RecordAfter(1), CommitmentAt(1);
    SignsSteadily(record, claim);
    hide Step;
    assert NextCommitments(record, claim.operation).value == RecordAfter(2).commitments;
    var after := Written(record, claim, RecordAfter(2).commitments, record.views).record;
    assert after.lastSigned == RecordAfter(2).lastSigned && after.sessions == RecordAfter(2).sessions;
  }

  lemma {:induction false} RevocationAndEvidence()
    ensures Step(Device(map[0 := RecordAfter(2)], map[], map[]), Signs(0, FIRST_REVOCATION, false))
            == Device(map[0 := RecordAfter(3)], map[], map[])
    ensures Step(Device(map[0 := RecordAfter(3)], map[], map[]), Revokes(0, 0, 0))
            == Device(map[0 := RecordAfter(4)], map[], map[])
  {
    var record, claim := RecordAfter(2), FIRST_REVOCATION;
    SignsSteadily(record, claim);
    var after := Written(record, claim, record.commitments, record.views).record;
    assert after.lastSigned == RecordAfter(3).lastSigned && after.sessions == RecordAfter(3).sessions;
    var d, e := Device(map[0 := RecordAfter(3)], map[], map[]), Revokes(0, 0, 0);
    assert Attempt(d, e) == RecordRevocation(d, 0, 0, 0);
    assert RecordAfter(3).revocations[0 := 0] == RecordAfter(4).revocations;
    assert d.channels[0 := RecordAfter(4)] == map[0 := RecordAfter(4)];
  }

  lemma {:induction false} LastSteps()
    ensures Run(RUN) == Device(map[0 := RecordAfter(4)], map[], map[])
  {
    FirstSteps();
    SecondCommitment();
    RevocationAndEvidence();
    hide Step, RecordAfter, CommitmentAt;
    assert RUN[..3][..2] == RUN[..2] && RUN[..4][..3] == RUN[..3] && RUN[..|RUN| - 1] == RUN[..4];
    assert Run(RUN[..3]) == Device(map[0 := RecordAfter(2)], map[], map[]);
    assert Run(RUN[..4]) == Device(map[0 := RecordAfter(3)], map[], map[]);
  }

  /** Evidence for the commitment before the last can be recorded while the watchtower still counts it as registered. */
  lemma {:induction false} RegisteredDespiteEvidence()
    ensures var kept := Kept(0, SOME_CELL, []);
            && 0 in Run(RUN).channels
            && IsRegisteredRemote(Run(RUN).channels[0], kept)
            && !IsOutstanding(RUN, 0, kept)
  {
    LastSteps();
    hide Run, SignedIn;
  }
}
