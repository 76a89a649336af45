/** The watchtower's claims over whole runs: bounded, one per unlock,
    and kept as long as their commitment is registered. */
module Claims {
  import opened Outcomes
  import opened Payments
  import opened SettlementWitness
  import opened Watchtower
  import opened WatchtowerFacts
  import opened Records
  import opened Engine
  import opened Runs
  import opened SignOnce
  import opened Versions

  /** The commitment before the last is one version below it, and no claim is on a version not signed yet. */
  ghost predicate ClaimsBehind(record: Record) {
    && (record.commitments.previous.Some? ==>
          record.commitments.remote.Some?
          && record.commitments.previous.value.number + 1 == record.commitments.remote.value.number)
    && forall spend :: spend in record.spends ==>
         record.commitments.Of(spend.view).Some? && spend.number <= record.commitments.Of(spend.view).value.number
  }

  ghost predicate ClaimsKept(record: Record) {
    ClaimsBehind(record) && ClaimsHeld(BookOf(record))
  }

  lemma {:induction false} RegisteredDistinctly(record: Record)
    requires ClaimsBehind(record)
    ensures DistinctlyRegistered(BookOf(record))
  {
  }

  // ---- A commitment

  lemma {:induction false} NewlyRegistered(record: Record, claim: Claim, allowReuse: bool, after: Record, c: Registered)
    requires SignedFirst(record, claim, allowReuse, after)
    requires c in RegisteredIn(BookOf(after))
    ensures c in RegisteredIn(BookOf(record))
            || (claim.operation.CommitmentTx? && c == Registered(claim.operation.view, claim.operation.kept))
  {
    hide IsStale, ReplacementSigned;
  }

  lemma {:induction false} NewVersionIsAbove(record: Record, claim: Claim, allowReuse: bool, after: Record)
    requires SignedFirst(record, claim, allowReuse, after) && claim.operation.CommitmentTx?
    ensures record.commitments.Of(claim.operation.view).Some? ==>
              record.commitments.Of(claim.operation.view).value.number < claim.operation.kept.number
  {
    hide IsStale, ReplacementSigned;
  }

  lemma {:induction false} SigningKeepsClaims(record: Record, claim: Claim, allowReuse: bool, after: Record)
    requires ClaimsKept(record) && SignedFirst(record, claim, allowReuse, after)
    ensures ClaimsKept(after)
  {
    SigningKeepsBehind(record, claim, allowReuse, after);
    assert after.spends == record.spends;
    forall spend, c | spend in after.spends && c in RegisteredIn(BookOf(after)) && Matches(c, spend)
      ensures Lists(c, spend.entry)
    {
      NewlyRegistered(record, claim, allowReuse, after, c);
      if c !in RegisteredIn(BookOf(record)) {
        NewVersionIsAbove(record, claim, allowReuse, after);
        assert false;
      }
    }
    hide SignedFirst, ClaimsBehind, Lists, RegisteredIn;
  }

  lemma {:induction false} SigningKeepsBehind(record: Record, claim: Claim, allowReuse: bool, after: Record)
    requires ClaimsBehind(record) && SignedFirst(record, claim, allowReuse, after)
    ensures ClaimsBehind(after)
  {
    hide IsStale, ReplacementSigned;
  }

  // ---- A spend

  lemma {:induction false} SpendKeepsClaims(
    record: Record, keys: Keys, approval: Approval, request: Request, after: Record)
    requires ClaimsKept(record) && DecideSpend(keys, BookOf(record), approval, request).Accept?
    requires after == record.(spends := DecideSpend(keys, BookOf(record), approval, request).value.spends)
    ensures ClaimsKept(after)
    ensures forall s :: s in record.spends && s.signature.Some? && IsRegistered(BookOf(record), s) ==> s in after.spends
  {
    RegisteredDistinctly(record);
    DecisionKeepsClaims(keys, BookOf(record), approval, request);
    SpendStaysBehind(record, keys, approval, request);
    hide DecideSpend, DistinctlyRegistered, Distinct, Lists;
    assert BookOf(after) == BookOf(record).(spends := after.spends);
  }

  lemma {:induction false} SpendStaysBehind(record: Record, keys: Keys, approval: Approval, request: Request)
    requires ClaimsBehind(record) && DecideSpend(keys, BookOf(record), approval, request).Accept?
    ensures ClaimsBehind(record.(spends := DecideSpend(keys, BookOf(record), approval, request).value.spends))
  {
    var book, decision := BookOf(record), DecideSpend(keys, BookOf(record), approval, request).value;
    if decision.verdict.Fresh? {
      FreshSpendIsListed(keys, book, approval, request);
      var spend := SpendOf(request, JudgeSpend(keys, book, approval, request).value);
      KeptAre(book.spends, spend, book);
      assert decision.spends == KeptBeside(book.spends, spend, book) + [spend];
      hide DecideSpend, JudgeSpend, KeptBeside, SpendOf;
      var c :| c in RegisteredIn(book) && Matches(c, spend) && Lists(c, spend.entry);
      RegisteredIsBehind(record, c);
    }
  }

  lemma {:induction false} RegisteredIsBehind(record: Record, c: Registered)
    requires ClaimsBehind(record) && c in RegisteredIn(BookOf(record))
    ensures record.commitments.Of(c.view).Some? && c.kept.number <= record.commitments.Of(c.view).value.number
  {
  }

  // ---- A signature or a mark on a claim

  /** The same claim, its signature or its mark aside. */
  predicate SameClaim(a: Spend, b: Spend) {
    a.id == b.id && SameKey(a, b) && a.tx == b.tx && a.purpose == b.purpose
  }

  /** Two lists of the same claims in the same order, none of which lost its signature. */
  ghost predicate SameClaims(a: seq<Spend>, b: seq<Spend>) {
    && |a| == |b|
    && forall i :: 0 <= i < |a| ==> SameClaim(a[i], b[i]) && (a[i].signature.Some? ==> b[i].signature == a[i].signature)
  }

  lemma {:induction false} UpdatedFirst(spends: seq<Spend>, updated: Spend)
    requires FindRequest(spends, updated.id).Some? && SameClaim(FindRequest(spends, updated.id).value, updated)
    requires FindRequest(spends, updated.id).value.signature.Some? ==>
               updated.signature == FindRequest(spends, updated.id).value.signature
    ensures SameClaims(spends, UpdateFirst(spends, updated))
  {
    if spends[0].id != updated.id {
      UpdatedFirst(spends[1..], updated);
      var rest := UpdateFirst(spends[1..], updated);
      forall i | 0 <= i < |spends|
        ensures SameClaim(spends[i], ([spends[0]] + rest)[i])
        ensures spends[i].signature.Some? ==> ([spends[0]] + rest)[i].signature == spends[i].signature
      {
        assert i > 0 ==> spends[i] == spends[1..][i - 1];
      }
    }
  }

  lemma {:induction false} SignatureKeepsClaims(spends: seq<Spend>, id: nat, signature: nat)
    requires WithSignature(spends, id, signature).Accept?
    ensures SameClaims(spends, WithSignature(spends, id, signature).value)
  {
    var spend := FindRequest(spends, id).value;
    FoundHasId(spends, id);
    if spend.signature.None? {
      UpdatedFirst(spends, spend.(signature := Some(signature)));
    }
  }

  lemma {:induction false} MarkKeepsClaims(spends: seq<Spend>, id: nat)
    requires WithApplied(spends, id).Accept?
    ensures SameClaims(spends, WithApplied(spends, id).value)
  {
    var spend := FindRequest(spends, id).value;
    FoundHasId(spends, id);
    if !spend.applied {
      UpdatedFirst(spends, spend.(applied := true));
    }
  }

  lemma {:induction false} FoundHasId(spends: seq<Spend>, id: nat)
    requires FindRequest(spends, id).Some?
    ensures FindRequest(spends, id).value.id == id
  {
    if spends[0].id != id {
      FoundHasId(spends[1..], id);
    }
  }

  /** Each claim of the second list is a claim of the first. */
  lemma {:induction false} ClaimOf(a: seq<Spend>, b: seq<Spend>, spend: Spend) returns (before: Spend)
    requires SameClaims(a, b) && spend in b
    ensures before in a && before.view == spend.view && before.number == spend.number && before.entry == spend.entry
  {
    var i :| 0 <= i < |b| && b[i] == spend;
    before := a[i];
    assert SameClaim(a[i], b[i]);
  }

  lemma {:induction false} SameClaimsDistinct(a: seq<Spend>, b: seq<Spend>)
    requires SameClaims(a, b) && Distinct(a)
    ensures Distinct(b)
  {
    forall i, j | 0 <= i < j < |b|
      ensures b[i].id != b[j].id && !SameKey(b[i], b[j])
    {
      assert SameClaim(a[i], b[i]) && SameClaim(a[j], b[j]);
    }
  }

  lemma {:induction false} SameClaimsAreKept(record: Record, after: Record)
    requires ClaimsKept(record) && after == record.(spends := after.spends) && SameClaims(record.spends, after.spends)
    ensures ClaimsKept(after)
  {
    SameClaimsDistinct(record.spends, after.spends);
    assert RegisteredIn(BookOf(after)) == RegisteredIn(BookOf(record));
    hide RegisteredIn, Lists, Distinct, SameClaims;
    assert |after.spends| == |record.spends| by {
      SameLength(record.spends, after.spends);
    }
    forall spend | spend in after.spends
      ensures record.commitments.Of(spend.view).Some? && spend.number <= record.commitments.Of(spend.view).value.number
      ensures forall c :: c in RegisteredIn(BookOf(record)) && Matches(c, spend) ==> Lists(c, spend.entry)
    {
      var before := ClaimOf(record.spends, after.spends, spend);
      assert forall c :: Matches(c, spend) ==> Matches(c, before);
    }
  }

  lemma {:induction false} SameLength(a: seq<Spend>, b: seq<Spend>)
    requires SameClaims(a, b)
    ensures |a| == |b|
  {
  }

  // ---- Any step, any run

  /** How a step rewrites a channel's claims. */
  lemma {:induction false} SpendSteps(d: Device, e: Event, index: nat)
    requires index in d.channels && (e.Spends? || e.SignsSpend? || e.AppliesSpend?) && e.index == index
             && Attempt(d, e).Accept?
    requires ClaimsKept(d.channels[index])
    ensures index in Step(d, e).channels && ClaimsKept(Step(d, e).channels[index])
    ensures ClaimsStay(d.channels[index], Step(d, e).channels[index])
  {
    hide DecideSpend, WithSignature, WithApplied, ClaimsKept;
    var record, after := d.channels[index], Step(d, e).channels[index];
    match e {
      case Spends(keys, _, approval, request) =>
        SpendKeepsClaims(record, keys, approval.value, request, after);
        SameBooksRegisterAlike(record, after);
      case SignsSpend(_, id, signature) =>
        SignatureKeepsClaims(record.spends, id, signature);
        SameClaimsAreKept(record, after);
        SameClaimsStay(record, after);
      case AppliesSpend(_, id) =>
        MarkKeepsClaims(record.spends, id);
        SameClaimsAreKept(record, after);
        SameClaimsStay(record, after);
    }
  }

  /** A signed claim stays, signature and all, unless its commitment leaves the registered ones. */
  ghost predicate ClaimsStay(record: Record, after: Record) {
    forall s :: s in record.spends && s.signature.Some? && IsRegistered(BookOf(after), s) ==>
      StillSigned(after.spends, s)
  }

  ghost predicate StillSigned(spends: seq<Spend>, s: Spend) {
    exists t :: t in spends && SameClaim(s, t) && t.signature == s.signature
  }

  lemma {:induction false} SameBooksRegisterAlike(record: Record, after: Record)
    requires after.commitments == record.commitments
    requires forall s :: s in record.spends && s.signature.Some? && IsRegistered(BookOf(record), s) ==>
             s in after.spends
    ensures ClaimsStay(record, after)
  {
    forall s | s in record.spends && s.signature.Some? && IsRegistered(BookOf(after), s)
      ensures StillSigned(after.spends, s)
    {
      assert RegisteredIn(BookOf(after)) == RegisteredIn(BookOf(record));
      assert s in after.spends && SameClaim(s, s);
    }
  }

  lemma {:induction false} SameClaimsStay(record: Record, after: Record)
    requires SameClaims(record.spends, after.spends)
    ensures ClaimsStay(record, after)
  {
    forall s | s in record.spends && s.signature.Some?
      ensures StillSigned(after.spends, s)
    {
      var i :| 0 <= i < |record.spends| && record.spends[i] == s;
      assert after.spends[i] in after.spends && SameClaim(s, after.spends[i]);
    }
  }

  lemma {:induction false} StepKeepsClaims(d: Device, e: Event, index: nat)
    requires index in d.channels && ClaimsKept(d.channels[index])
    ensures index in Step(d, e).channels && ClaimsKept(Step(d, e).channels[index])
    ensures ClaimsStay(d.channels[index], Step(d, e).channels[index])
  {
    RecordSteps(d, e, index);
    var record, after := d.channels[index], Step(d, e).channels[index];
    if (e.Spends? || e.SignsSpend? || e.AppliesSpend?) && e.index == index && Attempt(d, e).Accept? {
      SpendSteps(d, e, index);
    } else {
      hide Step, Attempt, Sign, ClaimsKept, SignedFirst;
      if e.Signs? && SignedFirst(record, e.claim, e.allowReuse, after) {
        SigningKeepsClaims(record, e.claim, e.allowReuse, after);
        SignedKeepsSpends(record, e.claim, e.allowReuse, after);
      } else {
        SameBookIsKept(record, after);
      }
      UnchangedClaimsStay(record, after);
    }
  }

  lemma {:induction false} SignedKeepsSpends(record: Record, claim: Claim, allowReuse: bool, after: Record)
    requires SignedFirst(record, claim, allowReuse, after)
    ensures after.spends == record.spends
  {
    hide IsStale, ReplacementSigned, NextCommitments;
  }

  lemma {:induction false} SameBookIsKept(record: Record, after: Record)
    requires ClaimsKept(record) && after.commitments == record.commitments && after.spends == record.spends
    ensures ClaimsKept(after)
  {
    assert BookOf(after) == BookOf(record);
  }

  lemma {:induction false} UnchangedClaimsStay(record: Record, after: Record)
    requires after.spends == record.spends
    ensures ClaimsStay(record, after)
  {
    forall s | s in record.spends
      ensures StillSigned(after.spends, s)
    {
      assert SameClaim(s, s);
    }
  }

  /** Over every run, a channel's claims keep their invariant: no two alike, never more than 768. */
  lemma {:induction false} ClaimsStayBounded(events: seq<Event>, index: nat)
    requires index in Run(events).channels
    ensures ClaimsKept(Run(events).channels[index])
    ensures |Run(events).channels[index].spends| <= 768
    ensures Distinct(Run(events).channels[index].spends)
  {
    if events != [] {
      var before, last := events[..|events| - 1], events[|events| - 1];
      if index in Run(before).channels {
        ClaimsStayBounded(before, index);
        StepKeepsClaims(Run(before), last, index);
      } else {
        NewChannelIsEmpty(Run(before), last, index);
        NoClaimsAreKept(Run(events).channels[index]);
      }
      hide Step;
    }
  }

  lemma {:induction false} NoClaimsAreKept(record: Record)
    requires record.spends == [] && record.commitments == Commitments(None, None, None)
    ensures ClaimsKept(record)
  {
  }

  /** No step of a run drops a signed claim whose commitment is still registered. */
  lemma {:induction false} SignedClaimOutlivesStep(events: seq<Event>, e: Event, index: nat, s: Spend)
    requires index in Run(events).channels && s in Run(events).channels[index].spends && s.signature.Some?
    requires index in Run(events + [e]).channels && IsRegistered(BookOf(Run(events + [e]).channels[index]), s)
    ensures StillSigned(Run(events + [e]).channels[index].spends, s)
  {
    assert (events + [e])[..|events|] == events;
    ClaimsStayBounded(events, index);
    StepKeepsClaims(Run(events), e, index);
    hide Step, IsRegistered, StillSigned;
  }

  // ---- Every claim is on a signed commitment's entry

  /** The claim is on an entry, or on the balance, of a commitment that was signed under its view and version. */
  ghost predicate OnSigned(signed: set<SignedAs>, index: nat, spend: Spend) {
    exists s :: s in signed && s.index == index && SignedFor(s, spend)
  }

  predicate SignedFor(s: SignedAs, spend: Spend) {
    s.view == spend.view && s.kept.number == spend.number && Lists(Registered(s.view, s.kept), spend.entry)
  }

  ghost predicate AllOnSigned(signed: set<SignedAs>, index: nat, spends: seq<Spend>) {
    forall spend :: spend in spends ==> OnSigned(signed, index, spend)
  }

  /** Where a decision's claims come from: those kept before, and one on a registered commitment's entry. */
  lemma {:induction false} DecidedClaims(keys: Keys, book: Book, approval: Approval, request: Request, spend: Spend)
    requires DecideSpend(keys, book, approval, request).Accept?
    requires spend in DecideSpend(keys, book, approval, request).value.spends
    ensures spend in book.spends
            || exists c :: c in RegisteredIn(book) && Matches(c, spend) && Lists(c, spend.entry)
  {
    if DecideSpend(keys, book, approval, request).value.verdict.Fresh? {
      var claimed := SpendOf(request, JudgeSpend(keys, book, approval, request).value);
      FreshSpendIsListed(keys, book, approval, request);
      KeptAre(book.spends, claimed, book);
    }
  }

  lemma {:induction false} RegisteredWasSigned(events: seq<Event>, index: nat, c: Registered)
    requires index in Run(events).channels && c in RegisteredIn(BookOf(Run(events).channels[index]))
    ensures IsSigned(SignedIn(events), index, c.view, c.kept)
  {
    if c.view.Remote? {
      OutstandingAreRegistered(events, index);
      assert IsRegisteredRemote(Run(events).channels[index], c.kept);
    } else {
      RunsKeepHistory(events);
      assert ChannelKept(Run(events).channels[index], index, SignedIn(events), RevokedIn(events));
      hide Run, SignedIn, RemoteKept, RevokedBelow;
      assert Run(events).channels[index].commitments.Of(Local) == Some(c.kept);
    }
  }

  /** An accepted spend leaves the decided claims. */
  lemma {:induction false} SpentLeaves(d: Device, e: Event)
    requires e.Spends? && e.index in d.channels && Attempt(d, e).Accept?
    ensures e.approval.Some? && e.index in Step(d, e).channels
    ensures var decision := DecideSpend(e.keys, BookOf(d.channels[e.index]), e.approval.value, e.request);
            decision.Accept? && Step(d, e).channels[e.index].spends == decision.value.spends
  {
    hide DecideSpend;
  }

  /** A signature or a mark leaves every claim the same one. */
  lemma {:induction false} MarkedLeaves(d: Device, e: Event)
    requires (e.SignsSpend? || e.AppliesSpend?) && e.index in d.channels && Attempt(d, e).Accept?
    ensures e.index in Step(d, e).channels
    ensures SameClaims(d.channels[e.index].spends, Step(d, e).channels[e.index].spends)
  {
    hide SameClaims, WithSignature, WithApplied;
    var spends := d.channels[e.index].spends;
    if e.SignsSpend? {
      SignatureKeepsClaims(spends, e.id, e.signature);
    } else {
      MarkKeepsClaims(spends, e.id);
    }
  }

  lemma {:induction false} SpentOnSigned(events: seq<Event>, e: Event, index: nat)
    requires e.Spends? && e.index == index && index in Run(events).channels && Attempt(Run(events), e).Accept?
    requires AllOnSigned(SignedIn(events), index, Run(events).channels[index].spends)
    ensures index in Step(Run(events), e).channels
    ensures AllOnSigned(SignedIn(events), index, Step(Run(events), e).channels[index].spends)
  {
    hide Run, SignedIn, DecideSpend, Step, Attempt, RegisteredIn, Lists;
    var record := Run(events).channels[index];
    SpentLeaves(Run(events), e);
    var decision := DecideSpend(e.keys, BookOf(record), e.approval.value, e.request);
    forall spend | spend in decision.value.spends
      ensures OnSigned(SignedIn(events), index, spend)
    {
      DecidedClaims(e.keys, BookOf(record), e.approval.value, e.request, spend);
      if spend !in record.spends {
        var c :| c in RegisteredIn(BookOf(record)) && Matches(c, spend) && Lists(c, spend.entry);
        RegisteredWasSigned(events, index, c);
        var s :| s in SignedIn(events) && s.index == index && s.view == c.view && s.kept == c.kept;
        assert Registered(s.view, s.kept) == c;
        assert SignedFor(s, spend);
      }
    }
  }

  lemma {:induction false} SameClaimsOnSigned(signed: set<SignedAs>, index: nat, a: seq<Spend>, b: seq<Spend>)
    requires SameClaims(a, b) && AllOnSigned(signed, index, a)
    ensures AllOnSigned(signed, index, b)
  {
    forall spend | spend in b
      ensures OnSigned(signed, index, spend)
    {
      var before := ClaimOf(a, b, spend);
      var s :| s in signed && s.index == index && SignedFor(s, before);
      assert SignedFor(s, spend);
    }
  }

  lemma {:induction false} StepOnSigned(events: seq<Event>, e: Event, index: nat)
    requires index in Run(events).channels
    requires AllOnSigned(SignedIn(events), index, Run(events).channels[index].spends)
    ensures index in Step(Run(events), e).channels
    ensures AllOnSigned(SignedIn(events), index, Step(Run(events), e).channels[index].spends)
  {
    hide Run, SignedIn, Step, Attempt, Sign, SignedFirst, AllOnSigned, SameClaims;
    var d := Run(events);
    SpendsAlone(d, e, index);
    var record, after := d.channels[index], Step(d, e).channels[index];
    if after.spends != record.spends {
      if e.Spends? {
        SpentOnSigned(events, e, index);
      } else {
        MarkedLeaves(d, e);
        SameClaimsOnSigned(SignedIn(events), index, record.spends, after.spends);
      }
    }
  }

  /** Only a spend, its signature or its mark changes a channel's claims. */
  lemma {:induction false} SpendsAlone(d: Device, e: Event, index: nat)
    requires index in d.channels
    ensures index in Step(d, e).channels
    ensures Step(d, e).channels[index].spends != d.channels[index].spends ==>
              (e.Spends? || e.SignsSpend? || e.AppliesSpend?) && e.index == index && Attempt(d, e).Accept?
  {
    hide Step, Attempt, Sign, IsStale, ReplacementSigned, NextCommitments;
    RecordSteps(d, e, index);
  }

  /** After any run, every claim is on an entry, or on the balance, of the one
      commitment ever signed under its view and version, registered or not. */
  lemma {:induction false} ClaimsAreOnSigned(events: seq<Event>, index: nat)
    requires index in Run(events).channels
    ensures AllOnSigned(SignedIn(events), index, Run(events).channels[index].spends)
  {
    if events != [] {
      var before, last := events[..|events| - 1], events[|events| - 1];
      assert SignedIn(before) <= SignedIn(events);
      if index in Run(before).channels {
        ClaimsAreOnSigned(before, index);
        StepOnSigned(before, last, index);
      } else {
        NewChannelIsEmpty(Run(before), last, index);
      }
      hide Step;
    }
  }

  // ---- A signed claim over a whole run

  lemma {:induction false} RemoteRegisteredBefore(events: seq<Event>, e: Event, s: SignedAs)
    requires s in SignedIn(events) && s.view.Remote?
    requires s.index in Run(events).channels && s.index in Run(events + [e]).channels
    requires IsRegisteredRemote(Run(events + [e]).channels[s.index], s.kept)
    ensures IsRegisteredRemote(Run(events).channels[s.index], s.kept)
  {
    SignedIsBelow(events, s);
    LastRises(events, e, s.index, Remote);
    RegisteredAreTheLastTwo(events + [e], s.index);
    RegisteredAreTheLastTwo(events, s.index);
    hide Run, SignedIn, IsRegisteredRemote;
    assert AmongLastTwo(Run(events + [e]).channels[s.index], s.kept.number);
  }

  lemma {:induction false} LocalRegisteredBefore(events: seq<Event>, e: Event, s: SignedAs)
    requires s in SignedIn(events) && s.view.Local?
    requires s.index in Run(events).channels && s.index in Run(events + [e]).channels
    requires Run(events + [e]).channels[s.index].commitments.local == Some(s.kept)
    ensures Run(events).channels[s.index].commitments.local == Some(s.kept)
  {
    SignedIsBelow(events, s);
    LastRises(events, e, s.index, Local);
    LocalIsLast(events, s);
    hide Run, SignedIn;
  }

  /** A commitment registered after a step, and signed before it, was
      registered before it: its view's last only rises. */
  lemma {:induction false} RegisteredBefore(events: seq<Event>, e: Event, index: nat, spend: Spend)
    requires index in Run(events).channels && OnSigned(SignedIn(events), index, spend)
    requires index in Run(events + [e]).channels && IsRegistered(BookOf(Run(events + [e]).channels[index]), spend)
    ensures IsRegistered(BookOf(Run(events).channels[index]), spend)
  {
    var s :| s in SignedIn(events) && s.index == index && SignedFor(s, spend);
    var book := BookOf(Run(events + [e]).channels[index]);
    var c :| c in RegisteredIn(book) && c.view == spend.view && c.kept.number == spend.number;
    RegisteredWasSigned(events + [e], index, c);
    OneSigned(events, e, s, c);
    assert c == Registered(s.view, s.kept);
    hide Run, SignedIn, Lists;
    if s.view.Remote? {
      RemoteRegisteredBefore(events, e, s);
    } else {
      LocalRegisteredBefore(events, e, s);
    }
    assert c in RegisteredIn(BookOf(Run(events).channels[index]));
  }

  /** The commitment registered now under a version signed before is the one signed before. */
  lemma {:induction false} OneSigned(events: seq<Event>, e: Event, s: SignedAs, c: Registered)
    requires s in SignedIn(events) && s.view == c.view && s.kept.number == c.kept.number
    requires IsSigned(SignedIn(events + [e]), s.index, c.view, c.kept)
    ensures c.kept == s.kept
  {
    assert (events + [e])[..|events|] == events;
    var t :| t in SignedIn(events + [e]) && t.index == s.index && t.view == c.view && t.kept == c.kept;
    OneCommitmentPerVersion(events + [e], s, t);
  }

  lemma {:induction false} SignedIsBelow(events: seq<Event>, s: SignedAs)
    requires s in SignedIn(events)
    ensures s.index in Run(events).channels
    ensures var last := Run(events).channels[s.index].commitments.Of(s.view);
            last.Some? && s.kept.number <= last.value.number
  {
    RunsKeepHistory(events);
    assert ChannelKept(Run(events).channels[s.index], s.index, SignedIn(events), RevokedIn(events));
    hide Run, SignedIn, RemoteKept, RevokedBelow;
  }

  /** The last local commitment is the one signed under its version. */
  lemma {:induction false} LocalIsLast(events: seq<Event>, s: SignedAs)
    requires s in SignedIn(events) && s.view.Local? && s.index in Run(events).channels
    requires Run(events).channels[s.index].commitments.local.Some?
    requires Run(events).channels[s.index].commitments.local.value.number <= s.kept.number
    ensures Run(events).channels[s.index].commitments.local == Some(s.kept)
  {
    RunsKeepHistory(events);
    var record := Run(events).channels[s.index];
    assert ChannelKept(record, s.index, SignedIn(events), RevokedIn(events));
    hide Run, RemoteKept, RevokedBelow;
    assert record.commitments.Of(Local).Some?;
    var t :| t in SignedIn(events) && t.index == s.index && t.view == Local
      && t.kept == record.commitments.Of(Local).value;
    assert s.kept.number <= record.commitments.Of(Local).value.number;
    assert SameVersion(s, t);
  }

  /** No step lowers a view's last version. */
  lemma {:induction false} LastRises(events: seq<Event>, e: Event, index: nat, view: View)
    requires index in Run(events).channels && Run(events).channels[index].commitments.Of(view).Some?
    ensures index in Run(events + [e]).channels
    ensures var before := Run(events).channels[index].commitments.Of(view);
            var after := Run(events + [e]).channels[index].commitments.Of(view);
            after.Some? && before.value.number <= after.value.number
  {
    assert (events + [e])[..|events|] == events;
    RecordSteps(Run(events), e, index);
    var record, after := Run(events).channels[index], Run(events + [e]).channels[index];
    hide Run, Step, Attempt, Sign;
    if e.Signs? && e.index == index && SignedFirst(record, e.claim, e.allowReuse, after) {
      SigningMovesLast(record, e.claim, e.allowReuse, after, view);
    }
    hide SignedFirst;
  }

  /** A claim signed once stays, signature and all, through any further run at whose end its
      commitment is still registered, and its commitment is registered all along. */
  lemma {:induction false} SignedClaimsStay(events: seq<Event>, more: seq<Event>, index: nat, s: Spend)
    requires index in Run(events).channels && s in Run(events).channels[index].spends && s.signature.Some?
    requires index in Run(events + more).channels && IsRegistered(BookOf(Run(events + more).channels[index]), s)
    ensures forall n: nat :: n <= |more| ==> ClaimStands(events + more[..n], index, s)
  {
    if more == [] {
      assert events + more == events && more[..0] == [];
      SameClaimStands(events, index, s);
    } else {
      var before, last := more[..|more| - 1], more[|more| - 1];
      assert events + more == (events + before) + [last] && more[..|more|] == more;
      StoodBefore(events, before, last, index, s);
      SignedClaimsStay(events, before, index, s);
      assert before[..|before|] == before;
      assert ClaimStands(events + before, index, s);
      NextClaimStands(events + before, last, index, s);
      hide Run, IsRegistered, ClaimStands;
      forall n: nat | n <= |more|
        ensures ClaimStands(events + more[..n], index, s)
      {
        if n < |more| {
          assert more[..n] == before[..n];
        }
      }
    }
  }

  lemma {:induction false} StoodBefore(events: seq<Event>, before: seq<Event>, last: Event, index: nat, s: Spend)
    requires index in Run(events).channels && s in Run(events).channels[index].spends
    requires index in Run((events + before) + [last]).channels
    requires IsRegistered(BookOf(Run((events + before) + [last]).channels[index]), s)
    ensures index in Run(events + before).channels && IsRegistered(BookOf(Run(events + before).channels[index]), s)
  {
    ChannelStays(events, before, index);
    ClaimsAreOnSigned(events, index);
    SignedStaysSigned(events, before);
    hide Run, SignedIn, IsRegistered, SignedFor;
    RegisteredBefore(events + before, last, index, s);
  }

  /** After a run, the claim is there with its signature, and its commitment is registered. */
  ghost predicate ClaimStands(events: seq<Event>, index: nat, s: Spend) {
    && s.signature.Some? && index in Run(events).channels
    && StillSigned(Run(events).channels[index].spends, s)
    && IsRegistered(BookOf(Run(events).channels[index]), s)
  }

  lemma {:induction false} SameClaimStands(events: seq<Event>, index: nat, s: Spend)
    requires index in Run(events).channels && s in Run(events).channels[index].spends && s.signature.Some?
    requires IsRegistered(BookOf(Run(events).channels[index]), s)
    ensures ClaimStands(events, index, s)
  {
    hide Run;
    assert SameClaim(s, s);
  }

  lemma {:induction false} NextClaimStands(events: seq<Event>, e: Event, index: nat, s: Spend)
    requires ClaimStands(events, index, s)
    requires index in Run(events + [e]).channels && IsRegistered(BookOf(Run(events + [e]).channels[index]), s)
    ensures ClaimStands(events + [e], index, s)
  {
    hide Run;
    var t :| t in Run(events).channels[index].spends && SameClaim(s, t) && t.signature == s.signature;
    SignedClaimOutlivesStep(events, e, index, t);
  }

  lemma {:induction false} SignedStaysSigned(events: seq<Event>, more: seq<Event>)
    ensures SignedIn(events) <= SignedIn(events + more)
  {
    if more == [] {
      assert events + more == events;
    } else {
      assert events + more == (events + more[..|more| - 1]) + [more[|more| - 1]];
      SignedStaysSigned(events, more[..|more| - 1]);
    }
  }

  lemma {:induction false} ChannelStays(events: seq<Event>, more: seq<Event>, index: nat)
    requires index in Run(events).channels
    ensures index in Run(events + more).channels
  {
    LanesNeverFallInRuns(events, more, index);
  }
}
