/** What the gate answers every request that signs nothing, both ways: which channels, intents,
    invoices, releases, signatures and spends it records, and what each leaves of the records. */
module GateAnswers {
  import opened Outcomes
  import opened Sums
  import opened Payments
  import opened BalanceRule
  import opened HoldRelease
  import opened Watchtower
  import opened WatchtowerFacts
  import opened SettlementWitness
  import opened Records
  import opened Engine
  import opened Runs
  import opened SignOnce
  import opened Released
  import opened ReleaseAnswers
  import opened Claims

  // ---- Channels

  /** A channel is registered once: it opens bare in both views, at its
      funding, and whoever names another funding is refused. */
  lemma {:induction false} RegisteredExactly(d: Device, index: nat, funded: nat)
    ensures index !in d.channels ==>
              var opening := Snapshot(funded, [], map[], map[]);
              var answer := Register(d, index, funded);
              && answer.Accept? && answer.value == d.(channels := d.channels[index := answer.value.channels[index]])
              && answer.value.channels[index].funded == funded
              && answer.value.channels[index].views.remote == opening
                && answer.value.channels[index].views.local == opening
    ensures index in d.channels && d.channels[index].funded == funded ==> Register(d, index, funded) == Accept(d)
    ensures index in d.channels && d.channels[index].funded != funded ==>
            Register(d, index, funded) == Refuse(HostError)
  {
  }

  // ---- Intents

  /** Some view of a channel the intent names was charged for the payment. */
  ghost predicate WasCharged(d: Device, intent: Intent) {
    exists index :: index in intent.channels && index in d.channels
                    && (intent.hash.bound in d.channels[index].views.remote.charged
                        || intent.hash.bound in d.channels[index].views.local.charged)
  }

  /** In every reachable state: a payment is approved unless its bytes are an invoice's, or another payment's, or it is
      open, or it was charged on a channel that shows it; a budget replaces the closed one's, and the channels stay
      named. */
  lemma {:induction false} ApprovedExactly(events: seq<Event>, hash: PaymentHash, maximum: nat)
    ensures var d, answer := Run(events), RecordIntent(Run(events), hash, maximum);
            if hash.bound in d.invoices
            then answer == Refuse(if d.invoices[hash.bound].hash == hash then OwnInvoice else HashTwin)
            else if hash.bound !in d.intents
            then answer == Accept(d.(intents := d.intents[hash.bound := Intent(hash, maximum, true, [])]))
            else
              var intent := d.intents[hash.bound];
              if intent.hash != hash then answer == Refuse(HashTwin)
              else if intent.open then answer == Refuse(IntentOpen)
              else if WasCharged(d, intent) then answer == Refuse(IntentCharged)
              else answer == Accept(d.(intents := d.intents[hash.bound := Intent(hash, maximum, true,
                intent.channels)]))
  {
    hide Run;
    var d := Run(events);
    RunsKeepListed(events);
    if hash.bound in d.intents {
      forall index | index in d.intents[hash.bound].channels
        ensures index in d.channels
      {
        assert index in LedgerOf(d).accounts;
      }
    }
  }

  /** An intent is closed by naming its whole hash, and nothing else of it changes. */
  lemma {:induction false} ClosedExactly(d: Device, hash: PaymentHash)
    ensures var answer := CloseIntent(d, hash);
            if hash.bound in d.intents && d.intents[hash.bound].hash == hash
            then
              var intent := d.intents[hash.bound];
              answer == Accept(d.(intents := d.intents[hash.bound := Intent(hash, intent.maximum, false,
                intent.channels)]))
            else answer == Refuse(HostError)
  {
  }

  // ---- Invoices

  /** An invoice of some amount is recorded once, of bytes no payment has;
      its own terms again change nothing, and others are refused. */
  lemma {:induction false} BilledExactly(
    d: Device, hash: PaymentHash, amount: nat, algorithm: HashAlgorithm, number: nat)
    ensures var answer := RecordInvoice(d, hash, amount, algorithm, number);
            if amount == 0 || hash.bound in d.intents then answer == Refuse(HostError)
            else if hash.bound !in d.invoices
            then answer == Accept(d.(invoices := d.invoices[hash.bound := Invoice(hash, amount, algorithm, number,
              false, [])]))
            else
              var invoice := d.invoices[hash.bound];
              if invoice.hash == hash && invoice.amount == amount && invoice.algorithm == algorithm
                && invoice.index == number
              then answer == Accept(d) else answer == Refuse(HostError)
  {
  }

  /** The views of the channels an invoice names. */
  ghost predicate AreViewsOf(d: Device, listed: seq<nat>, channels: map<nat, Views>) {
    && (forall index :: index in channels <==> index in listed)
    && forall index :: index in channels ==> index in d.channels && channels[index] == d.channels[index].views
  }

  /** In every reachable state: a release is judged on the channels its invoice names, once; a
      second one changes nothing, and a released invoice stays as it was but for that. */
  lemma {:induction false} MarkedExactly(
    events: seq<Event>, hash: PaymentHash, timing: Timing, channels: map<nat, Views>)
    requires hash.bound in Run(events).invoices
             && AreViewsOf(Run(events), Run(events).invoices[hash.bound].channels, channels)
    ensures var d, answer := Run(events), MarkReleased(Run(events), hash, timing);
            var invoice := d.invoices[hash.bound];
            if invoice.hash != hash then answer == Refuse(HostError)
            else if invoice.released then answer == Accept(d)
            else
              var fault := ReleaseFault(invoice, invoice.channels, channels, timing);
              if fault.Some? then answer == Refuse(fault.value)
              else
                var now := Invoice(hash, invoice.amount, invoice.algorithm, invoice.index, true, invoice.channels);
                answer == Accept(d.(invoices := d.invoices[hash.bound := now]))
  {
    hide Run, ReleaseFault;
    var d := Run(events);
    RunsKeepListed(events);
    var listed := d.invoices[hash.bound].channels;
    forall index | index in listed
      ensures index in d.channels
    {
      assert index in LedgerOf(d).accounts;
    }
    assert ViewsOf(d, listed) == channels;
  }

  /** In every reachable state: an invoice's preimage goes out exactly when no channel the invoice names shows it under
      another algorithm or beside an offered TLC, they show its amount at their lesser views, and every TLC of it
      expires late enough. */
  lemma {:induction false} PreimageGoesOutExactly(
    events: seq<Event>, hash: PaymentHash, timing: Timing, channels: map<nat, Views>)
    requires hash.bound in Run(events).invoices
             && AreViewsOf(Run(events), Run(events).invoices[hash.bound].channels, channels)
    requires Run(events).invoices[hash.bound].hash == hash && !Run(events).invoices[hash.bound].released
    ensures var invoice := Run(events).invoices[hash.bound];
            MarkReleased(Run(events), hash, timing).Accept?
            <==> && NoneRulesOut(channels, invoice)
                 && Sum<nat>(LesserShown(channels, hash)) >= invoice.amount
                 && AllExpire(channels, hash, timing)
  {
    hide Run, ReleaseFault, MarkReleased, Covered, NoneRulesOut, LesserShown, AllExpire;
    MarkedExactly(events, hash, timing, channels);
    RunsStayCovered(events);
    var invoice := Run(events).invoices[hash.bound];
    assert NoRepeats(invoice.channels) by {
      assert hash.bound in LedgerOf(Run(events)).invoices;
    }
    ReleasedExactly(invoice, invoice.channels, channels, timing);
  }

  /** An invoice never recorded, or recorded under another hash, is not released. */
  lemma {:induction false} UnknownIsNotMarked(d: Device, hash: PaymentHash, timing: Timing)
    requires hash.bound !in d.invoices || d.invoices[hash.bound].hash != hash
    ensures MarkReleased(d, hash, timing) == Refuse(HostError)
  {
  }

  // ---- Revocations

  /** A revocation's signature is kept exactly when its slot, one past
      the version, was served; a later one replaces it. */
  lemma {:induction false} RevokedExactly(d: Device, index: nat, version: nat, signature: nat)
    ensures var answer := RecordRevocation(d, index, version, signature);
            if index in d.channels && Slot(RevokeNonce, version + 1) in d.channels[index].sessions
            then
              && answer.Accept? && index in answer.value.channels
              && answer.value == d.(channels := d.channels[index := answer.value.channels[index]])
              && answer.value.channels[index]
                 == d.channels[index].(revocations := d.channels[index].revocations[version := signature])
            else answer == Refuse(HostError)
  {
  }

  // ---- Spends

  /** The list with one spend, told by its id, as it now stands, and every other where it was. */
  predicate OnlyTheOne(before: seq<Spend>, after: seq<Spend>, now: Spend) {
    && |after| == |before|
    && forall i :: 0 <= i < |before| ==> after[i] == if before[i].id == now.id then now else before[i]
  }

  lemma {:induction false} FoundExactly(spends: seq<Spend>, id: nat)
    ensures FindRequest(spends, id).Some? <==> exists i :: 0 <= i < |spends| && spends[i].id == id
    ensures FindRequest(spends, id).Some? ==>
            FindRequest(spends, id).value in spends && FindRequest(spends, id).value.id == id
  {
    if spends != [] {
      FoundExactly(spends[1..], id);
      assert forall i :: 1 <= i < |spends| ==> spends[i] == spends[1..][i - 1];
      assert forall i :: 0 <= i < |spends[1..]| ==> spends[1..][i] == spends[i + 1];
    }
  }

  lemma {:induction false} UpdatedExactly(spends: seq<Spend>, now: Spend)
    requires Distinct(spends)
    ensures OnlyTheOne(spends, UpdateFirst(spends, now), now)
  {
    if spends != [] {
      assert forall i :: 0 <= i < |spends[1..]| ==> spends[1..][i] == spends[i + 1];
      UpdatedExactly(spends[1..], now);
      assert forall i :: 1 <= i < |spends| ==> spends[i] == spends[1..][i - 1];
    }
  }

  /** The spends of a channel in a reachable state have ids of their own. */
  lemma {:induction false} SpendIsFound(events: seq<Event>, index: nat, spend: Spend)
    requires index in Run(events).channels && spend in Run(events).channels[index].spends
    ensures Distinct(Run(events).channels[index].spends)
    ensures FindRequest(Run(events).channels[index].spends, spend.id) == Some(spend)
  {
    ClaimsStayBounded(events, index);
    hide Run;
    var spends := Run(events).channels[index].spends;
    FoundExactly(spends, spend.id);
    var i :| 0 <= i < |spends| && spends[i] == spend;
    var k :| 0 <= k < |spends| && spends[k] == FindRequest(spends, spend.id).value;
  }

  /** In every reachable state: a spend takes one signature, which may come again, and no other. */
  lemma {:induction false} SignatureExactly(events: seq<Event>, index: nat, spend: Spend, signature: nat)
    requires index in Run(events).channels && spend in Run(events).channels[index].spends
    ensures var d, answer := Run(events), RecordSpendSignature(Run(events), index, spend.id, signature);
            if spend.signature.Some? && spend.signature.value != signature then answer == Refuse(HostError)
            else
              && answer.Accept? && index in answer.value.channels
              && answer.value == d.(channels := d.channels[index := answer.value.channels[index]])
              && answer.value.channels[index] == d.channels[index].(spends := answer.value.channels[index].spends)
              && OnlyTheOne(d.channels[index].spends, answer.value.channels[index].spends,
                spend.(signature := Some(signature)))
  {
    SpendIsFound(events, index, spend);
    hide Run;
    var spends := Run(events).channels[index].spends;
    UpdatedExactly(spends, spend.(signature := Some(signature)));
    SameStays(spends, spend);
  }

  /** In every reachable state: a spend is marked applied exactly once
      it is signed, and marking it again changes nothing. */
  lemma {:induction false} AppliedExactly(events: seq<Event>, index: nat, spend: Spend)
    requires index in Run(events).channels && spend in Run(events).channels[index].spends
    ensures var d, answer := Run(events), MarkSpendApplied(Run(events), index, spend.id);
            if spend.applied || spend.signature.Some? then
              && answer.Accept? && index in answer.value.channels
              && answer.value == d.(channels := d.channels[index := answer.value.channels[index]])
              && answer.value.channels[index] == d.channels[index].(spends := answer.value.channels[index].spends)
              && OnlyTheOne(d.channels[index].spends, answer.value.channels[index].spends, spend.(applied := true))
            else answer == Refuse(HostError)
  {
    SpendIsFound(events, index, spend);
    hide Run;
    var spends := Run(events).channels[index].spends;
    UpdatedExactly(spends, spend.(applied := true));
    SameStays(spends, spend);
  }

  lemma {:induction false} SameStays(spends: seq<Spend>, spend: Spend)
    requires Distinct(spends) && spend in spends
    ensures OnlyTheOne(spends, spends, spend)
  {
    var k :| 0 <= k < |spends| && spends[k] == spend;
  }

  /** A channel that is not registered, or a spend that was never claimed, has nothing to sign or apply. */
  lemma {:induction false} UnclaimedIsNotMarked(d: Device, index: nat, id: nat, signature: nat)
    requires index in d.channels ==> forall i :: 0 <= i < |d.channels[index].spends| ==>
             d.channels[index].spends[i].id != id
    ensures RecordSpendSignature(d, index, id, signature) == Refuse(HostError)
    ensures MarkSpendApplied(d, index, id) == Refuse(HostError)
  {
    if index in d.channels {
      FoundExactly(d.channels[index].spends, id);
    }
  }

  /** A spend is judged on the channel's two last remote commitments and
      its local one, once the user approved a destination. */
  lemma {:induction false} SpendExactly(d: Device, keys: Keys, index: nat, approval: Option<Approval>, request: Request)
    ensures var answer := CheckSpend(d, keys, index, approval, request);
            if approval.None? then answer == Refuse(PolicyRefusal)
            else if index !in d.channels then answer == Refuse(UnknownChannel)
            else
              var record := d.channels[index];
              var book := Book(record.commitments.remote, record.commitments.previous, record.commitments.local,
                record.spends);
              var decision := DecideSpend(keys, book, approval.value, request);
              if decision.Refuse? then answer == Refuse(decision.code)
              else
                && answer.Accept? && index in answer.value.channels
                && answer.value == d.(channels := d.channels[index := answer.value.channels[index]])
                && answer.value.channels[index] == record.(spends := decision.value.spends)
  {
    hide DecideSpend;
  }

  // ---- Signing requests, before the gate

  /** A request comes to the gate unless it signs an announcement, a sent commitment off
      its slot's number, or a revocation of any version but the one below it. */
  lemma {:induction false} PassedExactly(d: Device, index: nat, claim: Claim, allowReuse: bool)
    ensures var answer := Sign(d, index, claim, allowReuse);
            match claim.operation
            case ChannelAnnouncement(_) => answer == Refuse(PolicyRefusal)
            case CommitmentTx(_, Remote, kept, _) =>
              answer == if kept.number == claim.number then CheckAndClaim(d, index, claim, allowReuse)
                else Refuse(Malformed)
            case Revocation(_, _, revoked) =>
              answer == if claim.number == revoked + 1 then CheckAndClaim(d, index, claim, allowReuse)
                else Refuse(Malformed)
            case _ => answer == CheckAndClaim(d, index, claim, allowReuse)
  {
    hide CheckAndClaim;
  }
}
