/** The policy engine: the records the device persists, and every step that moves them. */
module Engine {
  import opened Outcomes
  import opened Payments
  import opened HoldRelease
  import opened Watchtower
  import opened SettlementWitness
  import opened Records

  const MAX_COMMITMENT_NUMBER: nat := 0xffff_ffff_ffff

  datatype Device = Device(channels: map<nat, Record>, intents: map<Bound, Intent>, invoices: map<Bound, Invoice>)

  /** No index of a list is without a record. */
  predicate AllHeld(d: Device, listed: seq<nat>) {
    forall index :: index in listed ==> index in d.channels
  }

  function OpeningSnapshot(exposure: nat): Snapshot {
    Snapshot(exposure, [], map[], map[])
  }

  // ---- Registering a channel

  function Register(d: Device, index: nat, funded: nat): Outcome<Device> {
    if index in d.channels then
      if d.channels[index].funded != funded then Refuse(HostError) else Accept(d)
    else
      var opening := OpeningSnapshot(funded);
      var record := Record(funded, map[], map[], map[], Commitments(None, None, None), map[], Views(opening, opening),
        []);
      Accept(d.(channels := d.channels[index := record]))
  }

  // ---- Debit intents and hold invoices

  predicate Charges(views: Views, bound: Bound) {
    bound in views.remote.charged || bound in views.local.charged
  }

  predicate ChargedAnywhere(d: Device, intent: Intent)
    requires AllHeld(d, intent.channels)
  {
    exists index :: index in intent.channels && Charges(d.channels[index].views, intent.hash.bound)
  }

  function RecordIntent(d: Device, hash: PaymentHash, maximum: nat): Outcome<Device> {
    if hash.bound in d.invoices then
      Refuse(if d.invoices[hash.bound].hash != hash then HashTwin else OwnInvoice)
    else if hash.bound in d.intents && d.intents[hash.bound].hash != hash then Refuse(HashTwin)
    else if hash.bound in d.intents && d.intents[hash.bound].open then Refuse(IntentOpen)
    else if hash.bound in d.intents && !AllHeld(d, d.intents[hash.bound].channels) then Refuse(HostError)
    else if hash.bound in d.intents && ChargedAnywhere(d, d.intents[hash.bound]) then Refuse(IntentCharged)
    else
      var channels := if hash.bound in d.intents then d.intents[hash.bound].channels else [];
      Accept(d.(intents := d.intents[hash.bound := Intent(hash, maximum, true, channels)]))
  }

  function CloseIntent(d: Device, hash: PaymentHash): Outcome<Device> {
    if hash.bound !in d.intents || d.intents[hash.bound].hash != hash then Refuse(HostError)
    else Accept(d.(intents := d.intents[hash.bound := d.intents[hash.bound].(open := false)]))
  }

  function RecordInvoice(
    d: Device, hash: PaymentHash, amount: nat, algorithm: HashAlgorithm, number: nat): Outcome<Device> {
    if amount == 0 || hash.bound in d.intents then Refuse(HostError)
    else if hash.bound in d.invoices then
      var current := d.invoices[hash.bound];
      if current.hash != hash || current.amount != amount || current.algorithm != algorithm || current.index != number
      then Refuse(HostError) else Accept(d)
    else Accept(d.(invoices := d.invoices[hash.bound := Invoice(hash, amount, algorithm, number, false, [])]))
  }

  function ViewsOf(d: Device, listed: seq<nat>): map<nat, Views>
    requires AllHeld(d, listed)
  {
    map index | index in listed :: d.channels[index].views
  }

  function MarkReleased(d: Device, hash: PaymentHash, timing: Timing): Outcome<Device> {
    if hash.bound !in d.invoices || d.invoices[hash.bound].hash != hash then Refuse(HostError)
    else
      var invoice := d.invoices[hash.bound];
      if invoice.released then Accept(d)
      else if !AllHeld(d, invoice.channels) then Refuse(HostError)
      else
        var fault := ReleaseFault(invoice, invoice.channels, ViewsOf(d, invoice.channels), timing);
        if fault.Some? then Refuse(fault.value)
        else Accept(d.(invoices := d.invoices[hash.bound := invoice.(released := true)]))
  }

  // ---- Claims

  function HashesOf(tlcs: seq<Tlc>): set<Bound> {
    set tlc | tlc in tlcs :: tlc.bound
  }

  function IntentsUnder(intents: map<Bound, Intent>, hashes: set<Bound>): map<Bound, Intent> {
    map bound | bound in intents && bound in hashes :: intents[bound]
  }

  function InvoicesUnder(invoices: map<Bound, Invoice>, hashes: set<Bound>): map<Bound, Invoice> {
    map bound | bound in invoices && bound in hashes :: invoices[bound]
  }

  function IntentsList(intents: map<Bound, Intent>): set<nat> {
    set bound, index | bound in intents && index in intents[bound].channels :: index
  }

  function InvoicesList(invoices: map<Bound, Invoice>): set<nat> {
    set bound, index | bound in invoices && index in invoices[bound].channels :: index
  }

  function ListedOn(intents: map<Bound, Intent>, invoices: map<Bound, Invoice>): set<nat> {
    IntentsList(intents) + InvoicesList(invoices)
  }

  const NO_CONTEXT: Context := Context(map[], map[], map[])

  /** The context of a commitment: what the payment records say of
      every hash in play, and where else those payments show. */
  function LoadContext(d: Device, index: nat, operation: Operation): Outcome<Context>
    requires index in d.channels
  {
    if !operation.CommitmentTx? then Accept(NO_CONTEXT) else
      var views := d.channels[index].views;
      // A hash counts as soon as either view, or the new list, shows it.
      var hashes := HashesOf(operation.stated.tlcs + views.remote.tlcs + views.local.tlcs);
      var intents := IntentsUnder(d.intents, hashes);
      var invoices := InvoicesUnder(d.invoices, hashes);
      var others := ListedOn(intents, invoices) - {index};
      if !(others <= d.channels.Keys) then Refuse(HostError)
      else Accept(Context(intents, invoices, OtherViews(d, others)))
  }

  function OtherViews(d: Device, others: set<nat>): map<nat, Views>
    requires others <= d.channels.Keys
  {
    map other | other in others :: d.channels[other].views
  }

  function WithChannel(listed: seq<nat>, index: nat): seq<nat> {
    if index in listed then listed else listed + [index]
  }

  function FiledIntents(intents: map<Bound, Intent>, hashes: set<Bound>, index: nat): map<Bound, Intent> {
    map bound | bound in intents ::
      if bound in hashes then intents[bound].(channels := WithChannel(intents[bound].channels, index))
        else intents[bound]
  }

  function FiledInvoices(invoices: map<Bound, Invoice>, hashes: set<Bound>, index: nat): map<Bound, Invoice> {
    map bound | bound in invoices ::
      if bound in hashes then invoices[bound].(channels := WithChannel(invoices[bound].channels, index))
        else invoices[bound]
  }

  /** The device once each of the hashes' records names the channel. */
  function File(d: Device, hashes: set<Bound>, index: nat): Device {
    d.(intents := FiledIntents(d.intents, hashes, index), invoices := FiledInvoices(d.invoices, hashes, index))
  }

  datatype Claimed = Claimed(status: Status, device: Device)

  /** The checks before the record is read. */
  function ClaimFault(d: Device, index: nat, claim: Claim): Option<Refusal> {
    if claim.number > MAX_COMMITMENT_NUMBER || (claim.operation.ChannelAnnouncement? && claim.number != 0)
      then Some(Malformed)
    else if index !in d.channels then Some(UnknownChannel)
    else if claim.session.message != claim.operation.message then Some(Malformed)
    else None
  }

  /** A claim from its first check to its last write; only a first-time claim changes the device. */
  ghost function CheckAndClaim(d: Device, index: nat, claim: Claim, allowReuse: bool): Outcome<Claimed> {
    if ClaimFault(d, index, claim).Some? then Refuse(ClaimFault(d, index, claim).value) else
      var context :- LoadContext(d, index, claim.operation);
      var decided :- Decide(claim, allowReuse, d.channels[index], context);
      if IsRepeat(d.channels[index], claim) then Accept(Claimed(decided.status, d)) else
        var filed := File(d, HashesOf(TlcsOf(claim.operation)), index);
        Accept(Claimed(decided.status, filed.(channels := d.channels[index := decided.record])))
  }

  // ---- Revocations and watchtower spends

  /** Records a complete revocation signature, rewritten on every delivery. */
  function RecordRevocation(d: Device, index: nat, version: nat, signature: nat): Outcome<Device> {
    if index !in d.channels || Slot(RevokeNonce, version + 1) !in d.channels[index].sessions then Refuse(HostError) else
      var record := d.channels[index];
      Accept(d.(channels := d.channels[index := record.(revocations := record.revocations[version := signature])]))
  }

  ghost function CheckSpend(
    d: Device, keys: Keys, index: nat, approval: Option<Approval>, request: Request): Outcome<Device> {
    if approval.None? then Refuse(PolicyRefusal)
    else if index !in d.channels then Refuse(UnknownChannel)
    else
      var record := d.channels[index];
      var decision :- DecideSpend(keys, BookOf(record), approval.value, request);
      Accept(d.(channels := d.channels[index := record.(spends := decision.spends)]))
  }

  function UpdateFirst(spends: seq<Spend>, updated: Spend): seq<Spend> {
    if spends == [] then []
    else if spends[0].id == updated.id then [updated] + spends[1..]
    else [spends[0]] + UpdateFirst(spends[1..], updated)
  }

  function WithSignature(spends: seq<Spend>, id: nat, signature: nat): Outcome<seq<Spend>> {
    var spend := FindRequest(spends, id);
    if spend.None? then Refuse(HostError)
    else if spend.value.signature == Some(signature) then Accept(spends)
    // One request has one signature, so a second one is refused.
    else if spend.value.signature.Some? then Refuse(HostError)
    else Accept(UpdateFirst(spends, spend.value.(signature := Some(signature))))
  }

  function WithApplied(spends: seq<Spend>, id: nat): Outcome<seq<Spend>> {
    var spend := FindRequest(spends, id);
    if spend.None? then Refuse(HostError)
    else if spend.value.applied then Accept(spends)
    else if spend.value.signature.None? then Refuse(HostError)
    else Accept(UpdateFirst(spends, spend.value.(applied := true)))
  }

  function RecordSpendSignature(d: Device, index: nat, id: nat, signature: nat): Outcome<Device> {
    if index !in d.channels then Refuse(HostError) else
      var spends :- WithSignature(d.channels[index].spends, id, signature);
      Accept(d.(channels := d.channels[index := d.channels[index].(spends := spends)]))
  }

  function MarkSpendApplied(d: Device, index: nat, id: nat): Outcome<Device> {
    if index !in d.channels then Refuse(HostError) else
      var spends :- WithApplied(d.channels[index].spends, id);
      Accept(d.(channels := d.channels[index := d.channels[index].(spends := spends)]))
  }

  // ---- The engine over its store

  /** The gate over the records it persists, each method rewriting them step by step. */
  class PolicyEngine {
    var channels: map<nat, Record>
    var intents: map<Bound, Intent>
    var invoices: map<Bound, Invoice>
    const allowReuse: bool
    const approval: Option<Approval>

    function State(): Device
      reads this
    {
      Device(channels, intents, invoices)
    }

    constructor (stored: Device, allowReuse: bool, approval: Option<Approval>)
      ensures State() == stored && this.allowReuse == allowReuse && this.approval == approval
    {
      channels, intents, invoices := stored.channels, stored.intents, stored.invoices;
      this.allowReuse, this.approval := allowReuse, approval;
    }

    method RegisterChannel(index: nat, funded: nat) returns (fault: Option<Refusal>)
      modifies this`channels
      ensures fault == FaultOf(Register(old(State()), index, funded))
      ensures State() == AfterOf(Register(old(State()), index, funded), old(State()))
    {
      if index in channels {
        return if channels[index].funded != funded then Some(HostError) else None;
      }
      var opening := OpeningSnapshot(funded);
      var record := Record(funded, map[], map[], map[], Commitments(None, None, None), map[], Views(opening, opening),
        []);
      channels := channels[index := record];
      fault := None;
    }

    /** Reads every listed channel, or none when one holds no record. */
    method ReadListedChannels(listed: seq<nat>) returns (read: Option<map<nat, Views>>)
      ensures read.Some? <==> AllHeld(State(), listed)
      ensures read.Some? ==> read.value == ViewsOf(State(), listed)
    {
      var views: map<nat, Views> := map[];
      for i := 0 to |listed|
        invariant AllHeld(State(), listed[..i])
        invariant views == ViewsOf(State(), listed[..i])
      {
        if listed[i] !in channels {
          return None;
        }
        views := views[listed[i] := channels[listed[i]].views];
      }
      assert listed[..|listed|] == listed;
      read := Some(views);
    }

    method IsChargedAnywhere(intent: Intent) returns (charged: Option<bool>)
      ensures charged.Some? <==> AllHeld(State(), intent.channels)
      ensures charged.Some? ==> charged.value == ChargedAnywhere(State(), intent)
    {
      var read := ReadListedChannels(intent.channels);
      if read.None? {
        return None;
      }
      for i := 0 to |intent.channels|
        invariant forall j :: 0 <= j < i ==> !Charges(read.value[intent.channels[j]], intent.hash.bound)
      {
        if Charges(read.value[intent.channels[i]], intent.hash.bound) {
          assert intent.channels[i] in intent.channels;
          return Some(true);
        }
      }
      charged := Some(false);
    }

    method RecordDebitIntent(hash: PaymentHash, maximum: nat) returns (fault: Option<Refusal>)
      modifies this`intents
      ensures fault == FaultOf(RecordIntent(old(State()), hash, maximum))
      ensures State() == AfterOf(RecordIntent(old(State()), hash, maximum), old(State()))
    {
      if hash.bound in invoices {
        return if invoices[hash.bound].hash != hash then Some(HashTwin) else Some(OwnInvoice);
      }
      var listed: seq<nat> := [];
      if hash.bound in intents {
        var current := intents[hash.bound];
        if current.hash != hash {
          return Some(HashTwin);
        }
        if current.open {
          return Some(IntentOpen);
        }
        var charged := IsChargedAnywhere(current);
        if charged.None? {
          return Some(HostError);
        }
        if charged.value {
          return Some(IntentCharged);
        }
        listed := current.channels;
      }
      intents := intents[hash.bound := Intent(hash, maximum, true, listed)];
      fault := None;
    }

    method CloseDebitIntent(hash: PaymentHash) returns (fault: Option<Refusal>)
      modifies this`intents
      ensures fault == FaultOf(CloseIntent(old(State()), hash))
      ensures State() == AfterOf(CloseIntent(old(State()), hash), old(State()))
    {
      if hash.bound !in intents || intents[hash.bound].hash != hash {
        return Some(HostError);
      }
      intents := intents[hash.bound := intents[hash.bound].(open := false)];
      fault := None;
    }

    method RecordHoldInvoice(hash: PaymentHash, amount: nat, algorithm: HashAlgorithm, number: nat)
      returns (fault: Option<Refusal>)
      modifies this`invoices
      ensures fault == FaultOf(RecordInvoice(old(State()), hash, amount, algorithm, number))
      ensures State() == AfterOf(RecordInvoice(old(State()), hash, amount, algorithm, number), old(State()))
    {
      if amount == 0 || hash.bound in intents {
        return Some(HostError);
      }
      if hash.bound in invoices {
        var current := invoices[hash.bound];
        return if current.hash == hash && current.amount == amount && current.algorithm == algorithm
          && current.index == number
          then None else Some(HostError);
      }
      invoices := invoices[hash.bound := Invoice(hash, amount, algorithm, number, false, [])];
      fault := None;
    }

    method MarkHoldInvoiceReleased(hash: PaymentHash, timing: Timing) returns (fault: Option<Refusal>)
      modifies this`invoices
      ensures fault == FaultOf(MarkReleased(old(State()), hash, timing))
      ensures State() == AfterOf(MarkReleased(old(State()), hash, timing), old(State()))
    {
      if hash.bound !in invoices || invoices[hash.bound].hash != hash {
        return Some(HostError);
      }
      var invoice := invoices[hash.bound];
      // A second release changes nothing.
      if invoice.released {
        return None;
      }
      var read := ReadListedChannels(invoice.channels);
      if read.None? {
        return Some(HostError);
      }
      fault := JudgeHoldInvoiceRelease(invoice, invoice.channels, read.value, timing);
      if fault.None? {
        invoices := invoices[hash.bound := invoice.(released := true)];
      }
    }

    /** Reads the records under every hash involved, and which channels they list. */
    method ReadPaymentRecords(hashes: set<Bound>)
      returns (read: map<Bound, Intent>, filed: map<Bound, Invoice>, listed: set<nat>)
      ensures read == IntentsUnder(intents, hashes) && filed == InvoicesUnder(invoices, hashes)
      ensures listed == ListedOn(read, filed)
    {
      hide IntentsUnder, InvoicesUnder, IntentsList, InvoicesList;
      NothingUnder(intents, invoices);
      assert hashes - hashes == {};
      var todo := hashes;
      read, filed, listed := map[], map[], {};
      while todo != {}
        invariant todo <= hashes
        invariant read == IntentsUnder(intents, hashes - todo)
        invariant filed == InvoicesUnder(invoices, hashes - todo)
        invariant listed == ListedOn(read, filed)
        decreases todo
      {
        var hash :| hash in todo;
        ghost var before := hashes - todo;
        todo := todo - {hash};
        assert hashes - todo == before + {hash};
        IntentsGrow(intents, before, hash);
        InvoicesGrow(invoices, before, hash);
        if hash in intents {
          read := read[hash := intents[hash]];
          listed := listed + set index | index in intents[hash].channels;
        }
        if hash in invoices {
          filed := filed[hash := invoices[hash]];
          listed := listed + set index | index in invoices[hash].channels;
        }
      }
      assert hashes - {} == hashes;
    }

    /** `OtherViews`, channel by channel, given up at the first one missing. */
    method ReadOthers(others: set<nat>) returns (views: Option<map<nat, Views>>)
      ensures views.Some? <==> others <= channels.Keys
      ensures views.Some? ==> views.value == OtherViews(State(), others)
    {
      var read: map<nat, Views> := map[];
      var left := others;
      while left != {}
        invariant left <= others && others - left <= channels.Keys
        invariant read == OtherViews(State(), others - left)
        decreases left
      {
        var other :| other in left;
        if other !in channels {
          return None;
        }
        assert others - (left - {other}) == (others - left) + {other};
        left := left - {other};
        read := read[other := channels[other].views];
      }
      assert others - {} == others;
      views := Some(read);
    }

    /** Loads a commitment's context hash by hash, then channel by channel. */
    method LoadBalanceContext(index: nat, operation: Operation) returns (context: Outcome<Context>)
      requires index in channels
      ensures context == LoadContext(State(), index, operation)
    {
      if !operation.CommitmentTx? {
        return Accept(NO_CONTEXT);
      }
      var views := channels[index].views;
      var hashes := HashesOf(operation.stated.tlcs + views.remote.tlcs + views.local.tlcs);
      var read, filed, listed := ReadPaymentRecords(hashes);
      var others := ReadOthers(listed - {index});
      if others.None? {
        return Refuse(HostError);
      }
      context := Accept(Context(read, filed, others.value));
    }

    /** `File`, one hash after another. */
    method FileChannel(hashes: set<Bound>, index: nat)
      modifies this`intents, this`invoices
      ensures State() == File(old(State()), hashes, index)
    {
      var todo := hashes;
      while todo != {}
        invariant todo <= hashes
        invariant State() == File(old(State()), hashes - todo, index)
        decreases todo
      {
        var hash :| hash in todo;
        assert hashes - (todo - {hash}) == (hashes - todo) + {hash};
        todo := todo - {hash};
        if hash in intents {
          intents := intents[hash := intents[hash].(channels := WithChannel(intents[hash].channels, index))];
        }
        if hash in invoices {
          invoices := invoices[hash := invoices[hash].(channels := WithChannel(invoices[hash].channels, index))];
        }
      }
      assert hashes - {} == hashes;
    }

    /** `CheckAndClaim` in its two passes: the decision is taken once before filing and once more at the write. */
    method CheckAndClaimSlot(index: nat, claim: Claim) returns (r: Outcome<Status>)
      modifies this`channels, this`intents, this`invoices
      ensures var spec := CheckAndClaim(old(State()), index, claim, allowReuse);
              && r == (if spec.Accept? then Accept(spec.value.status) else Refuse(spec.code))
              && State() == if spec.Accept? then spec.value.device else old(State())
    {
      var fault := ClaimFault(State(), index, claim);
      if fault.Some? {
        return Refuse(fault.value);
      }
      var context := LoadBalanceContext(index, claim.operation);
      if context.Refuse? {
        return Refuse(context.code);
      }
      var decided := DecideClaim(claim, allowReuse, channels[index], context.value);
      if decided.Refuse? {
        return Refuse(decided.code);
      }
      if IsRepeat(channels[index], claim) {
        return Accept(decided.value.status);
      }
      FileChannel(HashesOf(TlcsOf(claim.operation)), index);
      decided := DecideClaim(claim, allowReuse, channels[index], context.value);
      channels := channels[index := decided.value.record];
      r := Accept(decided.value.status);
    }

    method RecordRevocationSignature(index: nat, version: nat, signature: nat) returns (fault: Option<Refusal>)
      modifies this`channels
      ensures fault == FaultOf(RecordRevocation(old(State()), index, version, signature))
      ensures State() == AfterOf(RecordRevocation(old(State()), index, version, signature), old(State()))
    {
      if index !in channels || Slot(RevokeNonce, version + 1) !in channels[index].sessions {
        return Some(HostError);
      }
      var record := channels[index];
      channels := channels[index := record.(revocations := record.revocations[version := signature])];
      fault := None;
    }

    method RecordWatchtowerSignature(index: nat, id: nat, signature: nat) returns (fault: Option<Refusal>)
      modifies this`channels
      ensures fault == FaultOf(RecordSpendSignature(old(State()), index, id, signature))
      ensures State() == AfterOf(RecordSpendSignature(old(State()), index, id, signature), old(State()))
    {
      if index !in channels {
        return Some(HostError);
      }
      var spends := WithSignature(channels[index].spends, id, signature);
      if spends.Refuse? {
        return Some(spends.code);
      }
      channels := channels[index := channels[index].(spends := spends.value)];
      fault := None;
    }

    method MarkWatchtowerSpendApplied(index: nat, id: nat) returns (fault: Option<Refusal>)
      modifies this`channels
      ensures fault == FaultOf(MarkSpendApplied(old(State()), index, id))
      ensures State() == AfterOf(MarkSpendApplied(old(State()), index, id), old(State()))
    {
      if index !in channels {
        return Some(HostError);
      }
      var spends := WithApplied(channels[index].spends, id);
      if spends.Refuse? {
        return Some(spends.code);
      }
      channels := channels[index := channels[index].(spends := spends.value)];
      fault := None;
    }

    method CheckWatchtowerSpend(keys: Keys, index: nat, request: Request) returns (r: Outcome<Verdict>)
      modifies this`channels
      ensures var spec := CheckSpend(old(State()), keys, index, approval, request);
              && r.Accept? == spec.Accept?
              && (r.Refuse? ==> r.code == spec.code)
              && (r.Accept? ==>
                    r.value == DecideSpend(keys, BookOf(old(channels)[index]), approval.value, request).value.verdict)
              && State() == AfterOf(spec, old(State()))
    {
      if approval.None? {
        return Refuse(PolicyRefusal);
      }
      if index !in channels {
        return Refuse(UnknownChannel);
      }
      var decision := DecideWatchtowerSpend(keys, BookOf(channels[index]), approval.value, request);
      if decision.Refuse? {
        return Refuse(decision.code);
      }
      channels := channels[index := channels[index].(spends := decision.value.spends)];
      r := Accept(decision.value.verdict);
    }
  }

  function FaultOf(outcome: Outcome<Device>): Option<Refusal> {
    if outcome.Refuse? then Some(outcome.code) else None
  }

  function AfterOf(outcome: Outcome<Device>, before: Device): Device {
    if outcome.Accept? then outcome.value else before
  }

  /** Reading one hash more adds the channels its records list. */
  lemma {:induction false} IntentsGrow(intents: map<Bound, Intent>, before: set<Bound>, hash: Bound)
    ensures var under := IntentsUnder(intents, before);
            && IntentsUnder(intents, before + {hash})
               == (if hash in intents then under[hash := intents[hash]] else under)
            && IntentsList(IntentsUnder(intents, before + {hash}))
               == IntentsList(under) + (if hash in intents then set listed | listed in intents[hash].channels else {})
  {
    var under, more := IntentsUnder(intents, before), IntentsUnder(intents, before + {hash});
    assert forall bound :: bound in under ==> bound in more && more[bound] == under[bound];
    assert forall bound :: bound in more ==> bound in under || bound == hash;
    if hash in intents {
      assert hash in more && more[hash] == intents[hash];
    }
  }

  lemma {:induction false} InvoicesGrow(invoices: map<Bound, Invoice>, before: set<Bound>, hash: Bound)
    ensures var under := InvoicesUnder(invoices, before);
            && InvoicesUnder(invoices, before + {hash})
               == (if hash in invoices then under[hash := invoices[hash]] else under)
            && InvoicesList(InvoicesUnder(invoices, before + {hash}))
               == InvoicesList(under)
                  + (if hash in invoices then set listed | listed in invoices[hash].channels else {})
  {
    var under, more := InvoicesUnder(invoices, before), InvoicesUnder(invoices, before + {hash});
    assert forall bound :: bound in under ==> bound in more && more[bound] == under[bound];
    assert forall bound :: bound in more ==> bound in under || bound == hash;
    if hash in invoices {
      assert hash in more && more[hash] == invoices[hash];
    }
  }

  lemma {:induction false} NothingUnder(intents: map<Bound, Intent>, invoices: map<Bound, Invoice>)
    ensures IntentsUnder(intents, {}) == map[] && InvoicesUnder(invoices, {}) == map[]
    ensures ListedOn(map[], map[]) == {}
  {
  }
}
