/** The watchtower's rules: where a spend starts, what its unlock releases, whom it pays, and the claim it leaves. */
module Watchtower {
  import opened Outcomes
  import opened ByteStrings
  import opened Payments
  import opened Settlement
  import opened SettlementWitness
  import opened Descent

  const REVOCATION_LOCK_ARGS_LENGTH: nat := 36
  const LEGACY_ARGS_LENGTH: nat := 57
  const FULL_ARGS_LENGTH: nat := 58
  const MAX_DESTINATION_OUTPUTS: nat := 2
  const MAX_WATCHTOWER_SPENDS: nat := 3 * (MAX_SETTLEMENT_TLCS + 1)

  datatype Script = Script(codeHash: Bytes, hashType: nat, args: Bytes)

  datatype Cell = Cell(capacity: nat, lock: Script, typed: bool)

  /** What a transaction's hash covers; the hash itself stands for it, as an injective digest. */
  datatype RawTx = RawTx(
    version: nat,
    headerDeps: nat,
    inputs: seq<Input>,
    outputs: seq<Cell>,
    outputsData: seq<Bytes>,
    rest: nat
  )

  datatype Input = Input(index: nat, since: nat)

  datatype Purpose = SettlementKey | TlcKey(number: nat)

  datatype Request = Request(id: nat, purpose: Purpose, tx: RawTx, witnesses: seq<Bytes>)

  datatype Approval = Approval(destination: Script, maxFee: nat)

  datatype Spend = Spend(
    id: nat,
    purpose: Purpose,
    view: View,
    number: nat,
    entry: Option<Bytes>,
    tx: RawTx,
    remainder: Option<Cell>,
    signature: Option<nat>,
    applied: bool
  )

  /** What a record keeps of a commitment for a watchtower: its version, its cell and its settlement body. */
  datatype Kept = Kept(number: nat, cell: Cell, body: Bytes)

  /** The part of a channel's record the rules read. */
  datatype Book = Book(remote: Option<Kept>, previous: Option<Kept>, local: Option<Kept>, spends: seq<Spend>)

  datatype Registered = Registered(view: View, kept: Kept)

  /** Up to three commitments may be spent: two of the peer's, one of the device's. */
  function RegisteredIn(book: Book): seq<Registered> {
    (if book.remote.Some? then [Registered(Remote, book.remote.value)] else [])
    + (if book.previous.Some? then [Registered(Remote, book.previous.value)] else [])
    + (if book.local.Some? then [Registered(Local, book.local.value)] else [])
  }

  // ---- The source

  function ReadLayout(args: Bytes): Outcome<Layout> {
    if |args| == LEGACY_ARGS_LENGTH then Accept(Legacy)
    else if |args| == FULL_ARGS_LENGTH && args[LEGACY_ARGS_LENGTH] == 1 then Accept(FullPaymentHash)
    else Refuse(HostError)
  }

  function WitnessUnlock(witnesses: seq<Bytes>, layout: Layout): Outcome<Unlock> {
    if witnesses == [] then Refuse(Malformed) else ReadUnlock(witnesses[0], layout)
  }

  datatype Source = Source(view: View, number: nat, lock: Script, capacity: Option<nat>, layout: Layout, unlock: Unlock)

  /** Sources whose committed body is, byte for byte, the one the witness spells out. */
  function CommitmentCandidates(registered: seq<Registered>, witnesses: seq<Bytes>): Outcome<seq<Source>> {
    if registered == [] then Accept([]) else
      var Registered(view, kept) := registered[0];
      var layout :- ReadLayout(kept.cell.lock.args);
      var unlock :- WitnessUnlock(witnesses, layout);
      var rest :- CommitmentCandidates(registered[1..], witnesses);
      Accept((if unlock.body == kept.body
              then [Source(view, kept.number, kept.cell.lock, Some(kept.cell.capacity), layout, unlock)] else [])
                + rest)
  }

  /** Sources whose committed body the witness's one can have come from. */
  function DescendantCandidates(registered: seq<Registered>, witnesses: seq<Bytes>): Outcome<seq<Source>> {
    if registered == [] then Accept([]) else
      var last := |registered| - 1;
      var before :- DescendantCandidates(registered[..last], witnesses);
      var Registered(view, kept) := registered[last];
      var layout :- ReadLayout(kept.cell.lock.args);
      var unlock :- WitnessUnlock(witnesses, layout);
      var committed := ReadBody(kept.body, layout);
      if committed.Refuse? then Refuse(HostError)
      else Accept(before + if Descends(unlock.parts, committed.value)
                           then [Source(view, kept.number, kept.cell.lock, None, layout, unlock)] else [])
  }

  method FindDescendants(registered: seq<Registered>, witnesses: seq<Bytes>) returns (r: Outcome<seq<Source>>)
    ensures r == DescendantCandidates(registered, witnesses)
  {
    var candidates := [];
    for i := 0 to |registered|
      invariant DescendantCandidates(registered[..i], witnesses) == Accept(candidates)
    {
      assert registered[..i + 1][..i] == registered[..i];
      var kept := registered[i].kept;
      var layout := ReadLayout(kept.cell.lock.args);
      if layout.Refuse? {
        RefusalStays(registered, i + 1, witnesses);
        return Refuse(layout.code);
      }
      var unlock := WitnessUnlock(witnesses, layout.value);
      if unlock.Refuse? {
        RefusalStays(registered, i + 1, witnesses);
        return Refuse(unlock.code);
      }
      var committed := ReadBody(kept.body, layout.value);
      if committed.Refuse? {
        RefusalStays(registered, i + 1, witnesses);
        return Refuse(HostError);
      }
      var fault := FindDescentFault(unlock.value.parts, committed.value);
      if !fault {
        candidates := candidates + [Source(registered[i].view, kept.number, kept.cell.lock, None, layout.value,
          unlock.value)];
      } else {
        assert candidates + [] == candidates;
      }
    }
    assert registered[..|registered|] == registered;
    r := Accept(candidates);
  }

  lemma {:induction false} RefusalStays(registered: seq<Registered>, n: nat, witnesses: seq<Bytes>)
    requires n <= |registered| && DescendantCandidates(registered[..n], witnesses).Refuse?
    ensures DescendantCandidates(registered, witnesses) == Refuse(DescendantCandidates(registered[..n], witnesses).code)
  {
    var last := |registered| - 1;
    if n == |registered| {
      assert registered[..n] == registered;
    } else {
      assert registered[..last][..n] == registered[..n];
      RefusalStays(registered[..last], n, witnesses);
    }
  }

  /** The first candidate whose revocation args output 0 repeats, else the first of all. */
  function PickSource(candidates: seq<Source>, outputs: seq<Cell>): Outcome<Source> {
    if candidates == [] then Refuse(PolicyRefusal) else
      var named := FirstNamed(candidates, outputs);
      Accept(if named.Some? then named.value else candidates[0])
  }

  function FirstNamed(candidates: seq<Source>, outputs: seq<Cell>): Option<Source> {
    if candidates == [] || outputs == [] then None
    else if Head(candidates[0].lock.args) == Head(outputs[0].lock.args) then Some(candidates[0])
    else FirstNamed(candidates[1..], outputs)
  }

  function Head(args: Bytes): Bytes {
    if |args| <= REVOCATION_LOCK_ARGS_LENGTH then args else args[..REVOCATION_LOCK_ARGS_LENGTH]
  }

  function FindSource(book: Book, request: Request): Outcome<Source>
    requires request.tx.inputs != []
  {
    var input := request.tx.inputs[0];
    if input.index != 0 then Refuse(PolicyRefusal) else
      var candidates :- if input.since == 0
                        then DescendantCandidates(RegisteredIn(book), request.witnesses)
                        else CommitmentCandidates(RegisteredIn(book), request.witnesses);
      PickSource(candidates, request.tx.outputs)
  }

  // ---- What the unlock releases

  datatype Release = Release(shannons: nat, finalParty: bool)

  function EntryViews(entries: seq<Bytes>, layout: Layout, forRemote: bool): Outcome<seq<EntryView>> {
    if entries == [] then Accept([]) else
      var first :- ReadEntry(entries[0], layout, forRemote);
      var rest :- EntryViews(entries[1..], layout, forRemote);
      Accept([first] + rest)
  }

  function AmountsOf(views: seq<EntryView>): nat {
    if views == [] then 0 else views[0].amount + AmountsOf(views[1..])
  }

  predicate HasOffered(views: seq<EntryView>) {
    exists view :: view in views && view.direction.Offered?
  }

  /** The amount an unlock releases, refused when its target, key hash or preimage does not suit the purpose. */
  function ReleasedByKey(
    keys: Keys, purpose: Purpose, unlock: Unlock, layout: Layout, forRemote: bool): Outcome<Release>
    requires unlock.target.TlcTarget? ==> unlock.target.index < |unlock.parts.entries|
  {
    match purpose
    case TlcKey(number) =>
      if unlock.target.BalanceTarget? then Refuse(PolicyRefusal) else
        var entry :- ReadEntry(unlock.parts.entries[unlock.target.index], layout, forRemote);
        if entry.localKeyHash != keys.tlcKeyHash(number) then Refuse(PolicyRefusal)
        else if entry.direction.Received? != unlock.preimage.Some? then Refuse(PolicyRefusal)
        else Accept(Release(entry.amount, false))
    case SettlementKey =>
      if unlock.target != BalanceTarget(DeviceIndex(forRemote)) then Refuse(PolicyRefusal) else
        var balance := unlock.parts.At(DeviceIndex(forRemote));
        if balance.keyHash != keys.baseKeyHash then Refuse(PolicyRefusal) else
          var finalParty := IsZero(unlock.parts.At(1 - DeviceIndex(forRemote)).keyHash);
          var entries :- EntryViews(unlock.parts.entries, layout, forRemote);
          if !finalParty && HasOffered(entries) then Refuse(PolicyRefusal) else
            var shannons := balance.amount + if finalParty then AmountsOf(entries) else 0;
            if shannons == 0 then Refuse(PolicyRefusal) else Accept(Release(shannons, finalParty))
  }

  // ---- The remainder and the destination

  /** The args a remainder must carry: those of its source but for the body's hash and the flag. */
  function RemainderArgs(keys: Keys, args: Bytes, next: Bytes): Bytes {
    Head(args) + keys.blake160(next) + [1] + if |args| >= LEGACY_ARGS_LENGTH then args[LEGACY_ARGS_LENGTH..] else []
  }

  function ReadRemainder(keys: Keys, tx: RawTx, source: Source, released: nat, forRemote: bool): Outcome<Cell>
    requires |source.unlock.parts.entries| <= MAX_SETTLEMENT_TLCS
  {
    var next :- NextWitness(source.unlock, forRemote);
    if tx.outputs == [] || tx.outputsData == [] then Refuse(PolicyRefusal) else
      var first := tx.outputs[0];
      if first.lock != source.lock.(args := RemainderArgs(keys, source.lock.args, next))
         || first.typed || tx.outputsData[0] != []
         || (source.capacity.Some? && first.capacity + released != source.capacity.value)
      then Refuse(PolicyRefusal) else Accept(first)
  }

  function Paid(outputs: seq<Cell>): nat {
    if outputs == [] then 0 else Paid(outputs[..|outputs| - 1]) + outputs[|outputs| - 1].capacity
  }

  lemma {:induction false} PaidSnoc(outputs: seq<Cell>, from: nat, to: nat)
    requires from <= to < |outputs|
    ensures Paid(outputs[from..to + 1]) == Paid(outputs[from..to]) + outputs[to].capacity
  {
    assert outputs[from..to + 1][..to - from] == outputs[from..to];
  }

  /** One or two bare outputs to the destination, worth the release but for the fee. */
  ghost predicate PaysOut(tx: RawTx, skipped: nat, approval: Approval, released: nat) {
    && |tx.outputs| == |tx.outputsData|
    && skipped < |tx.outputs| <= skipped + MAX_DESTINATION_OUTPUTS
    && (forall i :: skipped <= i < |tx.outputs| ==>
          tx.outputs[i].lock == approval.destination && !tx.outputs[i].typed && tx.outputsData[i] == [])
    && Paid(tx.outputs[skipped..]) + approval.maxFee >= released
  }

  method AssertPaidOut(tx: RawTx, skipped: nat, approval: Approval, released: nat) returns (paidOut: bool)
    requires |tx.outputs| == |tx.outputsData|
    ensures paidOut <==> PaysOut(tx, skipped, approval, released)
  {
    if |tx.outputs| <= skipped || |tx.outputs| > skipped + MAX_DESTINATION_OUTPUTS {
      return false;
    }
    var paid := 0;
    for i := skipped to |tx.outputs|
      invariant forall j :: skipped <= j < i ==>
        tx.outputs[j].lock == approval.destination && !tx.outputs[j].typed && tx.outputsData[j] == []
      invariant paid == Paid(tx.outputs[skipped..i])
    {
      if tx.outputs[i].lock != approval.destination || tx.outputs[i].typed || tx.outputsData[i] != [] {
        return false;
      }
      PaidSnoc(tx.outputs, skipped, i);
      paid := paid + tx.outputs[i].capacity;
    }
    assert tx.outputs[skipped..|tx.outputs|] == tx.outputs[skipped..];
    paidOut := paid + approval.maxFee >= released;
  }

  // ---- The rules together

  datatype Terms = Terms(source: Source, entry: Option<Bytes>, released: nat, remainder: Option<Cell>)

  /** The entry of the TLC an unlock spends, none for a balance. */
  function UnlockedEntry(unlock: Unlock): Option<Bytes>
    requires unlock.target.TlcTarget? ==> unlock.target.index < |unlock.parts.entries|
  {
    if unlock.target.TlcTarget? then Some(unlock.parts.entries[unlock.target.index]) else None
  }

  predicate WellStructured(tx: RawTx) {
    tx.version == 0 && tx.headerDeps == 0 && tx.inputs != [] && |tx.outputs| == |tx.outputsData|
  }

  lemma {:induction false} FoundSourceIsRead(book: Book, request: Request)
    requires request.tx.inputs != [] && FindSource(book, request).Accept?
    ensures var source := FindSource(book, request).value;
            && WitnessUnlock(request.witnesses, source.layout) == Accept(source.unlock)
            && Sound(source)
            && exists c :: c in RegisteredIn(book) && StartsAt(source, c)
  {
    var registered := RegisteredIn(book);
    var input := request.tx.inputs[0];
    var candidates := (if input.since == 0 then DescendantCandidates(registered, request.witnesses)
                       else CommitmentCandidates(registered, request.witnesses)).value;
    if input.since == 0 {
      DescendantsStart(registered, request.witnesses);
    } else {
      CommitmentsStart(registered, request.witnesses);
    }
    PickedIsCandidate(candidates, request.tx.outputs);
    var source := FindSource(book, request).value;
    UnlockIsWellFormed(request.witnesses[0], source.layout);
  }

  /** A source starts at a registered commitment: it takes its cell, or a cell whose body descends from its body. */
  ghost predicate StartsAt(source: Source, c: Registered) {
    && source.view == c.view
    && source.number == c.kept.number
    && source.lock == c.kept.cell.lock
    && ReadLayout(c.kept.cell.lock.args) == Accept(source.layout)
    && (source.capacity.Some? ==> source.capacity.value == c.kept.cell.capacity && source.unlock.body == c.kept.body)
    && ReadBody(c.kept.body, source.layout).Accept?
    && Descends(source.unlock.parts, ReadBody(c.kept.body, source.layout).value)
  }

  lemma {:induction false} CommitmentsStart(registered: seq<Registered>, witnesses: seq<Bytes>)
    requires CommitmentCandidates(registered, witnesses).Accept?
    ensures forall source :: source in CommitmentCandidates(registered, witnesses).value ==>
              && WitnessUnlock(witnesses, source.layout) == Accept(source.unlock)
              && exists c :: c in registered && StartsAt(source, c)
  {
    if registered != [] {
      CommitmentsStart(registered[1..], witnesses);
      var layout := ReadLayout(registered[0].kept.cell.lock.args).value;
      UnlockIsWellFormed(witnesses[0], layout);
      forall source | source in CommitmentCandidates(registered, witnesses).value
        ensures WitnessUnlock(witnesses, source.layout) == Accept(source.unlock)
        ensures exists c :: c in registered && StartsAt(source, c)
      {
        if source in CommitmentCandidates(registered[1..], witnesses).value {
          var c :| c in registered[1..] && StartsAt(source, c);
          assert c in registered;
        } else {
          assert StartsAt(source, registered[0]);
        }
      }
    }
  }

  lemma {:induction false} DescendantsStart(registered: seq<Registered>, witnesses: seq<Bytes>)
    requires DescendantCandidates(registered, witnesses).Accept?
    ensures forall source :: source in DescendantCandidates(registered, witnesses).value ==>
              && WitnessUnlock(witnesses, source.layout) == Accept(source.unlock)
              && exists c :: c in registered && StartsAt(source, c)
  {
    if registered != [] {
      var last := |registered| - 1;
      DescendantsStart(registered[..last], witnesses);
      forall source | source in DescendantCandidates(registered, witnesses).value
        ensures WitnessUnlock(witnesses, source.layout) == Accept(source.unlock)
        ensures exists c :: c in registered && StartsAt(source, c)
      {
        if source in DescendantCandidates(registered[..last], witnesses).value {
          var c :| c in registered[..last] && StartsAt(source, c);
          assert c in registered;
        } else {
          assert StartsAt(source, registered[last]);
        }
      }
    }
  }

  lemma {:induction false} NamedIsCandidate(candidates: seq<Source>, outputs: seq<Cell>)
    requires FirstNamed(candidates, outputs).Some?
    ensures FirstNamed(candidates, outputs).value in candidates
  {
    if Head(candidates[0].lock.args) != Head(outputs[0].lock.args) {
      NamedIsCandidate(candidates[1..], outputs);
    }
  }

  lemma {:induction false} PickedIsCandidate(candidates: seq<Source>, outputs: seq<Cell>)
    requires PickSource(candidates, outputs).Accept?
    ensures PickSource(candidates, outputs).value in candidates
  {
    if FirstNamed(candidates, outputs).Some? {
      NamedIsCandidate(candidates, outputs);
    }
  }

  /** The source's unlock targets one of its entries or one of its balances. */
  predicate Sound(source: Source) {
    && source.unlock.parts.Valid(source.layout)
    && (source.unlock.target.TlcTarget? ==> source.unlock.target.index < |source.unlock.parts.entries|)
    && (source.unlock.target.BalanceTarget? ==> source.unlock.target.index < 2)
  }

  /** The rules past the source: what the unlock releases, whom it pays and the remainder it leaves. */
  ghost function JudgeFrom(keys: Keys, source: Source, approval: Approval, request: Request): Outcome<Terms>
    requires Sound(source)
  {
    var forRemote := source.view.Remote?;
    var release :- ReleasedByKey(keys, request.purpose, source.unlock, source.layout, forRemote);
    if !IsZero(source.unlock.signature) then Refuse(Malformed)
    else if release.finalParty then
      if !PaysOut(request.tx, 0, approval, release.shannons) then Refuse(PolicyRefusal)
      else Accept(Terms(source, UnlockedEntry(source.unlock), release.shannons, None))
    else
      var remainder :- ReadRemainder(keys, request.tx, source, release.shannons, forRemote);
      if !PaysOut(request.tx, 1, approval, release.shannons) then Refuse(PolicyRefusal)
      else Accept(Terms(source, UnlockedEntry(source.unlock), release.shannons, Some(remainder)))
  }

  /** Every rule but the claim: the source, what it releases and the remainder it leaves. */
  ghost function JudgeSpend(keys: Keys, book: Book, approval: Approval, request: Request): Outcome<Terms> {
    if !WellStructured(request.tx) then Refuse(Malformed) else
      var source :- FindSource(book, request);
      FoundSourceIsRead(book, request);
      JudgeFrom(keys, source, approval, request)
  }

  // ---- The claim

  datatype Verdict = Fresh | AlreadySigned(signature: Option<nat>) | Unclaimed

  predicate SameKey(a: Spend, b: Spend) {
    a.view == b.view && a.number == b.number && a.entry == b.entry
  }

  predicate IsRegistered(book: Book, spend: Spend) {
    exists c :: c in RegisteredIn(book) && c.view == spend.view && c.kept.number == spend.number
  }

  function SpendOf(request: Request, terms: Terms): Spend {
    Spend(request.id, request.purpose, terms.source.view, terms.source.number, terms.entry,
          request.tx, terms.remainder, None, false)
  }

  function KeptBeside(spends: seq<Spend>, spend: Spend, book: Book): seq<Spend> {
    if spends == [] then [] else
      (if !SameKey(spends[0], spend) && IsRegistered(book, spends[0]) then [spends[0]] else [])
      + KeptBeside(spends[1..], spend, book)
  }

  function FindRequest(spends: seq<Spend>, id: nat): Option<Spend> {
    if spends == [] then None
    else if spends[0].id == id then Some(spends[0])
    else FindRequest(spends[1..], id)
  }

  datatype Decision = Decision(verdict: Verdict, spends: seq<Spend>)

  /** The verdict on a spend, and the claims to keep: the ones given unless fresh. */
  ghost function DecideSpend(keys: Keys, book: Book, approval: Approval, request: Request): Outcome<Decision> {
    var terms :- JudgeSpend(keys, book, approval, request);
    var spend := SpendOf(request, terms);
    var repeat := FindRequest(book.spends, request.id);
    if repeat.Some? then
      if repeat.value.tx != request.tx then Refuse(PolicyRefusal)
      else Accept(Decision(AlreadySigned(repeat.value.signature), book.spends))
    else if exists recorded :: recorded in book.spends && recorded.signature.Some? && SameKey(recorded, spend)
    then Accept(Decision(Unclaimed, book.spends))
    else Accept(Decision(Fresh, KeptBeside(book.spends, spend, book) + [spend]))
  }

  /** The rules as the device runs them, the descent check and the payout check in their loops. */
  method DecideWatchtowerSpend(
    keys: Keys, book: Book, approval: Approval, request: Request) returns (r: Outcome<Decision>)
    ensures r == DecideSpend(keys, book, approval, request)
  {
    if !WellStructured(request.tx) {
      return Refuse(Malformed);
    }
    var input := request.tx.inputs[0];
    if input.index != 0 {
      return Refuse(PolicyRefusal);
    }
    var candidates: Outcome<seq<Source>>;
    if input.since == 0 {
      candidates := FindDescendants(RegisteredIn(book), request.witnesses);
    } else {
      candidates := CommitmentCandidates(RegisteredIn(book), request.witnesses);
    }
    if candidates.Refuse? {
      return Refuse(candidates.code);
    }
    var picked := PickSource(candidates.value, request.tx.outputs);
    if picked.Refuse? {
      return Refuse(picked.code);
    }
    var source := picked.value;
    assert FindSource(book, request) == Accept(source);
    FoundSourceIsRead(book, request);
    var release := ReleasedByKey(keys, request.purpose, source.unlock, source.layout, source.view.Remote?);
    if release.Refuse? {
      return Refuse(release.code);
    }
    if !IsZero(source.unlock.signature) {
      return Refuse(Malformed);
    }
    var remainder: Option<Cell> := None;
    if !release.value.finalParty {
      var read := ReadRemainder(keys, request.tx, source, release.value.shannons, source.view.Remote?);
      if read.Refuse? {
        return Refuse(read.code);
      }
      remainder := Some(read.value);
    }
    var paidOut := AssertPaidOut(request.tx, if remainder.Some? then 1 else 0, approval, release.value.shannons);
    if !paidOut {
      return Refuse(PolicyRefusal);
    }
    var spend := SpendOf(request, Terms(source, UnlockedEntry(source.unlock), release.value.shannons, remainder));
    var repeat := FindRequest(book.spends, request.id);
    if repeat.Some? {
      if repeat.value.tx != request.tx {
        return Refuse(PolicyRefusal);
      }
      return Accept(Decision(AlreadySigned(repeat.value.signature), book.spends));
    }
    if exists recorded :: recorded in book.spends && recorded.signature.Some? && SameKey(recorded, spend) {
      return Accept(Decision(Unclaimed, book.spends));
    }
    return Accept(Decision(Fresh, KeptBeside(book.spends, spend, book) + [spend]));
  }
}
