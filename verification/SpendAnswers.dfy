/** What the watchtower's rules answer, both ways: which spends are accepted, on which key, and with which verdict. */
module SpendAnswers {
  import opened Outcomes
  import opened ByteStrings
  import opened Payments
  import opened Settlement
  import opened SettlementWitness
  import opened Descent
  import opened Watchtower
  import opened WatchtowerFacts

  // ---- The key of an unlock, over the entry's bytes

  /** Where an entry shows the device's key hash: after the flag, the
      amount and the payment hash, second in the peer's view. */
  predicate ShowsKey(entry: Bytes, layout: Layout, forRemote: bool, keyHash: Bytes) {
    var h := if layout.Legacy? then 20 else 32;
    |entry| == 65 + h && entry[(if forRemote then 37 + h else 17 + h)..(if forRemote then 57 + h else 37 + h)]
      == keyHash
  }

  /** The entry is one the device received: its low bit is set in the peer's view, and clear in its own. */
  predicate IsReceived(entry: Bytes, forRemote: bool) {
    entry != [] && entry[0] % 2 == (if forRemote then 1 else 0)
  }

  predicate Readable(entry: Bytes) {
    entry != [] && entry[0] < 4
  }

  /** An unlock a TLC key signs: of an entry that shows the key, by the
      preimage if received and by its timeout if offered. */
  predicate TlcUnlock(keys: Keys, number: nat, unlock: Unlock, layout: Layout, forRemote: bool)
    requires unlock.target.TlcTarget? ==> unlock.target.index < |unlock.parts.entries|
  {
    && unlock.target.TlcTarget?
    && var entry := unlock.parts.entries[unlock.target.index];
       && Readable(entry) && ShowsKey(entry, layout, forRemote, keys.tlcKeyHash(number))
       && (unlock.preimage.Some? <==> IsReceived(entry, forRemote))
  }

  function Mine(parts: Body, forRemote: bool): Balance {
    if forRemote then parts.second else parts.first
  }

  function Peers(parts: Body, forRemote: bool): Balance {
    if forRemote then parts.first else parts.second
  }

  predicate HasSettled(balance: Balance) {
    forall i :: 0 <= i < |balance.keyHash| ==> balance.keyHash[i] == 0
  }

  /** An unlock the settlement key signs: of the device's own balance, under its
      base key, with no offered entry left unless the peer has settled. */
  predicate OwnUnlock(keys: Keys, unlock: Unlock, forRemote: bool) {
    && unlock.target == BalanceTarget(if forRemote then 1 else 0)
    && Mine(unlock.parts, forRemote).keyHash == keys.baseKeyHash
    && (forall entry :: entry in unlock.parts.entries ==> Readable(entry))
    && (HasSettled(Peers(unlock.parts, forRemote)) || forall entry :: entry in unlock.parts.entries ==>
      IsReceived(entry, forRemote))
  }

  /** What such an unlock releases: the entry's amount, or the
      balance, and every entry with it once the peer has settled. */
  predicate Frees(
    keys: Keys, purpose: Purpose, unlock: Unlock, layout: Layout, forRemote: bool, released: nat, final: bool)
    requires unlock.target.TlcTarget? ==> unlock.target.index < |unlock.parts.entries|
  {
    match purpose
    case TlcKey(number) =>
      && TlcUnlock(keys, number, unlock, layout, forRemote)
      && released == ReadLe(unlock.parts.entries[unlock.target.index][1..17]) && !final
    case SettlementKey =>
      && OwnUnlock(keys, unlock, forRemote)
      && (forall entry :: entry in unlock.parts.entries ==> |entry| >= 1 + AMOUNT_LENGTH)
      && final == HasSettled(Peers(unlock.parts, forRemote))
      && released == Mine(unlock.parts, forRemote).amount + (if final then EntryTotal(unlock.parts.entries) else 0)
      && released > 0
  }

  predicate WellAimed(unlock: Unlock, layout: Layout) {
    && unlock.parts.Valid(layout)
    && (unlock.target.TlcTarget? ==> unlock.target.index < |unlock.parts.entries|)
    && (unlock.target.BalanceTarget? ==> unlock.target.index < 2)
  }

  lemma {:induction false} EntryIsRead(entry: Bytes, layout: Layout, forRemote: bool)
    requires |entry| == EntryLength(layout)
    ensures ReadEntry(entry, layout, forRemote).Accept? <==> Readable(entry)
    ensures Readable(entry) ==>
              var view := ReadEntry(entry, layout, forRemote).value;
              && view.amount == ReadLe(entry[1..17])
              && (view.direction.Received? <==> IsReceived(entry, forRemote))
              && ShowsKey(entry, layout, forRemote, view.localKeyHash)
  {
    hide ReadLe;
  }

  lemma {:induction false} EntriesAreRead(entries: seq<Bytes>, layout: Layout, forRemote: bool)
    requires forall entry :: entry in entries ==> |entry| == EntryLength(layout)
    ensures EntryViews(entries, layout, forRemote).Accept? <==> forall entry :: entry in entries ==> Readable(entry)
    ensures EntryViews(entries, layout, forRemote).Accept? ==>
              (HasOffered(EntryViews(entries, layout, forRemote).value)
               <==> exists entry :: entry in entries && !IsReceived(entry, forRemote))
  {
    hide ReadEntry, Readable, IsReceived;
    if entries != [] {
      EntryIsRead(entries[0], layout, forRemote);
      EntriesAreRead(entries[1..], layout, forRemote);
      assert entries == [entries[0]] + entries[1..];
      if EntryViews(entries, layout, forRemote).Accept? {
        var first, rest := ReadEntry(entries[0], layout, forRemote).value, EntryViews(entries[1..], layout,
          forRemote).value;
        assert HasOffered([first] + rest) <==> first.direction.Offered? || HasOffered(rest) by {
          assert forall view :: view in [first] + rest <==> view == first || view in rest;
        }
      }
    }
  }

  lemma {:induction false} TlcKeyFrees(
    keys: Keys, number: nat, unlock: Unlock, layout: Layout, forRemote: bool, r: Release)
    requires WellAimed(unlock, layout)
    ensures ReleasedByKey(keys, TlcKey(number), unlock, layout, forRemote) == Accept(r)
            <==> Frees(keys, TlcKey(number), unlock, layout, forRemote, r.shannons, r.finalParty)
  {
    if unlock.target.TlcTarget? {
      EntryIsRead(unlock.parts.entries[unlock.target.index], layout, forRemote);
    }
    hide ReadEntry, Readable, IsReceived;
  }

  lemma {:induction false} SettledIsZero(balance: Balance)
    ensures HasSettled(balance) <==> IsZero(balance.keyHash)
  {
  }

  lemma {:induction false} ValidEntries(parts: Body, layout: Layout)
    requires parts.Valid(layout)
    ensures forall entry :: entry in parts.entries ==> |entry| == EntryLength(layout)
  {
  }

  lemma {:induction false} SettlementKeyFrees(keys: Keys, unlock: Unlock, layout: Layout, forRemote: bool, r: Release)
    requires WellAimed(unlock, layout)
    ensures ReleasedByKey(keys, SettlementKey, unlock, layout, forRemote) == Accept(r)
            <==> Frees(keys, SettlementKey, unlock, layout, forRemote, r.shannons, r.finalParty)
  {
    hide EntryViews, Readable, IsReceived, HasOffered, EntryTotal, AmountsOf, IsZero, HasSettled, TlcUnlock;
    var entries := unlock.parts.entries;
    ValidEntries(unlock.parts, layout);
    EntriesAreRead(entries, layout, forRemote);
    SettledIsZero(Peers(unlock.parts, forRemote));
    if EntryViews(entries, layout, forRemote).Accept? {
      ViewsAddUp(entries, layout, forRemote);
    }
  }

  /** The key rule, both ways: an unlock is released under a purpose, for an
      amount and as the last one or not, exactly when its bytes say so. */
  lemma {:induction false} ReleasedExactly(
    keys: Keys, purpose: Purpose, unlock: Unlock, layout: Layout, forRemote: bool, r: Release)
    requires WellAimed(unlock, layout)
    ensures ReleasedByKey(keys, purpose, unlock, layout, forRemote) == Accept(r)
            <==> Frees(keys, purpose, unlock, layout, forRemote, r.shannons, r.finalParty)
  {
    match purpose {
      case TlcKey(number) => TlcKeyFrees(keys, number, unlock, layout, forRemote, r);
      case SettlementKey => SettlementKeyFrees(keys, unlock, layout, forRemote, r);
    }
  }

  // ---- The remainder

  /** The body past a target: one entry fewer, or the device's own balance at nothing under no key. */
  predicate Past(parts: Body, target: Target, next: Body, forRemote: bool) {
    match target
    case TlcTarget(index) =>
      && index < |parts.entries| && next.first == parts.first && next.second == parts.second
      && next.entries == parts.entries[..index] + parts.entries[index + 1..]
    case BalanceTarget(index) =>
      && index == (if forRemote then 1 else 0) && next.entries == parts.entries
      && Peers(next, forRemote) == Peers(parts, forRemote)
      && Mine(next, forRemote).amount == 0 && |Mine(next, forRemote).keyHash| == 20 && HasSettled(Mine(next, forRemote))
  }

  /** The args of a remainder: the source's first 36 bytes and those
      past the 57th, the next body's hash between, and flag 1. */
  predicate CarriesOn(keys: Keys, source: Bytes, next: Bytes, args: Bytes)
    requires |source| >= 57
  {
    && |args| == |source|
    && args[..36] == source[..36]
    && args[36..56] == keys.blake160(next)
    && args[56] == 1
    && args[57..] == source[57..]
  }

  /** The first output is what a spend leaves of its source. */
  ghost predicate Leaves(keys: Keys, tx: RawTx, source: Source, released: nat)
    requires |source.lock.args| >= 57
  {
    && tx.outputs != [] && tx.outputsData != []
    && var first := tx.outputs[0];
       && first.lock.codeHash == source.lock.codeHash && first.lock.hashType == source.lock.hashType
       && (exists next :: Past(source.unlock.parts, source.unlock.target, next, source.view.Remote?)
                          && |next.entries| <= MAX_SETTLEMENT_TLCS
                          && CarriesOn(keys, source.lock.args, WriteBody(next), first.lock.args))
       && !first.typed && tx.outputsData[0] == []
       && (source.capacity.Some? ==> first.capacity + released == source.capacity.value)
  }

  lemma {:induction false} NextIsPast(unlock: Unlock, layout: Layout, forRemote: bool, next: Body)
    requires WellAimed(unlock, layout)
    ensures NextWitness(unlock, forRemote).Accept? ==>
              && Past(unlock.parts, unlock.target, NextBody(unlock.parts, unlock.target), forRemote)
              && |NextBody(unlock.parts, unlock.target).entries| <= MAX_SETTLEMENT_TLCS
              && NextWitness(unlock, forRemote).value == WriteBody(NextBody(unlock.parts, unlock.target))
    ensures Past(unlock.parts, unlock.target, next, forRemote) ==>
              NextWitness(unlock, forRemote).Accept? && next == NextBody(unlock.parts, unlock.target)
  {
    hide WriteBody;
    if unlock.target.BalanceTarget? && Past(unlock.parts, unlock.target, next, forRemote) {
      assert Mine(next, forRemote).keyHash == ZeroBytes(KEY_HASH_LENGTH);
    }
  }

  lemma {:induction false} ArgsCarryOn(keys: Keys, source: Bytes, next: Bytes, args: Bytes)
    requires ValidKeys(keys) && |source| >= 57
    ensures args == RemainderArgs(keys, source, next) <==> CarriesOn(keys, source, next, args)
  {
    var made := RemainderArgs(keys, source, next);
    assert |made| == |source| && made[..36] == source[..36] && made[36..56] == keys.blake160(next) && made[56] == 1
           && made[57..] == source[57..];
    if CarriesOn(keys, source, next, args) {
      assert args == args[..36] + args[36..56] + [args[56]] + args[57..];
      assert made == made[..36] + made[36..56] + [made[56]] + made[57..];
    }
  }

  /** The remainder rule, both ways. */
  lemma {:induction false} RemainderExactly(keys: Keys, tx: RawTx, source: Source, released: nat)
    requires ValidKeys(keys) && WellAimed(source.unlock, source.layout) && |source.lock.args| >= 57
    ensures ReadRemainder(keys, tx, source, released, source.view.Remote?).Accept? <==>
            Leaves(keys, tx, source, released)
    ensures ReadRemainder(keys, tx, source, released, source.view.Remote?).Accept? ==>
              ReadRemainder(keys, tx, source, released, source.view.Remote?).value == tx.outputs[0]
  {
    var unlock, forRemote := source.unlock, source.view.Remote?;
    NextIsPast(unlock, source.layout, forRemote, unlock.parts);
    hide NextWitness, RemainderArgs, CarriesOn, WriteBody, Past;
    if ReadRemainder(keys, tx, source, released, forRemote).Accept? {
      ArgsCarryOn(keys, source.lock.args, NextWitness(unlock, forRemote).value, tx.outputs[0].lock.args);
    }
    if Leaves(keys, tx, source, released) {
      var next :| Past(unlock.parts, unlock.target, next, forRemote) && |next.entries| <= MAX_SETTLEMENT_TLCS
                  && CarriesOn(keys, source.lock.args, WriteBody(next), tx.outputs[0].lock.args);
      NextIsPast(unlock, source.layout, forRemote, next);
      ArgsCarryOn(keys, source.lock.args, WriteBody(next), tx.outputs[0].lock.args);
    }
  }

  // ---- The payout

  /** One bare output, or two, to the destination. */
  predicate Pays(outputs: seq<Cell>, data: seq<Bytes>, approval: Approval, released: nat) {
    && |outputs| == |data|
    && (|outputs| == 1 || |outputs| == 2)
    && (forall i :: 0 <= i < |outputs| ==>
          outputs[i].lock == approval.destination && !outputs[i].typed && data[i] == [])
    && outputs[0].capacity + (if |outputs| == 2 then outputs[1].capacity else 0) + approval.maxFee >= released
  }

  /** The payout rule: what stands past the remainder, if there is one. */
  lemma {:induction false} PayoutExactly(tx: RawTx, skipped: nat, approval: Approval, released: nat)
    requires |tx.outputs| == |tx.outputsData| && skipped <= |tx.outputs|
    ensures PaysOut(tx, skipped, approval, released)
            <==> Pays(tx.outputs[skipped..], tx.outputsData[skipped..], approval, released)
  {
    var outputs := tx.outputs[skipped..];
    if |outputs| == 1 {
      assert outputs[..0] == [] && Paid(outputs[..0]) == 0;
      assert Paid(outputs) == outputs[0].capacity;
    } else if |outputs| == 2 {
      assert outputs[..1][..0] == [] && Paid(outputs[..1][..0]) == 0;
      assert Paid(outputs[..1]) == outputs[0].capacity;
    }
    if Pays(outputs, tx.outputsData[skipped..], approval, released) {
      forall i | skipped <= i < |tx.outputs|
        ensures tx.outputs[i].lock == approval.destination && !tx.outputs[i].typed && tx.outputsData[i] == []
      {
        assert outputs[i - skipped] == tx.outputs[i];
      }
    }
  }

  // ---- The source

  /** A commitment's cell and witness read as this source: its own cell where the
      spend carries a since, a cell descending from it where it does not. */
  ghost predicate ReadsAs(c: Registered, request: Request, source: Source)
    requires request.tx.inputs != []
  {
    && source.view == c.view && source.number == c.kept.number && source.lock == c.kept.cell.lock
    && ReadLayout(c.kept.cell.lock.args) == Accept(source.layout)
    && request.witnesses != [] && ReadUnlock(request.witnesses[0], source.layout) == Accept(source.unlock)
    && if request.tx.inputs[0].since != 0
       then source.capacity == Some(c.kept.cell.capacity) && source.unlock.body == c.kept.body
       else source.capacity == None && ReadBody(c.kept.body, source.layout).Accept?
            && Descends(source.unlock.parts, ReadBody(c.kept.body, source.layout).value)
  }

  /** The lock args a commitment's cell may carry: 57 bytes, or 58 with a one at the end. */
  lemma {:induction false} LayoutExactly(args: Bytes, layout: Layout)
    ensures ReadLayout(args) == Accept(layout)
            <==> if layout.Legacy? then |args| == 57 else |args| == 58 && args[57] == 1
  {
  }

  /** The witness can be read beside every registered commitment. */
  ghost predicate AllRead(registered: seq<Registered>, request: Request)
    requires request.tx.inputs != []
  {
    forall c :: c in registered ==> CanRead(c, request)
  }

  ghost predicate CanRead(c: Registered, request: Request)
    requires request.tx.inputs != []
  {
    && ReadLayout(c.kept.cell.lock.args).Accept?
    && request.witnesses != []
    && ReadUnlock(request.witnesses[0], ReadLayout(c.kept.cell.lock.args).value).Accept?
    && (request.tx.inputs[0].since == 0 ==> ReadBody(c.kept.body, ReadLayout(c.kept.cell.lock.args).value).Accept?)
  }

  /** Output 0 repeats the first 36 bytes of the source's args. */
  predicate Names(request: Request, source: Source) {
    && request.tx.outputs != []
    && Head(request.tx.outputs[0].lock.args) == Head(source.lock.args)
  }

  /** Of those a witness reads as, the first that output 0 names, and the first of all where it names none. */
  ghost predicate IsPicked(registered: seq<Registered>, request: Request, source: Source)
    requires request.tx.inputs != []
  {
    exists k :: 0 <= k < |registered| && IsPickedAt(registered, k, request, source)
  }

  ghost predicate IsPickedAt(registered: seq<Registered>, k: nat, request: Request, source: Source)
    requires request.tx.inputs != [] && k < |registered|
  {
    && ReadsAs(registered[k], request, source)
    && forall j, other :: 0 <= j < |registered| && ReadsAs(registered[j], request, other) ==>
         if Names(request, source) then j < k ==> !Names(request, other) else j >= k && !Names(request, other)
  }

  /** What a commitment reads as, if anything. */
  ghost function Readings(c: Registered, request: Request): seq<Source>
    requires request.tx.inputs != [] && CanRead(c, request)
  {
    var layout := ReadLayout(c.kept.cell.lock.args).value;
    var unlock := ReadUnlock(request.witnesses[0], layout).value;
    if request.tx.inputs[0].since != 0 then
      if unlock.body == c.kept.body
      then [Source(c.view, c.kept.number, c.kept.cell.lock, Some(c.kept.cell.capacity), layout, unlock)] else []
    else
      if Descends(unlock.parts, ReadBody(c.kept.body, layout).value)
      then [Source(c.view, c.kept.number, c.kept.cell.lock, None, layout, unlock)] else []
  }

  ghost function AllReadings(registered: seq<Registered>, request: Request): seq<Source>
    requires request.tx.inputs != [] && AllRead(registered, request)
  {
    if registered == [] then [] else Readings(registered[0], request) + AllReadings(registered[1..], request)
  }

  lemma {:induction false} ReadingsAre(c: Registered, request: Request, source: Source)
    requires request.tx.inputs != [] && CanRead(c, request)
    ensures source in Readings(c, request) <==> ReadsAs(c, request, source)
  {
    hide ReadUnlock, ReadBody, ReadLayout, Descends;
  }

  lemma {:induction false} OneReading(c: Registered, request: Request)
    requires request.tx.inputs != [] && CanRead(c, request)
    ensures |Readings(c, request)| <= 1
  {
    hide ReadUnlock, ReadBody, ReadLayout, Descends;
  }

  lemma {:induction false} AllReadingsSnoc(registered: seq<Registered>, request: Request)
    requires request.tx.inputs != [] && registered != [] && AllRead(registered, request)
    ensures AllReadings(registered, request)
            == AllReadings(registered[..|registered| - 1], request) + Readings(registered[|registered| - 1], request)
  {
    hide CanRead, Readings;
    var last := |registered| - 1;
    if last > 0 {
      AllReadingsSnoc(registered[1..], request);
      assert registered[1..][..last - 1] == registered[..last][1..];
    } else {
      assert registered[1..] == [] && registered[..last] == [];
    }
  }

  lemma {:induction false} CommitmentsRead(registered: seq<Registered>, request: Request)
    requires request.tx.inputs != [] && request.tx.inputs[0].since != 0
    ensures CommitmentCandidates(registered, request.witnesses).Accept? <==> AllRead(registered, request)
    ensures AllRead(registered, request) ==>
              CommitmentCandidates(registered, request.witnesses).value == AllReadings(registered, request)
  {
    hide ReadUnlock, ReadBody, ReadLayout, Descends;
    if registered != [] {
      CommitmentsRead(registered[1..], request);
      assert registered == [registered[0]] + registered[1..];
      assert AllRead(registered, request) <==> CanRead(registered[0], request) && AllRead(registered[1..], request);
    }
  }

  lemma {:induction false} DescendantsRead(registered: seq<Registered>, request: Request)
    requires request.tx.inputs != [] && request.tx.inputs[0].since == 0
    ensures DescendantCandidates(registered, request.witnesses).Accept? <==> AllRead(registered, request)
    ensures AllRead(registered, request) ==>
              DescendantCandidates(registered, request.witnesses).value == AllReadings(registered, request)
  {
    hide ReadUnlock, ReadBody, ReadLayout, Descends;
    if registered != [] {
      var last := |registered| - 1;
      DescendantsRead(registered[..last], request);
      assert registered == registered[..last] + [registered[last]];
      assert AllRead(registered, request) <==>
             AllRead(registered[..last], request) && CanRead(registered[last], request);
      if AllRead(registered, request) {
        AllReadingsSnoc(registered, request);
      }
    }
  }

  /** The first named reading is of the first commitment read as a named one. */
  lemma {:induction false} FirstNamedIs(registered: seq<Registered>, request: Request)
    requires request.tx.inputs != [] && AllRead(registered, request)
    ensures var named := FirstNamed(AllReadings(registered, request), request.tx.outputs);
            if named.Some? then
              && Names(request, named.value)
              && exists k :: 0 <= k < |registered| && ReadsAs(registered[k], request, named.value)
                             && forall j, other :: 0 <= j < k && ReadsAs(registered[j], request, other) ==>
                               !Names(request, other)
            else forall j, other :: 0 <= j < |registered| && ReadsAs(registered[j], request, other) ==>
              !Names(request, other)
  {
    hide ReadsAs, CanRead, Readings, Head;
    if registered != [] {
      FirstNamedIs(registered[1..], request);
      var first, rest := Readings(registered[0], request), AllReadings(registered[1..], request);
      var named := FirstNamed(AllReadings(registered, request), request.tx.outputs);
      OneReading(registered[0], request);
      forall other {
        ReadingsAre(registered[0], request, other);
      }
      assert forall j :: 1 <= j < |registered| ==> registered[j] == registered[1..][j - 1];
      if first != [] {
        assert (first + rest)[1..] == rest;
        if Names(request, first[0]) {
          assert named == Some(first[0]);
          assert ReadsAs(registered[0], request, named.value);
        } else {
          assert named == FirstNamed(rest, request.tx.outputs) || request.tx.outputs == [];
        }
      } else {
        assert first + rest == rest;
      }
      if named.Some? && named == FirstNamed(rest, request.tx.outputs) {
        var k :| 0 <= k < |registered[1..]| && ReadsAs(registered[1..][k], request, named.value)
                 && forall j, other :: 0 <= j < k && ReadsAs(registered[1..][j], request, other) ==>
                   !Names(request, other);
        if first == [] || !Names(request, first[0]) {
          assert ReadsAs(registered[k + 1], request, named.value);
          forall j, other | 0 <= j < k + 1 && ReadsAs(registered[j], request, other)
            ensures !Names(request, other)
          {
            if j > 0 {
              assert ReadsAs(registered[1..][j - 1], request, other);
            }
          }
        }
      }
    }
  }

  /** The first reading is of the first commitment that reads at all. */
  lemma {:induction false} FirstReadingIs(registered: seq<Registered>, request: Request)
    requires request.tx.inputs != [] && AllRead(registered, request)
    ensures var readings := AllReadings(registered, request);
            if readings != [] then
              exists k :: 0 <= k < |registered| && ReadsAs(registered[k], request, readings[0])
                          && forall j, other :: 0 <= j < k ==> !ReadsAs(registered[j], request, other)
            else forall j, other :: 0 <= j < |registered| ==> !ReadsAs(registered[j], request, other)
  {
    hide ReadsAs, CanRead, Readings;
    if registered != [] {
      FirstReadingIs(registered[1..], request);
      var first, rest := Readings(registered[0], request), AllReadings(registered[1..], request);
      forall other {
        ReadingsAre(registered[0], request, other);
      }
      assert forall j :: 1 <= j < |registered| ==> registered[j] == registered[1..][j - 1];
      if first != [] {
        assert AllReadings(registered, request)[0] == first[0];
        assert ReadsAs(registered[0], request, first[0]);
      } else if rest != [] {
        assert first + rest == rest;
        var k :| 0 <= k < |registered[1..]| && ReadsAs(registered[1..][k], request, rest[0])
                 && forall j, other :: 0 <= j < k ==> !ReadsAs(registered[1..][j], request, other);
        assert ReadsAs(registered[k + 1], request, rest[0]);
        forall j, other | 0 <= j < k + 1
          ensures !ReadsAs(registered[j], request, other)
        {
          if j > 0 {
            assert !ReadsAs(registered[1..][j - 1], request, other);
          }
        }
      }
    }
  }

  /** No commitment reads as two sources. */
  lemma {:induction false} ReadsAsOne(c: Registered, request: Request, a: Source, b: Source)
    requires request.tx.inputs != [] && ReadsAs(c, request, a) && ReadsAs(c, request, b)
    ensures a == b
  {
    hide ReadUnlock, ReadBody, ReadLayout, Descends;
  }

  lemma {:induction false} PickedIs(registered: seq<Registered>, request: Request)
    requires request.tx.inputs != [] && AllRead(registered, request)
    ensures var picked := PickSource(AllReadings(registered, request), request.tx.outputs);
            if picked.Accept? then IsPicked(registered, request, picked.value)
            else forall source :: !IsPicked(registered, request, source)
  {
    FirstNamedIs(registered, request);
    FirstReadingIs(registered, request);
    hide ReadsAs, AllReadings, AllRead, Names;
    var readings := AllReadings(registered, request);
    var named := FirstNamed(readings, request.tx.outputs);
    if readings == [] {
    } else if named.Some? {
      var k :| 0 <= k < |registered| && ReadsAs(registered[k], request, named.value)
               && forall j, other :: 0 <= j < k && ReadsAs(registered[j], request, other) ==> !Names(request, other);
      assert IsPickedAt(registered, k, request, named.value);
    } else {
      var k :| 0 <= k < |registered| && ReadsAs(registered[k], request, readings[0])
               && forall j, other :: 0 <= j < k ==> !ReadsAs(registered[j], request, other);
      assert !Names(request, readings[0]);
      assert IsPickedAt(registered, k, request, readings[0]);
    }
  }

  lemma {:induction false} OnePicked(registered: seq<Registered>, request: Request, a: Source, b: Source)
    requires request.tx.inputs != [] && IsPicked(registered, request, a) && IsPicked(registered, request, b)
    ensures a == b
  {
    hide ReadsAs, Names;
    var i :| 0 <= i < |registered| && IsPickedAt(registered, i, request, a);
    var k :| 0 <= k < |registered| && IsPickedAt(registered, k, request, b);
    assert ReadsAs(registered[i], request, a) && ReadsAs(registered[k], request, b);
    assert Names(request, a) == Names(request, b);
    if i < k {
      assert false;
    } else if k < i {
      assert false;
    }
    ReadsAsOne(registered[i], request, a, b);
  }

  /** The source of a spend, both ways. */
  lemma {:induction false} SourceExactly(book: Book, request: Request, source: Source)
    requires request.tx.inputs != []
    ensures FindSource(book, request) == Accept(source)
            <==> && request.tx.inputs[0].index == 0
                 && AllRead(RegisteredIn(book), request)
                 && IsPicked(RegisteredIn(book), request, source)
  {
    var registered := RegisteredIn(book);
    if request.tx.inputs[0].since == 0 {
      DescendantsRead(registered, request);
    } else {
      CommitmentsRead(registered, request);
    }
    hide AllRead, IsPicked, AllReadings, PickSource, RegisteredIn, CommitmentCandidates, DescendantCandidates;
    if AllRead(registered, request) {
      PickedIs(registered, request);
      var picked := PickSource(AllReadings(registered, request), request.tx.outputs);
      if picked.Accept? && IsPicked(registered, request, source) {
        OnePicked(registered, request, source, picked.value);
      }
    }
  }

  /** The commitments a spend may start at, and in what order they are looked at. */
  lemma {:induction false} RegisteredExactly(remote: Kept, previous: Kept, local: Kept, spends: seq<Spend>)
    ensures RegisteredIn(Book(Some(remote), Some(previous), Some(local), spends))
            == [Registered(Remote, remote), Registered(Remote, previous), Registered(Local, local)]
    ensures RegisteredIn(Book(Some(remote), None, Some(local), spends))
            == [Registered(Remote, remote), Registered(Local, local)]
    ensures RegisteredIn(Book(None, None, Some(local), spends)) == [Registered(Local, local)]
    ensures RegisteredIn(Book(Some(remote), None, None, spends)) == [Registered(Remote, remote)]
    ensures RegisteredIn(Book(None, None, None, spends)) == []
  {
  }

  // ---- The whole rule

  /** The spend's terms, each in the bytes it is read from. */
  ghost predicate Meets(keys: Keys, book: Book, approval: Approval, request: Request, terms: Terms) {
    var tx, source := request.tx, terms.source;
    && tx.version == 0 && tx.headerDeps == 0 && tx.inputs != [] && |tx.outputs| == |tx.outputsData|
    && tx.inputs[0].index == 0
    && AllRead(RegisteredIn(book), request) && IsPicked(RegisteredIn(book), request, source)
    && WellAimed(source.unlock, source.layout) && |source.lock.args| >= 57
    && Frees(keys, request.purpose, source.unlock, source.layout, source.view.Remote?, terms.released,
      terms.remainder.None?)
    && (forall i :: 0 <= i < |source.unlock.signature| ==> source.unlock.signature[i] == 0)
    && (terms.remainder.Some? ==> Leaves(keys, tx, source, terms.released) && terms.remainder.value == tx.outputs[0])
    && (terms.remainder.Some? ==> Pays(tx.outputs[1..], tx.outputsData[1..], approval, terms.released))
    && (terms.remainder.None? ==> Pays(tx.outputs, tx.outputsData, approval, terms.released))
    && terms.entry == (match source.unlock.target
                       case TlcTarget(index) => Some(source.unlock.parts.entries[index])
                       case BalanceTarget(_) => None)
  }

  lemma {:induction false} PickedIsWellAimed(registered: seq<Registered>, request: Request, source: Source)
    requires request.tx.inputs != [] && IsPicked(registered, request, source)
    ensures WellAimed(source.unlock, source.layout) && |source.lock.args| >= 57
    ensures Sound(source)
  {
    var k :| 0 <= k < |registered| && IsPickedAt(registered, k, request, source);
    UnlockIsWellFormed(request.witnesses[0], source.layout);
    LayoutExactly(source.lock.args, source.layout);
    hide ReadUnlock, ReadBody, ReadLayout;
  }

  /** The rules past the source, in the bytes they read. */
  ghost predicate MeetsFrom(keys: Keys, source: Source, approval: Approval, request: Request, terms: Terms)
    requires WellAimed(source.unlock, source.layout) && |source.lock.args| >= 57
  {
    && terms.source == source
    && Frees(keys, request.purpose, source.unlock, source.layout, source.view.Remote?, terms.released,
             terms.remainder.None?)
    && IsZero(source.unlock.signature)
    && (terms.remainder.Some? ==>
          Leaves(keys, request.tx, source, terms.released) && terms.remainder.value == request.tx.outputs[0])
    && PaysOut(request.tx, if terms.remainder.Some? then 1 else 0, approval, terms.released)
    && terms.entry == UnlockedEntry(source.unlock)
  }

  lemma {:induction false} TermsMeet(keys: Keys, source: Source, approval: Approval, request: Request)
    requires ValidKeys(keys) && Sound(source) && WellAimed(source.unlock, source.layout) && |source.lock.args| >= 57
    requires JudgeFrom(keys, source, approval, request).Accept?
    ensures MeetsFrom(keys, source, approval, request, JudgeFrom(keys, source, approval, request).value)
  {
    hide ReleasedByKey, Frees, ReadRemainder, Leaves, PaysOut, IsZero, UnlockedEntry;
    var release := ReleasedByKey(keys, request.purpose, source.unlock, source.layout, source.view.Remote?).value;
    ReleasedExactly(keys, request.purpose, source.unlock, source.layout, source.view.Remote?, release);
    RemainderExactly(keys, request.tx, source, release.shannons);
  }

  lemma {:induction false} MeetingIsJudged(
    keys: Keys, source: Source, approval: Approval, request: Request, terms: Terms)
    requires ValidKeys(keys) && Sound(source) && WellAimed(source.unlock, source.layout) && |source.lock.args| >= 57
    requires MeetsFrom(keys, source, approval, request, terms)
    ensures JudgeFrom(keys, source, approval, request) == Accept(terms)
  {
    hide ReleasedByKey, Frees, ReadRemainder, Leaves, PaysOut, IsZero, UnlockedEntry, WellAimed, Sound;
    var release := Release(terms.released, terms.remainder.None?);
    ReleasedExactly(keys, request.purpose, source.unlock, source.layout, source.view.Remote?, release);
    RemainderExactly(keys, request.tx, source, terms.released);
  }

  /** A spend is accepted on its terms exactly when it meets them. */
  lemma {:induction false} AcceptedExactly(keys: Keys, book: Book, approval: Approval, request: Request, terms: Terms)
    requires ValidKeys(keys)
    ensures JudgeSpend(keys, book, approval, request) == Accept(terms) <==> Meets(keys, book, approval, request, terms)
  {
    var tx, source := request.tx, terms.source;
    if WellStructured(tx) {
      var found := FindSource(book, request);
      if found.Accept? {
        SourceExactly(book, request, found.value);
        PickedIsWellAimed(RegisteredIn(book), request, found.value);
        if JudgeFrom(keys, found.value, approval, request).Accept? {
          TermsMeet(keys, found.value, approval, request);
        }
        if MeetsFrom(keys, found.value, approval, request, terms) {
          MeetingIsJudged(keys, found.value, approval, request, terms);
        }
      }
      SourceExactly(book, request, source);
      PayoutsAre(tx, approval, terms);
      hide FindSource, JudgeFrom, AllRead, IsPicked, RegisteredIn, Frees, Leaves, PaysOut, Pays, WellAimed, Sound;
    }
  }

  lemma {:induction false} PayoutsAre(tx: RawTx, approval: Approval, terms: Terms)
    requires |tx.outputs| == |tx.outputsData|
    ensures PaysOut(tx, 0, approval, terms.released) <==> Pays(tx.outputs, tx.outputsData, approval, terms.released)
    ensures tx.outputs != [] ==>
              (PaysOut(tx, 1, approval, terms.released) <==>
                Pays(tx.outputs[1..], tx.outputsData[1..], approval, terms.released))
  {
    PayoutExactly(tx, 0, approval, terms.released);
    assert tx.outputs[0..] == tx.outputs && tx.outputsData[0..] == tx.outputsData;
    if tx.outputs != [] {
      PayoutExactly(tx, 1, approval, terms.released);
    }
  }

  // ---- The verdict

  /** What a spend that meets its terms is answered, and what is kept of the claims. */
  lemma {:induction false} VerdictExactly(keys: Keys, book: Book, approval: Approval, request: Request)
    requires JudgeSpend(keys, book, approval, request).Accept? && Distinct(book.spends)
    ensures var terms := JudgeSpend(keys, book, approval, request).value;
            var answer := DecideSpend(keys, book, approval, request);
            var source := terms.source;
            if exists s :: s in book.spends && s.id == request.id then
              forall s :: s in book.spends && s.id == request.id ==>
                if s.tx == request.tx then answer == Accept(Decision(AlreadySigned(s.signature), book.spends))
                else answer == Refuse(PolicyRefusal)
            else if exists s ::
                      && s in book.spends && s.signature.Some? && s.view == source.view && s.number == source.number
                      && s.entry == terms.entry
            then answer == Accept(Decision(Unclaimed, book.spends))
            else
              && answer.Accept? && answer.value.verdict == Fresh
              && var added := Spend(request.id, request.purpose, source.view, source.number, terms.entry, request.tx,
                                    terms.remainder, None, false);
                 forall s :: s in answer.value.spends <==>
                   || s == added
                   || (s in book.spends && !(s.view == source.view && s.number == source.number
                     && s.entry == terms.entry)
                       && exists c :: c in RegisteredIn(book) && c.view == s.view && c.kept.number == s.number)
  {
    var terms := JudgeSpend(keys, book, approval, request).value;
    var spend := SpendOf(request, terms);
    hide JudgeSpend, RegisteredIn;
    NotFoundIsAbsent(book.spends, request.id);
    KeptAre(book.spends, spend, book);
    if exists s :: s in book.spends && s.id == request.id {
      FoundIsTheOne(book.spends, request.id);
    } else {
      hide Distinct;
      assert (exists recorded :: recorded in book.spends && recorded.signature.Some? && SameKey(recorded, spend))
             <==> exists s :: s in book.spends && s.signature.Some? && s.view == terms.source.view
                              && s.number == terms.source.number && s.entry == terms.entry;
    }
  }

  lemma {:induction false} FoundIsTheOne(spends: seq<Spend>, id: nat)
    requires Distinct(spends)
    ensures forall s :: s in spends && s.id == id ==> FindRequest(spends, id) == Some(s)
  {
    if spends != [] {
      assert forall i :: 0 <= i < |spends[1..]| ==> spends[1..][i] == spends[i + 1];
      FoundIsTheOne(spends[1..], id);
      forall s | s in spends && s.id == id
        ensures FindRequest(spends, id) == Some(s)
      {
        var i :| 0 <= i < |spends| && spends[i] == s;
        if i > 0 {
          assert spends[1..][i - 1] == s;
        }
      }
    }
  }
}
