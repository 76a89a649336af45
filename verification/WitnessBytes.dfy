/** A settlement body byte by byte: what each place of a built witness
    holds, and that nothing else could stand there. */
module WitnessBytes {
  import opened Outcomes
  import opened ByteStrings
  import opened Payments
  import opened Settlement
  import opened SettlementWitness

  /** How many bytes of a payment hash an entry binds. */
  function BoundBytes(layout: Layout): nat {
    match layout
    case Legacy => 20
    case FullPaymentHash => 32
  }

  /** The key hash an entry shows at the first place of its pair, and the one at the second. */
  predicate HasPair(entry: Bytes, h: nat, first: Bytes, second: Bytes)
    requires |entry| == 65 + h
  {
    entry[17 + h..37 + h] == first && entry[37 + h..57 + h] == second
  }

  /** What an entry spells: the flag, the amount, the payment hash, the pair of key hashes and the expiry. */
  predicate Spells(entry: Bytes, keys: Keys, tlc: SettlementTlc, forRemote: bool, layout: Layout)
    requires |tlc.hash| == 32
  {
    var h := BoundBytes(layout);
    var device, peer := keys.tlcKeyHash(tlc.localKeyNumber), keys.blake160(tlc.remoteKey);
    && |entry| == 65 + h
    && entry[0] / 2 == (match tlc.algorithm case CkbHash => 0 case Sha256 => 1)
    && entry[0] % 2 == (match tlc.direction
                        case Offered => if forRemote then 0 else 1
                        case Received => if forRemote then 1 else 0)
    && ReadLe(entry[1..17]) == tlc.amount
    && entry[17..17 + h] == tlc.hash[..h]
    && (if forRemote then HasPair(entry, h, peer, device) else HasPair(entry, h, device, peer))
    && ReadLe(entry[57 + h..]) == 0x4000_0000_0000_0000 + tlc.expiryMs / 1000
  }

  lemma {:induction false} SinceFits(tlc: SettlementTlc)
    requires ValidTlc(tlc)
    ensures SINCE_ABSOLUTE_TIMESTAMP_FLAG + tlc.expiryMs / MILLISECONDS_PER_SECOND < Pow256(SINCE_LENGTH)
  {
    assert Pow256(4) == 0x1_0000_0000;
    assert Pow256(8) == 256 * 256 * 256 * 256 * Pow256(4);
  }

  /** A built entry spells its TLC. */
  lemma {:induction false} EntryIsSpelled(keys: Keys, tlc: SettlementTlc, forRemote: bool, layout: Layout)
    requires ValidKeys(keys) && ValidTlc(tlc)
    ensures Spells(BuildTlcRecord(keys, tlc, forRemote, layout), keys, tlc, forRemote, layout)
  {
    SinceFits(tlc);
    ReadsWhatWasWritten(tlc.amount, AMOUNT_LENGTH);
    var since := SINCE_ABSOLUTE_TIMESTAMP_FLAG + tlc.expiryMs / MILLISECONDS_PER_SECOND;
    ReadsWhatWasWritten(since, SINCE_LENGTH);
    var device, peer := keys.tlcKeyHash(tlc.localKeyNumber), keys.blake160(tlc.remoteKey);
    var flag: Byte := BuildTlcRecord(keys, tlc, forRemote, layout)[0];
    hide WriteLe, ReadLe, Pow256;
    PiecesOf(flag, WriteLe(tlc.amount, AMOUNT_LENGTH), tlc.hash[..HashLength(layout)],
             if forRemote then peer else device, if forRemote then device else peer, WriteLe(since, SINCE_LENGTH));
  }

  /** The pieces of an entry, where they stand. */
  lemma {:induction false} PiecesOf(flag: Byte, amount: Bytes, hash: Bytes, first: Bytes, second: Bytes, since: Bytes)
    requires |amount| == 16 && |first| == |second| == 20 && |since| == 8
    ensures var entry, h := [flag] + amount + hash + (first + second) + since, |hash|;
            && |entry| == 65 + h
            && entry[0] == flag
            && entry[1..17] == amount
            && entry[17..17 + h] == hash
            && entry[17 + h..37 + h] == first
            && entry[37 + h..57 + h] == second
            && entry[57 + h..] == since
  {
  }

  /** And only the built entry does. */
  lemma {:induction false} OneEntrySpells(
    a: Bytes, b: Bytes, keys: Keys, tlc: SettlementTlc, forRemote: bool, layout: Layout)
    requires |tlc.hash| == 32
    requires Spells(a, keys, tlc, forRemote, layout) && Spells(b, keys, tlc, forRemote, layout)
    ensures a == b
  {
    var h := BoundBytes(layout);
    WritesWhatWasRead(a[1..17]);
    WritesWhatWasRead(b[1..17]);
    WritesWhatWasRead(a[57 + h..]);
    WritesWhatWasRead(b[57 + h..]);
    hide ReadLe, WriteLe;
    assert a[0] == 2 * (a[0] / 2) + a[0] % 2 && b[0] == 2 * (b[0] / 2) + b[0] % 2;
    InPieces(a, h);
    InPieces(b, h);
  }

  lemma {:induction false} InPieces(entry: Bytes, h: nat)
    requires |entry| == 65 + h
    ensures entry == [entry[0]] + entry[1..17] + entry[17..17 + h] + entry[17 + h..37 + h] + entry[37 + h..57 + h]
                     + entry[57 + h..]
  {
  }

  // ---- The order

  /** The group that leads in a view: what the peer offered in its own, what the device offered in its own. */
  predicate Leads(tlc: SettlementTlc, forRemote: bool) {
    if forRemote then tlc.direction.Received? else tlc.direction.Offered?
  }

  /** The leading group comes whole before the other, each by rising id. */
  predicate InOrder(tlcs: seq<SettlementTlc>, forRemote: bool) {
    forall i, j :: 0 <= i < j < |tlcs| ==>
      && (Leads(tlcs[j], forRemote) ==> Leads(tlcs[i], forRemote))
      && (tlcs[i].direction == tlcs[j].direction ==> tlcs[i].id <= tlcs[j].id)
  }

  lemma {:induction false} OrderedIsInOrder(tlcs: seq<SettlementTlc>, forRemote: bool)
    ensures InOrder(OrderTlcs(tlcs, forRemote), forRemote)
    ensures multiset(OrderTlcs(tlcs, forRemote)) == multiset(tlcs)
  {
    OrderKeeps(tlcs, forRemote);
    SortedGroup(tlcs, Received);
    SortedGroup(tlcs, Offered);
    hide SortById, OfDirection;
  }

  lemma {:induction false} SortedGroup(tlcs: seq<SettlementTlc>, direction: Direction)
    ensures Ascending(SortById(OfDirection(tlcs, direction)))
    ensures forall tlc :: tlc in SortById(OfDirection(tlcs, direction)) ==> tlc.direction == direction
  {
    SortFacts(OfDirection(tlcs, direction));
    AllOfDirection(tlcs, direction);
    var group, sorted := OfDirection(tlcs, direction), SortById(OfDirection(tlcs, direction));
    forall tlc | tlc in sorted
      ensures tlc.direction == direction
    {
      assert tlc in multiset(sorted);
      assert tlc in group;
    }
  }

  // ---- The body

  /** A body spells a list of TLCs, in its order, and the two balances: the
      peer's first in the peer's view, the device's first in its own. */
  predicate BodySpells(body: Body, keys: Keys, input: WitnessInput, ordered: seq<SettlementTlc>)
    requires forall tlc :: tlc in ordered ==> |tlc.hash| == 32
  {
    var device := Balance(keys.baseKeyHash, input.localAmount);
    var peer := Balance(keys.blake160(input.remoteBaseKey), input.remoteAmount);
    && |body.entries| == |ordered|
    && (forall i :: 0 <= i < |ordered| ==> Spells(body.entries[i], keys, ordered[i], input.forRemote, input.layout))
    && body.first == (if input.forRemote then peer else device)
    && body.second == (if input.forRemote then device else peer)
  }

  /** When a witness is written. */
  predicate Writable(input: WitnessInput) {
    && input.localAmount < 0x1_0000_0000_0000_0000_0000_0000_0000_0000
    && input.remoteAmount < 0x1_0000_0000_0000_0000_0000_0000_0000_0000
    && |input.tlcs| <= 255
    && forall tlc :: tlc in input.tlcs ==>
         && tlc.amount < 0x1_0000_0000_0000_0000_0000_0000_0000_0000
         && |tlc.hash| == 32
         && tlc.expiryMs <= 0xff_ffff_ffff_ffff * 1000
  }

  lemma {:induction false} Amounts()
    ensures Pow256(16) == 0x1_0000_0000_0000_0000_0000_0000_0000_0000
  {
    assert Pow256(4) == 0x1_0000_0000;
    assert Pow256(8) == 256 * 256 * 256 * 256 * Pow256(4) == 0x1_0000_0000_0000_0000;
    assert Pow256(12) == 256 * 256 * 256 * 256 * Pow256(8) == 0x1_0000_0000_0000_0000_0000_0000;
    assert Pow256(16) == 256 * 256 * 256 * 256 * Pow256(12);
  }

  /** A witness is written exactly when its amounts, list and TLCs fit. */
  lemma {:induction false} WrittenExactlyWhenFit(keys: Keys, input: WitnessInput)
    ensures BuildSettlementWitness(keys, input).Accept? <==> Writable(input)
  {
    Amounts();
    hide Pow256, Flatten, OrderTlcs;
    assert (exists tlc :: tlc in input.tlcs && !ValidTlc(tlc))
           <==> !forall tlc :: tlc in input.tlcs ==> ValidTlc(tlc);
  }

  /** And then it spells them out, in order. */
  lemma {:induction false} WitnessIsSpelled(keys: Keys, input: WitnessInput)
    requires ValidKeys(keys) && BuildSettlementWitness(keys, input).Accept?
    ensures var bytes := BuildSettlementWitness(keys, input).value;
            var ordered := OrderTlcs(input.tlcs, input.forRemote);
            && InOrder(ordered, input.forRemote) && multiset(ordered) == multiset(input.tlcs)
            && (forall tlc :: tlc in ordered ==> |tlc.hash| == 32)
            && ReadBody(bytes, input.layout).Accept?
            && BodySpells(ReadBody(bytes, input.layout).value, keys, input, ordered)
  {
    OrderKeeps(input.tlcs, input.forRemote);
    OrderedIsInOrder(input.tlcs, input.forRemote);
    WitnessIsItsBody(keys, input);
    var ordered := OrderTlcs(input.tlcs, input.forRemote);
    assert forall tlc :: tlc in ordered ==> ValidTlc(tlc);
    hide BuildSettlementWitness, ReadBody, OrderTlcs, InOrder;
    BodyIsSpelled(keys, input, ordered);
  }

  lemma {:induction false} BodyIsSpelled(keys: Keys, input: WitnessInput, ordered: seq<SettlementTlc>)
    requires ValidKeys(keys) && ordered == OrderTlcs(input.tlcs, input.forRemote)
    requires forall tlc :: tlc in input.tlcs ==> ValidTlc(tlc)
    requires forall tlc :: tlc in ordered ==> ValidTlc(tlc) && |tlc.hash| == 32
    ensures BodySpells(BodyOf(keys, input), keys, input, ordered)
  {
    hide OrderTlcs, BuildTlcRecord, Spells;
    forall i | 0 <= i < |ordered|
      ensures Spells(BodyOf(keys, input).entries[i], keys, ordered[i], input.forRemote, input.layout)
    {
      EntryIsSpelled(keys, ordered[i], input.forRemote, input.layout);
    }
  }

  /** Two TLCs no witness of one view and layout tells apart. */
  predicate SpellAlike(keys: Keys, a: SettlementTlc, b: SettlementTlc, layout: Layout)
    requires |a.hash| == 32 && |b.hash| == 32
  {
    && a.direction == b.direction && a.algorithm == b.algorithm && a.amount == b.amount
    && a.hash[..BoundBytes(layout)] == b.hash[..BoundBytes(layout)]
    && keys.tlcKeyHash(a.localKeyNumber) == keys.tlcKeyHash(b.localKeyNumber)
    && keys.blake160(a.remoteKey) == keys.blake160(b.remoteKey)
    && a.expiryMs / 1000 == b.expiryMs / 1000
  }

  lemma {:induction false} OneEntryOneTlc(
    entry: Bytes, keys: Keys, a: SettlementTlc, b: SettlementTlc, forRemote: bool, layout: Layout)
    requires |a.hash| == 32 && |b.hash| == 32
    requires Spells(entry, keys, a, forRemote, layout) && Spells(entry, keys, b, forRemote, layout)
    ensures SpellAlike(keys, a, b, layout)
  {
    hide ReadLe;
  }

  /** Equal witnesses are of equal balances and of lists that spell alike, place by place. */
  lemma {:induction false} EqualWitnessesSpellAlike(keys: Keys, a: WitnessInput, b: WitnessInput)
    requires ValidKeys(keys) && a.forRemote == b.forRemote && a.layout == b.layout
    requires BuildSettlementWitness(keys, a).Accept?
    requires BuildSettlementWitness(keys, a) == BuildSettlementWitness(keys, b)
    ensures var first, second := OrderTlcs(a.tlcs, a.forRemote), OrderTlcs(b.tlcs, b.forRemote);
            && |first| == |second|
            && (forall tlc :: tlc in first || tlc in second ==> |tlc.hash| == 32)
            && (forall i :: 0 <= i < |first| ==> SpellAlike(keys, first[i], second[i], a.layout))
    ensures a.localAmount == b.localAmount && a.remoteAmount == b.remoteAmount
    ensures keys.blake160(a.remoteBaseKey) == keys.blake160(b.remoteBaseKey)
  {
    WitnessIsSpelled(keys, a);
    WitnessIsSpelled(keys, b);
    var first, second := OrderTlcs(a.tlcs, a.forRemote), OrderTlcs(b.tlcs, b.forRemote);
    var body := ReadBody(BuildSettlementWitness(keys, a).value, a.layout).value;
    hide BuildSettlementWitness, ReadBody, OrderTlcs, Spells, SpellAlike;
    forall i | 0 <= i < |first|
      ensures SpellAlike(keys, first[i], second[i], a.layout)
    {
      OneEntryOneTlc(body.entries[i], keys, first[i], second[i], a.forRemote, a.layout);
    }
  }
}
