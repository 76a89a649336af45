/** How a commitment's settlement body is built from its TLCs, and that its reader gives them back. */
module SettlementWitness {
  import opened Outcomes
  import opened ByteStrings
  import opened Payments
  import opened Settlement

  /** The device's key hashes, and the hash every key is told by; their derivation is not part of this model. */
  datatype Keys = Keys(baseKeyHash: Bytes, tlcKeyHash: nat -> Bytes, blake160: Bytes -> Bytes)

  ghost predicate ValidKeys(keys: Keys) {
    && |keys.baseKeyHash| == KEY_HASH_LENGTH
    && (forall number: nat :: |keys.tlcKeyHash(number)| == KEY_HASH_LENGTH)
    && (forall bytes: Bytes :: |keys.blake160(bytes)| == KEY_HASH_LENGTH)
  }

  datatype SettlementTlc = SettlementTlc(
    id: nat,
    direction: Direction,
    algorithm: HashAlgorithm,
    hash: Bytes,
    amount: nat,
    expiryMs: nat,
    localKeyNumber: nat,
    remoteKey: Bytes
  )

  datatype WitnessInput = WitnessInput(
    forRemote: bool,
    remoteBaseKey: Bytes,
    localAmount: nat,
    remoteAmount: nat,
    tlcs: seq<SettlementTlc>,
    layout: Layout
  )

  const PAYMENT_HASH_LENGTH: nat := 32
  const SINCE_ABSOLUTE_TIMESTAMP_FLAG: nat := 0x4000_0000_0000_0000
  const MAX_SINCE_PAYLOAD: nat := 0xff_ffff_ffff_ffff

  predicate ValidTlc(tlc: SettlementTlc) {
    && tlc.amount < Pow256(AMOUNT_LENGTH)
    && |tlc.hash| == PAYMENT_HASH_LENGTH
    && tlc.expiryMs <= MAX_SINCE_PAYLOAD * MILLISECONDS_PER_SECOND
  }

  // ---- The order

  function Insert(tlc: SettlementTlc, sorted: seq<SettlementTlc>): seq<SettlementTlc> {
    if sorted == [] || tlc.id <= sorted[0].id then [tlc] + sorted else [sorted[0]] + Insert(tlc, sorted[1..])
  }

  function SortById(tlcs: seq<SettlementTlc>): seq<SettlementTlc> {
    if tlcs == [] then [] else Insert(tlcs[0], SortById(tlcs[1..]))
  }

  function OfDirection(tlcs: seq<SettlementTlc>, direction: Direction): seq<SettlementTlc> {
    if tlcs == [] then [] else
      (if tlcs[0].direction == direction then [tlcs[0]] else []) + OfDirection(tlcs[1..], direction)
  }

  /** Received TLCs lead in the peer's view and trail in the device's; within a direction, ids rise. */
  function OrderTlcs(tlcs: seq<SettlementTlc>, forRemote: bool): seq<SettlementTlc> {
    var first := if forRemote then Received else Offered;
    var second := if forRemote then Offered else Received;
    SortById(OfDirection(tlcs, first)) + SortById(OfDirection(tlcs, second))
  }

  predicate Ascending(tlcs: seq<SettlementTlc>) {
    forall i, j :: 0 <= i < j < |tlcs| ==> tlcs[i].id <= tlcs[j].id
  }

  /** No two TLCs of one direction share an id. */
  predicate DistinctIds(tlcs: seq<SettlementTlc>) {
    forall i, j :: 0 <= i < j < |tlcs| && tlcs[i].direction == tlcs[j].direction ==> tlcs[i].id != tlcs[j].id
  }

  lemma {:induction false} InsertFacts(tlc: SettlementTlc, sorted: seq<SettlementTlc>)
    requires Ascending(sorted)
    ensures multiset(Insert(tlc, sorted)) == multiset(sorted) + multiset{tlc}
    ensures Ascending(Insert(tlc, sorted))
  {
    InsertAdds(tlc, sorted);
    if sorted != [] && tlc.id > sorted[0].id {
      InsertFacts(tlc, sorted[1..]);
      var rest := Insert(tlc, sorted[1..]);
      forall i | 0 <= i < |rest|
        ensures sorted[0].id <= rest[i].id
      {
        InsertedIs(tlc, sorted[1..], rest[i]);
      }
      assert Insert(tlc, sorted) == [sorted[0]] + rest;
    } else {
      assert Insert(tlc, sorted) == [tlc] + sorted;
    }
  }

  lemma {:induction false} InsertAdds(tlc: SettlementTlc, sorted: seq<SettlementTlc>)
    ensures multiset(Insert(tlc, sorted)) == multiset(sorted) + multiset{tlc}
  {
    if sorted != [] && tlc.id > sorted[0].id {
      InsertAdds(tlc, sorted[1..]);
      assert sorted == [sorted[0]] + sorted[1..];
    }
  }

  lemma {:induction false} InsertedIs(tlc: SettlementTlc, sorted: seq<SettlementTlc>, other: SettlementTlc)
    requires other in Insert(tlc, sorted)
    ensures other == tlc || other in sorted
  {
    if sorted != [] && tlc.id > sorted[0].id && other != sorted[0] {
      InsertedIs(tlc, sorted[1..], other);
    }
  }

  lemma {:induction false} SortFacts(tlcs: seq<SettlementTlc>)
    ensures multiset(SortById(tlcs)) == multiset(tlcs)
    ensures Ascending(SortById(tlcs))
  {
    if tlcs != [] {
      SortFacts(tlcs[1..]);
      InsertFacts(tlcs[0], SortById(tlcs[1..]));
      assert tlcs == [tlcs[0]] + tlcs[1..];
    }
  }

  lemma {:induction false} DirectionCount(tlcs: seq<SettlementTlc>, direction: Direction, tlc: SettlementTlc)
    ensures multiset(OfDirection(tlcs, direction))[tlc] == if tlc.direction == direction then multiset(tlcs)[tlc] else 0
  {
    if tlcs != [] {
      DirectionCount(tlcs[1..], direction, tlc);
      assert tlcs == [tlcs[0]] + tlcs[1..];
    }
  }

  /** Within one direction, an id names one TLC. */
  ghost predicate IdNamesOne(tlcs: seq<SettlementTlc>) {
    forall a, b :: a in tlcs && b in tlcs && a.id == b.id ==> a == b
  }

  lemma {:induction false} HeadIsLeast(tlcs: seq<SettlementTlc>, tlc: SettlementTlc)
    requires Ascending(tlcs) && tlc in tlcs
    ensures tlcs[0].id <= tlc.id
  {
  }

  lemma {:induction false} TailCount(tlcs: seq<SettlementTlc>)
    requires tlcs != []
    ensures multiset(tlcs[1..]) == multiset(tlcs) - multiset{tlcs[0]}
    ensures forall tlc :: tlc in tlcs[1..] ==> tlc in tlcs
  {
    assert tlcs == [tlcs[0]] + tlcs[1..];
  }

  /** An ascending list whose ids each name one TLC is the only one of its multiset. */
  lemma {:induction false} OneAscendingForm(a: seq<SettlementTlc>, b: seq<SettlementTlc>)
    requires multiset(a) == multiset(b) && IdNamesOne(a)
    requires Ascending(a) && Ascending(b)
    ensures a == b
  {
    if a == [] {
      assert |multiset(b)| == 0;
    } else {
      assert |multiset(b)| == |multiset(a)| > 0;
      assert a[0] in multiset(b) && b[0] in multiset(a);
      HeadIsLeast(a, b[0]);
      HeadIsLeast(b, a[0]);
      assert a[0] == b[0];
      TailCount(a);
      TailCount(b);
      OneAscendingForm(a[1..], b[1..]);
    }
  }

  lemma {:induction false} AllOfDirection(tlcs: seq<SettlementTlc>, direction: Direction)
    ensures forall tlc :: tlc in OfDirection(tlcs, direction) ==> tlc in tlcs && tlc.direction == direction
  {
    if tlcs != [] {
      AllOfDirection(tlcs[1..], direction);
    }
  }

  lemma {:induction false} GroupsAgree(a: seq<SettlementTlc>, b: seq<SettlementTlc>, direction: Direction)
    requires multiset(a) == multiset(b)
    ensures multiset(OfDirection(a, direction)) == multiset(OfDirection(b, direction))
  {
    forall tlc: SettlementTlc
      ensures multiset(OfDirection(a, direction))[tlc] == multiset(OfDirection(b, direction))[tlc]
    {
      DirectionCount(a, direction, tlc);
      DirectionCount(b, direction, tlc);
    }
  }

  lemma {:induction false} SortedNamesOne(tlcs: seq<SettlementTlc>, direction: Direction)
    requires DistinctIds(tlcs)
    ensures IdNamesOne(SortById(OfDirection(tlcs, direction)))
  {
    hide SortById, OfDirection;
    var group := OfDirection(tlcs, direction);
    SortFacts(group);
    AllOfDirection(tlcs, direction);
    forall x, y | x in SortById(group) && y in SortById(group) && x.id == y.id
      ensures x == y
    {
      assert x in multiset(SortById(group)) && y in multiset(SortById(group));
      IdsDiffer(tlcs, x, y);
    }
  }

  lemma {:induction false} IdsDiffer(tlcs: seq<SettlementTlc>, x: SettlementTlc, y: SettlementTlc)
    requires DistinctIds(tlcs) && x in tlcs && y in tlcs && x.direction == y.direction && x.id == y.id
    ensures x == y
  {
    var i :| 0 <= i < |tlcs| && tlcs[i] == x;
    var j :| 0 <= j < |tlcs| && tlcs[j] == y;
  }

  lemma {:induction false} GroupHasOneForm(a: seq<SettlementTlc>, b: seq<SettlementTlc>, direction: Direction)
    requires multiset(a) == multiset(b) && DistinctIds(a)
    ensures SortById(OfDirection(a, direction)) == SortById(OfDirection(b, direction))
  {
    GroupsAgree(a, b, direction);
    SortFacts(OfDirection(a, direction));
    SortFacts(OfDirection(b, direction));
    SortedNamesOne(a, direction);
    OneAscendingForm(SortById(OfDirection(a, direction)), SortById(OfDirection(b, direction)));
  }

  // ---- The witness

  function BuildTlcRecord(keys: Keys, tlc: SettlementTlc, forRemote: bool, layout: Layout): Bytes
    requires ValidTlc(tlc)
  {
    var offeredBit: nat := if (tlc.direction == Offered) == forRemote then 0 else 1;
    var flag: Byte := 2 * (if tlc.algorithm.CkbHash? then 0 else 1) + offeredBit;
    var localHash := keys.tlcKeyHash(tlc.localKeyNumber);
    var remoteHash := keys.blake160(tlc.remoteKey);
    [flag]
    + WriteLe(tlc.amount, AMOUNT_LENGTH)
    + tlc.hash[..HashLength(layout)]
    + (if forRemote then remoteHash + localHash else localHash + remoteHash)
    + WriteLe(SINCE_ABSOLUTE_TIMESTAMP_FLAG + tlc.expiryMs / MILLISECONDS_PER_SECOND, SINCE_LENGTH)
  }

  function BuildRecords(keys: Keys, tlcs: seq<SettlementTlc>, forRemote: bool, layout: Layout): (records: seq<Bytes>)
    requires forall tlc :: tlc in tlcs ==> ValidTlc(tlc)
    ensures |records| == |tlcs|
    ensures forall i :: 0 <= i < |tlcs| ==> records[i] == BuildTlcRecord(keys, tlcs[i], forRemote, layout)
  {
    seq(|tlcs|, i requires 0 <= i < |tlcs| => BuildTlcRecord(keys, tlcs[i], forRemote, layout))
  }

  /** The writer of bodies, from the TLCs and balances of one commitment. */
  function BuildSettlementWitness(keys: Keys, input: WitnessInput): Outcome<Bytes> {
    if input.localAmount >= Pow256(AMOUNT_LENGTH) || input.remoteAmount >= Pow256(AMOUNT_LENGTH)
       || |input.tlcs| > MAX_SETTLEMENT_TLCS || exists tlc :: tlc in input.tlcs && !ValidTlc(tlc)
    then Refuse(Malformed)
    else
      OrderKeeps(input.tlcs, input.forRemote);
      var records := BuildRecords(keys, OrderTlcs(input.tlcs, input.forRemote), input.forRemote, input.layout);
      var localBlock := keys.baseKeyHash + WriteLe(input.localAmount, AMOUNT_LENGTH);
      var remoteBlock := keys.blake160(input.remoteBaseKey) + WriteLe(input.remoteAmount, AMOUNT_LENGTH);
      Accept([|records|] + Flatten(records)
             + (if input.forRemote then remoteBlock + localBlock else localBlock + remoteBlock))
  }

  lemma {:induction false} DirectionSplit(tlcs: seq<SettlementTlc>, a: Direction, b: Direction)
    requires a != b
    ensures multiset(OfDirection(tlcs, a)) + multiset(OfDirection(tlcs, b)) == multiset(tlcs)
  {
    hide OfDirection;
    forall tlc: SettlementTlc
      ensures (multiset(OfDirection(tlcs, a)) + multiset(OfDirection(tlcs, b)))[tlc] == multiset(tlcs)[tlc]
    {
      DirectionCount(tlcs, a, tlc);
      DirectionCount(tlcs, b, tlc);
    }
  }

  lemma {:induction false} OrderKeeps(tlcs: seq<SettlementTlc>, forRemote: bool)
    ensures multiset(OrderTlcs(tlcs, forRemote)) == multiset(tlcs)
    ensures |OrderTlcs(tlcs, forRemote)| == |tlcs|
    ensures forall tlc :: tlc in OrderTlcs(tlcs, forRemote) ==> tlc in tlcs
  {
    var first := if forRemote then Received else Offered;
    var second := if forRemote then Offered else Received;
    SortFacts(OfDirection(tlcs, first));
    SortFacts(OfDirection(tlcs, second));
    DirectionSplit(tlcs, first, second);
    var ordered := OrderTlcs(tlcs, forRemote);
    assert multiset(ordered) == multiset(tlcs);
    assert |multiset(ordered)| == |multiset(tlcs)|;
    forall tlc | tlc in ordered
      ensures tlc in tlcs
    {
      assert tlc in multiset(ordered);
    }
  }

  lemma {:induction false} RecordSlices(
    flag: Byte, amount: Bytes, hash: Bytes, first: Bytes, second: Bytes, since: Bytes)
    ensures var record := [flag] + amount + hash + (first + second) + since;
            var offset := 1 + |amount| + |hash|;
            && |record| == offset + |first| + |second| + |since|
            && record[0] == flag
            && record[1..1 + |amount|] == amount
            && record[offset..offset + |first|] == first
            && record[offset + |first|..offset + |first| + |second|] == second
  {
  }

  /** What a built record reads back as, at each view and under each layout. */
  lemma {:induction false} RecordReadsBack(keys: Keys, tlc: SettlementTlc, forRemote: bool, layout: Layout)
    requires ValidKeys(keys) && ValidTlc(tlc)
    ensures |BuildTlcRecord(keys, tlc, forRemote, layout)| == EntryLength(layout)
    ensures ReadEntry(BuildTlcRecord(keys, tlc, forRemote, layout), layout, forRemote)
            == Accept(EntryView(tlc.direction, tlc.amount, keys.tlcKeyHash(tlc.localKeyNumber)))
  {
    hide WriteLe, ReadLe, Pow256;
    var record := BuildTlcRecord(keys, tlc, forRemote, layout);
    var local, remote := keys.tlcKeyHash(tlc.localKeyNumber), keys.blake160(tlc.remoteKey);
    RecordSlices(record[0], WriteLe(tlc.amount, AMOUNT_LENGTH), tlc.hash[..HashLength(layout)],
                 if forRemote then remote else local, if forRemote then local else remote,
                 WriteLe(SINCE_ABSOLUTE_TIMESTAMP_FLAG + tlc.expiryMs / MILLISECONDS_PER_SECOND, SINCE_LENGTH));
    ReadsWhatWasWritten(tlc.amount, AMOUNT_LENGTH);
  }

  /** The body a witness spells out: its records in order, and the two balances as the view places them. */
  function BodyOf(keys: Keys, input: WitnessInput): Body
    requires forall tlc :: tlc in input.tlcs ==> ValidTlc(tlc)
  {
    OrderKeeps(input.tlcs, input.forRemote);
    var records := BuildRecords(keys, OrderTlcs(input.tlcs, input.forRemote), input.forRemote, input.layout);
    var device := Balance(keys.baseKeyHash, input.localAmount);
    var peer := Balance(keys.blake160(input.remoteBaseKey), input.remoteAmount);
    if input.forRemote then Body(records, peer, device) else Body(records, device, peer)
  }

  lemma {:induction false} WitnessIsItsBody(keys: Keys, input: WitnessInput)
    requires ValidKeys(keys)
    requires BuildSettlementWitness(keys, input).Accept?
    ensures BodyOf(keys, input).Valid(input.layout)
    ensures ReadBody(BuildSettlementWitness(keys, input).value, input.layout) == Accept(BodyOf(keys, input))
  {
    OrderKeeps(input.tlcs, input.forRemote);
    var ordered := OrderTlcs(input.tlcs, input.forRemote);
    var body := BodyOf(keys, input);
    forall i | 0 <= i < |ordered|
      ensures |body.entries[i]| == EntryLength(input.layout)
    {
      RecordReadsBack(keys, ordered[i], input.forRemote, input.layout);
    }
    assert WriteBody(body) == BuildSettlementWitness(keys, input).value;
    ReadsWrittenBody(body, input.layout);
  }

  lemma {:induction false} EntriesReadBack(keys: Keys, input: WitnessInput)
    requires ValidKeys(keys)
    requires forall tlc :: tlc in input.tlcs ==> ValidTlc(tlc)
    ensures var ordered := OrderTlcs(input.tlcs, input.forRemote);
            && |BodyOf(keys, input).entries| == |ordered|
            && forall i :: 0 <= i < |ordered| ==>
                 ReadEntry(BodyOf(keys, input).entries[i], input.layout, input.forRemote)
                 == Accept(EntryView(ordered[i].direction, ordered[i].amount,
                   keys.tlcKeyHash(ordered[i].localKeyNumber)))
  {
    OrderKeeps(input.tlcs, input.forRemote);
    var ordered := OrderTlcs(input.tlcs, input.forRemote);
    forall i | 0 <= i < |ordered|
      ensures ReadEntry(BodyOf(keys, input).entries[i], input.layout, input.forRemote)
              == Accept(EntryView(ordered[i].direction, ordered[i].amount, keys.tlcKeyHash(ordered[i].localKeyNumber)))
    {
      RecordReadsBack(keys, ordered[i], input.forRemote, input.layout);
    }
  }

  /** A built witness reads back as the TLCs it was built from, in order, and the device's balance at its index. */
  lemma {:induction false} WitnessReadsBack(keys: Keys, input: WitnessInput)
    requires ValidKeys(keys)
    requires BuildSettlementWitness(keys, input).Accept?
    ensures var bytes := BuildSettlementWitness(keys, input).value;
            var ordered := OrderTlcs(input.tlcs, input.forRemote);
            var read := ReadBody(bytes, input.layout);
            && multiset(ordered) == multiset(input.tlcs)
            && read.Accept?
            && read.value.Valid(input.layout)
            && WriteBody(read.value) == bytes
            && |read.value.entries| == |ordered|
            && (forall i :: 0 <= i < |ordered| ==>
                  ReadEntry(read.value.entries[i], input.layout, input.forRemote)
                  == Accept(EntryView(ordered[i].direction, ordered[i].amount,
                    keys.tlcKeyHash(ordered[i].localKeyNumber))))
            && read.value.At(DeviceIndex(input.forRemote)) == Balance(keys.baseKeyHash, input.localAmount)
            && read.value.At(1 - DeviceIndex(input.forRemote))
              == Balance(keys.blake160(input.remoteBaseKey), input.remoteAmount)
  {
    OrderKeeps(input.tlcs, input.forRemote);
    WitnessIsItsBody(keys, input);
    WritesReadBody(BuildSettlementWitness(keys, input).value, input.layout);
    EntriesReadBack(keys, input);
  }

  /** The witness is the multiset's: the order the node lists TLCs in
      does not reach it when ids are distinct per direction. */
  lemma {:induction false} WitnessIgnoresListOrder(keys: Keys, input: WitnessInput, shuffled: seq<SettlementTlc>)
    requires multiset(shuffled) == multiset(input.tlcs)
    requires DistinctIds(input.tlcs)
    ensures BuildSettlementWitness(keys, input.(tlcs := shuffled)) == BuildSettlementWitness(keys, input)
  {
    GroupHasOneForm(input.tlcs, shuffled, Offered);
    GroupHasOneForm(input.tlcs, shuffled, Received);
    assert |multiset(shuffled)| == |multiset(input.tlcs)|;
    assert forall tlc :: tlc in shuffled <==> tlc in multiset(shuffled);
    assert forall tlc :: tlc in input.tlcs <==> tlc in multiset(input.tlcs);
  }
}
