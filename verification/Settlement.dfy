/** A settlement body's byte layout: its reader, its writer, and the unlock a spend carries beside it. */
module Settlement {
  import opened Outcomes
  import opened ByteStrings
  import opened Payments

  datatype Layout = Legacy | FullPaymentHash

  const KEY_HASH_LENGTH: nat := 20
  const AMOUNT_LENGTH: nat := 16
  const SINCE_LENGTH: nat := 8
  const BALANCE_LENGTH: nat := 36
  const MAX_SETTLEMENT_TLCS: nat := 255
  const MAX_TLC_FLAG: nat := 3

  function HashLength(layout: Layout): nat {
    if layout.Legacy? then 20 else 32
  }

  /** 85 bytes under the legacy layout, 97 under the full-hash one. */
  function EntryLength(layout: Layout): nat {
    1 + AMOUNT_LENGTH + HashLength(layout) + 2 * KEY_HASH_LENGTH + SINCE_LENGTH
  }

  datatype Balance = Balance(keyHash: Bytes, amount: nat)

  const SETTLED: Balance := Balance(ZeroBytes(KEY_HASH_LENGTH), 0)

  datatype Body = Body(entries: seq<Bytes>, first: Balance, second: Balance) {
    function At(index: nat): Balance
      requires index < 2
    {
      if index == 0 then first else second
    }

    function WithSettled(index: nat): Body
      requires index < 2
    {
      if index == 0 then this.(first := SETTLED) else this.(second := SETTLED)
    }

    function WithoutEntry(index: nat): Body
      requires index < |entries|
    {
      this.(entries := entries[..index] + entries[index + 1..])
    }

    predicate Valid(layout: Layout) {
      && |entries| <= MAX_SETTLEMENT_TLCS
      && (forall entry :: entry in entries ==> |entry| == EntryLength(layout))
      && ValidBalance(first) && ValidBalance(second)
    }
  }

  predicate ValidBalance(balance: Balance) {
    |balance.keyHash| == KEY_HASH_LENGTH && balance.amount < Pow256(AMOUNT_LENGTH)
  }

  // ---- Writing and reading a body

  function Flatten(entries: seq<Bytes>): Bytes {
    if entries == [] then [] else entries[0] + Flatten(entries[1..])
  }

  function WriteBalance(balance: Balance): Bytes {
    balance.keyHash + WriteLe(balance.amount, AMOUNT_LENGTH)
  }

  function WriteBody(body: Body): Bytes
    requires |body.entries| <= MAX_SETTLEMENT_TLCS
  {
    [|body.entries|] + Flatten(body.entries) + (WriteBalance(body.first) + WriteBalance(body.second))
  }

  /** Cuts a run of bytes into `count` consecutive entries. */
  function Cut(bytes: Bytes, count: nat, length: nat): seq<Bytes>
    requires |bytes| == count * length
  {
    if count == 0 then [] else
      assert count * length == length + (count - 1) * length;
      [bytes[..length]] + Cut(bytes[length..], count - 1, length)
  }

  function ReadBalance(bytes: Bytes): Balance
    requires |bytes| == BALANCE_LENGTH
  {
    Balance(bytes[..KEY_HASH_LENGTH], ReadLe(bytes[KEY_HASH_LENGTH..]))
  }

  function BodyLength(count: nat, layout: Layout): nat {
    1 + count * EntryLength(layout) + 2 * BALANCE_LENGTH
  }

  /** A body's parts, or a refusal when its length is not the one its first byte calls for. */
  function ReadBody(body: Bytes, layout: Layout): Outcome<Body> {
    if body == [] || |body| != BodyLength(body[0], layout) then Refuse(Malformed) else
      var end := 1 + body[0] * EntryLength(layout);
      Accept(Body(Cut(body[1..end], body[0], EntryLength(layout)),
                  ReadBalance(body[end..end + BALANCE_LENGTH]),
                  ReadBalance(body[end + BALANCE_LENGTH..])))
  }

  lemma {:induction false} OneMoreEntry(n: nat, length: nat)
    requires n > 0
    ensures n * length == length + (n - 1) * length
  {
  }

  lemma {:induction false} FlattenLength(entries: seq<Bytes>, length: nat)
    requires forall entry :: entry in entries ==> |entry| == length
    ensures |Flatten(entries)| == |entries| * length
  {
    if entries != [] {
      FlattenLength(entries[1..], length);
      OneMoreEntry(|entries|, length);
    }
  }

  lemma {:induction false} CutsWhatWasFlattened(entries: seq<Bytes>, length: nat)
    requires forall entry :: entry in entries ==> |entry| == length
    ensures |Flatten(entries)| == |entries| * length
    ensures Cut(Flatten(entries), |entries|, length) == entries
  {
    FlattenLength(entries, length);
    if entries != [] {
      CutsWhatWasFlattened(entries[1..], length);
      assert Flatten(entries)[..length] == entries[0];
      assert Flatten(entries)[length..] == Flatten(entries[1..]);
    }
  }

  lemma {:induction false} FlattensWhatWasCut(bytes: Bytes, count: nat, length: nat)
    requires |bytes| == count * length
    ensures |Cut(bytes, count, length)| == count
    ensures forall entry :: entry in Cut(bytes, count, length) ==> |entry| == length
    ensures Flatten(Cut(bytes, count, length)) == bytes
  {
    if count > 0 {
      assert count * length == length + (count - 1) * length;
      FlattensWhatWasCut(bytes[length..], count - 1, length);
      assert Cut(bytes, count, length)[1..] == Cut(bytes[length..], count - 1, length);
    }
  }

  lemma {:induction false} BalanceRoundTrip(balance: Balance)
    requires ValidBalance(balance)
    ensures |WriteBalance(balance)| == BALANCE_LENGTH
    ensures ReadBalance(WriteBalance(balance)) == balance
  {
    ReadsWhatWasWritten(balance.amount, AMOUNT_LENGTH);
    assert WriteBalance(balance)[KEY_HASH_LENGTH..] == WriteLe(balance.amount, AMOUNT_LENGTH);
  }

  lemma {:induction false} BalanceWrittenBack(bytes: Bytes)
    requires |bytes| == BALANCE_LENGTH
    ensures ValidBalance(ReadBalance(bytes))
    ensures WriteBalance(ReadBalance(bytes)) == bytes
  {
    WritesWhatWasRead(bytes[KEY_HASH_LENGTH..]);
  }

  lemma {:induction false} Slices(head: Byte, a: Bytes, b: Bytes, c: Bytes)
    ensures var bytes := [head] + a + (b + c);
            && |bytes| == 1 + |a| + |b| + |c|
            && bytes[0] == head
            && bytes[1..1 + |a|] == a
            && bytes[1 + |a|..1 + |a| + |b|] == b
            && bytes[1 + |a| + |b|..] == c
  {
  }

  lemma {:induction false} Joins(bytes: Bytes, a: nat, b: nat)
    requires 1 <= a <= b <= |bytes|
    ensures bytes == [bytes[0]] + bytes[1..a] + (bytes[a..b] + bytes[b..])
  {
  }

  /** The reader gives back every body the writer wrote. */
  lemma {:induction false} ReadsWrittenBody(body: Body, layout: Layout)
    requires body.Valid(layout)
    ensures ReadBody(WriteBody(body), layout) == Accept(body)
  {
    hide Flatten, Cut, ReadBalance, WriteBalance, ValidBalance;
    CutsWhatWasFlattened(body.entries, EntryLength(layout));
    BalanceRoundTrip(body.first);
    BalanceRoundTrip(body.second);
    Slices(|body.entries|, Flatten(body.entries), WriteBalance(body.first), WriteBalance(body.second));
  }

  /** Every body the reader accepts is the bytes the writer writes for it: one body, one form. */
  lemma {:induction false} WritesReadBody(bytes: Bytes, layout: Layout)
    requires ReadBody(bytes, layout).Accept?
    ensures ReadBody(bytes, layout).value.Valid(layout)
    ensures WriteBody(ReadBody(bytes, layout).value) == bytes
  {
    hide Flatten, Cut, ReadBalance, WriteBalance, ValidBalance;
    var end := 1 + bytes[0] * EntryLength(layout);
    FlattensWhatWasCut(bytes[1..end], bytes[0], EntryLength(layout));
    BalanceWrittenBack(bytes[end..end + BALANCE_LENGTH]);
    BalanceWrittenBack(bytes[end + BALANCE_LENGTH..]);
    Joins(bytes, end, end + BALANCE_LENGTH);
  }

  // ---- Reading a TLC entry

  datatype EntryView = EntryView(direction: Direction, amount: nat, localKeyHash: Bytes)

  /** Index of the device's half of a pair: the second in the peer's view, the first in its own. */
  function DeviceIndex(forRemote: bool): nat {
    if forRemote then 1 else 0
  }

  function AmountOf(entry: Bytes): nat
    requires |entry| >= 1 + AMOUNT_LENGTH
  {
    ReadLe(entry[1..1 + AMOUNT_LENGTH])
  }

  /** Direction, amount and own key hash of an entry, given whose view it is in. */
  function ReadEntry(entry: Bytes, layout: Layout, forRemote: bool): Outcome<EntryView> {
    if |entry| != EntryLength(layout) || entry[0] > MAX_TLC_FLAG then Refuse(HostError) else
      var keyHash := 1 + AMOUNT_LENGTH + HashLength(layout) + DeviceIndex(forRemote) * KEY_HASH_LENGTH;
      Accept(EntryView(
        if (entry[0] % 2 == 0) == forRemote then Offered else Received,
        AmountOf(entry),
        entry[keyHash..keyHash + KEY_HASH_LENGTH]))
  }

  // ---- Reading an unlock

  datatype Target = TlcTarget(index: nat) | BalanceTarget(index: nat)

  datatype Unlock = Unlock(body: Bytes, parts: Body, target: Target, signature: Bytes, preimage: Option<Bytes>)

  const XUDT_COMPATIBLE_WITNESS: Bytes := [16, 0, 0, 0, 16, 0, 0, 0, 16, 0, 0, 0, 16, 0, 0, 0]
  const BODY_OFFSET: nat := 17
  const SIGNATURE_LENGTH: nat := 65
  const UNLOCK_LENGTH: nat := 67
  const PREIMAGE_LENGTH: nat := 32

  /** An unlock's first byte names a balance by its two highest values, and by any other the entry at that index. */
  function ReadTarget(kind: Byte, count: nat): Outcome<Target> {
    if kind == 0xfe then Accept(BalanceTarget(0))
    else if kind == 0xff then Accept(BalanceTarget(1))
    else if kind < count then Accept(TlcTarget(kind))
    else Refuse(Malformed)
  }

  /** What follows a body: the target, whether a preimage comes with it, the signature and the preimage. */
  function ReadTail(unlock: Bytes, body: Bytes, parts: Body): Outcome<Unlock> {
    if |unlock| != UNLOCK_LENGTH && |unlock| != UNLOCK_LENGTH + PREIMAGE_LENGTH then Refuse(Malformed) else
      var target :- ReadTarget(unlock[0], |parts.entries|);
      if unlock[1] > 1 || |unlock| != UNLOCK_LENGTH + (if unlock[1] == 1 then PREIMAGE_LENGTH else 0)
      then Refuse(Malformed)
      else if unlock[1] == 1 && target.BalanceTarget? then Refuse(Malformed)
      else Accept(Unlock(body, parts, target, unlock[2..UNLOCK_LENGTH],
                         if unlock[1] == 1 then Some(unlock[UNLOCK_LENGTH..]) else None))
  }

  /** A spend's witness in parts, or a refusal at the first byte out of place. */
  function ReadUnlock(bytes: Bytes, layout: Layout): Outcome<Unlock> {
    if |bytes| < BODY_OFFSET || bytes[..16] != XUDT_COMPATIBLE_WITNESS || bytes[16] != 1 then Refuse(Malformed) else
      var count: nat := if |bytes| > BODY_OFFSET then bytes[BODY_OFFSET] else 0;
      var end := BODY_OFFSET + BodyLength(count, layout);
      // A slice past the end of the witness stops at its end.
      if |bytes| < end then Refuse(Malformed) else
        var parts :- ReadBody(bytes[BODY_OFFSET..end], layout);
        ReadTail(bytes[end..], bytes[BODY_OFFSET..end], parts)
  }

  /** An unlock the reader accepts targets an entry of its body or one
      of its two balances, and its body is well formed. */
  lemma {:induction false} UnlockIsWellFormed(bytes: Bytes, layout: Layout)
    requires ReadUnlock(bytes, layout).Accept?
    ensures var unlock := ReadUnlock(bytes, layout).value;
            && ReadBody(unlock.body, layout) == Accept(unlock.parts)
            && unlock.parts.Valid(layout)
            && WriteBody(unlock.parts) == unlock.body
            && (unlock.target.TlcTarget? ==> unlock.target.index < |unlock.parts.entries|)
            && (unlock.target.BalanceTarget? ==> unlock.target.index < 2 && unlock.preimage.None?)
            && |unlock.signature| == SIGNATURE_LENGTH
  {
    hide ReadBody, WriteBody;
    WritesReadBody(ReadUnlock(bytes, layout).value.body, layout);
  }

  // ---- The remainder's body

  function NextBody(parts: Body, target: Target): Body
    requires target.TlcTarget? ==> target.index < |parts.entries|
    requires target.BalanceTarget? ==> target.index < 2
  {
    if target.TlcTarget? then parts.WithoutEntry(target.index) else parts.WithSettled(target.index)
  }

  /** The bytes of `NextBody`, refused for an entry that is not there and for the peer's balance. */
  function NextWitness(unlock: Unlock, forRemote: bool): Outcome<Bytes>
    requires |unlock.parts.entries| <= MAX_SETTLEMENT_TLCS
  {
    if unlock.target.TlcTarget? then
      if unlock.target.index >= |unlock.parts.entries| then Refuse(HostError)
      else Accept(WriteBody(unlock.parts.WithoutEntry(unlock.target.index)))
    else if unlock.target.index != DeviceIndex(forRemote) then Refuse(HostError)
    else Accept(WriteBody(unlock.parts.WithSettled(DeviceIndex(forRemote))))
  }

  /** Reading the next body back gives the body it was written for. */
  lemma {:induction false} NextWitnessReadsBack(unlock: Unlock, layout: Layout, forRemote: bool)
    requires unlock.parts.Valid(layout)
    requires NextWitness(unlock, forRemote).Accept?
    ensures unlock.target.TlcTarget? ==> unlock.target.index < |unlock.parts.entries|
    ensures ReadBody(NextWitness(unlock, forRemote).value, layout) == Accept(NextBody(unlock.parts, unlock.target))
  {
    var next := NextBody(unlock.parts, unlock.target);
    assert next.Valid(layout) by {
      assert 0 < Pow256(AMOUNT_LENGTH);
    }
    ReadsWrittenBody(next, layout);
  }
}
