/** An invoice as one string: what the reader accepts is exactly what the writer writes. */
module InvoiceText {
  import opened Outcomes
  import opened Powers
  import opened BitStrings
  import opened Scaling
  import opened Coding
  import opened Coder
  import opened Groups
  import opened Bech32m

  const SIGNED_FLAG: nat := 1
  const SIGNATURE_LENGTH: nat := 65
  const SIGNATURE_GROUPS: nat := 104
  const MAX_AMOUNT_DIGITS: nat := 39
  const MAX_AMOUNT: nat := 0xffff_ffff_ffff_ffff_ffff_ffff_ffff_ffff

  // ---- Currency and amount

  datatype Currency = Fibb | Fibt | Fibd

  datatype Head = Head(currency: Currency, amount: Option<Text>)

  /** "fibb", "fibt" or "fibd". */
  function PrefixOf(currency: Currency): (prefix: Text)
    ensures |prefix| == 4
  {
    [102, 105, 98] + [match currency case Fibb => 98 case Fibt => 116 case Fibd => 100]
  }

  predicate IsDigit(character: nat) {
    48 <= character <= 57
  }

  function ValueOfDigits(text: Text): int {
    if text == [] then 0 else 10 * ValueOfDigits(text[..|text| - 1]) + text[|text| - 1] - 48
  }

  /** The one decimal form of an unsigned 128-bit amount. */
  predicate IsDecimal(text: Text) {
    && 0 < |text| <= MAX_AMOUNT_DIGITS
    && (forall i :: 0 <= i < |text| ==> IsDigit(text[i]))
    && (text[0] == 48 ==> |text| == 1)
    && ValueOfDigits(text) <= MAX_AMOUNT
  }

  function HrpOf(head: Head): Outcome<Text> {
    if head.amount.Some? && !IsDecimal(head.amount.value) then Refuse(HostError)
    else Accept(PrefixOf(head.currency) + if head.amount.Some? then head.amount.value else [])
  }

  function CurrencyOf(hrp: Text): Option<Currency> {
    if PrefixOf(Fibb) <= hrp then Some(Fibb)
    else if PrefixOf(Fibt) <= hrp then Some(Fibt)
    else if PrefixOf(Fibd) <= hrp then Some(Fibd)
    else None
  }

  function ParseHrp(hrp: Text): Outcome<Head> {
    var currency := CurrencyOf(hrp);
    if currency.None? then Refuse(Malformed) else
      var amount := hrp[4..];
      if amount != [] && !IsDecimal(amount) then Refuse(Malformed)
      else Accept(Head(currency.value, if amount == [] then None else Some(amount)))
  }

  /** What is parsed is written back as it stood. */
  lemma {:induction false} ParsedIsWritten(hrp: Text)
    requires ParseHrp(hrp).Accept?
    ensures HrpOf(ParseHrp(hrp).value) == Accept(hrp)
  {
    hide IsDecimal;
    var currency := CurrencyOf(hrp).value;
    assert hrp == PrefixOf(currency) + hrp[4..];
  }

  /** And what is written parses to what it was written for. */
  lemma {:induction false} WrittenIsParsed(head: Head)
    requires HrpOf(head).Accept?
    ensures var hrp := HrpOf(head).value;
            ParseHrp(hrp) == Accept(head) && hrp != [] && !HasUpper(hrp)
  {
    var hrp := HrpOf(head).value;
    var amount := if head.amount.Some? then head.amount.value else [];
    PrefixesDiffer(head.currency, hrp, amount);
    assert hrp[4..] == amount;
    assert forall i :: 0 <= i < |hrp| ==> hrp[i] == if i < 4 then PrefixOf(head.currency)[i] else amount[i - 4];
  }

  lemma {:induction false} PrefixesDiffer(currency: Currency, hrp: Text, amount: Text)
    requires hrp == PrefixOf(currency) + amount
    ensures CurrencyOf(hrp) == Some(currency)
  {
    assert hrp[3] == PrefixOf(currency)[3];
    assert forall other :: PrefixOf(other) <= hrp ==> PrefixOf(other)[3] == hrp[3];
    assert PrefixOf(currency) <= hrp;
  }

  // ---- The invoice

  /** The layer that turns an invoice's data into bytes and back. */
  datatype Molecule<!Data> = Molecule(write: Data -> seq<nat>, read: seq<nat> -> Outcome<Data>)

  /** What it reads, it writes back the same. */
  ghost predicate WritesBack<Data(!new)>(molecule: Molecule<Data>) {
    forall bytes :: molecule.read(bytes).Accept? ==> molecule.write(molecule.read(bytes).value) == bytes
  }

  datatype SignedInvoice<Data> = SignedInvoice(head: Head, data: Data, signature: seq<nat>)

  /** The signature check, given everything it may look at. */
  type Verify<!Data> = (seq<nat>, Text, seq<nat>, Data) -> bool

  lemma {:induction false} EightBits()
    ensures Pow2(8) == 256 && Pow2(5) == 32
  {
    assert Pow2(5) == 32;
  }

  lemma {:induction false} PackedFits(bits: BitString)
    ensures Fit(Packed(bits), 8)
  {
    SpreadGather(Padded(bits), ByteCount(|bits|), 8);
  }

  lemma {:induction false} GroupsAreGroups(bytes: seq<nat>)
    ensures Fit(ToGroups(bytes), 5) && AreGroups(ToGroups(bytes))
  {
    var bits := Spread(bytes, 8);
    SpreadGather(PaddedGroups(bits), GroupCount(|bits|), 5);
    EightBits();
  }

  function AllGroups(compressed: seq<nat>, signature: seq<nat>): (groups: seq<nat>)
    ensures AreGroups(groups)
  {
    GroupsAreGroups(compressed);
    GroupsAreGroups(signature);
    [SIGNED_FLAG] + ToGroups(compressed) + ToGroups(signature)
  }

  /** Writes an invoice; data longer than any count could overflow by is outside the model. */
  ghost function EncodeInvoice<Data>(
    share: Share, molecule: Molecule<Data>, invoice: SignedInvoice<Data>): Outcome<Text>
    requires Shares(share) && Countable(molecule.write(invoice.data))
  {
    var hrp :- HrpOf(invoice.head);
    if |invoice.signature| != SIGNATURE_LENGTH || !Fit(invoice.signature, 8) then Refuse(HostError)
    else Accept(Encode(hrp, AllGroups(Packed(CodedData(share, molecule.write(invoice.data))), invoice.signature)))
  }

  /** What is decompressed is bytes, and few enough to compress again. */
  lemma {:induction false} DecodedAreBytes(
    share: Share, counts: Counts, r: Range, value: int, bits: BitString, position: nat, left: nat)
    requires Shares(share) && IsModel(counts, left + 1) && Settled(r) && Holds(r, value)
    requires Decoded(share, counts, r, value, bits, position, left).Accept?
    ensures var data := Decoded(share, counts, r, value, bits, position, left).value;
            AreBytes(data) && |data| <= left
    decreases left, 2, 0
  {
    hide Shares;
    DecodedUnfolds(share, counts, r, value, bits, position, left);
    var symbol := Find(share, counts, r, value, 0);
    if symbol != END_OF_DATA {
      RescaledAreBytes(share, Counted(counts, symbol), SubRange(share, counts, r, symbol), value, bits, position, left,
        symbol);
    }
  }

  lemma {:induction false} RescaledAreBytes(
    share: Share, counts: Counts, r: Range, value: int, bits: BitString, position: nat, left: nat, symbol: nat)
    requires Shares(share) && IsModel(counts, left) && InFull(r) && Holds(r, value) && symbol < END_OF_DATA
    requires Rescaled(share, counts, r, value, bits, position, left, symbol).Accept?
    ensures var data := Rescaled(share, counts, r, value, bits, position, left, symbol).value;
            AreBytes(data) && |data| <= left
    decreases left, 1, FULL - (r.high - r.low)
  {
    hide Shares;
    if InHalf(r) || InMiddle(r) {
      var offset := if InHalf(r) then HalfOffset(r) else QUARTER;
      RescaledAreBytes(share, counts, Doubled(r, offset), (value - offset) * 2 + Weight(At(bits, position)),
                       bits, position + 1, left, symbol);
    } else {
      DecodedAreBytes(share, counts, r, value, bits, position, left - 1);
    }
  }

  lemma {:induction false} DecodedIsCountable(share: Share, bits: BitString)
    requires Shares(share) && DecodedData(share, bits).Accept?
    ensures Countable(DecodedData(share, bits).value)
  {
    FirstIsModel(MAX_INVOICE_DATA_LENGTH + 1);
    WindowFits(bits);
    hide Decoded;
    DecodedAreBytes(share, FirstCounts(), FULL_RANGE, NumberOf(Window(bits, PRECISION)), bits, PRECISION,
      MAX_INVOICE_DATA_LENGTH);
  }

  /** Decompresses and holds the stream to the one the coder writes. */
  ghost function ReadData(share: Share, compressed: seq<nat>): Outcome<seq<nat>>
    requires Shares(share)
  {
    var data :- DecodedData(share, Spread(compressed, 8));
    DecodedIsCountable(share, Spread(compressed, 8));
    if Packed(CodedData(share, data)) != compressed then Refuse(Malformed) else Accept(data)
  }

  ghost function DecodeInvoice<Data>(
    share: Share, molecule: Molecule<Data>, verify: Verify<Data>, text: Text): Outcome<SignedInvoice<Data>>
    requires Shares(share)
  {
    var parts :- Decode(text);
    var head :- ParseHrp(parts.hrp);
    var groups := parts.groups;
    if |groups| == 0 || groups[0] != SIGNED_FLAG then Refuse(Malformed)
    else if |groups| <= 1 + SIGNATURE_GROUPS then Refuse(Malformed)
    else
      var cut := |groups| - SIGNATURE_GROUPS;
      var compressed :- FromGroups(groups[1..cut]);
      var signature :- FromGroups(groups[cut..]);
      var bytes :- ReadData(share, compressed);
      var data :- molecule.read(bytes);
      if !verify(signature, parts.hrp, compressed, data) then Refuse(Malformed)
      else Accept(SignedInvoice(head, data, signature))
  }

  // ---- One invoice, one string

  lemma {:induction false} SlicesFit(groups: seq<nat>, cut: nat)
    requires AreGroups(groups) && 1 <= cut <= |groups|
    ensures Fit(groups[1..cut], 5) && Fit(groups[cut..], 5)
  {
    EightBits();
  }

  lemma {:induction false} SignatureLength(groups: seq<nat>)
    requires |groups| == SIGNATURE_GROUPS && FromGroups(groups).Accept?
    ensures |FromGroups(groups).value| == SIGNATURE_LENGTH
  {
    SpanIsProduct(SIGNATURE_GROUPS, 5);
  }

  lemma {:induction false} Regathered(groups: seq<nat>, cut: nat)
    requires AreGroups(groups) && 1 <= cut <= |groups| && groups[0] == SIGNED_FLAG
    requires FromGroups(groups[1..cut]).Accept? && FromGroups(groups[cut..]).Accept?
    ensures AllGroups(FromGroups(groups[1..cut]).value, FromGroups(groups[cut..]).value) == groups
    ensures Fit(FromGroups(groups[cut..]).value, 8)
  {
    hide FromGroups, ToGroups, Fit;
    SlicesFit(groups, cut);
    GroupsComeBack(groups[1..cut]);
    GroupsComeBack(groups[cut..]);
    assert groups == [groups[0]] + groups[1..cut] + groups[cut..];
  }

  /** Every string the reader accepts is exactly what the writer writes for the invoice it reads. */
  lemma {:induction false} DecodedIsEncoded<Data(
    !new)>(share: Share, molecule: Molecule<Data>, verify: Verify<Data>, text: Text)
    requires Shares(share) && WritesBack(molecule)
    requires DecodeInvoice(share, molecule, verify, text).Accept?
    ensures var invoice := DecodeInvoice(share, molecule, verify, text).value;
            && Countable(molecule.write(invoice.data))
            && EncodeInvoice(share, molecule, invoice) == Accept(text)
  {
    hide Decode, ParseHrp, FromGroups, DecodedData, CodedData, Shares, Fit, Packed, Encode, HrpOf;
    EncodesWhatWasDecoded(text);
    var parts := Decode(text).value;
    var groups, cut := parts.groups, |parts.groups| - SIGNATURE_GROUPS;
    ParsedIsWritten(parts.hrp);
    Regathered(groups, cut);
    SignatureLength(groups[cut..]);
    var compressed := FromGroups(groups[1..cut]).value;
    DecodedIsCountable(share, Spread(compressed, 8));
    var bytes := ReadData(share, compressed).value;
    assert molecule.write(molecule.read(bytes).value) == bytes;
  }

  /** So no two strings read as the same invoice. */
  lemma {:induction false} DecodingIsInjective<Data(!new)>(
    share: Share, molecule: Molecule<Data>, verify: Verify<Data>, a: Text, b: Text)
    requires Shares(share) && WritesBack(molecule)
    requires DecodeInvoice(share, molecule, verify, a).Accept?
    requires DecodeInvoice(share, molecule, verify, b) == DecodeInvoice(share, molecule, verify, a)
    ensures a == b
  {
    DecodedIsEncoded(share, molecule, verify, a);
    DecodedIsEncoded(share, molecule, verify, b);
    hide DecodeInvoice, EncodeInvoice;
  }

  /** And what the writer writes is read back, once its data reads back, is short enough and its signature verifies. */
  lemma {:induction false} EncodedIsDecoded<Data>(
    share: Share, molecule: Molecule<Data>, verify: Verify<Data>, invoice: SignedInvoice<Data>)
    requires Shares(share) && Countable(molecule.write(invoice.data))
    requires |molecule.write(invoice.data)| <= MAX_INVOICE_DATA_LENGTH
    requires molecule.read(molecule.write(invoice.data)) == Accept(invoice.data)
    requires EncodeInvoice(share, molecule, invoice).Accept?
    requires verify(invoice.signature, HrpOf(invoice.head).value,
             Packed(CodedData(share, molecule.write(invoice.data))), invoice.data)
    ensures DecodeInvoice(share, molecule, verify, EncodeInvoice(share, molecule, invoice).value) == Accept(invoice)
  {
    var bytes, hrp := molecule.write(invoice.data), HrpOf(invoice.head).value;
    var compressed := Packed(CodedData(share, bytes));
    WrittenIsParsed(invoice.head);
    CompressedIsDecompressed(share, bytes);
    PackedFits(CodedData(share, bytes));
    assert |compressed| >= 1;
    GroupCounts(compressed, invoice.signature);
    hide Decode, ParseHrp, FromGroups, DecodedData, CodedData, Shares, Packed, Encode, HrpOf, ToGroups;
    BytesComeBack(compressed);
    BytesComeBack(invoice.signature);
    DecodesWhatWasEncoded(hrp, AllGroups(compressed, invoice.signature));
    CutsGroups(ToGroups(compressed), ToGroups(invoice.signature));
  }

  lemma {:induction false} GroupCounts(compressed: seq<nat>, signature: seq<nat>)
    requires |compressed| >= 1 && |signature| == SIGNATURE_LENGTH
    ensures |ToGroups(compressed)| >= 1 && |ToGroups(signature)| == SIGNATURE_GROUPS
  {
    SpanIsProduct(|compressed|, 8);
    SpanIsProduct(SIGNATURE_LENGTH, 8);
  }

  lemma {:induction false} CutsGroups(first: seq<nat>, second: seq<nat>)
    requires |second| == SIGNATURE_GROUPS
    ensures var groups := [SIGNED_FLAG] + first + second;
            groups[1..|groups| - SIGNATURE_GROUPS] == first && groups[|groups| - SIGNATURE_GROUPS..] == second
  {
  }
}
