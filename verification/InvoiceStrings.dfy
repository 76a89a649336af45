/** What an invoice's string looks like, character by character, and the checksum's known values. */
module InvoiceStrings {
  import opened Outcomes
  import opened Powers
  import opened BitStrings
  import opened Scaling
  import opened Coding
  import opened Coder
  import opened Groups
  import opened Bech32m
  import opened InvoiceText

  /** The code points of a literal. */
  function Ascii(literal: string): (text: Text)
    ensures |text| == |literal|
  {
    seq(|literal|, i requires 0 <= i < |literal| => literal[i] as nat)
  }

  // ---- The head

  /** The three currencies' names. */
  lemma {:induction false} PrefixesAre()
    ensures PrefixOf(Fibb) == Ascii("fibb") && PrefixOf(Fibt) == Ascii("fibt") && PrefixOf(Fibd) == Ascii("fibd")
  {
    var fibb, fibt, fibd := "fibb", "fibt", "fibd";
    assert fibb[0] == 'f' && fibb[1] == 'i' && fibb[2] == 'b' && fibb[3] == 'b';
    assert fibt[0] == 'f' && fibt[1] == 'i' && fibt[2] == 'b' && fibt[3] == 't';
    assert fibd[0] == 'f' && fibd[1] == 'i' && fibd[2] == 'b' && fibd[3] == 'd';
  }

  /** A number's decimal numeral: no leading zero but for zero itself. */
  function Numeral(n: nat): (text: Text)
    ensures text != []
  {
    if n < 10 then [48 + n] else Numeral(n / 10) + [48 + n % 10]
  }

  lemma {:induction false} NumeralReads(n: nat)
    ensures ValueOfDigits(Numeral(n)) == n
    ensures forall i :: 0 <= i < |Numeral(n)| ==> IsDigit(Numeral(n)[i])
    ensures Numeral(n)[0] == 48 ==> n == 0
  {
    var text := Numeral(n);
    if n >= 10 {
      NumeralReads(n / 10);
      assert text[..|text| - 1] == Numeral(n / 10);
    } else {
      assert text[..0] == [];
      assert ValueOfDigits([]) == 0;
    }
  }

  /** A numeral without a leading zero is its value's. */
  lemma {:induction false} NumeralIsRead(text: Text)
    requires text != [] && forall i :: 0 <= i < |text| ==> IsDigit(text[i])
    requires text[0] == 48 ==> |text| == 1
    ensures ValueOfDigits(text) >= 0 && Numeral(ValueOfDigits(text)) == text
    ensures |text| > 1 ==> ValueOfDigits(text) >= 10
  {
    var front, last := text[..|text| - 1], text[|text| - 1];
    assert text == front + [last];
    if front == [] {
      assert ValueOfDigits(front) == 0;
    } else {
      NumeralIsRead(front);
      assert ValueOfDigits(front) >= 1 by {
        assert |front| == 1 ==> front[..0] == [];
      }
    }
  }

  function Tens(n: nat): nat {
    if n == 0 then 1 else 10 * Tens(n - 1)
  }

  lemma {:induction false} NumeralIsShort(n: nat, digits: nat)
    requires 0 < digits && n < Tens(digits)
    ensures |Numeral(n)| <= digits
    decreases digits
  {
    if n >= 10 {
      NumeralIsShort(n / 10, digits - 1);
    }
  }

  lemma {:induction false} ThirtyNine()
    ensures MAX_AMOUNT < Tens(39)
  {
    assert Tens(9) == 1_000_000_000;
    assert Tens(18) == 1_000_000_000_000_000_000;
    assert Tens(27) == 1_000_000_000_000_000_000_000_000_000;
    assert Tens(36) == 1_000_000_000_000_000_000_000_000_000_000_000_000;
  }

  /** The amounts accepted are the numerals of the unsigned 128-bit numbers, and no other text. */
  lemma {:induction false} AmountsAreNumerals(text: Text)
    ensures IsDecimal(text) <==> exists n: nat :: n < 0x1_0000_0000_0000_0000_0000_0000_0000_0000 && text == Numeral(n)
  {
    if IsDecimal(text) {
      NumeralIsRead(text);
      var n: nat := ValueOfDigits(text);
      assert text == Numeral(n);
    }
    if n: nat :| n < 0x1_0000_0000_0000_0000_0000_0000_0000_0000 && text == Numeral(n) {
      ThirtyNine();
      NumeralIsShort(n, 39);
      NumeralReads(n);
    }
  }

  // ---- The whole string

  const CHARACTERS: string := "qpzry9x8gf2tvdw0s3jn54khce6mua7l"

  /** The character of every group. */
  lemma {:induction false} CharactersAre(group: nat)
    requires group < 32
    ensures |CHARACTERS| == 32 && CharAt(group) == CHARACTERS[group] as nat
  {
  }

  /** The groups' characters, one for each. */
  ghost predicate Spell(text: Text, groups: seq<nat>) {
    |text| == |groups| && forall i :: 0 <= i < |text| ==> groups[i] < 32 && text[i] == CHARACTERS[groups[i]] as nat
  }

  lemma {:induction false} WrittenSpells(groups: seq<nat>)
    requires AreGroups(groups)
    ensures Spell(Written(groups), groups)
  {
    hide CharAt;
    forall i | 0 <= i < |groups|
      ensures Written(groups)[i] == CHARACTERS[groups[i]] as nat
    {
      CharactersAre(groups[i]);
    }
  }

  /** An invoice's string: its currency's name, its amount's numeral if it states one, a "1", the signed
      flag's "p", and the groups of the data, of the signature's 65 bytes and of the checksum. */
  lemma {:induction false} InvoiceIsSpelled<Data>(share: Share, molecule: Molecule<Data>, invoice: SignedInvoice<Data>)
    requires Shares(share) && Countable(molecule.write(invoice.data))
    requires EncodeInvoice(share, molecule, invoice).Accept?
    ensures var text := EncodeInvoice(share, molecule, invoice).value;
            var name := match invoice.head.currency case Fibb => "fibb" case Fibt => "fibt" case Fibd => "fibd";
            var amount := if invoice.head.amount.Some? then invoice.head.amount.value else [];
            var data := ToGroups(Packed(CodedData(share, molecule.write(invoice.data))));
            var hrp := Ascii(name) + amount;
            exists rest, checksum: seq<nat> ::
              && text == hrp + Ascii("1") + rest && Spell(rest, [1] + data + ToGroups(invoice.signature) + checksum)
              && |ToGroups(invoice.signature)| == 104 && |checksum| == 6
  {
    hide CodedData, Shares, Packed, ToGroups, Checksum;
    PrefixesAre();
    var hrp := HrpOf(invoice.head).value;
    var groups := AllGroups(Packed(CodedData(share, molecule.write(invoice.data))), invoice.signature);
    var rest, checksum := Written(groups + Checksum(hrp, groups)), Checksum(hrp, groups);
    WrittenSpells(groups + checksum);
    SignatureGroups(invoice.signature);
    var one := "1";
    assert one[0] == '1' && Ascii("1") == [SEPARATOR];
    assert Encode(hrp, groups) == hrp + Ascii("1") + rest;
  }

  lemma {:induction false} SignatureGroups(signature: seq<nat>)
    requires |signature| == 65
    ensures |ToGroups(signature)| == 104
  {
    SpanIsProduct(65, 8);
  }

  /** The coefficients an invoice's currency stands for in its checksum. */
  lemma {:induction false} NamesExpand()
    ensures ExpandHrp(Ascii("fibb")) == [3, 3, 3, 3, 0, 6, 9, 2, 2]
    ensures ExpandHrp(Ascii("fibt")) == [3, 3, 3, 3, 0, 6, 9, 2, 20]
    ensures ExpandHrp(Ascii("fibd")) == [3, 3, 3, 3, 0, 6, 9, 2, 4]
  {
    PrefixesAre();
  }
}
