/** Bytes, and the little-endian integers a settlement body carries. */
module ByteStrings {

  type Byte = b: int | 0 <= b < 256

  type Bytes = seq<Byte>

  function Pow256(n: nat): nat {
    if n == 0 then 1 else 256 * Pow256(n - 1)
  }

  function WriteLe(value: nat, length: nat): (bytes: Bytes)
    ensures |bytes| == length
  {
    if length == 0 then [] else [value % 256] + WriteLe(value / 256, length - 1)
  }

  function ReadLe(bytes: Bytes): nat {
    if bytes == [] then 0 else bytes[0] + 256 * ReadLe(bytes[1..])
  }

  lemma {:induction false} ReadsWhatWasWritten(value: nat, length: nat)
    requires value < Pow256(length)
    ensures ReadLe(WriteLe(value, length)) == value
  {
    if length > 0 {
      ReadsWhatWasWritten(value / 256, length - 1);
      assert WriteLe(value, length)[1..] == WriteLe(value / 256, length - 1);
    }
  }

  lemma {:induction false} WritesWhatWasRead(bytes: Bytes)
    ensures ReadLe(bytes) < Pow256(|bytes|)
    ensures WriteLe(ReadLe(bytes), |bytes|) == bytes
  {
    if bytes != [] {
      WritesWhatWasRead(bytes[1..]);
      assert ReadLe(bytes) / 256 == ReadLe(bytes[1..]);
      assert bytes == [bytes[0]] + bytes[1..];
    }
  }

  predicate IsZero(bytes: Bytes) {
    forall i :: 0 <= i < |bytes| ==> bytes[i] == 0
  }

  function ZeroBytes(n: nat): (bytes: Bytes)
    ensures |bytes| == n && IsZero(bytes)
  {
    seq(n, i => 0)
  }
}
