/** A spend's witness byte by byte: what is read from it, and the one witness each reading is of. */
module UnlockBytes {
  import opened Outcomes
  import opened ByteStrings
  import opened Settlement

  /** The sixteen bytes a witness starts with: four little-endian sixteens. */
  const PREFIX: Bytes := [16, 0, 0, 0] + [16, 0, 0, 0] + [16, 0, 0, 0] + [16, 0, 0, 0]

  /** The byte that names a target. */
  function KindOf(target: Target): nat {
    match target
    case TlcTarget(index) => index
    case BalanceTarget(index) => if index == 0 then 254 else 255
  }

  /** An unlock a witness can spell: a TLC with its preimage or without, or a balance without. */
  predicate Spellable(unlock: Unlock, layout: Layout) {
    && unlock.parts.Valid(layout) && unlock.body == WriteBody(unlock.parts)
    && (match unlock.target
        case TlcTarget(index) => index < |unlock.parts.entries| && index < 254
        case BalanceTarget(index) => index < 2 && unlock.preimage == None)
    && |unlock.signature| == 65
    && (unlock.preimage.Some? ==> |unlock.preimage.value| == 32)
  }

  /** The witness of an unlock: the prefix, one unlock, the body, then kind, flag, signature and preimage. */
  function WriteUnlock(unlock: Unlock): Bytes
    requires KindOf(unlock.target) < 256
  {
    PREFIX + [1] + unlock.body + WriteTail(unlock)
  }

  lemma {:induction false} BodyIsItsLength(body: Body, layout: Layout)
    requires body.Valid(layout)
    ensures |WriteBody(body)| == BodyLength(|body.entries|, layout) > 0 && WriteBody(body)[0] == |body.entries|
  {
    ReadsWrittenBody(body, layout);
  }

  lemma {:induction false} WitnessSlices(body: Bytes, rest: Bytes)
    ensures var bytes := PREFIX + [1] + body + rest;
            && |bytes| == 17 + |body| + |rest|
            && bytes[..16] == PREFIX && bytes[16] == 1
            && (body != [] ==> bytes[17] == body[0])
            && bytes[17..17 + |body|] == body && bytes[17 + |body|..] == rest
  {
  }

  lemma {:induction false} UnlockSlices(kind: Byte, flag: Byte, signature: Bytes, preimage: Bytes)
    requires |signature| == 65
    ensures var unlock := [kind, flag] + signature + preimage;
            && |unlock| == 67 + |preimage|
            && unlock[0] == kind && unlock[1] == flag && unlock[2..67] == signature && unlock[67..] == preimage
  {
  }

  /** The bytes after the body. */
  function WriteTail(unlock: Unlock): Bytes
    requires KindOf(unlock.target) < 256
  {
    [KindOf(unlock.target), if unlock.preimage.Some? then 1 else 0] + unlock.signature
    + if unlock.preimage.Some? then unlock.preimage.value else []
  }

  lemma {:induction false} ReadsWrittenTail(unlock: Unlock, layout: Layout)
    requires Spellable(unlock, layout)
    ensures ReadTail(WriteTail(unlock), unlock.body, unlock.parts) == Accept(unlock)
  {
    hide WriteBody;
    UnlockSlices(KindOf(unlock.target), if unlock.preimage.Some? then 1 else 0, unlock.signature,
                 if unlock.preimage.Some? then unlock.preimage.value else []);
  }

  lemma {:induction false} WritesReadTail(tail: Bytes, body: Bytes, parts: Body, layout: Layout)
    requires parts.Valid(layout) && body == WriteBody(parts) && ReadTail(tail, body, parts).Accept?
    ensures Spellable(ReadTail(tail, body, parts).value, layout)
    ensures KindOf(ReadTail(tail, body, parts).value.target) < 256
    ensures WriteTail(ReadTail(tail, body, parts).value) == tail
    ensures ReadTail(tail, body, parts).value.body == body
  {
    hide WriteBody;
    assert tail == [tail[0], tail[1]] + tail[2..67] + tail[67..];
  }

  lemma {:induction false} PrefixIsTheReaders()
    ensures PREFIX == XUDT_COMPATIBLE_WITNESS && |PREFIX| == 16
  {
  }

  /** What a witness spells is what is read from it. */
  lemma {:induction false} ReadsWrittenUnlock(unlock: Unlock, layout: Layout)
    requires Spellable(unlock, layout)
    ensures ReadUnlock(WriteUnlock(unlock), layout) == Accept(unlock)
  {
    hide ReadBody, WriteBody, WriteTail, ReadTail, BodyLength, PREFIX, XUDT_COMPATIBLE_WITNESS;
    PrefixIsTheReaders();
    BodyIsItsLength(unlock.parts, layout);
    ReadsWrittenBody(unlock.parts, layout);
    ReadsWrittenTail(unlock, layout);
    WitnessSlices(unlock.body, WriteTail(unlock));
    var bytes, end := WriteUnlock(unlock), 17 + |unlock.body|;
    assert bytes == PREFIX + [1] + unlock.body + WriteTail(unlock);
    assert bytes[17] == |unlock.parts.entries|;
    assert bytes[BODY_OFFSET..end] == unlock.body && bytes[end..] == WriteTail(unlock);
  }

  /** And what is read is spelled by that witness alone. */
  lemma {:induction false} WritesReadUnlock(bytes: Bytes, layout: Layout)
    requires ReadUnlock(bytes, layout).Accept?
    ensures Spellable(ReadUnlock(bytes, layout).value, layout)
    ensures KindOf(ReadUnlock(bytes, layout).value.target) < 256
    ensures WriteUnlock(ReadUnlock(bytes, layout).value) == bytes
  {
    hide ReadBody, WriteBody, WriteTail, ReadTail, BodyLength, PREFIX, XUDT_COMPATIBLE_WITNESS, Spellable, KindOf;
    PrefixIsTheReaders();
    var end := BODY_OFFSET + BodyLength(if |bytes| > BODY_OFFSET then bytes[BODY_OFFSET] else 0, layout);
    var body, tail := bytes[BODY_OFFSET..end], bytes[end..];
    WritesReadBody(body, layout);
    WritesReadTail(tail, body, ReadBody(body, layout).value, layout);
    assert bytes == bytes[..16] + [bytes[16]] + body + tail;
  }
}
