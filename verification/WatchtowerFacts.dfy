/** What the watchtower's rules guarantee: where the money of a spend goes, and how many claims a record can hold. */
module WatchtowerFacts {
  import opened Outcomes
  import opened ByteStrings
  import opened Payments
  import opened Settlement
  import opened SettlementWitness
  import opened Descent
  import opened Watchtower

  // ---- Where the money goes

  lemma {:induction false} ViewsAddUp(entries: seq<Bytes>, layout: Layout, forRemote: bool)
    requires EntryViews(entries, layout, forRemote).Accept?
    ensures forall entry :: entry in entries ==> |entry| >= 1 + AMOUNT_LENGTH
    ensures AmountsOf(EntryViews(entries, layout, forRemote).value) == EntryTotal(entries)
  {
    if entries != [] {
      ViewsAddUp(entries[1..], layout, forRemote);
      var views := EntryViews(entries, layout, forRemote).value;
      assert views[1..] == EntryViews(entries[1..], layout, forRemote).value;
    }
  }

  /** A spend that leaves a remainder releases exactly what its next body no longer holds. */
  ghost predicate ReleasesOneUnlock(keys: Keys, source: Source, released: nat, remainder: Cell)
    requires source.unlock.parts.Valid(source.layout)
  {
    var parts, target := source.unlock.parts, source.unlock.target;
    && Targets(parts, target)
    && NextBody(parts, target).Valid(source.layout)
    && Held(parts) == released + Held(NextBody(parts, target))
    && remainder.lock == source.lock.(args := RemainderArgs(keys, source.lock.args, WriteBody(NextBody(parts, target))))
    && (source.capacity.Some? ==> remainder.capacity + released == source.capacity.value)
  }

  /** A final spend releases everything the body holds but what the peer is shown to hold. */
  ghost predicate ReleasesTheRest(source: Source, released: nat)
    requires source.unlock.parts.Valid(source.layout)
  {
    var peer := source.unlock.parts.At(1 - DeviceIndex(source.view.Remote?));
    IsZero(peer.keyHash) && released + peer.amount == Held(source.unlock.parts)
  }

  lemma {:induction false} OneTargetIsReleased(keys: Keys, purpose: Purpose, source: Source, released: nat)
    requires Sound(source)
    requires ReleasedByKey(keys, purpose, source.unlock, source.layout, source.view.Remote?)
             == Accept(Release(released, false))
    ensures Sized(source.unlock.parts)
    ensures released == Released(source.unlock.parts, source.unlock.target)
  {
  }

  lemma {:induction false} RemainderIsNext(keys: Keys, tx: RawTx, source: Source, released: nat)
    requires Sound(source)
    requires ReadRemainder(keys, tx, source, released, source.view.Remote?).Accept?
    ensures var next := NextBody(source.unlock.parts, source.unlock.target);
            var remainder := ReadRemainder(keys, tx, source, released, source.view.Remote?).value;
            && next.Valid(source.layout)
            && remainder.lock == source.lock.(args := RemainderArgs(keys, source.lock.args, WriteBody(next)))
            && (source.capacity.Some? ==> remainder.capacity + released == source.capacity.value)
  {
    NextWitnessReadsBack(source.unlock, source.layout, source.view.Remote?);
    WritesReadBody(NextWitness(source.unlock, source.view.Remote?).value, source.layout);
    hide ReadBody, WriteBody, IsZero, RemainderArgs;
  }

  lemma {:induction false} OneUnlockIsReleased(keys: Keys, tx: RawTx, purpose: Purpose, source: Source, released: nat)
    requires Sound(source)
    requires ReleasedByKey(keys, purpose, source.unlock, source.layout, source.view.Remote?)
             == Accept(Release(released, false))
    requires ReadRemainder(keys, tx, source, released, source.view.Remote?).Accept?
    ensures ReleasesOneUnlock(keys, source, released,
            ReadRemainder(keys, tx, source, released, source.view.Remote?).value)
  {
    OneTargetIsReleased(keys, purpose, source, released);
    RemainderIsNext(keys, tx, source, released);
    StepConserves(source.unlock.parts, source.unlock.target);
    hide ReleasedByKey, ReadRemainder, Held, Released, NextBody, WriteBody, RemainderArgs;
  }

  lemma {:induction false} TheRestIsReleased(keys: Keys, purpose: Purpose, source: Source, released: nat)
    requires Sound(source)
    requires ReleasedByKey(keys, purpose, source.unlock, source.layout, source.view.Remote?)
             == Accept(Release(released, true))
    ensures ReleasesTheRest(source, released)
  {
    ViewsAddUp(source.unlock.parts.entries, source.layout, source.view.Remote?);
  }

  /** What a spend's rules established, one by one. */
  ghost predicate Judged(keys: Keys, approval: Approval, request: Request, terms: Terms) {
    var source := terms.source;
    && Sound(source)
    && ReleasedByKey(keys, request.purpose, source.unlock, source.layout, source.view.Remote?)
       == Accept(Release(terms.released, terms.remainder.None?))
    && terms.entry == UnlockedEntry(source.unlock)
    && (terms.remainder.Some? ==>
          ReadRemainder(keys, request.tx, source, terms.released, source.view.Remote?) == Accept(terms.remainder.value))
    && PaysOut(request.tx, if terms.remainder.Some? then 1 else 0, approval, terms.released)
  }

  lemma {:induction false} JudgedFrom(keys: Keys, source: Source, approval: Approval, request: Request)
    requires Sound(source) && JudgeFrom(keys, source, approval, request).Accept?
    ensures JudgeFrom(keys, source, approval, request).value.source == source
    ensures Judged(keys, approval, request, JudgeFrom(keys, source, approval, request).value)
  {
    hide ReleasedByKey, ReadRemainder, PaysOut, IsZero, UnlockedEntry;
  }

  lemma {:induction false} JudgedSpend(keys: Keys, book: Book, approval: Approval, request: Request)
    requires JudgeSpend(keys, book, approval, request).Accept?
    ensures var terms := JudgeSpend(keys, book, approval, request).value;
            && request.tx.inputs != []
            && FindSource(book, request) == Accept(terms.source)
            && Judged(keys, approval, request, terms)
  {
    FoundSourceIsRead(book, request);
    JudgedFrom(keys, FindSource(book, request).value, approval, request);
    hide FindSource, JudgeFrom, StartsAt, WitnessUnlock, RegisteredIn, Judged, Sound;
  }

  /** An accepted spend pays the destination what it releases less the
      approved fee, and leaves the rest where it was. */
  lemma {:induction false} AcceptedSpendPaysOut(keys: Keys, book: Book, approval: Approval, request: Request)
    requires JudgeSpend(keys, book, approval, request).Accept?
    ensures var terms := JudgeSpend(keys, book, approval, request).value;
            && terms.source.unlock.parts.Valid(terms.source.layout)
            && (exists c :: c in RegisteredIn(book) && StartsAt(terms.source, c))
            && PaysOut(request.tx, if terms.remainder.Some? then 1 else 0, approval, terms.released)
            && (terms.remainder.Some? ==> ReleasesOneUnlock(keys, terms.source, terms.released, terms.remainder.value))
            && (terms.remainder.None? ==> ReleasesTheRest(terms.source, terms.released))
  {
    JudgedSpend(keys, book, approval, request);
    FoundSourceIsRead(book, request);
    var terms := JudgeSpend(keys, book, approval, request).value;
    hide JudgeSpend, FindSource, ReleasedByKey, ReadRemainder, PaysOut, IsZero, StartsAt, WitnessUnlock, RegisteredIn;
    hide ReleasesOneUnlock, ReleasesTheRest;
    if terms.remainder.Some? {
      OneUnlockIsReleased(keys, request.tx, request.purpose, terms.source, terms.released);
    } else {
      TheRestIsReleased(keys, request.purpose, terms.source, terms.released);
    }
  }

  /** The peer's balance of every registered commitment names a key. */
  ghost predicate PeersNamed(book: Book) {
    forall c, layout :: c in RegisteredIn(book) && ReadBody(c.kept.body, layout).Accept? ==>
      !IsZero(ReadBody(c.kept.body, layout).value.At(1 - DeviceIndex(c.view.Remote?)).keyHash)
  }

  lemma {:induction false} SettledPeerReleasesAll(source: Source, c: Registered, released: nat)
    requires source.unlock.parts.Valid(source.layout)
    requires StartsAt(source, c) && ReleasesTheRest(source, released)
    requires !IsZero(ReadBody(c.kept.body, source.layout).value.At(1 - DeviceIndex(c.view.Remote?)).keyHash)
    ensures released == Held(source.unlock.parts)
  {
    var peer := 1 - DeviceIndex(source.view.Remote?);
    var committed := ReadBody(c.kept.body, source.layout).value;
    assert source.unlock.parts.At(peer) == committed.At(peer) || IsSettled(source.unlock.parts.At(peer));
  }

  /** A final spend releases all that remains exactly when the peer is shown to hold
      nothing: as it is once it settled, and always when the commitments named its key. */
  lemma {:induction false} FinalSpendReleasesAll(keys: Keys, book: Book, approval: Approval, request: Request)
    requires JudgeSpend(keys, book, approval, request).Accept?
    requires JudgeSpend(keys, book, approval, request).value.remainder.None?
    ensures var Terms(source, _, released, _) := JudgeSpend(keys, book, approval, request).value;
            && source.unlock.parts.Valid(source.layout)
            && (released == Held(source.unlock.parts)
                <==> source.unlock.parts.At(1 - DeviceIndex(source.view.Remote?)).amount == 0)
            && (PeersNamed(book) ==> released == Held(source.unlock.parts))
  {
    hide JudgeSpend, FindSource, PaysOut, IsZero, ReadBody, RegisteredIn, StartsAt, Held;
    AcceptedSpendPaysOut(keys, book, approval, request);
    var terms := JudgeSpend(keys, book, approval, request).value;
    var c :| c in RegisteredIn(book) && StartsAt(terms.source, c);
    if PeersNamed(book) {
      NamedPeerReleasesAll(book, terms.source, c, terms.released);
    }
  }

  lemma {:induction false} NamedPeerReleasesAll(book: Book, source: Source, c: Registered, released: nat)
    requires PeersNamed(book) && c in RegisteredIn(book)
    requires source.unlock.parts.Valid(source.layout)
    requires StartsAt(source, c) && ReleasesTheRest(source, released)
    ensures released == Held(source.unlock.parts)
  {
    SettledPeerReleasesAll(source, c, released);
  }

  // ---- How many claims

  /** The entries of a registered commitment's settlement body. */
  function EntriesOf(c: Registered): (entries: seq<Bytes>)
    ensures |entries| <= MAX_SETTLEMENT_TLCS
  {
    var layout := ReadLayout(c.kept.cell.lock.args);
    if layout.Refuse? || ReadBody(c.kept.body, layout.value).Refuse? then [] else
      WritesReadBody(c.kept.body, layout.value);
      ReadBody(c.kept.body, layout.value).value.entries
  }

  datatype SpendKey = SpendKey(view: View, number: nat, entry: Option<Bytes>)

  function KeyOf(spend: Spend): SpendKey {
    SpendKey(spend.view, spend.number, spend.entry)
  }

  predicate Lists(c: Registered, entry: Option<Bytes>) {
    entry.None? || entry.value in EntriesOf(c)
  }

  predicate Matches(c: Registered, spend: Spend) {
    c.view == spend.view && c.kept.number == spend.number
  }

  /** No two claims alike, none on an entry a registered commitment of its version lacks, and no more than the bound. */
  ghost predicate ClaimsHeld(book: Book) {
    && Distinct(book.spends)
    && (forall spend, c :: spend in book.spends && c in RegisteredIn(book) && Matches(c, spend) ==>
      Lists(c, spend.entry))
    && |book.spends| <= MAX_WATCHTOWER_SPENDS
  }

  /** No two registered commitments share a view and a version. */
  ghost predicate DistinctlyRegistered(book: Book) {
    forall c, d :: c in RegisteredIn(book) && d in RegisteredIn(book) ==>
      (c.view == d.view && c.kept.number == d.kept.number ==> c == d)
  }

  lemma {:induction false} Pigeonhole<T>(s: seq<T>, holes: seq<T>)
    requires forall i, j :: 0 <= i < j < |s| ==> s[i] != s[j]
    requires forall x :: x in s ==> x in holes
    ensures |s| <= |holes|
  {
    if s != [] {
      assert s[0] in s;
      var i :| 0 <= i < |holes| && holes[i] == s[0];
      var rest := holes[..i] + holes[i + 1..];
      forall x | x in s[1..]
        ensures x in rest
      {
        assert x in s && x in holes;
        var j :| 0 <= j < |holes| && holes[j] == x;
        assert j != i;
        assert x == if j < i then rest[j] else rest[j - 1];
      }
      Pigeonhole(s[1..], rest);
    }
  }

  function KeysAt(c: Registered): (keys: seq<SpendKey>)
    ensures |keys| <= MAX_SETTLEMENT_TLCS + 1
    ensures forall entry :: Lists(c, entry) ==> SpendKey(c.view, c.kept.number, entry) in keys
  {
    var rest := EntryKeys(c, EntriesOf(c));
    assert forall entry: Option<Bytes> ::
      Lists(c, entry) && entry.Some? ==> SpendKey(c.view, c.kept.number, Some(entry.value)) in rest;
    [SpendKey(c.view, c.kept.number, None)] + rest
  }

  function EntryKeys(c: Registered, entries: seq<Bytes>): (keys: seq<SpendKey>)
    ensures |keys| == |entries|
    ensures forall entry :: entry in entries ==> SpendKey(c.view, c.kept.number, Some(entry)) in keys
  {
    if entries == [] then [] else [SpendKey(c.view, c.kept.number, Some(entries[0]))] + EntryKeys(c, entries[1..])
  }

  function AllKeys(registered: seq<Registered>): (keys: seq<SpendKey>)
    ensures |keys| <= |registered| * (MAX_SETTLEMENT_TLCS + 1)
    ensures forall c, entry :: c in registered && Lists(c, entry) ==> SpendKey(c.view, c.kept.number, entry) in keys
  {
    if registered == [] then [] else KeysAt(registered[0]) + AllKeys(registered[1..])
  }

  /** Distinct claims on entries or balances of three commitments fit the bound. */
  lemma {:induction false} ClaimsAreBounded(spends: seq<Spend>, book: Book)
    requires Distinct(spends)
    requires forall spend :: spend in spends ==>
               exists c :: c in RegisteredIn(book) && Matches(c, spend) && Lists(c, spend.entry)
    ensures |spends| <= MAX_WATCHTOWER_SPENDS
  {
    hide AllKeys, Lists;
    var registered := RegisteredIn(book);
    assert |registered| <= 3;
    hide RegisteredIn;
    var keys := seq(|spends|, i requires 0 <= i < |spends| => KeyOf(spends[i]));
    forall key | key in keys
      ensures key in AllKeys(registered)
    {
      var i :| 0 <= i < |keys| && keys[i] == key;
      assert spends[i] in spends;
    }
    Pigeonhole(keys, AllKeys(registered));
  }

  /** No two claims share a request id or an unlock. */
  ghost predicate Distinct(spends: seq<Spend>) {
    forall i, j :: 0 <= i < j < |spends| ==> spends[i].id != spends[j].id && !SameKey(spends[i], spends[j])
  }

  lemma {:induction false} KeptAre(spends: seq<Spend>, spend: Spend, book: Book)
    ensures forall s :: s in KeptBeside(spends, spend, book) <==>
            s in spends && !SameKey(s, spend) && IsRegistered(book, s)
  {
    if spends != [] {
      KeptAre(spends[1..], spend, book);
    }
  }

  lemma {:induction false} KeptStayDistinct(spends: seq<Spend>, spend: Spend, book: Book)
    requires Distinct(spends)
    ensures Distinct(KeptBeside(spends, spend, book))
  {
    if spends != [] {
      KeptStayDistinct(spends[1..], spend, book);
      KeptAre(spends[1..], spend, book);
      var rest := KeptBeside(spends[1..], spend, book);
      forall j | 0 <= j < |rest|
        ensures spends[0].id != rest[j].id && !SameKey(spends[0], rest[j])
      {
        assert rest[j] in spends[1..];
        var k :| 0 <= k < |spends[1..]| && spends[1..][k] == rest[j];
        assert spends[k + 1] == rest[j];
      }
    }
  }

  lemma {:induction false} NotFoundIsAbsent(spends: seq<Spend>, id: nat)
    ensures FindRequest(spends, id).None? <==> forall spend :: spend in spends ==> spend.id != id
  {
    if spends != [] {
      NotFoundIsAbsent(spends[1..], id);
    }
  }

  lemma {:induction false} StartedUnlockIsListed(source: Source, c: Registered)
    requires StartsAt(source, c)
    requires source.unlock.target.TlcTarget? ==> source.unlock.target.index < |source.unlock.parts.entries|
    ensures Lists(c, UnlockedEntry(source.unlock))
  {
    var entry := UnlockedEntry(source.unlock);
    if entry.Some? {
      assert entry.value in multiset(source.unlock.parts.entries);
      assert entry.value in multiset(EntriesOf(c));
    }
  }

  /** The claim a fresh spend leaves is on an entry its commitment lists. */
  lemma {:induction false} FreshSpendIsListed(keys: Keys, book: Book, approval: Approval, request: Request)
    requires JudgeSpend(keys, book, approval, request).Accept?
    ensures var spend := SpendOf(request, JudgeSpend(keys, book, approval, request).value);
            exists c :: c in RegisteredIn(book) && Matches(c, spend) && Lists(c, spend.entry)
  {
    JudgedSpend(keys, book, approval, request);
    FoundSourceIsRead(book, request);
    hide JudgeSpend, FindSource, ReleasedByKey, ReadRemainder, PaysOut, IsZero, WitnessUnlock, RegisteredIn;
    var source := FindSource(book, request).value;
    var c :| c in RegisteredIn(book) && StartsAt(source, c);
    StartedUnlockIsListed(source, c);
    assert Matches(c, SpendOf(request, JudgeSpend(keys, book, approval, request).value));
  }

  lemma {:induction false} ClaimKeepsClaims(book: Book, spend: Spend)
    requires DistinctlyRegistered(book) && ClaimsHeld(book)
    requires FindRequest(book.spends, spend.id).None?
    requires !exists recorded :: recorded in book.spends && recorded.signature.Some? && SameKey(recorded, spend)
    requires exists c :: c in RegisteredIn(book) && Matches(c, spend) && Lists(c, spend.entry)
    ensures var spends := KeptBeside(book.spends, spend, book) + [spend];
            && ClaimsHeld(book.(spends := spends))
            && forall s :: s in book.spends && s.signature.Some? && IsRegistered(book, s) ==> s in spends
  {
    var kept := KeptBeside(book.spends, spend, book);
    var spends := kept + [spend];
    NotFoundIsAbsent(book.spends, spend.id);
    KeptAre(book.spends, spend, book);
    KeptStayDistinct(book.spends, spend, book);
    forall i | 0 <= i < |kept|
      ensures kept[i].id != spend.id && !SameKey(kept[i], spend)
    {
      assert kept[i] in kept;
    }
    var after := book.(spends := spends);
    assert RegisteredIn(after) == RegisteredIn(book);
    forall s | s in spends
      ensures exists c :: c in RegisteredIn(book) && Matches(c, s) && Lists(c, s.entry)
    {
      if s in kept {
        var c :| c in RegisteredIn(book) && c.view == s.view && c.kept.number == s.number;
        assert Matches(c, s) && Lists(c, s.entry);
      }
    }
    ClaimsAreBounded(spends, book);
  }

  /** A decision keeps the claims in bounds, and every signed claim of a commitment still registered. */
  lemma {:induction false} DecisionKeepsClaims(keys: Keys, book: Book, approval: Approval, request: Request)
    requires DistinctlyRegistered(book) && ClaimsHeld(book)
    requires DecideSpend(keys, book, approval, request).Accept?
    ensures var spends := DecideSpend(keys, book, approval, request).value.spends;
            && ClaimsHeld(book.(spends := spends))
            && forall s :: s in book.spends && s.signature.Some? && IsRegistered(book, s) ==> s in spends
  {
    var decision := DecideSpend(keys, book, approval, request).value;
    if decision.verdict.Fresh? {
      FreshSpendIsListed(keys, book, approval, request);
      ClaimKeepsClaims(book, SpendOf(request, JudgeSpend(keys, book, approval, request).value));
    }
  }
}
