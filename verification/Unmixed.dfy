/** Hold invoices recorded before any view shows their hash: nothing
    is mixed, and nothing is credited past its amount. */
module Unmixed {
  import opened Sums
  import opened Payments
  import opened BalanceRule
  import opened BalanceFacts
  import opened HoldRelease
  import opened Records
  import opened Engine
  import opened Runs
  import opened Released

  ghost predicate Shows(views: Views, tlc: Tlc) {
    tlc in views.remote.tlcs || tlc in views.local.tlcs
  }

  ghost predicate NoneShow(l: Ledger, bound: Bound) {
    forall index, tlc :: index in l.accounts && Shows(l.accounts[index].views, tlc) ==> tlc.bound != bound
  }

  /** Every hold invoice is recorded before any view shows a TLC under its hash. */
  ghost predicate Timely(events: seq<Event>) {
    events != [] ==>
      var before, last := events[..|events| - 1], events[|events| - 1];
      && Timely(before)
      && (last.Bills? && Attempt(Run(before), last).Accept? && last.hash.bound !in Run(before).invoices ==>
            NoneShow(LedgerOf(Run(before)), last.hash.bound))
  }

  /** The same of one move. */
  ghost predicate TimelyMove(l: Ledger, move: Move) {
    move.Invoices? ==> NoneShow(l, move.hash.bound)
  }

  // ---- A channel that shows or was credited a TLC of an invoice is listed on it

  ghost predicate ShownFiled(l: Ledger) {
    forall index, tlc :: index in l.accounts && Shows(l.accounts[index].views, tlc) && tlc.bound in l.invoices ==>
      index in l.invoices[tlc.bound].channels
  }

  ghost predicate CreditFiled(l: Ledger) {
    forall index, view: View, bound: Bound :: index in l.accounts ==>
      (Get(l.accounts[index].views.Of(view).credited, bound) > 0 ==>
         bound in l.invoices && index in l.invoices[bound].channels)
  }

  lemma {:induction false} CommitShows(
    l: Ledger, index: nat, view: View, next: Stated, context: Context, after: Ledger, tlc: Tlc)
    requires Committed(l, index, view, next, context, after)
    requires Shows(after.accounts[index].views, tlc)
    ensures tlc in next.tlcs || Shows(l.accounts[index].views, tlc)
  {
    hide Reads, ChargedNow, AnyOverdraws, BringsMix, AddsOtherAlgorithm, OffersTwins, FiledIntents, FiledInvoices;
  }

  lemma {:induction false} AccountsElsewhereStay(l: Ledger, move: Move, after: Ledger, index: nat)
    requires Moves(l, move, after) && index in after.accounts
    requires !(move.Commits? && move.index == index)
    ensures if index in l.accounts then after.accounts[index] == l.accounts[index]
            else move.Opens? && after.accounts[index].funded == move.funded
                 && after.accounts[index].views == Views(OpeningSnapshot(move.funded), OpeningSnapshot(move.funded))
  {
    hide Judge, Reads, ReleaseFault, HashesOf, FiledIntents, FiledInvoices;
  }

  lemma {:induction false} FiledIsListed(invoices: map<Bound, Invoice>, tlcs: seq<Tlc>, index: nat, tlc: Tlc)
    requires tlc in tlcs && tlc.bound in invoices
    ensures index in FiledInvoices(invoices, HashesOf(tlcs), index)[tlc.bound].channels
  {
  }

  lemma {:induction false} MoveKeepsShownFiled(l: Ledger, move: Move, after: Ledger)
    requires ShownFiled(l) && Moves(l, move, after) && TimelyMove(l, move)
    ensures ShownFiled(after)
  {
    hide Judge, Reads, ReleaseFault, HashesOf, Shows;
    forall index, tlc | index in after.accounts && Shows(after.accounts[index].views, tlc)
      && tlc.bound in after.invoices
      ensures index in after.invoices[tlc.bound].channels
    {
      InvoicesStay(l, move, after, tlc.bound);
      if move.Commits? && move.index == index {
        CommitShows(l, index, move.view, move.next, move.context, after, tlc);
        if tlc in move.next.tlcs {
          FiledIsListed(l.invoices, move.next.tlcs, index, tlc);
        } else {
          InvoicesOnlyGrow(l, move, after, tlc.bound);
        }
      } else {
        AccountsElsewhereStay(l, move, after, index);
        if index in l.accounts {
          assert tlc.bound in l.invoices;
          InvoicesOnlyGrow(l, move, after, tlc.bound);
        } else {
          OpeningShowsNothing(move.funded, tlc);
        }
      }
    }
  }

  lemma {:induction false} OpeningShowsNothing(funded: nat, tlc: Tlc)
    ensures !Shows(Views(OpeningSnapshot(funded), OpeningSnapshot(funded)), tlc)
  {
  }

  /** A commitment credits only invoices whose TLCs its view showed. */
  lemma {:induction false} CommitCredits(
    l: Ledger, index: nat, view: View, next: Stated, context: Context, after: Ledger, bound: Bound)
    requires Committed(l, index, view, next, context, after)
    ensures var before, now := l.accounts[index].views.Of(view).credited, after.accounts[index].views.Of(view).credited;
            Get(now, bound) != Get(before, bound) ==>
              && bound in context.invoices && bound in l.invoices
              && CreditedAcross(now, context, bound) <= l.invoices[bound].amount
              && exists tlc :: Shows(l.accounts[index].views, tlc) && tlc.bound == bound
    ensures after.accounts[index].views.Of(Other(view)) == l.accounts[index].views.Of(Other(view))
  {
    var views := l.accounts[index].views;
    var before := views.Of(view);
    var left := Difference(before.tlcs, multiset(next.tlcs));
    CreditsCover(left, context, before.credited, bound);
    hide ChargedNow, AnyOverdraws, BringsMix, AddsOtherAlgorithm, OffersTwins, FiledIntents, FiledInvoices;
    assert after.accounts[index].views.Of(view) == Judge(view, views, next, context).value;
    if Get(Accrue(left, context, before.credited).credited, bound) != Get(before.credited, bound) {
      var tlc :| tlc in left && tlc.bound == bound && IsReleasedHeld(context, tlc);
      DifferenceListed(before.tlcs, multiset(next.tlcs), tlc);
      assert Shows(views, tlc);
    }
  }

  lemma {:induction false} CommitIsCreditFiled(
    l: Ledger, index: nat, view: View, next: Stated, context: Context, after: Ledger, at: View, bound: Bound)
    requires CreditFiled(l) && ShownFiled(l) && Committed(l, index, view, next, context, after)
    requires Get(after.accounts[index].views.Of(at).credited, bound) > 0
    ensures bound in l.invoices && index in l.invoices[bound].channels
  {
    CommitCredits(l, index, view, next, context, after, bound);
    assert at == view || at == Other(view);
    hide Committed, Shows;
    if Get(l.accounts[index].views.Of(at).credited, bound) == 0 {
      var tlc :| Shows(l.accounts[index].views, tlc) && tlc.bound == bound;
      assert index in l.invoices[tlc.bound].channels;
    }
  }

  lemma {:induction false} MoveKeepsCreditFiled(l: Ledger, move: Move, after: Ledger)
    requires CreditFiled(l) && ShownFiled(l) && Moves(l, move, after)
    ensures CreditFiled(after)
  {
    hide Moves, ShownFiled, Committed;
    forall index, view: View, bound: Bound | index in after.accounts
      && Get(after.accounts[index].views.Of(view).credited, bound) > 0
      ensures bound in after.invoices && index in after.invoices[bound].channels
    {
      if move.Commits? && move.index == index {
        CommitMoves(l, move, after);
        CommitIsCreditFiled(l, index, move.view, move.next, move.context, after, view, bound);
      } else {
        AccountsElsewhereStay(l, move, after, index);
      }
      InvoicesOnlyGrow(l, move, after, bound);
    }
  }

  // ---- Nothing is mixed

  /** The payment records alone, as a context. */
  ghost function RecordsOf(l: Ledger): Context {
    Context(l.intents, l.invoices, map[])
  }

  ghost predicate Unmixed(l: Ledger) {
    forall index :: index in l.accounts ==>
      !Mixes(RecordsOf(l), l.accounts[index].views.remote.tlcs + l.accounts[index].views.local.tlcs)
  }

  lemma {:induction false} SameMembersMixAlike(a: Context, b: Context, s: seq<Tlc>, t: seq<Tlc>)
    requires forall tlc :: tlc in s <==> tlc in t
    requires forall tlc :: tlc in s ==> (IsReleasedHeld(a, tlc) <==> IsReleasedHeld(b, tlc))
    ensures Mixes(a, s) <==> Mixes(b, t)
  {
  }

  /** A commitment's context tells the ledger's released TLCs apart. */
  lemma {:induction false} ReadsReleasedHeld(l: Ledger, index: nat, next: Stated, context: Context, tlc: Tlc)
    requires index in l.accounts && Reads(l, index, next, context)
    requires tlc in next.tlcs || Shows(l.accounts[index].views, tlc)
    ensures IsReleasedHeld(context, tlc) <==> IsReleasedHeld(RecordsOf(l), tlc)
  {
    var views := l.accounts[index].views;
    var shown := next.tlcs + views.remote.tlcs + views.local.tlcs;
    assert tlc in shown && tlc.bound in HashesOf(shown);
  }

  /** Filing changes no record but the channels it lists. */
  lemma {:induction false} FilingKeepsReleased(l: Ledger, after: Ledger, hashes: set<Bound>, index: nat, tlc: Tlc)
    requires after.invoices == FiledInvoices(l.invoices, hashes, index)
    ensures IsReleasedHeld(RecordsOf(after), tlc) <==> IsReleasedHeld(RecordsOf(l), tlc)
  {
  }

  lemma {:induction false} CommitKeepsUnmixed(
    l: Ledger, index: nat, view: View, next: Stated, context: Context, after: Ledger)
    requires Committed(l, index, view, next, context, after)
    requires !Mixes(RecordsOf(l), l.accounts[index].views.remote.tlcs + l.accounts[index].views.local.tlcs)
    ensures !Mixes(RecordsOf(after), after.accounts[index].views.remote.tlcs + after.accounts[index].views.local.tlcs)
  {
    var views, now := l.accounts[index].views, after.accounts[index].views;
    var other := views.Of(Other(view)).tlcs;
    forall tlc | tlc in next.tlcs || Shows(views, tlc)
      ensures IsReleasedHeld(context, tlc) <==> IsReleasedHeld(RecordsOf(l), tlc)
      ensures IsReleasedHeld(RecordsOf(after), tlc) <==> IsReleasedHeld(RecordsOf(l), tlc)
    {
      ReadsReleasedHeld(l, index, next, context, tlc);
      FilingKeepsReleased(l, after, HashesOf(next.tlcs), index, tlc);
    }
    hide Reads, Mixes, ChargedNow, AnyOverdraws, AddsOtherAlgorithm, OffersTwins, IsReleasedHeld, FiledIntents,
      FiledInvoices;
    SameMembersMixAlike(context, RecordsOf(l), views.Of(view).tlcs + other, views.remote.tlcs + views.local.tlcs);
    assert !Mixes(context, next.tlcs + other);
    SameMembersMixAlike(context, RecordsOf(after), next.tlcs + other, now.remote.tlcs + now.local.tlcs);
  }

  /** A release finds no offered TLC on a channel that shows its invoice's. */
  lemma {:induction false} ReleaseFindsNoneOffered(
    l: Ledger, hash: PaymentHash, timing: Timing, after: Ledger, index: nat, tlc: Tlc)
    requires WellKept(l) && ShownFiled(l) && Paid(l, hash, timing, after) && index in l.accounts
    requires Shows(l.accounts[index].views, tlc) && tlc.bound == hash.bound && IsTlcOf(tlc, hash)
    ensures !ShowsOffered(l.accounts[index].views.remote.tlcs + l.accounts[index].views.local.tlcs)
  {
    var invoice, views := l.invoices[hash.bound], l.accounts[index].views;
    assert index in invoice.channels;
    ReleasedIsHeld(invoice, invoice.channels, ListedViews(l, invoice.channels), timing);
    assert ListedViews(l, invoice.channels)[index] == views;
    assert !OfferedBeside(views, invoice);
    ShownIsListed(views, hash, tlc);
    hide ReleaseFault, WellKept, ShownFiled, Paid, ListedInBoth, HeldAtLess, OtherAlgorithm;
  }

  lemma {:induction false} ShownIsListed(views: Views, hash: PaymentHash, tlc: Tlc)
    requires Shows(views, tlc) && tlc.bound == hash.bound && IsTlcOf(tlc, hash)
    ensures tlc in ListedInBoth(views, hash)
  {
    ListedAre(views.remote.tlcs, hash);
    ListedAre(views.local.tlcs, hash);
  }

  lemma {:induction false} NewlyReleased(l: Ledger, hash: PaymentHash, timing: Timing, after: Ledger, tlc: Tlc)
    requires Paid(l, hash, timing, after)
    requires IsReleasedHeld(RecordsOf(after), tlc) && !IsReleasedHeld(RecordsOf(l), tlc)
    ensures tlc.bound == hash.bound && IsTlcOf(tlc, hash)
  {
    hide ReleaseFault;
  }

  /** A release mixes nothing. */
  lemma {:induction false} ReleaseKeepsUnmixed(l: Ledger, hash: PaymentHash, timing: Timing, after: Ledger, index: nat)
    requires WellKept(l) && ShownFiled(l) && Paid(l, hash, timing, after) && index in l.accounts
    requires !Mixes(RecordsOf(l), l.accounts[index].views.remote.tlcs + l.accounts[index].views.local.tlcs)
    ensures !Mixes(RecordsOf(after), l.accounts[index].views.remote.tlcs + l.accounts[index].views.local.tlcs)
  {
    var views := l.accounts[index].views;
    var tlcs := views.remote.tlcs + views.local.tlcs;
    if ShowsReleasedHeld(RecordsOf(after), tlcs) && !ShowsReleasedHeld(RecordsOf(l), tlcs) {
      hide IsReleasedHeld, ShowsOffered;
      var tlc :| tlc in tlcs && IsReleasedHeld(RecordsOf(after), tlc);
      NewlyReleased(l, hash, timing, after, tlc);
      ReleaseFindsNoneOffered(l, hash, timing, after, index, tlc);
    }
  }

  lemma {:induction false} MoveKeepsUnmixed(l: Ledger, move: Move, after: Ledger)
    requires WellKept(l) && ShownFiled(l) && Unmixed(l) && Moves(l, move, after)
    ensures Unmixed(after)
  {
    forall index | index in after.accounts
      ensures !Mixes(RecordsOf(after), after.accounts[index].views.remote.tlcs + after.accounts[index].views.local.tlcs)
    {
      if move.Commits? && move.index == index {
        CommitKeepsUnmixed(l, index, move.view, move.next, move.context, after);
      } else {
        AccountsElsewhereStay(l, move, after, index);
        if index !in l.accounts {
          assert after.accounts[index].views.remote.tlcs + after.accounts[index].views.local.tlcs == [];
        } else if move.Pays? {
          ReleaseKeepsUnmixed(l, move.hash, move.timing, after, index);
        } else {
          var tlcs := l.accounts[index].views.remote.tlcs + l.accounts[index].views.local.tlcs;
          forall tlc
            ensures IsReleasedHeld(RecordsOf(after), tlc) ==> IsReleasedHeld(RecordsOf(l), tlc)
          {
            OnlyPaysReleases(l, move, after, tlc);
          }
          hide Moves, IsReleasedHeld;
        }
      }
    }
  }

  lemma {:induction false} OnlyPaysReleases(l: Ledger, move: Move, after: Ledger, tlc: Tlc)
    requires Moves(l, move, after) && !move.Pays?
    ensures IsReleasedHeld(RecordsOf(after), tlc) ==> IsReleasedHeld(RecordsOf(l), tlc)
  {
    if tlc.bound in after.invoices {
      InvoicesStay(l, move, after, tlc.bound);
    }
    hide Moves;
  }

  /** Every invariant of a timely run. */
  ghost predicate Orderly(l: Ledger) {
    WellKept(l) && ShownFiled(l) && CreditFiled(l) && Unmixed(l) && CreditCapped(l)
  }

  // ---- Nothing is credited past an invoice's amount

  ghost function SureCredit(views: Views, bound: Bound): nat {
    Min(Get(views.remote.credited, bound), Get(views.local.credited, bound))
  }

  ghost function SureMap(l: Ledger, bound: Bound): map<nat, nat> {
    map index | index in l.accounts :: SureCredit(l.accounts[index].views, bound)
  }

  ghost predicate CreditCapped(l: Ledger) {
    forall bound :: bound in l.invoices ==> Sum<nat>(SureMap(l, bound)) <= l.invoices[bound].amount
  }

  /** A channel that was credited is read by every commitment that involves the hash. */
  lemma {:induction false} CreditedIsRead(
    l: Ledger, index: nat, next: Stated, context: Context, bound: Bound, other: nat)
    requires index in l.accounts && Reads(l, index, next, context) && CreditFiled(l)
    requires bound in context.invoices
    requires other in l.accounts && other != index && SureCredit(l.accounts[other].views, bound) > 0
    ensures other in context.others
  {
    hide HashesOf;
    assert Get(l.accounts[other].views.Of(Remote).credited, bound) > 0;
    assert bound in l.invoices && other in l.invoices[bound].channels;
    assert context.invoices[bound] == l.invoices[bound];
  }

  lemma {:induction false} SureCreditsMatch(l: Ledger, index: nat, next: Stated, context: Context, bound: Bound)
    requires index in l.accounts && Reads(l, index, next, context)
    ensures Over<nat>(SureMap(l, bound) - {index}, context.others.Keys) == SureCredits(context, bound)
  {
    hide HashesOf, ListedOn, IntentsUnder, InvoicesUnder;
    var sure, others := SureMap(l, bound) - {index}, context.others;
    forall other | other in others
      ensures Over<nat>(sure, others.Keys)[other] == SureCredits(context, bound)[other]
    {
      assert other in l.accounts && other != index;
    }
  }

  /** The sure credits a commitment reads are all there are. */
  lemma {:induction false} SureCreditsAreAll(l: Ledger, index: nat, next: Stated, context: Context, bound: Bound)
    requires index in l.accounts && Reads(l, index, next, context) && CreditFiled(l)
    requires bound in context.invoices
    ensures Sum<nat>(SureMap(l, bound) - {index}) == Sum<nat>(SureCredits(context, bound))
  {
    hide Reads, CreditFiled, SureCredits, Over, SureCredit;
    SureCreditsMatch(l, index, next, context, bound);
    var sure := SureMap(l, bound) - {index};
    forall other | other in sure && sure[other] > 0
      ensures other in context.others.Keys
    {
      CreditedIsRead(l, index, next, context, bound, other);
    }
    OverKeys<nat>(sure, context.others.Keys);
  }

  lemma {:induction false} SureMapMoves(l: Ledger, index: nat, after: Ledger, bound: Bound)
    requires index in l.accounts && index in after.accounts
    requires after.accounts == l.accounts[index := after.accounts[index]]
    ensures SureMap(after, bound) == SureMap(l, bound)[index := SureCredit(after.accounts[index].views, bound)]
  {
    hide SureCredit;
  }

  lemma {:induction false} CommitKeepsCapped(
    l: Ledger, index: nat, view: View, next: Stated, context: Context, after: Ledger, bound: Bound)
    requires Committed(l, index, view, next, context, after) && CreditFiled(l) && CreditCapped(l)
    requires bound in l.invoices
    ensures Sum<nat>(SureMap(after, bound)) <= l.invoices[bound].amount
  {
    CommitCredits(l, index, view, next, context, after, bound);
    SureMapMoves(l, index, after, bound);
    var sure, now := SureMap(l, bound), SureCredit(after.accounts[index].views, bound);
    var before, credited := l.accounts[index].views.Of(view).credited, after.accounts[index].views.Of(view).credited;
    if Get(credited, bound) != Get(before, bound) {
      SureCreditsAreAll(l, index, next, context, bound);
    }
    assert now <= Get(credited, bound);
    assert Get(credited, bound) == Get(before, bound) ==> now == sure[index];
    hide Committed, CreditFiled, SureMap, SureCredits, SureCredit;
    Replace<nat>(sure, index, now);
  }

  lemma {:induction false} NewInvoiceIsUncredited(l: Ledger, bound: Bound)
    requires CreditFiled(l) && bound !in l.invoices
    ensures Sum<nat>(SureMap(l, bound)) == 0
  {
    forall index | index in l.accounts
      ensures SureMap(l, bound)[index] == 0
    {
      assert Get(l.accounts[index].views.Of(Remote).credited, bound) == 0;
    }
    var none: set<nat> := {};
    OverKeys<nat>(SureMap(l, bound), none);
    assert Over<nat>(SureMap(l, bound), none) == map[];
  }

  lemma {:induction false} NewSureMap(l: Ledger, index: nat, funded: nat, after: Ledger, bound: Bound)
    requires Opened(l, index, funded, after)
    ensures index !in SureMap(l, bound) && SureMap(after, bound) == SureMap(l, bound)[index := 0]
  {
  }

  lemma {:induction false} OpeningIsUncredited(l: Ledger, index: nat, funded: nat, after: Ledger, bound: Bound)
    requires Opened(l, index, funded, after)
    ensures Sum<nat>(SureMap(after, bound)) == Sum<nat>(SureMap(l, bound))
  {
    NewSureMap(l, index, funded, after, bound);
    hide SureMap;
    Update<nat>(SureMap(l, bound), index, 0);
  }

  lemma {:induction false} SameAccountsSameSure(l: Ledger, after: Ledger, bound: Bound)
    requires after.accounts == l.accounts
    ensures SureMap(after, bound) == SureMap(l, bound)
  {
  }

  lemma {:induction false} MoveKeepsCapped(l: Ledger, move: Move, after: Ledger)
    requires CreditFiled(l) && CreditCapped(l) && Moves(l, move, after)
    ensures CreditCapped(after)
  {
    hide SureMap, Judge, Reads, ReleaseFault, HashesOf, FiledIntents, FiledInvoices;
    forall bound | bound in after.invoices
      ensures Sum<nat>(SureMap(after, bound)) <= after.invoices[bound].amount
    {
      InvoicesStay(l, move, after, bound);
      if move.Commits? {
        CommitKeepsCapped(l, move.index, move.view, move.next, move.context, after, bound);
      } else if move.Opens? {
        OpeningIsUncredited(l, move.index, move.funded, after, bound);
      } else {
        if bound !in l.invoices {
          NewInvoiceIsUncredited(l, bound);
        }
        SameAccountsSameSure(l, after, bound);
      }
    }
  }

  // ---- Over timely runs

  lemma {:induction false} MoveKeepsOrderly(l: Ledger, move: Move, after: Ledger)
    requires Orderly(l) && Moves(l, move, after) && TimelyMove(l, move)
    ensures Orderly(after)
  {
    MoveKeepsKept(l, move, after);
    MoveKeepsShownFiled(l, move, after);
    MoveKeepsCreditFiled(l, move, after);
    MoveKeepsUnmixed(l, move, after);
    MoveKeepsCapped(l, move, after);
    hide Moves, WellKept, ShownFiled, CreditFiled, Unmixed, CreditCapped;
  }

  /** Over every timely run no channel shows an offered TLC beside a released
      invoice's, and every invoice's sure credits stay within its amount. */
  lemma {:induction false} TimelyRunsStayOrderly(events: seq<Event>)
    requires Timely(events)
    ensures Orderly(LedgerOf(Run(events)))
  {
    if events != [] {
      var before, last := events[..|events| - 1], events[|events| - 1];
      TimelyRunsStayOrderly(before);
      var move := StepMoves(Run(before), last);
      hide Step, Attempt, Moves, Orderly, NoneShow;
      MoveKeepsOrderly(LedgerOf(Run(before)), move, LedgerOf(Run(events)));
    }
  }

  /** Hence a commitment that credits an invoice raises its view's
      holdings by at least the credit, and charges nothing. */
  lemma {:induction false} CreditsRaiseHoldings(events: seq<Event>, index: nat, claim: Claim, allowReuse: bool)
    requires Timely(events) && claim.operation.CommitmentTx?
    requires CheckAndClaim(Run(events), index, claim, allowReuse).Accept?
             && !IsRepeat(Run(events).channels[index], claim)
    requires LoadContext(Run(events), index, claim.operation).Accept?
    requires Departed(Run(events).channels[index].views.Of(claim.operation.view), claim.operation.stated,
                      LoadContext(Run(events), index, claim.operation).value).credit > 0
    ensures var view, stated := claim.operation.view, claim.operation.stated;
            var before := Run(events).channels[index].views.Of(view);
            var claimed := CheckAndClaim(Run(events), index, claim, allowReuse).value;
            var after := claimed.device.channels[index].views.Of(view);
            && Holdings(after.exposure, after.tlcs)
               >= Holdings(before.exposure, before.tlcs)
                  + Departed(before, stated, LoadContext(Run(events), index, claim.operation).value).credit
            && after.charged == before.charged
  {
    TimelyRunsStayOrderly(events);
    ClaimMoves(Run(events), index, claim, allowReuse);
    var d := Run(events);
    var l, context := LedgerOf(d), LoadContext(d, index, claim.operation).value;
    CommitmentRaises(l, index, claim.operation.view, claim.operation.stated, context,
                     LedgerOf(CheckAndClaim(d, index, claim, allowReuse).value.device));
    hide Run, CheckAndClaim, LoadContext, Departed, Holdings, Orderly;
    assert l.accounts[index].views == d.channels[index].views;
  }

  lemma {:induction false} CommitmentRaises(
    l: Ledger, index: nat, view: View, next: Stated, context: Context, after: Ledger)
    requires Orderly(l) && Committed(l, index, view, next, context, after)
    requires Departed(l.accounts[index].views.Of(view), next, context).credit > 0
    ensures var before, now := l.accounts[index].views.Of(view), after.accounts[index].views.Of(view);
            && Holdings(now.exposure, now.tlcs)
              >= Holdings(before.exposure, before.tlcs) + Departed(before, next, context).credit
            && now.charged == before.charged
  {
    var views := l.accounts[index].views;
    assert !Mixes(RecordsOf(l), views.remote.tlcs + views.local.tlcs);
    forall tlc | Shows(views, tlc) {
      ReadsReleasedHeld(l, index, next, context, tlc);
    }
    assert !Mixes(context, views.Of(view).tlcs);
    CreditRaisesHoldings(view, views, next, context);
    hide Judge, Reads, Departed, Holdings, FiledIntents, FiledInvoices;
  }
}
