/** Across channels: no payment draws more than its highest approved budget, wherever each channel settles. */
module Budgets {
  import opened Sums
  import opened Payments
  import opened BalanceRule
  import opened BalanceFacts
  import opened HoldRelease
  import opened Engine
  import opened Runs
  import opened Solvency

  // ---- A channel that draws on a hash is listed on its intent

  ghost predicate DrawsFiled(l: Ledger) {
    forall index, bound: Bound :: index in l.accounts && ChannelDraw(l.accounts[index].views, bound) > 0 ==>
      bound in l.intents && index in l.intents[bound].channels
  }

  /** Where a commitment leaves a channel's draw: no higher than it was, or within an open intent that then lists it. */
  lemma {:induction false} CommitDraws(
    l: Ledger, index: nat, view: View, next: Stated, context: Context, after: Ledger, bound: Bound)
    requires Committed(l, index, view, next, context, after)
    ensures var before, now := ChannelDraw(l.accounts[index].views, bound), ChannelDraw(after.accounts[index].views,
            bound);
            now > before ==>
              && bound in context.intents && bound in l.intents && context.intents[bound] == l.intents[bound]
              && l.intents[bound].open
              && now + Sum<nat>(OtherDraws(context, bound)) <= l.intents[bound].maximum
              && bound in HashesOf(next.tlcs)
  {
    var views := l.accounts[index].views;
    DrawsAreCovered(view, views, next, context, bound);
    hide Judge, Drawn;
    assert forall v: View, w: View, s :: v != w ==> views.With(v, s).Of(w) == views.Of(w);
  }

  lemma {:induction false} OpeningDrawsNothing(funded: nat, bound: Bound)
    ensures ChannelDraw(Views(OpeningSnapshot(funded), OpeningSnapshot(funded)), bound) == 0
  {
  }

  /** No intent disappears or forgets a channel. */
  lemma {:induction false} IntentsOnlyGrow(l: Ledger, move: Move, after: Ledger)
    requires Moves(l, move, after)
    ensures forall bound :: bound in l.intents ==>
              bound in after.intents && forall index :: index in l.intents[bound].channels ==>
                index in after.intents[bound].channels
  {
    hide Judge, Reads, ReleaseFault;
  }

  /** No channel disappears, and only a commitment moves a channel's draw. */
  lemma {:induction false} DrawsStay(l: Ledger, move: Move, after: Ledger, index: nat, bound: Bound)
    requires Moves(l, move, after) && index in after.accounts
    requires !(move.Commits? && move.index == index)
    ensures if index in l.accounts then after.accounts[index] == l.accounts[index]
            else ChannelDraw(after.accounts[index].views, bound) == 0
  {
    hide Judge, Reads, ReleaseFault, ChannelDraw, HashesOf, FiledIntents, FiledInvoices;
    if move.Opens? {
      OpeningDrawsNothing(move.funded, bound);
    }
  }

  lemma {:induction false} CommitIsFiled(
    l: Ledger, index: nat, view: View, next: Stated, context: Context, after: Ledger, bound: Bound)
    requires DrawsFiled(l) && Committed(l, index, view, next, context, after)
    requires ChannelDraw(after.accounts[index].views, bound) > 0
    ensures bound in after.intents && index in after.intents[bound].channels
  {
    CommitDraws(l, index, view, next, context, after, bound);
    hide Judge, Reads, ChannelDraw, HashesOf;
    assert ChannelDraw(l.accounts[index].views, bound) > 0 ==> index in l.intents[bound].channels;
  }

  lemma {:induction false} MoveKeepsFiled(l: Ledger, move: Move, after: Ledger)
    requires DrawsFiled(l) && Moves(l, move, after)
    ensures DrawsFiled(after)
  {
    hide Moves, ChannelDraw;
    IntentsOnlyGrow(l, move, after);
    forall index, bound: Bound | index in after.accounts && ChannelDraw(after.accounts[index].views, bound) > 0
      ensures bound in after.intents && index in after.intents[bound].channels
    {
      if move.Commits? && move.index == index {
        CommitMoves(l, move, after);
        CommitIsFiled(l, index, move.view, move.next, move.context, after, bound);
      } else {
        DrawsStay(l, move, after, index, bound);
      }
    }
  }

  // ---- The total draw stays within the highest budget

  ghost function Draws(l: Ledger, bound: Bound): map<nat, nat> {
    map index | index in l.accounts :: ChannelDraw(l.accounts[index].views, bound)
  }

  ghost predicate WithinBudgets(l: Ledger, highest: map<Bound, nat>) {
    && (forall bound: Bound :: Sum<nat>(Draws(l, bound)) <= Get(highest, bound))
    && (forall bound :: bound in l.intents ==> l.intents[bound].maximum <= Get(highest, bound))
  }

  /** A channel that draws on a hash is read by every commitment that involves the hash. */
  lemma {:induction false} DrawingIsRead(
    l: Ledger, index: nat, next: Stated, context: Context, bound: Bound, other: nat)
    requires index in l.accounts && Reads(l, index, next, context) && DrawsFiled(l)
    requires bound in context.intents
    requires other in l.accounts && other != index && ChannelDraw(l.accounts[other].views, bound) > 0
    ensures other in context.others
  {
    hide ChannelDraw, HashesOf;
    assert bound in l.intents && other in l.intents[bound].channels;
    assert context.intents[bound] == l.intents[bound];
  }

  lemma {:induction false} OthersMatch(l: Ledger, index: nat, next: Stated, context: Context, bound: Bound)
    requires index in l.accounts && Reads(l, index, next, context)
    ensures Over<nat>(Draws(l, bound) - {index}, context.others.Keys) == OtherDraws(context, bound)
  {
    hide ChannelDraw, HashesOf, ListedOn, IntentsUnder, InvoicesUnder;
    var draws, others := Draws(l, bound) - {index}, context.others;
    forall other | other in others
      ensures Over<nat>(draws, others.Keys)[other] == OtherDraws(context, bound)[other]
    {
      assert other in l.accounts && other != index;
    }
  }

  /** The channels a commitment's context reads are all those that draw on the hash. */
  lemma {:induction false} OthersAreAllDraws(l: Ledger, index: nat, next: Stated, context: Context, bound: Bound)
    requires index in l.accounts && Reads(l, index, next, context) && DrawsFiled(l)
    requires bound in context.intents
    ensures Sum<nat>(Draws(l, bound) - {index}) == Sum<nat>(OtherDraws(context, bound))
  {
    OthersMatch(l, index, next, context, bound);
    var draws := Draws(l, bound) - {index};
    forall other | other in draws && draws[other] > 0
      ensures other in context.others.Keys
    {
      DrawingIsRead(l, index, next, context, bound, other);
    }
    hide Reads, DrawsFiled, Draws, OtherDraws, Over;
    OverKeys<nat>(draws, context.others.Keys);
  }

  lemma {:induction false} CommitStaysWithin(
    l: Ledger, index: nat, view: View, next: Stated, context: Context, after: Ledger, highest: map<Bound, nat>,
    bound: Bound)
    requires Committed(l, index, view, next, context, after) && DrawsFiled(l) && WithinBudgets(l, highest)
    ensures Sum<nat>(Draws(after, bound)) <= Get(highest, bound)
  {
    hide Judge, ChannelDraw, HashesOf, FiledIntents, FiledInvoices;
    CommitDraws(l, index, view, next, context, after, bound);
    var draws, now := Draws(l, bound), ChannelDraw(after.accounts[index].views, bound);
    assert Draws(after, bound) == draws[index := now];
    Update<nat>(draws, index, now);
    assert Sum<nat>(Draws(after, bound)) == Sum<nat>(draws) + now - draws[index];
    if now > draws[index] {
      OthersAreAllDraws(l, index, next, context, bound);
      Pull<nat>(draws, index);
      assert Sum<nat>(Draws(after, bound)) == now + Sum<nat>(OtherDraws(context, bound));
      assert l.intents[bound].maximum <= Get(highest, bound);
    }
  }

  /** Any move but a commitment leaves the total draw under a hash. */
  lemma {:induction false} OtherMovesDrawNothing(l: Ledger, move: Move, after: Ledger, bound: Bound)
    requires Moves(l, move, after) && !move.Commits?
    ensures Sum<nat>(Draws(after, bound)) == Sum<nat>(Draws(l, bound))
  {
    hide ChannelDraw, HashesOf, FiledIntents, FiledInvoices, ReleaseFault, Committed;
    if move.Opens? {
      OpeningDrawsNothing(move.funded, bound);
      Update<nat>(Draws(l, bound), move.index, 0);
      assert Draws(after, bound) == Draws(l, bound)[move.index := 0];
    } else {
      assert after.accounts == l.accounts;
    }
  }

  /** No move raises a budget but its approval. */
  lemma {:induction false} MaximumsStay(l: Ledger, move: Move, after: Ledger, bound: Bound)
    requires Moves(l, move, after) && bound in after.intents
    ensures (bound in l.intents && after.intents[bound].maximum == l.intents[bound].maximum)
            || (move.Budgets? && move.hash.bound == bound && after.intents[bound].maximum == move.maximum)
  {
    hide Judge, Reads, ReleaseFault, HashesOf;
  }

  lemma {:induction false} MoveStaysWithin(
    l: Ledger, move: Move, after: Ledger, highest: map<Bound, nat>, raised: map<Bound, nat>)
    requires Moves(l, move, after) && DrawsFiled(l) && WithinBudgets(l, highest)
    requires forall bound: Bound :: Get(highest, bound) <= Get(raised, bound)
    requires move.Budgets? ==> Get(raised, move.hash.bound) >= move.maximum
    ensures WithinBudgets(after, raised)
  {
    hide Moves, Draws, DrawsFiled;
    forall bound: Bound
      ensures Sum<nat>(Draws(after, bound)) <= Get(raised, bound)
    {
      if move.Commits? {
        CommitMoves(l, move, after);
        CommitStaysWithin(l, move.index, move.view, move.next, move.context, after, highest, bound);
      } else {
        OtherMovesDrawNothing(l, move, after, bound);
      }
    }
    forall bound | bound in after.intents {
      MaximumsStay(l, move, after, bound);
    }
  }

  /** Over every run and for every payment hash, what all channels draw
      at their worst is at most the highest budget approved. */
  lemma {:induction false} DrawsStayWithinBudgets(events: seq<Event>)
    ensures DrawsFiled(LedgerOf(Run(events)))
    ensures WithinBudgets(LedgerOf(Run(events)), Highest(events))
  {
    if events == [] {
      assert forall bound: Bound :: Draws(LedgerOf(NO_RECORDS), bound) == map[];
    } else {
      var before, last := events[..|events| - 1], events[|events| - 1];
      DrawsStayWithinBudgets(before);
      var move := StepMoves(Run(before), last);
      assert Attempt(Run(before), last).Accept? && last.Approves? ==>
             RecordIntent(Run(before), last.hash, last.maximum).Accept?;
      hide Step, Attempt, Moves, RecordIntent, DrawsFiled, WithinBudgets;
      MoveKeepsFiled(LedgerOf(Run(before)), move, LedgerOf(Run(events)));
      MoveStaysWithin(LedgerOf(Run(before)), move, LedgerOf(Run(events)), Highest(before), Highest(events));
    }
  }

  lemma {:induction false} ClosedMoveFalls(l: Ledger, move: Move, after: Ledger, index: nat, bound: Bound)
    requires Moves(l, move, after) && index in l.accounts && index in after.accounts
    requires bound !in l.intents || !l.intents[bound].open
    ensures ChannelDraw(after.accounts[index].views, bound) <= ChannelDraw(l.accounts[index].views, bound)
  {
    hide Moves, ChannelDraw, Committed;
    if move.Commits? && move.index == index {
      CommitMoves(l, move, after);
      CommitDraws(l, index, move.view, move.next, move.context, after, bound);
    } else {
      DrawsStay(l, move, after, index, bound);
    }
  }

  lemma {:induction false} ChannelsStay(l: Ledger, move: Move, after: Ledger, index: nat)
    requires Moves(l, move, after) && index in l.accounts
    ensures index in after.accounts
  {
    hide Judge, Reads, ReleaseFault, HashesOf, FiledIntents, FiledInvoices;
  }

  /** While a hash has no open intent, no step raises any channel's draw on it. */
  lemma {:induction false} ClosedDrawsOnlyFall(events: seq<Event>, e: Event, index: nat, bound: Bound)
    requires index in Run(events).channels
    requires bound !in Run(events).intents || !Run(events).intents[bound].open
    ensures index in Run(events + [e]).channels
    ensures ChannelDraw(Run(events + [e]).channels[index].views, bound)
            <= ChannelDraw(Run(events).channels[index].views, bound)
  {
    assert (events + [e])[..|events|] == events;
    var l, after := LedgerOf(Run(events)), LedgerOf(Run(events + [e]));
    var move := StepMoves(Run(events), e);
    hide Run, Step, ChannelDraw, Moves;
    ChannelsStay(l, move, after, index);
    ClosedMoveFalls(l, move, after, index, bound);
  }

  // ---- Exposures across channels, whichever view of each is broadcast

  ghost function OfferedRow(tlcs: seq<Tlc>, keys: set<Bound>): map<Bound, int> {
    map bound | bound in keys :: Total(tlcs, OfferedUnder(bound))
  }

  lemma {:induction false} NothingOffered(keys: set<Bound>)
    ensures Sum<nat>(OfferedRow([], keys)) == 0
  {
    var none: map<Bound, nat> := map[];
    OverKeys<nat>(none, keys);
    assert OfferedRow([], keys) == Over<nat>(none, keys);
  }

  /** One TLC more adds its amount to its own hash's total, if it is offered. */
  lemma {:induction false} OfferedRowOfMore(tlcs: seq<Tlc>, keys: set<Bound>)
    requires tlcs != []
    ensures var tlc, rest := tlcs[0], OfferedRow(tlcs[1..], keys);
            OfferedRow(tlcs, keys)
            == if tlc.direction.Offered? && tlc.bound in keys then rest[tlc.bound := rest[tlc.bound] + tlc.amount]
              else rest
  {
  }

  lemma {:induction false} OfferedByHash(tlcs: seq<Tlc>, keys: set<Bound>)
    requires forall bound: Bound :: bound !in keys ==> Total(tlcs, OfferedUnder(bound)) == 0
    ensures Total(tlcs, OFFERED) == Sum<nat>(OfferedRow(tlcs, keys))
  {
    if tlcs == [] {
      NothingOffered(keys);
    } else {
      var tlc, rest := tlcs[0], OfferedRow(tlcs[1..], keys);
      forall bound: Bound | bound !in keys
        ensures Total(tlcs[1..], OfferedUnder(bound)) == 0
      {
        assert Total(tlcs, OfferedUnder(bound)) == 0;
      }
      assert tlc.direction.Offered? && tlc.bound !in keys ==> tlc.amount == 0 by {
        assert tlc.bound !in keys ==> Total(tlcs, OfferedUnder(tlc.bound)) == 0;
      }
      OfferedByHash(tlcs[1..], keys);
      OfferedRowOfMore(tlcs, keys);
      hide OfferedRow;
      if tlc.direction.Offered? && tlc.bound in keys {
        Update<nat>(rest, tlc.bound, rest[tlc.bound] + tlc.amount);
      }
    }
  }

  ghost function DrawRow(views: Views, keys: set<Bound>): map<Bound, int> {
    map bound | bound in keys :: ChannelDraw(views, bound)
  }

  lemma {:induction false} DrawBounds(views: Views, view: View, bound: Bound)
    ensures Total(views.Of(view).tlcs, OfferedUnder(bound)) + Get(views.Of(view).charged, bound)
            <= ChannelDraw(views, bound)
  {
  }

  /** What a view offers and was charged is drawn, hash by hash, by its channel. */
  lemma {:induction false} OfferedAndChargedAreDrawn(views: Views, view: View, keys: set<Bound>)
    requires forall bound: Bound :: bound !in keys ==> ChannelDraw(views, bound) == 0
    ensures Total(views.Of(view).tlcs, OFFERED) + Sum<nat>(views.Of(view).charged) <= Sum<nat>(DrawRow(views, keys))
  {
    hide ChannelDraw, Total;
    var s := views.Of(view);
    forall bound: Bound {
      DrawBounds(views, view, bound);
    }
    OfferedByHash(s.tlcs, keys);
    OverKeys<nat>(s.charged, keys);
    var both := map bound | bound in keys :: OfferedRow(s.tlcs, keys)[bound] + Over<nat>(s.charged, keys)[bound];
    Plus<nat>(OfferedRow(s.tlcs, keys), Over<nat>(s.charged, keys), both);
    Monotone<nat>(both, DrawRow(views, keys));
  }

  ghost function Exposures(l: Ledger, choice: nat -> View): map<nat, int> {
    map index | index in l.accounts :: l.accounts[index].views.Of(choice(index)).exposure
  }

  ghost function Funded(l: Ledger): map<nat, int> {
    map index | index in l.accounts :: l.accounts[index].funded
  }

  ghost function CreditedAt(l: Ledger, choice: nat -> View): map<nat, int> {
    map index | index in l.accounts :: Sum<nat>(l.accounts[index].views.Of(choice(index)).credited)
  }

  ghost function DrawTable(l: Ledger, keys: set<Bound>): map<nat, map<Bound, int>> {
    map index | index in l.accounts :: DrawRow(l.accounts[index].views, keys)
  }

  lemma {:induction false} ColumnIsDraws(l: Ledger, keys: set<Bound>, bound: Bound)
    requires bound in keys
    ensures forall index :: index in DrawTable(l, keys) ==> DrawTable(l, keys)[index].Keys == keys
    ensures Column<nat, nat>(DrawTable(l, keys), keys, bound) == Draws(l, bound)
  {
    hide ChannelDraw;
  }

  lemma {:induction false} TableStaysWithin(l: Ledger, highest: map<Bound, nat>)
    requires WithinBudgets(l, highest)
    ensures Sum<nat>(RowSums<nat, nat>(DrawTable(l, l.intents.Keys))) <= Sum<nat>(highest)
  {
    var keys := l.intents.Keys;
    var table, bounds := DrawTable(l, keys), Over<nat>(highest, keys);
    forall index | index in table
      ensures table[index].Keys == keys
    {
    }
    forall bound | bound in keys
      ensures Sum<nat>(Column<nat, nat>(table, keys, bound)) <= bounds[bound]
    {
      ColumnIsDraws(l, keys, bound);
    }
    hide DrawTable;
    Exchange<nat, nat>(table, keys, bounds);
    OverKeys<nat>(highest, keys + highest.Keys);
    Monotone<nat>(bounds, Over<nat>(highest, keys + highest.Keys));
  }

  lemma {:induction false} AccountCovers(l: Ledger, choice: nat -> View, index: nat)
    requires AllSolvent(l) && DrawsFiled(l) && index in l.accounts
    ensures Exposures(l, choice)[index] + RowSums<nat, nat>(DrawTable(l, l.intents.Keys))[index]
            >= Funded(l)[index] + CreditedAt(l, choice)[index]
  {
    var keys := l.intents.Keys;
    var views, view := l.accounts[index].views, choice(index);
    assert Solvent(l.accounts[index].funded, views.Of(view));
    assert forall bound: Bound :: bound !in keys ==> ChannelDraw(views, bound) == 0;
    OfferedAndChargedAreDrawn(views, view, keys);
  }

  lemma {:induction false} LedgerCovers(l: Ledger, highest: map<Bound, nat>, choice: nat -> View)
    requires AllSolvent(l) && DrawsFiled(l) && WithinBudgets(l, highest)
    ensures Sum<nat>(Exposures(l, choice)) + Sum<nat>(highest) >= Sum<nat>(Funded(l)) + Sum<nat>(CreditedAt(l, choice))
  {
    TableStaysWithin(l, highest);
    forall index | index in l.accounts {
      AccountCovers(l, choice, index);
    }
    var exposures, funded, credited := Exposures(l, choice), Funded(l), CreditedAt(l, choice);
    var rows := RowSums<nat, nat>(DrawTable(l, l.intents.Keys));
    hide AllSolvent, DrawsFiled, WithinBudgets, Exposures, Funded, CreditedAt;
    AddUp(exposures, rows, funded, credited);
  }

  lemma {:induction false} AddUp(a: map<nat, int>, b: map<nat, int>, c: map<nat, int>, d: map<nat, int>)
    requires a.Keys == b.Keys == c.Keys == d.Keys
    requires forall k :: k in a ==> a[k] + b[k] >= c[k] + d[k]
    ensures Sum<nat>(a) + Sum<nat>(b) >= Sum<nat>(c) + Sum<nat>(d)
  {
    var high: map<nat, int> := map k | k in a :: a[k] + b[k];
    var low: map<nat, int> := map k | k in a :: c[k] + d[k];
    Plus<nat>(a, b, high);
    Plus<nat>(c, d, low);
    Monotone<nat>(low, high);
  }

  /** Over every run, and whichever view of each channel is broadcast, the exposures sum to everything
      funded and credited, less at most the highest budget ever approved under each payment hash. */
  lemma {:induction false} ExposuresCoverFunds(events: seq<Event>, choice: nat -> View)
    ensures var l := LedgerOf(Run(events));
            Sum<nat>(Exposures(l, choice)) + Sum<nat>(Highest(events))
              >= Sum<nat>(Funded(l)) + Sum<nat>(CreditedAt(l, choice))
  {
    RunsStaySolvent(events);
    DrawsStayWithinBudgets(events);
    LedgerCovers(LedgerOf(Run(events)), Highest(events), choice);
  }
}
