/** Per view: the device never holds less than it funded and was credited, less what its payments were charged. */
module Solvency {
  import opened Sums
  import opened Payments
  import opened BalanceRule
  import opened BalanceFacts
  import opened Records
  import opened Engine
  import opened Runs

  /** What a view holds and was charged covers what the channel funded and what the view was credited. */
  ghost predicate Solvent(funded: nat, s: Snapshot) {
    Holdings(s.exposure, s.tlcs) + Sum(s.charged) >= funded + Sum(s.credited)
  }

  ghost predicate AllSolvent(l: Ledger) {
    forall index, view: View :: index in l.accounts ==>
      Solvent(l.accounts[index].funded, l.accounts[index].views.Of(view))
  }

  lemma {:induction false} OpeningIsSolvent(funded: nat)
    ensures Solvent(funded, OpeningSnapshot(funded))
  {
  }

  lemma {:induction false} MoveKeepsSolvent(l: Ledger, move: Move, after: Ledger)
    requires AllSolvent(l) && Moves(l, move, after)
    ensures AllSolvent(after)
  {
    hide Judge, Reads, FiledIntents, FiledInvoices;
    forall index, view: View | index in after.accounts
      ensures Solvent(after.accounts[index].funded, after.accounts[index].views.Of(view))
    {
      if move.Commits? && move.index == index && move.view == view {
        var account := l.accounts[index];
        assert Solvent(account.funded, account.views.Of(view));
        HoldingsAreKept(view, account.views, move.next, move.context);
      } else if move.Opens? && move.index == index {
        OpeningIsSolvent(move.funded);
      } else {
        hide Solvent;
        assert Solvent(l.accounts[index].funded, l.accounts[index].views.Of(view));
      }
    }
  }

  /** Over every run, every view of every channel stays solvent. */
  lemma {:induction false} RunsStaySolvent(events: seq<Event>)
    ensures AllSolvent(LedgerOf(Run(events)))
  {
    if events != [] {
      var before := events[..|events| - 1];
      RunsStaySolvent(before);
      var move := StepMoves(Run(before), events[|events| - 1]);
      hide Step, Moves;
      MoveKeepsSolvent(LedgerOf(Run(before)), move, LedgerOf(Run(events)));
    }
  }

  /** After any run, a close the gate accepts pays what was funded and
      credited, less what was charged and one close fee. */
  lemma {:induction false} ClosesPayOut(events: seq<Event>, index: nat, claim: Claim, allowReuse: bool, view: View)
    requires claim.operation.ClosingTx?
    requires CheckAndClaim(Run(events), index, claim, allowReuse).Accept?
    requires !IsRepeat(Run(events).channels[index], claim)
    ensures var record := Run(events).channels[index];
            claim.operation.payout + MAX_SHUTDOWN_FEE_SHANNONS + Sum(record.views.Of(view).charged)
            >= record.funded + Sum(record.views.Of(view).credited)
  {
    RunsStaySolvent(events);
    var record := Run(events).channels[index];
    DecisionIsWritten(claim, allowReuse, record, LoadContext(Run(events), index, claim.operation).value);
    hide Run, Decide;
    var account := LedgerOf(Run(events)).accounts[index];
    assert Solvent(account.funded, account.views.Of(view));
  }
}
