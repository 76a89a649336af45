/** A claim or a record's step left alone in the lane is carried
    through: its turns lead to what the whole step would leave. */
module LeftAlone {
  import opened Outcomes
  import opened Payments
  import opened Watchtower
  import opened Records
  import opened Engine
  import opened Runs
  import opened SignOnce
  import opened Interleaving
  import opened SmallSteps

  ghost predicate Leads(s: State, turns: seq<Turn>, after: State)
    decreases |turns|
  {
    if turns == [] then s == after
    else Next(s, turns[0]).Some? && Leads(Next(s, turns[0]).value, turns[1..], after)
  }

  lemma {:induction false} OneMore(s: State, turn: Turn, turns: seq<Turn>, after: State)
    requires Next(s, turn).Some? && Leads(Next(s, turn).value, turns, after)
    ensures Leads(s, [turn] + turns, after)
  {
    hide Next;
    assert ([turn] + turns)[1..] == turns;
  }

  /** What is left of a claim: its phase, and how much of the phase. */
  function PhaseLeft(p: Pending): nat {
    if !p.Claiming? then 0
    else match p.phase
      case Reading(_) => 2
      case Looking(_) => 1
      case Filing(_) => 0
  }

  function TodoLeft(p: Pending): nat {
    if !p.Claiming? then 0
    else match p.phase
      case Reading(hashes) => |hashes|
      case Looking(others) => |others|
      case Filing(hashes) => |hashes|
  }

  predicate SameClaimAs(p: Pending, q: Pending) {
    && p.Claiming? && q.Claiming? && p.index == q.index && p.claim == q.claim && p.allowReuse == q.allowReuse
    && p.record == q.record
  }

  /** The lane's claim has a next turn that keeps it and leaves less of it, until it writes. */
  ghost predicate GoesOnBy(s: State, turn: Turn, events: seq<Event>) {
    && Next(s, turn).Some?
    && var next := Next(s, turn).value;
       && Stands(next, events) && SameClaimAs(s.pending, next.pending) && next.served == s.served
       && (PhaseLeft(next.pending) < PhaseLeft(s.pending)
           || (PhaseLeft(next.pending) == PhaseLeft(s.pending) && TodoLeft(next.pending) < TodoLeft(s.pending)))
  }

  /** The gate accepts the claim, on the record it read. */
  ghost predicate Accepted(events: seq<Event>, p: Pending) {
    && p.Claiming? && CheckAndClaim(Run(events), p.index, p.claim, p.allowReuse).Accept?
    && p.index in Run(events).channels && p.record == Run(events).channels[p.index]
  }

  lemma {:induction false} ReadingGoesOn(s: State, events: seq<Event>) returns (turn: Turn)
    requires Stands(s, events) && s.pending.Claiming? && s.pending.phase.Reading?
    ensures GoesOnBy(s, turn, events)
  {
    hide Stands, Run, ServedIn, WithRead, ListedOn;
    var hashes := s.pending.phase.hashes;
    if hashes == {} {
      turn := Looks;
    } else {
      var hash :| hash in hashes;
      turn := ReadsUnder(hash);
    }
    ReadingStands(s, events, turn);
  }

  lemma {:induction false} LookingGoesOn(s: State, events: seq<Event>) returns (turn: Turn)
    requires Stands(s, events) && s.pending.Claiming? && s.pending.phase.Looking? && s.pending.phase.others != {}
    ensures GoesOnBy(s, turn, events)
  {
    hide Stands, Run, ServedIn, ListedOn;
    var other :| other in s.pending.phase.others;
    turn := LooksAt(other);
    ListedIsThere(s, events, other);
    ReadingStands(s, events, turn);
  }

  /** Every channel a claim still has to look at is registered. */
  lemma {:induction false} ListedIsThere(s: State, events: seq<Event>, other: nat)
    requires Stands(s, events) && s.pending.Claiming? && s.pending.phase.Looking? && other in s.pending.phase.others
    ensures other in s.device.channels
  {
    hide Run, ServedIn, LoadContext, CheckAndClaim, Involved;
    RunsKeepListed(events);
    FilesNone(Run(events), s.pending.index);
    assert other in LedgerOf(Run(events)).accounts;
  }

  lemma {:induction false} DecidingGoesOn(s: State, events: seq<Event>) returns (turn: Turn)
    requires Stands(s, events) && s.pending.Claiming? && s.pending.phase == Looking({}) && Accepted(events, s.pending)
    ensures GoesOnBy(s, turn, events)
  {
    hide Run, ServedIn, LoadContext, Decide;
    var d, p := Run(events), s.pending;
    turn := Decides;
    AllIsRead(d, p);
    hide Stands;
    ReadingStands(s, events, turn);
  }

  lemma {:induction false} FilingGoesOn(s: State, events: seq<Event>) returns (turn: Turn)
    requires Stands(s, events) && s.pending.Claiming? && s.pending.phase.Filing? && s.pending.phase.hashes != {}
    ensures GoesOnBy(s, turn, events)
  {
    hide Stands, Run, ServedIn;
    var hash :| hash in s.pending.phase.hashes;
    turn := Turn.Files(hash);
    FileOneStands(s, events, hash);
  }

  lemma {:induction false} WritingEnds(s: State, events: seq<Event>)
    requires Stands(s, events) && s.pending.Claiming? && s.pending.phase == Filing({})
    ensures Write(s).Some?
    ensures var e := Signs(s.pending.index, s.pending.claim, s.pending.allowReuse);
            && Answers(Run(events), e) && Write(s).value.device == Step(Run(events), e) && Write(s).value.pending.Idle?
            && Write(s).value.served == s.served + {SlotServed(e.index, SlotOf(e.claim), e.claim.session)}
  {
    hide Run, ServedIn, LoadContext, CheckAndClaim, Decide, HashesOf;
    assert s.device.channels == Run(events).channels;
    WrittenWhole(s, Run(events));
  }

  /** From any point of an accepted claim, its own turns lead to what the whole step leaves. */
  lemma {:induction false} ClaimFinishes(s: State, events: seq<Event>) returns (turns: seq<Turn>, after: State)
    requires Stands(s, events) && Accepted(events, s.pending)
    ensures Leads(s, turns, after) && after.pending.Idle?
    ensures var e := Signs(s.pending.index, s.pending.claim, s.pending.allowReuse);
            && after.device == Step(Run(events), e)
            && after.served == s.served + {SlotServed(e.index, SlotOf(e.claim), e.claim.session)}
    decreases PhaseLeft(s.pending), TodoLeft(s.pending)
  {
    hide Stands, Run, Step, ServedIn, CheckAndClaim;
    var turn;
    if s.pending.phase.Reading? {
      turn := ReadingGoesOn(s, events);
    } else if s.pending.phase.Looking? && s.pending.phase.others != {} {
      turn := LookingGoesOn(s, events);
    } else if s.pending.phase.Looking? {
      turn := DecidingGoesOn(s, events);
    } else if s.pending.phase.hashes != {} {
      turn := FilingGoesOn(s, events);
    } else {
      WritingEnds(s, events);
      after := Write(s).value;
      assert Leads(after, [], after);
      OneMore(s, Writes, [], after);
      assert [Writes] + [] == [Writes];
      return [Writes], after;
    }
    var next := Next(s, turn).value;
    hide Next;
    var more;
    more, after := ClaimFinishes(next, events);
    turns := [turn] + more;
    OneMore(s, turn, more, after);
  }

  /** In every interleaving, once the lane is free: a claim the gate accepts is answered
      and written by turns of its own, to the state the whole step leaves. */
  lemma {:induction false} AcceptedIsWritten(done: seq<Turn>, index: nat, claim: Claim, allowReuse: bool)
    returns (turns: seq<Turn>, after: State)
    requires After(done).Some? && After(done).value.pending.Idle?
    requires Sign(After(done).value.device, index, claim, allowReuse).Accept?
    ensures Leads(After(done).value, turns, after) && after.pending.Idle?
    ensures after.device == Sign(After(done).value.device, index, claim, allowReuse).value.device
    ensures after.served == After(done).value.served + {SlotServed(index, SlotOf(claim), claim.session)}
  {
    var s := After(done).value;
    var events := TurnsStand(done);
    FilesNone(Run(events), 0);
    hide After, Run, ServedIn, LoadContext, Decide;
    StartStands(s, events, index, claim, allowReuse);
    var started := Start(s, index, claim, allowReuse).value;
    hide Stands, CheckAndClaim;
    var more;
    more, after := ClaimFinishes(started, events);
    turns := [Starts(index, claim, allowReuse)] + more;
    OneMore(s, Starts(index, claim, allowReuse), more, after);
  }

  /** And so is a step on a payment record. */
  lemma {:induction false} AnsweredIsPut(done: seq<Turn>, e: Event)
    requires After(done).Some? && After(done).value.pending.Idle? && OnRecords(e)
    requires Attempt(After(done).value.device, e).Accept?
    ensures var s := After(done).value;
            Leads(s, [Asks(e), Puts], s.(device := Attempt(s.device, e).value))
  {
    var s := After(done).value;
    RecordsAlone(s.device, e);
    hide After, Attempt;
    var asked := Ask(s, e).value;
    var put := Put(asked).value;
    assert put == s.(device := Attempt(s.device, e).value);
    var none: seq<Turn> := [];
    assert Leads(put, none, put);
    OneMore(asked, Puts, none, put);
    OneMore(s, Asks(e), [Puts] + none, put);
    assert [Asks(e)] + ([Puts] + none) == [Asks(e), Puts];
  }
}
