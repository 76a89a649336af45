/** An abandoned run beside the next one: what goes wrong once both
    read one hash, and that nothing goes wrong before. */
module PaymentOverlap {
  import opened Outcomes
  import opened Payments
  import opened PaymentFlow

  // ---- Where turns lead

  /** The turns can be taken one after another, none of them taking a hash that is being read. */
  ghost predicate Leads(s: State, actions: seq<Action>, after: State) {
    From(s, actions) == Some(after) && Apart(s, actions)
  }

  lemma {:induction false} OneLeads(s: State, action: Action, after: State)
    requires Next(s, action) == Some(after) && !TakesRead(s, action)
    ensures Leads(s, [action], after)
  {
    hide Next, TakesRead;
    var none: seq<Action> := [];
    assert [action][1..] == none;
    assert From(after, none) == Some(after) && Apart(after, none);
  }

  lemma {:induction false} Joins(s: State, a: seq<Action>, between: State, b: seq<Action>, after: State)
    requires Leads(s, a, between) && Leads(between, b, after)
    ensures Leads(s, a + b, after)
    decreases |a|
  {
    hide Next, TakesRead;
    if a == [] {
      assert a + b == b;
    } else {
      assert (a + b)[1..] == a[1..] + b;
      Joins(Next(s, a[0]).value, a[1..], between, b, after);
    }
  }

  lemma {:induction false} FromJoins(s: State, a: seq<Action>, b: seq<Action>)
    ensures From(s, a + b) == if From(s, a).None? then None else From(From(s, a).value, b)
    decreases |a|
  {
    hide Next;
    if a == [] {
      assert a + b == b;
    } else {
      assert (a + b)[1..] == a[1..] + b;
      if Next(s, a[0]).Some? {
        FromJoins(Next(s, a[0]).value, a[1..], b);
      }
    }
  }

  /** One more turn. */
  lemma {:induction false} Then(s: State, actions: seq<Action>, between: State, action: Action, after: State)
    requires Leads(s, actions, between) && Next(between, action) == Some(after) && !TakesRead(between, action)
    ensures Leads(s, actions + [action], after)
  {
    hide Next, TakesRead, Leads;
    OneLeads(between, action, after);
    Joins(s, actions, between, [action], after);
  }

  // ---- A run passes through its turns

  /** A run's turns from reading an answer to forgetting the hash, an intent to close on the way or none. */
  function Passes(id: nat, has: bool): seq<Action> {
    [Read(id, true)] + [Go(id)] + [Go(id)] + [Go(id)] + (if has then [Go(id)] + [Go(id)] else [Go(id)]) + [Go(id)]
  }

  lemma {:induction false} StandingAgain(s: State, id: nat, first: Answering, second: Answering)
    requires id in s.runs
    ensures Standing(Standing(s, id, first), id, second) == Standing(s, id, second)
    ensures Busy(Standing(s, id, first), id) && Current(Standing(s, id, first), id) == first
    ensures Standing(s, id, first).runs[id].abandoned == s.runs[id].abandoned
  {
    assert Standing(Standing(s, id, first), id, second).runs == Standing(s, id, second).runs;
  }

  /** A turn that only moves the run on leads from one standing to the next. */
  lemma {:induction false} Turns(s: State, id: nat, from: Answering, to: Answering)
    requires id in s.runs && from.hash == to.hash && from.seen == to.seen
    requires GoOn(Standing(s, id, from), id) == Some(Turned(Standing(s, id, from), id, to.turn))
    ensures Leads(Standing(s, id, from), [Go(id)], Standing(s, id, to))
  {
    StandingAgain(s, id, from, to);
    OneLeads(Standing(s, id, from), Go(id), Standing(s, id, to));
  }

  /** The state a run leaves at the turn that forgets its hash. */
  function AtForgetting(s: State, id: nat): State
    requires Busy(s, id)
  {
    var hash := Current(s, id).hash;
    Standing(s, id, Answering(hash, Forgetting, SentUnder(s, hash))).(debits := ClosedDebits(s, hash))
  }

  /** A run whose hash is watched reaches it, once the node says the payment has ended. */
  lemma {:induction false} PassesLead(s: State, id: nat)
    requires Busy(s, id) && IsLive(s, id) && Current(s, id).turn.Reading? && Current(s, id).hash in s.watched
    ensures Leads(s, Passes(id, IsRecorded(s, Current(s, id).hash)), AtForgetting(s, id))
  {
    var hash := Current(s, id).hash;
    var answer := Answering(hash, Answered(true), SentUnder(s, hash));
    var has, closed := IsRecorded(s, hash), s.(debits := ClosedDebits(s, hash));
    OneLeads(s, Read(id, true), Standing(s, id, answer));
    Turns(s, id, answer, answer.(turn := CheckingWatch));
    Turns(s, id, answer.(turn := CheckingWatch), answer.(turn := CheckingIntent));
    Turns(s, id, answer.(turn := CheckingIntent), answer.(turn := Deciding(has)));
    EndsLead(s, id, answer);
    Turns(closed, id, answer.(turn := Delivering), answer.(turn := Forgetting));
    assert AtForgetting(s, id) == Standing(closed, id, answer.(turn := Forgetting));
    hide Leads, Standing, From, Apart;
    var actions := [Read(id, true)];
    Joins(s, actions, Standing(s, id, answer), [Go(id)], Standing(s, id, answer.(turn := CheckingWatch)));
    Joins(s, actions + [Go(id)], Standing(s, id, answer.(turn := CheckingWatch)),
          [Go(id)], Standing(s, id, answer.(turn := CheckingIntent)));
    actions := actions + [Go(id)] + [Go(id)];
    Joins(s, actions, Standing(s, id, answer.(turn := CheckingIntent)), [Go(id)],
      Standing(s, id, answer.(turn := Deciding(has))));
    actions := actions + [Go(id)];
    var ends := if has then [Go(id)] + [Go(id)] else [Go(id)];
    Joins(s, actions, Standing(s, id, answer.(turn := Deciding(has))), ends,
      Standing(closed, id, answer.(turn := Delivering)));
    Joins(s, actions + ends, Standing(closed, id, answer.(turn := Delivering)),
          [Go(id)], Standing(closed, id, answer.(turn := Forgetting)));
  }

  /** Past its decision the run closes the intent, if one is recorded. */
  lemma {:induction false} EndsLead(s: State, id: nat, answer: Answering)
    requires IsLive(s, id)
    ensures var has := IsRecorded(s, answer.hash);
            Leads(Standing(s, id, answer.(turn := Deciding(has))), if has then [Go(id)] + [Go(id)] else [Go(id)],
                  Standing(s.(debits := ClosedDebits(s, answer.hash)), id, answer.(turn := Delivering)))
  {
    var has, closed := IsRecorded(s, answer.hash), s.(debits := ClosedDebits(s, answer.hash));
    var deciding, ending := answer.(turn := Deciding(has)), answer.(turn := Ending);
    StandingAgain(s, id, deciding, deciding);
    if has {
      Turns(s, id, deciding, ending);
      StandingAgain(s, id, ending, answer.(turn := Delivering));
      var after := Standing(closed, id, answer.(turn := Delivering));
      assert GoOn(Standing(s, id, ending), id) == Some(after);
      OneLeads(Standing(s, id, ending), Go(id), after);
      Joins(Standing(s, id, deciding), [Go(id)], Standing(s, id, ending), [Go(id)], after);
    } else {
      assert closed == s;
      Turns(s, id, deciding, answer.(turn := Delivering));
    }
  }

  // ---- A payment forgotten while its intent is open

  const HASH: PaymentHash := PaymentHash(1, 1)

  /** A payment is sent. */
  const SENT: seq<Action> := [Begin(0, HASH)] + [Watch(0)] + [Record(0, Approved)] + [Send(0)] + [Reply(0, Delivered)]

  /** A run takes it, finds it ended, closes its intent, and hangs
      past its deadline before the list has lost the hash. */
  const HUNG: seq<Action> := [Tick(0, [HASH])] + [Take(0)] + Passes(0, true) + [Abandon(0)]

  /** The next run takes the hash too, and only then does the hung one forget it, letting go of what both read. */
  const TAKEN: seq<Action> := [Tick(1, [HASH]), Take(1), Go(0)]

  /** A second transfer watches the hash again, and the run ends the first payment once more. */
  const AGAIN: seq<Action> := [Begin(1, HASH)] + [Watch(1)] + Passes(1, true)

  /** The transfer opens its intent and sends. */
  const RESENT: seq<Action> := [Record(1, Approved)] + [Send(1)]

  const OVERLAP: seq<Action> := SENT + HUNG + TAKEN + AGAIN + RESENT

  function Pass(abandoned: bool, turn: Turn, seen: nat): Run {
    Run([], abandoned, Some(Answering(HASH, turn, seen)))
  }

  const DONE: Run := Run([], true, None)

  const AFTER_SENT: State := State({HASH}, map[1 := Debit(HASH, true)], {}, {}, map[], map[], map[HASH := 1])

  const AFTER_HUNG: State :=
    State({HASH}, map[1 := Debit(HASH, false)], {}, {HASH}, map[], map[0 := Pass(true, Forgetting, 1)], map[HASH := 1])

  const AFTER_TAKEN: State :=
    State({}, map[1 := Debit(HASH, false)], {}, {}, map[], map[0 := DONE, 1 := Pass(false, Reading, 0)], map[HASH := 1])

  const AFTER_AGAIN: State :=
    State({HASH}, map[1 := Debit(HASH, false)], {HASH}, {}, map[1 := Transfer(HASH, Recording)],
          map[0 := DONE, 1 := Pass(false, Forgetting, 1)], map[HASH := 1])

  const AFTER_RESENT: State :=
    State({HASH}, map[1 := Debit(HASH, true)], {HASH}, {}, map[1 := Transfer(HASH, Awaiting)],
          map[0 := DONE, 1 := Pass(false, Forgetting, 1)], map[HASH := 2])

  lemma {:induction false} SentLeads()
    ensures Leads(START, SENT, AFTER_SENT)
  {
    var s1 := Next(START, Begin(0, HASH)).value;
    var s2 := Next(s1, Watch(0)).value;
    var s3 := Next(s2, Record(0, Approved)).value;
    var s4 := Next(s3, Send(0)).value;
    var s5 := Next(s4, Reply(0, Delivered)).value;
    assert s5.transfers == map[] && s5.debits == AFTER_SENT.debits && s5.sent == AFTER_SENT.sent;
    assert s5 == AFTER_SENT;
    OneLeads(START, Begin(0, HASH), s1);
    hide Leads;
    Then(START, [Begin(0, HASH)], s1, Watch(0), s2);
    Then(START, [Begin(0, HASH)] + [Watch(0)], s2, Record(0, Approved), s3);
    Then(START, [Begin(0, HASH)] + [Watch(0)] + [Record(0, Approved)], s3, Send(0), s4);
    Then(START, [Begin(0, HASH)] + [Watch(0)] + [Record(0, Approved)] + [Send(0)], s4, Reply(0, Delivered), s5);
  }

  const AFTER_TAKE: State :=
    State({HASH}, map[1 := Debit(HASH, true)], {}, {HASH}, map[], map[0 := Pass(false, Reading, 0)], map[HASH := 1])

  lemma {:induction false} TakeLeads()
    ensures Leads(AFTER_SENT, [Tick(0, [HASH])] + [Take(0)], AFTER_TAKE)
  {
    var s1 := Next(AFTER_SENT, Tick(0, [HASH])).value;
    var s2 := Next(s1, Take(0)).value;
    assert [HASH][1..] == [];
    assert s2.runs == AFTER_TAKE.runs && s2.reading == {HASH};
    OneLeads(AFTER_SENT, Tick(0, [HASH]), s1);
    hide Leads;
    Then(AFTER_SENT, [Tick(0, [HASH])], s1, Take(0), s2);
  }

  lemma {:induction false} HungLeads()
    ensures Leads(AFTER_SENT, HUNG, AFTER_HUNG)
  {
    TakeLeads();
    PassesLead(AFTER_TAKE, 0);
    var s3 := AtForgetting(AFTER_TAKE, 0);
    assert s3.debits == AFTER_HUNG.debits && s3.runs == map[0 := Pass(false, Forgetting, 1)];
    var s4 := Next(s3, Abandon(0)).value;
    assert s4.runs == AFTER_HUNG.runs;
    assert s4 == AFTER_HUNG;
    hide Leads, Passes;
    var take := [Tick(0, [HASH])] + [Take(0)];
    Joins(AFTER_SENT, take, AFTER_TAKE, Passes(0, true), s3);
    Then(AFTER_SENT, take + Passes(0, true), s3, Abandon(0), s4);
  }

  /** The one place where a hash being read is taken. */
  lemma {:induction false} TakenGoes()
    ensures From(AFTER_HUNG, TAKEN) == Some(AFTER_TAKEN)
    ensures TakesRead(Next(AFTER_HUNG, TAKEN[0]).value, TAKEN[1])
  {
    var s1 := Next(AFTER_HUNG, Tick(1, [HASH])).value;
    assert s1.runs == map[0 := Pass(true, Forgetting, 1), 1 := Run([HASH], false, None)];
    var s2 := Next(s1, Take(1)).value;
    assert [HASH][1..] == [];
    assert s2.runs == map[0 := Pass(true, Forgetting, 1), 1 := Pass(false, Reading, 0)];
    var s3 := Next(s2, Go(0)).value;
    assert s3.runs == AFTER_TAKEN.runs && s3.reading == {} && s3.watched == {};
    hide Next;
    assert From(s2, TAKEN[2..]) == Some(s3);
    assert From(s1, TAKEN[1..]) == Some(s3);
  }

  lemma {:induction false} AgainLeads()
    ensures Leads(AFTER_TAKEN, AGAIN, AFTER_AGAIN)
  {
    var s1 := Next(AFTER_TAKEN, Begin(1, HASH)).value;
    var s2 := Next(s1, Watch(1)).value;
    assert s2.transfers == AFTER_AGAIN.transfers && s2.watched == {HASH};
    var s3 := AtForgetting(s2, 1);
    assert s3.debits == AFTER_AGAIN.debits && s3.runs == AFTER_AGAIN.runs;
    OneLeads(AFTER_TAKEN, Begin(1, HASH), s1);
    PassesLead(s2, 1);
    hide Leads, Passes;
    Then(AFTER_TAKEN, [Begin(1, HASH)], s1, Watch(1), s2);
    Joins(AFTER_TAKEN, [Begin(1, HASH)] + [Watch(1)], s2, Passes(1, true), s3);
  }

  lemma {:induction false} ResentLeads()
    ensures Leads(AFTER_AGAIN, RESENT, AFTER_RESENT)
  {
    var s1 := Next(AFTER_AGAIN, Record(1, Approved)).value;
    var s2 := Next(s1, Send(1)).value;
    assert s2.transfers == AFTER_RESENT.transfers && s2.debits == AFTER_RESENT.debits && s2.sent == AFTER_RESENT.sent;
    OneLeads(AFTER_AGAIN, Record(1, Approved), s1);
    hide Leads;
    Then(AFTER_AGAIN, [Record(1, Approved)], s1, Send(1), s2);
  }

  lemma {:induction false} OverlapGoes()
    ensures After(OVERLAP) == Some(AFTER_RESENT)
  {
    SentLeads();
    HungLeads();
    TakenGoes();
    AgainLeads();
    ResentLeads();
    FromJoins(START, SENT, HUNG);
    FromJoins(START, SENT + HUNG, TAKEN);
    FromJoins(START, SENT + HUNG + TAKEN, AGAIN);
    FromJoins(START, SENT + HUNG + TAKEN + AGAIN, RESENT);
    hide From, Apart, Next;
  }

  /** A run about to forget a payment on an answer older than its last send, while its intent is
      open and a send in progress; one turn later the intent is open and unwatched. */
  lemma {:induction false} OverlapForgetsTheOpen()
    ensures After(OVERLAP).Some? && After(OVERLAP + [Go(1)]).Some?
    ensures var s := After(OVERLAP).value;
            && Busy(s, 1) && Current(s, 1).turn.Forgetting? && Current(s, 1).hash == HASH
            && Current(s, 1).seen < SentUnder(s, HASH) && HASH in s.sending && IsOpen(s, HASH)
    ensures var after := After(OVERLAP + [Go(1)]).value;
            IsOpen(after, HASH) && HASH !in after.watched
  {
    OverlapGoes();
    FromJoins(START, OVERLAP, [Go(1)]);
    OneLeads(AFTER_RESENT, Go(1), Next(AFTER_RESENT, Go(1)).value);
    hide From, Apart;
  }

  // ---- Every such take can end so

  lemma {:induction false} FreshId(taken: set<nat>) returns (id: nat)
    ensures id !in taken
    ensures forall other :: other in taken ==> other < id
  {
    id := 0;
    if taken != {} {
      var some :| some in taken;
      var above := FreshId(taken - {some});
      id := if above > some then above else some + 1;
      assert forall other :: other in taken ==> other == some || other in taken - {some};
    }
  }

  lemma {:induction false} Listing(hashes: set<PaymentHash>) returns (order: seq<PaymentHash>)
    ensures Enumerates(order, hashes)
  {
    order := [];
    if hashes != {} {
      var hash :| hash in hashes;
      var rest := Listing(hashes - {hash});
      order := [hash] + rest;
      ListedFirst(hash, rest, hashes - {hash});
    }
  }

  /** The hash is free for a transfer, though the run still reads it. */
  predicate Loose(s: State, id: nat, hash: PaymentHash) {
    && Reads(s, id, hash) && IsLive(s, id) && Current(s, id).turn.Reading?
    && hash !in s.reading && hash !in s.sending
  }

  /** And nothing says it is a payment in progress. */
  predicate Free(s: State, id: nat, hash: PaymentHash) {
    Loose(s, id, hash) && hash !in s.watched && !IsOpen(s, hash)
  }

  /** The run is past its deadline and about to forget a hash that is watched and closed, with no run live beside it. */
  ghost predicate Hangs(s: State, id: nat, hash: PaymentHash) {
    && Reads(s, id, hash) && Current(s, id).turn.Forgetting?
    && (forall other :: other in s.runs ==> !IsLive(s, other))
    && hash in s.watched && hash !in s.reading && hash !in s.sending && !IsOpen(s, hash)
  }

  lemma {:induction false} RunHangs(s: State, id: nat, hash: PaymentHash) returns (actions: seq<Action>, after: State)
    requires Loose(s, id, hash) && hash in s.watched && OneLive(s)
    ensures Leads(s, actions, after) && Hangs(after, id, hash)
    ensures HasTwin(after, hash) == HasTwin(s, hash)
  {
    var passes, between := Passes(id, IsRecorded(s, hash)), AtForgetting(s, id);
    after := Next(between, Abandon(id)).value;
    actions := passes + [Abandon(id)];
    PassesLead(s, id);
    assert forall other :: other in after.runs && other != id ==> (IsLive(after, other) <==> IsLive(s, other));
    hide Leads, Passes;
    Then(s, passes, between, Abandon(id), after);
  }

  /** A third run takes the hash, and the forgetting comes through. */
  lemma {:induction false} HangingFrees(s: State, id: nat, hash: PaymentHash)
    returns (actions: seq<Action>, next: nat, after: State)
    requires Hangs(s, id, hash)
    ensures Leads(s, actions, after) && Free(after, next, hash)
    ensures HasTwin(after, hash) == HasTwin(s, hash)
  {
    next := FreshId(s.runs.Keys);
    var rest := Listing(s.watched);
    var order := [hash] + rest;
    ListedFirst(hash, rest, s.watched);
    assert s.watched + {hash} == s.watched;
    hide Enumerates;
    var s1 := Next(s, Tick(next, order)).value;
    var s2 := Next(s1, Take(next)).value;
    after := Next(s2, Go(id)).value;
    actions := [Tick(next, order)] + [Take(next)] + [Go(id)];
    assert Free(after, next, hash);
    OneLeads(s, Tick(next, order), s1);
    hide Leads, Free;
    Then(s, [Tick(next, order)], s1, Take(next), s2);
    Then(s, [Tick(next, order)] + [Take(next)], s2, Go(id), after);
  }

  lemma {:induction false} ListedFirst(hash: PaymentHash, rest: seq<PaymentHash>, hashes: set<PaymentHash>)
    requires Enumerates(rest, hashes)
    ensures Enumerates([hash] + rest, hashes + {hash})
  {
    assert forall other :: other in rest <==> other in (set h | h in rest);
    assert forall other :: other in [hash] + rest <==> other == hash || other in rest;
  }

  /** The other run gives up, and the hash is free while the second run reads it. */
  lemma {:induction false} TakingLoosens(s: State, id: nat) returns (reader: nat, after: State)
    requires Keeps(s, {}) && TakesRead(s, Take(id))
    ensures Leads(TakeNext(s, id).value, [Give(reader)], after)
    ensures Loose(after, id, s.runs[id].queue[0]) && OneLive(after)
    ensures after.watched == s.watched && after.debits == s.debits
  {
    var hash, taken := s.runs[id].queue[0], TakeNext(s, id).value;
    reader :| Reads(s, reader, hash);
    after := Next(taken, Give(reader)).value;
    OneLeads(taken, Give(reader), after);
    assert forall other :: IsLive(after, other) <==> IsLive(s, other);
  }

  /** Whether it was watched or not, some run soon reads it freely. */
  lemma {:induction false} TakingFrees(s: State, id: nat) returns (actions: seq<Action>, run: nat, after: State)
    requires Keeps(s, {}) && TakesRead(s, Take(id))
    ensures var hash := s.runs[id].queue[0];
            && Leads(TakeNext(s, id).value, actions, after) && Free(after, run, hash)
            && HasTwin(after, hash) == HasTwin(s, hash)
  {
    var hash := s.runs[id].queue[0];
    var reader, loose := TakingLoosens(s, id);
    if hash in s.watched {
      var hangs, hung := RunHangs(loose, id, hash);
      var frees;
      frees, run, after := HangingFrees(hung, id, hash);
      hide Leads, Hangs, Free, TakeNext, Keeps;
      Joins(TakeNext(s, id).value, [Give(reader)], loose, hangs, hung);
      actions := [Give(reader)] + hangs + frees;
      Joins(TakeNext(s, id).value, [Give(reader)] + hangs, hung, frees, after);
    } else {
      actions, run, after := [Give(reader)], id, loose;
    }
  }

  /** A run is about to forget the hash of a transfer that watches it and has yet to record its intent. */
  predicate Beside(s: State, run: nat, t: nat, hash: PaymentHash) {
    && Reads(s, run, hash) && Current(s, run).turn.Forgetting? && Current(s, run).seen == SentUnder(s, hash)
    && At(s, t, Recording) && s.transfers[t].hash == hash && hash in s.sending && !IsOpen(s, hash)
  }

  /** A transfer watches a free hash, and the run passes. */
  lemma {:induction false} FreeLeadsBeside(s: State, run: nat, hash: PaymentHash)
    returns (actions: seq<Action>, t: nat, after: State)
    requires Free(s, run, hash)
    ensures Leads(s, actions, after) && Beside(after, run, t, hash)
    ensures HasTwin(after, hash) == HasTwin(s, hash)
  {
    t := FreshId(s.transfers.Keys);
    var s1 := Next(s, Begin(t, hash)).value;
    var s2 := Next(s1, Watch(t)).value;
    after := AtForgetting(s2, run);
    OneLeads(s, Begin(t, hash), s1);
    PassesLead(s2, run);
    var passes := Passes(run, IsRecorded(s2, hash));
    actions := [Begin(t, hash)] + [Watch(t)] + passes;
    assert Beside(after, run, t, hash);
    hide Leads, Passes, AtForgetting, Beside;
    Then(s, [Begin(t, hash)], s1, Watch(t), s2);
    Joins(s, [Begin(t, hash)] + [Watch(t)], s2, passes, after);
  }

  lemma {:induction false} TakingLeadsBeside(s: State, id: nat)
    returns (actions: seq<Action>, run: nat, t: nat, after: State)
    requires Keeps(s, {}) && TakesRead(s, Take(id))
    ensures var hash := s.runs[id].queue[0];
            && Leads(TakeNext(s, id).value, actions, after) && Beside(after, run, t, hash)
            && HasTwin(after, hash) == HasTwin(s, hash)
  {
    var frees, between;
    frees, run, between := TakingFrees(s, id);
    var goes;
    goes, t, after := FreeLeadsBeside(between, run, s.runs[id].queue[0]);
    actions := frees + goes;
    hide Leads, Free, Beside, TakeNext, Keeps, TakesRead;
    Joins(TakeNext(s, id).value, frees, between, goes, after);
  }

  /** The transfer opens its intent while the run is about to forget the hash. */
  lemma {:induction false} TakingLeadsOpen(s: State, id: nat)
    returns (actions: seq<Action>, run: nat, t: nat, after: State)
    requires Keeps(s, {}) && TakesRead(s, Take(id)) && !HasTwin(s, s.runs[id].queue[0])
    ensures var hash := s.runs[id].queue[0];
            && Leads(TakeNext(s, id).value, actions, after)
            && Reads(after, run, hash) && Current(after, run).turn.Forgetting?
              && Current(after, run).seen == SentUnder(after, hash)
            && At(after, t, PaymentFlow.Sending) && after.transfers[t].hash == hash && IsOpen(after, hash)
  {
    var goes, between;
    goes, run, t, between := TakingLeadsBeside(s, id);
    after := Next(between, Record(t, Approved)).value;
    actions := goes + [Record(t, Approved)];
    hide Leads, Keeps, TakesRead;
    Then(TakeNext(s, id).value, goes, between, Record(t, Approved), after);
  }

  // ---- Which takes are unsafe

  /** A run is about to close or forget a payment on an answer older than its last send. */
  ghost predicate EndsOnOlder(s: State) {
    exists run :: Busy(s, run) && (Current(s, run).turn.Ending? || Current(s, run).turn.Forgetting?)
                  && Current(s, run).seen < SentUnder(s, Current(s, run).hash)
  }

  /** A run is about to close or forget a payment whose send is in progress. */
  ghost predicate EndsMidSend(s: State) {
    exists run :: Busy(s, run) && (Current(s, run).turn.Ending? || Current(s, run).turn.Forgetting?)
                  && Current(s, run).hash in s.sending
  }

  /** A run is about to forget a payment whose intent is open. */
  ghost predicate ForgetsOpen(s: State) {
    exists run :: Busy(s, run) && Current(s, run).turn.Forgetting? && IsOpen(s, Current(s, run).hash)
  }

  /** A hash nobody reads, or no intent can be recorded under, may be taken: whatever
      follows, every later take being of an unread hash, keeps what every turn does. */
  lemma {:induction false} SafeTake(s: State, id: nat, actions: seq<Action>, after: State, twins: set<PaymentHash>)
    requires Keeps(s, {}) && CanTake(s, id) && Leads(TakeNext(s, id).value, actions, after)
    requires twins == if HasTwin(s, s.runs[id].queue[0]) then {s.runs[id].queue[0]} else {}
    requires s.runs[id].queue[0] in s.reading ==> HasTwin(s, s.runs[id].queue[0])
    ensures OpenIsWatched(after) && !EndsOnOlder(after) && !ForgetsOpen(after)
    ensures twins == {} ==> !EndsMidSend(after)
  {
    KeepsOfTwins(s, twins);
    TakingKeeps(s, id, twins);
    hide TakeNext, CanTake, From, Apart;
    KeepsFrom(TakeNext(s, id).value, actions, twins);
    KeptIsSafe(after, twins);
  }

  lemma {:induction false} KeptIsSafe(s: State, twins: set<PaymentHash>)
    requires Keeps(s, twins)
    ensures OpenIsWatched(s) && !EndsOnOlder(s) && !ForgetsOpen(s)
    ensures twins == {} ==> !EndsMidSend(s)
  {
    forall run | Busy(s, run)
      ensures AnswerStands(s, Current(s, run))
      ensures twins == {} ==> Current(s, run).hash !in s.sending
    {
      assert Reads(s, run, Current(s, run).hash);
    }
  }

  /** In any state reached with its runs apart, a run's next take can lead to an open intent nobody watches, every later
      take being of an unread hash, if and only if another run is reading the hash and no other payment holds its bound
      bytes. */
  lemma {:induction false} TakingIsSafeExactlyWhenUnread(before: seq<Action>, id: nat)
    requires After(before).Some? && Apart(START, before) && CanTake(After(before).value, id)
    ensures var s := After(before).value;
            (exists actions, after :: Leads(TakeNext(s, id).value, actions, after) && !OpenIsWatched(after))
            <==> s.runs[id].queue[0] in s.reading && !HasTwin(s, s.runs[id].queue[0])
  {
    EveryInterleavingKeeps(before);
    var s := After(before).value;
    var hash := s.runs[id].queue[0];
    hide After, Apart, Keeps, From, Leads;
    if hash in s.reading && !HasTwin(s, hash) {
      var opens, run, t, open := TakingLeadsOpen(s, id);
      var after := Next(open, Go(run)).value;
      Then(TakeNext(s, id).value, opens, open, Go(run), after);
      assert IsOpen(after, hash) && hash !in after.watched;
    } else {
      forall actions, after | Leads(TakeNext(s, id).value, actions, after)
        ensures OpenIsWatched(after)
      {
        SafeTake(s, id, actions, after, if HasTwin(s, hash) then {hash} else {});
      }
    }
  }

  /** And to a run that closes or forgets a payment on an answer older than its last send, exactly there too. */
  lemma {:induction false} EndsOnOlderExactlyWhenRead(before: seq<Action>, id: nat)
    requires After(before).Some? && Apart(START, before) && CanTake(After(before).value, id)
    ensures var s := After(before).value;
            (exists actions, after :: Leads(TakeNext(s, id).value, actions, after) && EndsOnOlder(after))
            <==> s.runs[id].queue[0] in s.reading && !HasTwin(s, s.runs[id].queue[0])
  {
    EveryInterleavingKeeps(before);
    var s := After(before).value;
    var hash := s.runs[id].queue[0];
    hide After, Apart, Keeps, From, Leads;
    if hash in s.reading && !HasTwin(s, hash) {
      var opens, run, t, open := TakingLeadsOpen(s, id);
      var after := Next(open, Send(t)).value;
      Then(TakeNext(s, id).value, opens, open, Send(t), after);
      assert Busy(after, run) && Current(after, run) == Current(open, run);
      assert EndsOnOlder(after);
    } else {
      forall actions, after | Leads(TakeNext(s, id).value, actions, after)
        ensures !EndsOnOlder(after)
      {
        SafeTake(s, id, actions, after, if HasTwin(s, hash) then {hash} else {});
      }
    }
  }

  /** And to a run that forgets a payment whose intent is open. */
  lemma {:induction false} ForgetsOpenExactlyWhenRead(before: seq<Action>, id: nat)
    requires After(before).Some? && Apart(START, before) && CanTake(After(before).value, id)
    ensures var s := After(before).value;
            (exists actions, after :: Leads(TakeNext(s, id).value, actions, after) && ForgetsOpen(after))
            <==> s.runs[id].queue[0] in s.reading && !HasTwin(s, s.runs[id].queue[0])
  {
    EveryInterleavingKeeps(before);
    var s := After(before).value;
    var hash := s.runs[id].queue[0];
    hide After, Apart, Keeps, From, Leads;
    if hash in s.reading && !HasTwin(s, hash) {
      var opens, run, t, open := TakingLeadsOpen(s, id);
      assert Busy(open, run) && Current(open, run).hash == hash;
      assert ForgetsOpen(open);
    } else {
      forall actions, after | Leads(TakeNext(s, id).value, actions, after)
        ensures !ForgetsOpen(after)
      {
        SafeTake(s, id, actions, after, if HasTwin(s, hash) then {hash} else {});
      }
    }
  }

  /** To a run that closes or forgets a payment on an older answer or amid its send,
      whoever holds the bound bytes, if and only if another run is reading the hash. */
  lemma {:induction false} EndsAmissExactlyWhenRead(before: seq<Action>, id: nat)
    requires After(before).Some? && Apart(START, before) && CanTake(After(before).value, id)
    ensures var s := After(before).value;
            (exists actions, after ::
               Leads(TakeNext(s, id).value, actions, after) && (EndsOnOlder(after) || EndsMidSend(after)))
            <==> s.runs[id].queue[0] in s.reading
  {
    EveryInterleavingKeeps(before);
    var s := After(before).value;
    var hash := s.runs[id].queue[0];
    hide After, Apart, Keeps, From, Leads;
    if hash in s.reading {
      var goes, run, t, beside := TakingLeadsBeside(s, id);
      assert Busy(beside, run) && Current(beside, run).hash == hash;
      assert EndsMidSend(beside);
    } else {
      forall actions, after | Leads(TakeNext(s, id).value, actions, after)
        ensures !EndsOnOlder(after) && !EndsMidSend(after)
      {
        UnreadTakeIsSafe(s, id, actions, after);
      }
    }
  }

  lemma {:induction false} UnreadTakeIsSafe(s: State, id: nat, actions: seq<Action>, after: State)
    requires Keeps(s, {}) && CanTake(s, id) && Leads(TakeNext(s, id).value, actions, after)
    requires s.runs[id].queue[0] !in s.reading
    ensures !EndsOnOlder(after) && !EndsMidSend(after)
  {
    TakingKeeps(s, id, {});
    hide TakeNext, CanTake, From, Apart;
    KeepsFrom(TakeNext(s, id).value, actions, {});
    KeptIsSafe(after, {});
  }
}
