/** Where a settlement body may come from, and what a lineage of spends releases. */
module Descent {
  import opened ByteStrings
  import opened Settlement

  // ---- The check

  function CountEntry(entries: seq<Bytes>, entry: Bytes): nat {
    multiset(entries)[entry]
  }

  predicate IsSettled(balance: Balance) {
    balance.amount == 0 && IsZero(balance.keyHash)
  }

  predicate BalanceFault(balance: Balance, committed: Balance) {
    !IsSettled(balance) && balance != committed
  }

  /** The entry at an index is one the commitment does not list, or lists fewer times than the body does so far. */
  predicate EntryFault(body: Body, committed: Body, index: nat)
    requires index < |body.entries|
  {
    CountEntry(body.entries[..index + 1], body.entries[index]) > CountEntry(committed.entries, body.entries[index])
  }

  /** The descent check as two loops, entries before balances. */
  method FindDescentFault(body: Body, committed: Body) returns (fault: bool)
    ensures fault <==> !Descends(body, committed)
  {
    for index := 0 to |body.entries|
      invariant forall i :: 0 <= i < index ==> !EntryFault(body, committed, i)
    {
      var listed := CountEntry(committed.entries, body.entries[index]);
      if listed == 0 {
        assert body.entries[index] in body.entries[..index + 1] by {
          assert body.entries[..index + 1][index] == body.entries[index];
        }
        assert EntryFault(body, committed, index);
        FaultsShow(body, committed);
        return true;
      }
      if CountEntry(body.entries[..index + 1], body.entries[index]) > listed {
        assert EntryFault(body, committed, index);
        FaultsShow(body, committed);
        return true;
      }
      assert !EntryFault(body, committed, index);
    }
    FaultsShow(body, committed);
    for index := 0 to 2
      invariant forall i :: 0 <= i < index ==> !BalanceFault(body.At(i), committed.At(i))
    {
      if BalanceFault(body.At(index), committed.At(index)) {
        return true;
      }
    }
    assert !BalanceFault(body.At(0), committed.At(0)) && !BalanceFault(body.At(1), committed.At(1));
    fault := false;
  }

  /** What the check means: the entries are a sub-multiset of the commitment's, and each balance is its or settled. */
  predicate Descends(body: Body, committed: Body) {
    && multiset(body.entries) <= multiset(committed.entries)
    && (IsSettled(body.first) || body.first == committed.first)
    && (IsSettled(body.second) || body.second == committed.second)
  }

  lemma {:induction false} LastCountFault(entries: seq<Bytes>, entry: Bytes)
    requires entry in entries
    ensures exists i :: 0 <= i < |entries| && entries[i] == entry
                        && CountEntry(entries[..i + 1], entry) == CountEntry(entries, entry)
  {
    var last := |entries| - 1;
    if entries[last] == entry {
      assert entries[..last + 1] == entries;
    } else {
      assert entries == entries[..last] + [entries[last]];
      LastCountFault(entries[..last], entry);
      var i :| 0 <= i < last && entries[..last][i] == entry
               && CountEntry(entries[..last][..i + 1], entry) == CountEntry(entries[..last], entry);
      assert entries[..last][..i + 1] == entries[..i + 1];
      assert entries[i] == entry;
    }
  }

  lemma {:induction false} PrefixCount(entries: seq<Bytes>, n: nat, entry: Bytes)
    requires n <= |entries|
    ensures CountEntry(entries[..n], entry) <= CountEntry(entries, entry)
  {
    assert entries == entries[..n] + entries[n..];
  }

  /** Counting entry by entry finds a fault exactly when the body is no sub-multiset. */
  lemma {:induction false} FaultsShow(body: Body, committed: Body)
    ensures (forall i :: 0 <= i < |body.entries| ==> !EntryFault(body, committed, i))
            <==> multiset(body.entries) <= multiset(committed.entries)
  {
    if forall i :: 0 <= i < |body.entries| ==> !EntryFault(body, committed, i) {
      forall entry | entry in body.entries
        ensures CountEntry(body.entries, entry) <= CountEntry(committed.entries, entry)
      {
        LastCountFault(body.entries, entry);
        var i :| 0 <= i < |body.entries| && body.entries[i] == entry
                 && CountEntry(body.entries[..i + 1], entry) == CountEntry(body.entries, entry);
        assert !EntryFault(body, committed, i);
      }
      assert forall entry :: entry in multiset(body.entries) ==> entry in body.entries;
    } else {
      var i :| 0 <= i < |body.entries| && EntryFault(body, committed, i);
      PrefixCount(body.entries, i + 1, body.entries[i]);
    }
  }

  // ---- A lineage: spends by either party

  /** One spend on a lineage unlocks a TLC or settles a balance, whichever party signs it. */
  ghost predicate Targets(body: Body, target: Target) {
    if target.TlcTarget? then target.index < |body.entries| else target.index < 2
  }

  /** The body a lineage of unlocks leads to. */
  ghost predicate Lineage(from: Body, targets: seq<Target>, to: Body)
    decreases |targets|
  {
    if targets == [] then from == to
    else Targets(from, targets[0]) && Lineage(NextBody(from, targets[0]), targets[1..], to)
  }

  lemma {:induction false} WithoutIsSub(body: Body, index: nat)
    requires index < |body.entries|
    ensures multiset(body.WithoutEntry(index).entries) == multiset(body.entries) - multiset{body.entries[index]}
  {
    assert body.entries == body.entries[..index] + [body.entries[index]] + body.entries[index + 1..];
  }

  lemma {:induction false} StepDescends(body: Body, target: Target, committed: Body)
    requires Descends(body, committed) && Targets(body, target)
    ensures Descends(NextBody(body, target), committed)
  {
    if target.TlcTarget? {
      WithoutIsSub(body, target.index);
    }
  }

  lemma {:induction false} LineageDescends(from: Body, targets: seq<Target>, to: Body, committed: Body)
    requires Descends(from, committed) && Lineage(from, targets, to)
    ensures Descends(to, committed)
    decreases |targets|
  {
    if targets != [] {
      StepDescends(from, targets[0], committed);
      LineageDescends(NextBody(from, targets[0]), targets[1..], to, committed);
    }
  }

  /** Every body reached from a committed one passes the check. */
  lemma {:induction false} EveryDescendantPasses(committed: Body, targets: seq<Target>, to: Body)
    requires Lineage(committed, targets, to)
    ensures Descends(to, committed)
  {
    LineageDescends(committed, targets, to, committed);
  }

  // ---- The other direction: what passes is reached, up to the order of entries

  /** A body that passes and keeps the commitment's order of entries dropped some of them and settled some balances. */
  ghost predicate SameUpToOrder(a: Body, b: Body) {
    multiset(a.entries) == multiset(b.entries) && SameBalance(a.first, b.first) && SameBalance(a.second, b.second)
  }

  ghost predicate SameBalance(a: Balance, b: Balance) {
    a == b || (IsSettled(a) && IsSettled(b))
  }

  /** Whatever passes the check is a body some lineage of unlocks reaches. */
  lemma {:induction false} WhatPassesIsReached(from: Body, to: Body) returns (targets: seq<Target>, reached: Body)
    requires Descends(to, from)
    ensures Lineage(from, targets, reached) && SameUpToOrder(reached, to)
    decreases |from.entries|
  {
    if multiset(from.entries) == multiset(to.entries) {
      targets, reached := SettlesReach(from, to);
    } else {
      var index := Surplus(from.entries, to.entries);
      WithoutIsSub(from, index);
      var rest, last := WhatPassesIsReached(from.WithoutEntry(index), to);
      targets, reached := [TlcTarget(index)] + rest, last;
      assert targets[1..] == rest;
    }
  }

  lemma {:induction false} SettlesReach(from: Body, to: Body) returns (targets: seq<Target>, reached: Body)
    requires Descends(to, from) && multiset(from.entries) == multiset(to.entries)
    ensures Lineage(from, targets, reached) && SameUpToOrder(reached, to)
  {
    reached := from;
    targets := [];
    if !SameBalance(from.second, to.second) {
      reached := from.WithSettled(1);
      targets := [BalanceTarget(1)];
      assert targets[1..] == [];
    }
    if !SameBalance(from.first, to.first) {
      var rest, middle := targets, from.WithSettled(0);
      reached := reached.WithSettled(0);
      targets := [BalanceTarget(0)] + rest;
      assert targets[1..] == rest;
      assert Lineage(middle, rest, reached);
    }
  }

  lemma {:induction false} Surplus(from: seq<Bytes>, to: seq<Bytes>) returns (index: nat)
    requires multiset(to) <= multiset(from) && multiset(to) != multiset(from)
    ensures index < |from| && CountEntry(to, from[index]) < CountEntry(from, from[index])
  {
    var entry :| multiset(to)[entry] < multiset(from)[entry];
    assert entry in multiset(from);
    index :| 0 <= index < |from| && from[index] == entry;
  }

  // ---- Conservation

  predicate Sized(body: Body) {
    forall entry :: entry in body.entries ==> |entry| >= 1 + AMOUNT_LENGTH
  }

  function EntryTotal(entries: seq<Bytes>): nat
    requires forall entry :: entry in entries ==> |entry| >= 1 + AMOUNT_LENGTH
  {
    if entries == [] then 0 else AmountOf(entries[0]) + EntryTotal(entries[1..])
  }

  /** What a body still holds for both parties. */
  function Held(body: Body): nat
    requires Sized(body)
  {
    EntryTotal(body.entries) + body.first.amount + body.second.amount
  }

  /** What one unlock releases to whoever signs it. */
  function Released(body: Body, target: Target): nat
    requires Sized(body)
    requires if target.TlcTarget? then target.index < |body.entries| else target.index < 2
  {
    if target.TlcTarget? then AmountOf(body.entries[target.index]) else body.At(target.index).amount
  }

  lemma {:induction false} EntryTotalWithout(entries: seq<Bytes>, index: nat)
    requires forall entry :: entry in entries ==> |entry| >= 1 + AMOUNT_LENGTH
    requires index < |entries|
    ensures EntryTotal(entries) == AmountOf(entries[index]) + EntryTotal(entries[..index] + entries[index + 1..])
  {
    if index == 0 {
      assert entries[..0] + entries[1..] == entries[1..];
    } else {
      EntryTotalWithout(entries[1..], index - 1);
      var rest := entries[..index] + entries[index + 1..];
      assert rest[1..] == entries[1..][..index - 1] + entries[1..][index..];
    }
  }

  lemma {:induction false} StepConserves(body: Body, target: Target)
    requires Sized(body) && Targets(body, target)
    ensures Sized(NextBody(body, target))
    ensures Held(body) == Released(body, target) + Held(NextBody(body, target))
  {
    if target.TlcTarget? {
      EntryTotalWithout(body.entries, target.index);
    }
  }

  ghost function ReleasedAlong(from: Body, targets: seq<Target>, to: Body): nat
    requires Sized(from) && Lineage(from, targets, to)
    decreases |targets|
  {
    if targets == [] then 0 else
      StepConserves(from, targets[0]);
      Released(from, targets[0]) + ReleasedAlong(NextBody(from, targets[0]), targets[1..], to)
  }

  /** Along any lineage, what was released and what the body still holds add up to what was committed. */
  lemma {:induction false} LineageConserves(from: Body, targets: seq<Target>, to: Body)
    requires Sized(from) && Lineage(from, targets, to)
    ensures Sized(to)
    ensures ReleasedAlong(from, targets, to) + Held(to) == Held(from)
    decreases |targets|
  {
    if targets != [] {
      StepConserves(from, targets[0]);
      LineageConserves(NextBody(from, targets[0]), targets[1..], to);
    }
  }
}
