/** TLCs, view snapshots, debit intents and hold invoices, and totals and differences of TLC lists. */
module Payments {
  import opened Outcomes
  import opened Sums

  /** The 20 bytes of a payment hash a legacy witness binds, and the key of every payment record. */
  type Bound = nat

  const MILLISECONDS_PER_SECOND: nat := 1000

  /** A whole payment hash: its bound bytes and the 12 after them. */
  datatype PaymentHash = PaymentHash(bound: Bound, rest: nat)

  datatype Direction = Offered | Received

  datatype HashAlgorithm = CkbHash | Sha256

  /** A TLC by everything its settlement entry commits to: TLCs that agree on all of it are one value here. */
  datatype Tlc = Tlc(
    direction: Direction,
    algorithm: HashAlgorithm,
    bound: Bound,
    full: Option<PaymentHash>,
    amount: nat,
    expirySeconds: nat
  )

  datatype View = Remote | Local

  datatype Snapshot = Snapshot(
    exposure: nat,
    tlcs: seq<Tlc>,
    charged: map<Bound, nat>,
    credited: map<Bound, nat>
  )

  datatype Views = Views(remote: Snapshot, local: Snapshot) {
    function Of(view: View): Snapshot {
      if view.Remote? then remote else local
    }

    function With(view: View, snapshot: Snapshot): Views {
      if view.Remote? then this.(remote := snapshot) else this.(local := snapshot)
    }
  }

  function Other(view: View): View {
    if view.Remote? then Local else Remote
  }

  datatype Intent = Intent(hash: PaymentHash, maximum: nat, open: bool, channels: seq<nat>)

  datatype Invoice = Invoice(
    hash: PaymentHash,
    amount: nat,
    algorithm: HashAlgorithm,
    index: nat,
    released: bool,
    channels: seq<nat>
  )

  /** Payment records and other channels, as far as one commitment involves them. */
  datatype Context = Context(
    intents: map<Bound, Intent>,
    invoices: map<Bound, Invoice>,
    others: map<nat, Views>
  )

  function Max(a: int, b: int): int {
    if a > b then a else b
  }

  function Min(a: int, b: int): int {
    if a < b then a else b
  }

  /** A TLC that binds a whole hash is a record's only when that hash
      is; one that binds none is the record's by its key. */
  predicate IsTlcOf(tlc: Tlc, hash: PaymentHash) {
    tlc.full.None? || tlc.full.value == hash
  }

  function IntentOf(context: Context, tlc: Tlc): Option<Intent> {
    if tlc.bound in context.intents && IsTlcOf(tlc, context.intents[tlc.bound].hash)
    then Some(context.intents[tlc.bound]) else None
  }

  function InvoiceOf(context: Context, tlc: Tlc): Option<Invoice> {
    if tlc.bound in context.invoices && IsTlcOf(tlc, context.invoices[tlc.bound].hash)
    then Some(context.invoices[tlc.bound]) else None
  }

  predicate IsReleasedHeld(context: Context, tlc: Tlc) {
    tlc.direction.Received? && var invoice := InvoiceOf(context, tlc); invoice.Some? && invoice.value.released
  }

  // ---- Totals

  /** The amount of the TLCs a predicate selects. */
  function Total(tlcs: seq<Tlc>, select: Tlc -> bool): nat {
    if tlcs == [] then 0 else (if select(tlcs[0]) then tlcs[0].amount else 0) + Total(tlcs[1..], select)
  }

  const OFFERED: Tlc -> bool := (tlc: Tlc) => tlc.direction.Offered?

  function Under(direction: Direction, bound: Bound): Tlc -> bool {
    (tlc: Tlc) => tlc.direction == direction && tlc.bound == bound
  }

  function OfferedUnder(bound: Bound): Tlc -> bool {
    Under(Offered, bound)
  }

  function HeldUnder(bound: Bound, hash: PaymentHash): Tlc -> bool {
    (tlc: Tlc) => tlc.direction.Received? && tlc.bound == bound && IsTlcOf(tlc, hash)
  }

  /** The exposure, with all that is offered counted as failed. */
  function Holdings(exposure: nat, tlcs: seq<Tlc>): nat {
    exposure + Total(tlcs, OFFERED)
  }

  /** How much of a hash's budget a view takes up: in flight, and already charged. */
  function Drawn(snapshot: Snapshot, bound: Bound): nat {
    Total(snapshot.tlcs, OfferedUnder(bound)) + Get(snapshot.charged, bound)
  }

  /** Either view may settle, so the larger draw counts. */
  function ChannelDraw(views: Views, bound: Bound): nat {
    Max(Drawn(views.remote, bound), Drawn(views.local, bound))
  }

  lemma {:induction false} TotalSplit(a: seq<Tlc>, b: seq<Tlc>, select: Tlc -> bool)
    ensures Total(a + b, select) == Total(a, select) + Total(b, select)
  {
    if a == [] {
      assert a + b == b;
    } else {
      assert (a + b)[1..] == a[1..] + b;
      TotalSplit(a[1..], b, select);
    }
  }

  lemma {:induction false} TotalSnoc(tlcs: seq<Tlc>, tlc: Tlc, select: Tlc -> bool)
    ensures Total(tlcs + [tlc], select) == Total(tlcs, select) + (if select(tlc) then tlc.amount else 0)
  {
    TotalSplit(tlcs, [tlc], select);
  }

  lemma {:induction false} TotalWider(tlcs: seq<Tlc>, narrow: Tlc -> bool, wide: Tlc -> bool)
    requires forall tlc :: narrow(tlc) ==> wide(tlc)
    ensures Total(tlcs, narrow) <= Total(tlcs, wide)
  {
    if tlcs != [] {
      TotalWider(tlcs[1..], narrow, wide);
    }
  }

  lemma {:induction false} TotalWithout(b: seq<Tlc>, i: nat, select: Tlc -> bool)
    requires i < |b|
    ensures var rest := b[..i] + b[i + 1..];
            && Total(b, select) == Total(rest, select) + (if select(b[i]) then b[i].amount else 0)
            && multiset(rest) == multiset(b) - multiset{b[i]}
  {
    assert b == b[..i] + ([b[i]] + b[i + 1..]);
    TotalSplit(b[..i], [b[i]] + b[i + 1..], select);
    TotalSplit([b[i]], b[i + 1..], select);
    TotalSplit(b[..i], b[i + 1..], select);
  }

  /** A total is the multiset's: it does not see the order the TLCs are listed in. */
  lemma {:induction false} TotalOfMultiset(a: seq<Tlc>, b: seq<Tlc>, select: Tlc -> bool)
    requires multiset(a) == multiset(b)
    ensures Total(a, select) == Total(b, select)
  {
    hide Total;
    if a == [] {
      assert |multiset(b)| == 0;
    } else {
      var i := IndexIn(b, a[0]);
      TotalWithout(b, i, select);
      TotalWithout(a, 0, select);
      assert a[..0] + a[1..] == a[1..];
      TotalOfMultiset(a[1..], b[..i] + b[i + 1..], select);
    }
  }

  lemma {:induction false} IndexIn(tlcs: seq<Tlc>, tlc: Tlc) returns (i: nat)
    requires tlc in multiset(tlcs)
    ensures i < |tlcs| && tlcs[i] == tlc
  {
    i :| 0 <= i < |tlcs| && tlcs[i] == tlc;
  }

  // ---- The difference of two lists of TLCs

  /** What `from` lists beyond `remove`, in `from`'s order, counting repeats. */
  function Difference(from: seq<Tlc>, remove: multiset<Tlc>): seq<Tlc> {
    if from == [] then [] else
    if from[0] in remove then Difference(from[1..], remove - multiset{from[0]})
    else [from[0]] + Difference(from[1..], remove)
  }

  lemma {:induction false} DifferenceIsMultisetDifference(from: seq<Tlc>, remove: multiset<Tlc>)
    ensures multiset(Difference(from, remove)) == multiset(from) - remove
  {
    if from != [] {
      assert from == [from[0]] + from[1..];
      assert multiset(from) == multiset{from[0]} + multiset(from[1..]);
      if from[0] in remove {
        DifferenceIsMultisetDifference(from[1..], remove - multiset{from[0]});
        assert multiset(from) - remove == multiset(from[1..]) - (remove - multiset{from[0]});
      } else {
        DifferenceIsMultisetDifference(from[1..], remove);
      }
    }
  }

  lemma {:induction false} DifferenceWithin(from: seq<Tlc>, remove: multiset<Tlc>, select: Tlc -> bool)
    ensures Total(Difference(from, remove), select) <= Total(from, select)
  {
    if from != [] {
      if from[0] in remove {
        DifferenceWithin(from[1..], remove - multiset{from[0]}, select);
      } else {
        DifferenceWithin(from[1..], remove, select);
      }
    }
  }

  lemma {:induction false} DifferenceListed(from: seq<Tlc>, remove: multiset<Tlc>, tlc: Tlc)
    requires tlc in Difference(from, remove)
    ensures tlc in from
  {
    if from[0] in remove {
      DifferenceListed(from[1..], remove - multiset{from[0]}, tlc);
    } else if tlc != from[0] {
      DifferenceListed(from[1..], remove, tlc);
    }
  }

  /** What a list showed is still shown or left it. */
  lemma {:induction false} ShownOrLeft(before: seq<Tlc>, after: seq<Tlc>, select: Tlc -> bool)
    ensures Total(before, select) <= Total(after, select) + Total(Difference(before, multiset(after)), select)
  {
    if before != [] {
      if before[0] in multiset(after) {
        var i := IndexIn(after, before[0]);
        TotalWithout(after, i, select);
        ShownOrLeft(before[1..], after[..i] + after[i + 1..], select);
      } else {
        ShownOrLeft(before[1..], after, select);
      }
    }
  }
}
