/** The bounded event channel between the readers and the event loop. */
module EventChannel {

  const CAPACITY: nat := 1000

  /** One channel operation: a reader offers, or the event loop takes. */
  datatype Op<T> = Offering(reader: nat, event: T) | Taking

  /** The channel after a run of operations: what is queued, what was taken, what was offered, and
      the positions in the sequence of offers of everything not dropped. */
  datatype Traffic<T> = Traffic(queue: seq<T>, taken: seq<T>, offered: seq<T>, kept: seq<nat>, dropped: nat)

  function RunOps<T>(ops: seq<Op<T>>): Traffic<T> {
    if ops == [] then Traffic([], [], [], [], 0)
    else
      var t := RunOps(ops[..|ops| - 1]);
      match ops[|ops| - 1]
      case Offering(_, e) =>
        if |t.queue| < CAPACITY
        then t.(queue := t.queue + [e], offered := t.offered + [e], kept := t.kept + [|t.offered|])
        else t.(offered := t.offered + [e], dropped := t.dropped + 1)
      case Taking =>
        if t.queue == [] then t else t.(queue := t.queue[1..], taken := t.taken + [t.queue[0]])
  }

  /** What one reader offered, in order. */
  function OffersOf<T>(reader: nat, ops: seq<Op<T>>): seq<T> {
    if ops == [] then []
    else
      OffersOf(reader, ops[..|ops| - 1])
      + match ops[|ops| - 1]
        case Offering(r, e) => if r == reader then [e] else []
        case Taking => []
  }

  /** How many of one reader's offers were dropped. */
  function DropsOf<T>(reader: nat, ops: seq<Op<T>>): nat {
    if ops == [] then 0
    else
      var init, last := ops[..|ops| - 1], ops[|ops| - 1];
      DropsOf(reader, init)
      + if last.Offering? && last.reader == reader && |RunOps(init).queue| >= CAPACITY then 1 else 0
  }

  /** Events taken and queued are exactly the kept offers, in the order offered; every offer is
      kept or dropped; the channel never exceeds its capacity. */
  lemma {:induction false} InOrderOrDropped<T>(ops: seq<Op<T>>)
    ensures var t := RunOps(ops);
            && |t.queue| <= CAPACITY
            && |t.kept| == |t.taken + t.queue| && |t.kept| + t.dropped == |t.offered|
            && (forall i :: 0 <= i < |t.kept| ==>
                  t.kept[i] < |t.offered| && (t.taken + t.queue)[i] == t.offered[t.kept[i]])
            && (forall i, j :: 0 <= i < j < |t.kept| ==> t.kept[i] < t.kept[j])
  {
    if ops != [] {
      InOrderOrDropped(ops[..|ops| - 1]);
      var t := RunOps(ops[..|ops| - 1]);
      match ops[|ops| - 1]
      case Offering(_, e) =>
        assert (t.taken + t.queue) + [e] == t.taken + (t.queue + [e]);
      case Taking =>
        if t.queue != [] {
          assert (t.taken + [t.queue[0]]) + t.queue[1..] == t.taken + t.queue;
        }
    }
  }

  /** Whatever is taken was offered by some reader. */
  lemma TakenWereOffered<T>(ops: seq<Op<T>>, e: T) returns (reader: nat)
    requires e in RunOps(ops).taken
    ensures e in OffersOf(reader, ops)
  {
    InOrderOrDropped(ops);
    var t := RunOps(ops);
    var i :| 0 <= i < |t.taken| && t.taken[i] == e;
    hide RunOps;
    assert (t.taken + t.queue)[i] == e;
    reader := OfferedBySome(ops, e);
  }

  lemma {:induction false} OfferedBySome<T>(ops: seq<Op<T>>, e: T) returns (reader: nat)
    requires e in RunOps(ops).offered
    ensures e in OffersOf(reader, ops)
  {
    var last := ops[|ops| - 1];
    if last.Offering? && last.event == e {
      reader := last.reader;
    } else {
      reader := OfferedBySome(ops[..|ops| - 1], e);
    }
  }

  // ----- a batch ---------------------------------------------------------------------------

  /** What everybody else does to the channel before offer i of a batch. */
  type Others<T> = nat -> seq<Op<T>>

  /** Nothing is offered in the reader's name by anybody else. */
  ghost predicate Foreign<T>(reader: nat, ops: seq<Op<T>>) {
    forall op :: op in ops && op.Offering? ==> op.reader != reader
  }

  /** A reader offers the first n events of a batch while the others do as they like. */
  function BatchOps<T>(reader: nat, events: seq<T>, others: Others<T>, n: nat): seq<Op<T>>
    requires n <= |events|
  {
    if n == 0 then []
    else BatchOps(reader, events, others, n - 1) + others(n - 1) + [Offering(reader, events[n - 1])]
  }

  lemma OneOp<T>(ops: seq<Op<T>>, op: Op<T>)
    ensures var t, u := RunOps(ops), RunOps(ops + [op]);
            && (op.Offering? && |t.queue| < CAPACITY ==> u.queue == t.queue + [op.event] && u.dropped == t.dropped)
            && (op.Offering? && |t.queue| >= CAPACITY ==> u.queue == t.queue && u.dropped == t.dropped + 1)
            && (op.Taking? ==> u.queue == (if t.queue == [] then [] else t.queue[1..]) && u.dropped == t.dropped)
  {
    assert (ops + [op])[..|ops|] == ops;
  }

  lemma OneOffer<T>(reader: nat, ops: seq<Op<T>>, op: Op<T>)
    ensures OffersOf(reader, ops + [op])
         == OffersOf(reader, ops) + if op.Offering? && op.reader == reader then [op.event] else []
    ensures DropsOf(reader, ops + [op])
         == DropsOf(reader, ops)
            + if op.Offering? && op.reader == reader && |RunOps(ops).queue| >= CAPACITY then 1 else 0
  {
    hide RunOps;
    assert (ops + [op])[..|ops|] == ops;
  }

  lemma {:induction false} ForeignOffersNone<T>(reader: nat, ops: seq<Op<T>>, more: seq<Op<T>>)
    requires Foreign(reader, more)
    ensures OffersOf(reader, ops + more) == OffersOf(reader, ops)
    ensures DropsOf(reader, ops + more) == DropsOf(reader, ops)
    decreases |more|
  {
    hide OffersOf, DropsOf, RunOps;
    if more == [] {
      assert ops + more == ops;
    } else {
      var n := |more| - 1;
      ForeignOffersNone(reader, ops, more[..n]);
      OneOffer(reader, ops + more[..n], more[n]);
      assert ops + more[..n] + [more[n]] == ops + more;
      assert more[n] in more;
    }
  }

  lemma NextOffers<T>(reader: nat, ops: seq<Op<T>>, batch: seq<Op<T>>, more: seq<Op<T>>, event: T)
    requires Foreign(reader, more)
    ensures OffersOf(reader, ops + (batch + more + [Offering(reader, event)]))
         == OffersOf(reader, ops + batch) + [event]
  {
    hide OffersOf, DropsOf, RunOps;
    var offer := Offering(reader, event);
    ForeignOffersNone(reader, ops + batch, more);
    OneOffer(reader, ops + batch + more, offer);
    assert ops + batch + more + [offer] == ops + (batch + more + [offer]);
  }

  /** Whatever the others do in between, a reader offers its batch whole and in order. */
  lemma {:induction false} BatchOffers<T>(reader: nat, ops: seq<Op<T>>, events: seq<T>, others: Others<T>, n: nat)
    requires n <= |events| && forall i :: 0 <= i < n ==> Foreign(reader, others(i))
    ensures OffersOf(reader, ops + BatchOps(reader, events, others, n)) == OffersOf(reader, ops) + events[..n]
  {
    hide OffersOf, DropsOf, RunOps;
    if n == 0 {
      assert ops + BatchOps(reader, events, others, n) == ops;
      assert OffersOf(reader, ops) + events[..0] == OffersOf(reader, ops);
    } else {
      BatchOffers(reader, ops, events, others, n - 1);
      var batch := BatchOps(reader, events, others, n - 1);
      assert BatchOps(reader, events, others, n) == batch + others(n - 1) + [Offering(reader, events[n - 1])];
      hide BatchOps;
      NextOffers(reader, ops, batch, others(n - 1), events[n - 1]);
      assert events[..n - 1] + [events[n - 1]] == events[..n];
    }
  }

  /** Undisturbed, the channel takes as many events from the front of a batch as it has room for and
      the rest are dropped. */
  lemma {:induction false} BatchUndisturbed<T>(reader: nat, ops: seq<Op<T>>, events: seq<T>, others: Others<T>, n: nat)
    requires n <= |events| && forall i :: 0 <= i < n ==> others(i) == []
    ensures var t, u := RunOps(ops), RunOps(ops + BatchOps(reader, events, others, n));
            var room := CAPACITY - |t.queue|;
            var taken := if n <= room then n else room;
            && 0 <= taken && u.queue == t.queue + events[..taken]
            && DropsOf(reader, ops + BatchOps(reader, events, others, n)) == DropsOf(reader, ops) + n - taken
  {
    InOrderOrDropped(ops);
    hide RunOps, DropsOf;
    var t := RunOps(ops);
    if n == 0 {
      assert ops + BatchOps(reader, events, others, n) == ops && t.queue + events[..0] == t.queue;
    } else {
      var before := ops + BatchOps(reader, events, others, n - 1);
      BatchUndisturbed(reader, ops, events, others, n - 1);
      OneOp(before, Offering(reader, events[n - 1]));
      OneOffer(reader, before, Offering(reader, events[n - 1]));
      assert before + [Offering(reader, events[n - 1])] == ops + BatchOps(reader, events, others, n);
      assert t.queue + events[..n - 1] + [events[n - 1]] == t.queue + events[..n];
    }
  }

  /** A fresh channel takes exactly the first thousand of a batch nobody receives from. */
  lemma FirstThousand<T>(reader: nat, events: seq<T>)
    ensures var kept := if |events| <= 1000 then |events| else 1000;
            var t := RunOps(BatchOps(reader, events, (i: nat) => [], |events|));
            && t.queue == events[..kept]
            && DropsOf(reader, BatchOps(reader, events, (i: nat) => [], |events|)) == |events| - kept
  {
    var others: Others<T> := (i: nat) => [];
    BatchUndisturbed(reader, [], events, others, |events|);
    assert [] + BatchOps(reader, events, others, |events|) == BatchOps(reader, events, others, |events|);
  }

  // ----- the channel -------------------------------------------------------------------------

  class Channel<T> {
    var queue: seq<T>
    ghost var ops: seq<Op<T>>

    /** The queue is what the operations so far leave in it. */
    ghost predicate Valid()
      reads this
    {
      queue == RunOps(ops).queue
    }

    constructor ()
      ensures Valid() && queue == [] && ops == []
    {
      queue, ops := [], [];
    }

    /** Non-blocking send: a full channel drops the event. */
    method Offer(reader: nat, event: T) returns (sent: bool)
      requires Valid()
      modifies this
      ensures Valid() && ops == old(ops) + [Offering(reader, event)]
      ensures sent == (|old(queue)| < CAPACITY)
      ensures queue == if sent then old(queue) + [event] else old(queue)
    {
      sent := |queue| < CAPACITY;
      if sent {
        queue := queue + [event];
      }
      OneOp(ops, Offering(reader, event));
      ops := ops + [Offering(reader, event)];
    }

    /** The event loop receives, unless the channel is empty. */
    method Receive() returns (received: seq<T>)
      requires Valid()
      modifies this
      ensures Valid() && ops == old(ops) + [Taking]
      ensures received + queue == old(queue) && |received| == if old(queue) == [] then 0 else 1
    {
      received := [];
      if queue != [] {
        received, queue := [queue[0]], queue[1..];
      }
      OneOp(ops, Taking);
      ops := ops + [Taking];
    }

    /** What the event loop and the other readers do meanwhile. */
    method Meanwhile(more: seq<Op<T>>)
      requires Valid()
      modifies this
      ensures Valid() && ops == old(ops) + more
    {
      hide RunOps;
      for i := 0 to |more|
        invariant Valid() && ops == old(ops) + more[..i]
      {
        assert more[..i + 1] == more[..i] + [more[i]];
        match more[i] {
          case Offering(reader, event) => var _ := Offer(reader, event);
          case Taking => var _ := Receive();
        }
      }
      assert more[..|more|] == more;
    }

    /** A reader forwards a decoded batch, offering every event once, in order, while the event loop
        and the other readers do `others(i)` before its offer i. */
    method Forward(reader: nat, events: seq<T>, others: Others<T>) returns (dropped: nat)
      requires Valid() && forall i :: 0 <= i < |events| ==> Foreign(reader, others(i))
      modifies this
      ensures Valid() && OffersOf(reader, ops) == OffersOf(reader, old(ops)) + events
      ensures ops == old(ops) + BatchOps(reader, events, others, |events|)
      ensures DropsOf(reader, ops) == DropsOf(reader, old(ops)) + dropped
      ensures (forall i :: 0 <= i < |events| ==> others(i) == []) ==>
                var room := CAPACITY - |old(queue)|;
                var taken := if |events| <= room then |events| else room;
                0 <= taken && queue == old(queue) + events[..taken] && dropped == |events| - taken
    {
      hide RunOps, OffersOf, DropsOf, Foreign;
      dropped := 0;
      for i := 0 to |events|
        invariant Valid() && ops == old(ops) + BatchOps(reader, events, others, i)
        invariant DropsOf(reader, ops) == DropsOf(reader, old(ops)) + dropped
      {
        ForeignOffersNone(reader, ops, others(i));
        Meanwhile(others(i));
        OneOffer(reader, ops, Offering(reader, events[i]));
        var sent := Offer(reader, events[i]);
        if !sent {
          dropped := dropped + 1;
        }
      }
      BatchOffers(reader, old(ops), events, others, |events|);
      assert events[..|events|] == events;
      hide BatchOps;
      if forall i :: 0 <= i < |events| ==> others(i) == [] {
        BatchUndisturbed(reader, old(ops), events, others, |events|);
      }
    }
  }
}
