/** The reconnection protocol: the reconnection loop, a reader per dialled connection, the sender
    and the constructor, interleaved at every shared read and write. Cancellation never comes. */
module Reconnect {
  import opened Prelude
  import Bits

  type ConnId = nat

  /** Where the reconnection loop stands. */
  datatype LoopPc =
    | Waiting                // blocked on the reconnect signal
    | Closing                // signal taken, old connection to be closed and cleared
    | Dialing                // about to dial
    | Backoff                // dial failed, sleeping
    | Dialed(id: ConnId)     // dialled, pointer to be stored
    | Stored(id: ConnId)     // pointer stored, flag to be raised
    | Raised(id: ConnId)     // flag raised, reader to be started

  /** Where the reader of one connection stands. */
  datatype ReaderPc =
    | Reading                // blocked on, or working through, its connection
    | Lowering               // read loop left, flag to be lowered
    | Triggering             // flag lowered, reconnect to be triggered
    | Finished

  /** Where the one sender stands. */
  datatype SenderPc =
    | Ready
    | FlagSeen               // saw the flag up, pointer to be read
    | Writing(id: ConnId)    // holds a connection
    | WriteFailed            // flag to be lowered
    | FlagLowered            // pointer to be cleared
    | PointerCleared         // reconnect to be triggered

  const FIRST_BACKOFF: nat := 100
  const MAX_BACKOFF: nat := 5000

  /** Book-keeping the client does not do, needed to say what a signal stands for. */
  datatype Books = Books(
    signals: nat,                     // signals the loop has taken
    merged: set<ConnId>,              // readers whose triggers the pending signal merges
    taken: set<ConnId>,               // readers whose triggers the last signal taken merged
    fallen: set<ConnId>,              // readers that have triggered
    failed: set<ConnId>,              // connections a write failed on
    absorbed: nat,                    // triggers that found a signal already pending
    open: set<ConnId>,                // connections dialled and not closed
    cleared: set<ConnId>)             // connections whose pointer the sender cleared

  datatype Client = Client(
    connected: bool,
    conn: Option<ConnId>,
    signal: bool,                     // the one-slot reconnect channel
    loop: LoopPc,
    readers: map<ConnId, ReaderPc>,
    sender: SenderPc,
    started: bool,                    // the constructor has triggered the first dial
    dials: nat,                       // successful dials, also the next connection id
    backoff: nat,                     // milliseconds
    attempts: nat,                    // failed dials since the last success
    wasConnected: bool,
    reconnections: nat,               // calls of the reconnection callback
    books: Books)

  datatype Action =
    | TriggerFirst
    | TakeSignal
    | CloseOld
    | DialSucceeds
    | DialFails
    | WakeUp
    | StorePointer
    | RaiseFlag
    | StartReader
    | ReaderLeaves(id: ConnId)
    | ReaderLowers(id: ConnId)
    | ReaderTriggers(id: ConnId)
    | SendBegins
    | SenderReadsPointer
    | WriteSucceeds
    | WriteFails
    | SenderLowers
    | SenderClears
    | SenderTriggers

  function Start(): Client {
    Client(false, None, false, Waiting, map[], Ready, false, 0, FIRST_BACKOFF, 0, false, 0,
           Books(0, {}, {}, {}, {}, 0, {}, {}))
  }

  function ReaderAt(c: Client, id: ConnId): Option<ReaderPc> {
    if id in c.readers then Some(c.readers[id]) else None
  }

  function Doubled(backoff: nat): nat {
    if backoff < MAX_BACKOFF then (if 2 * backoff > MAX_BACKOFF then MAX_BACKOFF else 2 * backoff) else backoff
  }

  /** The loop takes the signal with everything merged in it. */
  function BooksTaken(b: Books): Books {
    b.(signals := b.signals + 1, taken := b.merged, merged := {})
  }

  /** A trigger; the signal is lost when one is pending. */
  function BooksTriggered(b: Books, pending: bool): Books {
    b.(absorbed := b.absorbed + One(pending))
  }

  /** The reader of a connection triggers. */
  function BooksFallen(b: Books, id: ConnId, pending: bool): Books {
    BooksTriggered(b.(merged := b.merged + {id}, fallen := b.fallen + {id}), pending)
  }

  function Held(conn: Option<ConnId>): set<ConnId> {
    match conn
    case None => {}
    case Some(id) => {id}
  }

  /** The loop closes the connection it finds stored. */
  function BooksClosed(b: Books, conn: Option<ConnId>): Books {
    b.(open := b.open - Held(conn))
  }

  function BooksDialled(b: Books, id: ConnId): Books {
    b.(open := b.open + {id})
  }

  /** The sender clears the pointer and closes nothing. */
  function BooksCleared(b: Books, conn: Option<ConnId>): Books {
    b.(cleared := b.cleared + Held(conn))
  }

  /** A write to a connection fails. */
  function BooksFailed(b: Books, id: ConnId): Books {
    b.(failed := b.failed + {id})
  }

  function LoopDo(c: Client, a: Action): Option<Client> {
    match (c.loop, a)
    case (Waiting, TakeSignal) =>
      if c.signal then Some(c.(signal := false, loop := Closing, books := BooksTaken(c.books))) else None
    case (Closing, CloseOld) => Some(c.(conn := None, loop := Dialing, books := BooksClosed(c.books, c.conn)))
    case (Dialing, DialSucceeds) =>
      Some(c.(loop := Dialed(c.dials), dials := c.dials + 1, books := BooksDialled(c.books, c.dials)))
    case (Dialing, DialFails) => Some(c.(attempts := c.attempts + 1, loop := Backoff))
    case (Backoff, WakeUp) => Some(c.(backoff := Doubled(c.backoff), loop := Dialing))
    case (Dialed(id), StorePointer) => Some(c.(conn := Some(id), loop := Stored(id)))
    case (Stored(id), RaiseFlag) =>
      Some(c.(connected := true, loop := Raised(id), backoff := FIRST_BACKOFF, attempts := 0,
              reconnections := if c.wasConnected then c.reconnections + 1 else c.reconnections, wasConnected := true))
    case (Raised(id), StartReader) => Some(c.(readers := c.readers[id := Reading], loop := Waiting))
    case _ => None
  }

  function ReaderDo(c: Client, a: Action): Option<Client> {
    match a
    case ReaderLeaves(id) =>
      if ReaderAt(c, id) == Some(Reading) then Some(c.(readers := c.readers[id := Lowering])) else None
    case ReaderLowers(id) =>
      if ReaderAt(c, id) == Some(Lowering)
      then Some(c.(connected := false, readers := c.readers[id := Triggering]))
      else None
    case ReaderTriggers(id) =>
      if ReaderAt(c, id) == Some(Triggering)
      then Some(c.(signal := true, readers := c.readers[id := Finished], books := BooksFallen(c.books, id, c.signal)))
      else None
    case _ => None
  }

  function SenderDo(c: Client, a: Action): Option<Client> {
    match (c.sender, a)
    case (Ready, SendBegins) => Some(if c.connected then c.(sender := FlagSeen) else c)
    case (FlagSeen, SenderReadsPointer) =>
      Some(c.(sender := match c.conn case None => Ready case Some(id) => Writing(id)))
    case (Writing(_), WriteSucceeds) => Some(c.(sender := Ready))
    case (Writing(id), WriteFails) => Some(c.(sender := WriteFailed, books := BooksFailed(c.books, id)))
    case (WriteFailed, SenderLowers) => Some(c.(connected := false, sender := FlagLowered))
    case (FlagLowered, SenderClears) =>
      Some(c.(conn := None, sender := PointerCleared, books := BooksCleared(c.books, c.conn)))
    case (PointerCleared, SenderTriggers) =>
      Some(c.(signal := true, sender := Ready, books := BooksTriggered(c.books, c.signal)))
    case _ => None
  }

  /** One step of one thread; None when the thread is not there. */
  function Do(c: Client, a: Action): Option<Client> {
    match a
    case TriggerFirst =>
      if c.started then None else Some(c.(signal := true, started := true, books := BooksTriggered(c.books, c.signal)))
    case ReaderLeaves(_) | ReaderLowers(_) | ReaderTriggers(_) => ReaderDo(c, a)
    case SendBegins | SenderReadsPointer | WriteSucceeds | WriteFails | SenderLowers | SenderClears | SenderTriggers =>
      SenderDo(c, a)
    case _ => LoopDo(c, a)
  }

  /** The client after a schedule. */
  function Exec(acts: seq<Action>): Option<Client> {
    if acts == [] then Some(Start())
    else
      match Exec(acts[..|acts| - 1])
      case None => None
      case Some(c) => Do(c, acts[|acts| - 1])
  }

  // ----- no lost wake-up ------------------------------------------------------------------------

  /** Some thread has yet to trigger a reconnect. */
  ghost predicate TriggerPending(c: Client) {
    || !c.started
    || c.sender.FlagLowered? || c.sender.PointerCleared?
    || exists id :: id in c.readers && c.readers[id] == Triggering
  }

  /** A reconnect is on its way. */
  ghost predicate WakeUpComing(c: Client) {
    c.signal || !c.loop.Waiting? || TriggerPending(c)
  }

  /** A wake-up that does not count on the loop: a signal or a trigger still to come. */
  ghost predicate Nudged(c: Client) {
    c.signal || TriggerPending(c)
  }

  /** The loop's own obligations at each of its points. */
  ghost predicate LoopOwes(c: Client) {
    && (c.loop.Waiting? && (!c.connected || c.conn.None?) ==> Nudged(c))
    && (c.loop.Stored? && c.conn.None? ==> Nudged(c))
    && (c.loop.Raised? && (!c.connected || c.conn.None?) ==> Nudged(c))
  }

  /** A stored connection whose reader has finished is to be replaced. */
  ghost predicate DeadIsNudged(c: Client) {
    c.conn.Some? && !c.loop.Closing? && ReaderAt(c, c.conn.value) == Some(Finished) ==> Nudged(c)
  }

  ghost predicate Inv(c: Client) {
    LoopOwes(c) && DeadIsNudged(c) && Ids(c)
  }

  /** Connection ids are issued in order; only dialled connections are stored or read. */
  ghost predicate Ids(c: Client) {
    && (c.conn.Some? ==> c.conn.value < c.dials)
    && (forall id :: id in c.readers ==> id < c.dials)
    && (c.loop.Dialed? || c.loop.Stored? || c.loop.Raised? ==>
          c.loop.id == c.dials - 1 && c.loop.id !in c.readers)
    && (c.loop.Dialing? || c.loop.Backoff? || c.loop.Dialed? ==> c.conn.None?)
    && ((c.loop.Stored? || c.loop.Raised?) && c.conn.Some? ==> c.conn.value == c.loop.id)
  }

  /** What a reader still owes, it owes until it triggers. */
  lemma PendingStays(c: Client, c': Client)
    requires c'.started == c.started && c'.sender == c.sender
    requires forall id :: id in c.readers && c.readers[id] == Triggering ==>
               id in c'.readers && c'.readers[id] == Triggering
    ensures TriggerPending(c) ==> TriggerPending(c')
  {
  }

  lemma IdsByLoop(c: Client, a: Action)
    requires Ids(c) && LoopDo(c, a).Some?
    ensures Ids(LoopDo(c, a).value)
  {
  }

  lemma LoopKeeps(c: Client, a: Action)
    requires Inv(c) && LoopDo(c, a).Some?
    ensures Inv(LoopDo(c, a).value)
  {
    IdsByLoop(c, a);
    LoopOwesOn(c, a);
    hide Ids, LoopOwes;
    PendingByLoop(c, a);
    hide TriggerPending;
  }

  lemma PendingByLoop(c: Client, a: Action)
    requires Ids(c) && LoopDo(c, a).Some?
    ensures TriggerPending(c) ==> TriggerPending(LoopDo(c, a).value)
  {
    LoopReaders(c, a);
    LoopLeavesOthers(c, a);
    var c' := LoopDo(c, a).value;
    hide LoopDo;
    PendingStays(c, c');
  }

  lemma LoopReaders(c: Client, a: Action)
    requires Ids(c) && LoopDo(c, a).Some?
    ensures forall id :: id in c.readers ==>
              id in LoopDo(c, a).value.readers && LoopDo(c, a).value.readers[id] == c.readers[id]
  {
  }

  lemma LoopLeavesOthers(c: Client, a: Action)
    requires LoopDo(c, a).Some?
    ensures LoopDo(c, a).value.started == c.started && LoopDo(c, a).value.sender == c.sender
  {
  }

  lemma LoopOwesOn(c: Client, a: Action)
    requires Inv(c) && LoopDo(c, a).Some?
    ensures LoopOwes(LoopDo(c, a).value)
  {
    PendingByLoop(c, a);
    hide TriggerPending;
  }

  lemma IdsByReader(c: Client, a: Action)
    requires Ids(c) && ReaderDo(c, a).Some?
    ensures Ids(ReaderDo(c, a).value)
  {
  }

  lemma ReaderKeeps(c: Client, a: Action)
    requires Inv(c) && ReaderDo(c, a).Some?
    ensures Inv(ReaderDo(c, a).value)
  {
    IdsByReader(c, a);
    hide Ids;
    var c' := ReaderDo(c, a).value;
    if a.ReaderLowers? {
      assert c'.readers[a.id] == Triggering;
    } else if a.ReaderLeaves? {
      PendingStays(c, c');
      hide TriggerPending;
    }
  }

  lemma IdsBySender(c: Client, a: Action)
    requires Ids(c) && SenderDo(c, a).Some?
    ensures Ids(SenderDo(c, a).value)
  {
  }

  lemma SenderOwesAsMuch(c: Client, a: Action)
    requires SenderDo(c, a).Some? && Nudged(c)
    ensures Nudged(SenderDo(c, a).value)
  {
  }

  lemma SenderKeeps(c: Client, a: Action)
    requires Inv(c) && SenderDo(c, a).Some?
    ensures Inv(SenderDo(c, a).value)
  {
    IdsBySender(c, a);
    if Nudged(c) {
      SenderOwesAsMuch(c, a);
    }
    if a.SenderLowers? || a.SenderClears? {
      assert Nudged(SenderDo(c, a).value);
    }
    hide Ids, Nudged;
  }

  lemma {:induction false} InvHolds(acts: seq<Action>)
    requires Exec(acts).Some?
    ensures Inv(Exec(acts).value)
  {
    if acts != [] {
      var a := acts[|acts| - 1];
      InvHolds(acts[..|acts| - 1]);
      var c := Exec(acts[..|acts| - 1]).value;
      match a
      case TriggerFirst =>
      case ReaderLeaves(_) | ReaderLowers(_) | ReaderTriggers(_) => ReaderKeeps(c, a);
      case SendBegins | SenderReadsPointer | WriteSucceeds | WriteFails
         | SenderLowers | SenderClears | SenderTriggers =>
        SenderKeeps(c, a);
      case _ => LoopKeeps(c, a);
    }
  }

  /** In every interleaving, while the flag is down, the pointer is empty, or the stored
      connection has lost its reader, a signal is pending, the loop is reconnecting, or some
      thread has yet to trigger. */
  lemma NoLostWakeUp(acts: seq<Action>)
    requires Exec(acts).Some?
    ensures var c := Exec(acts).value;
            !c.connected || c.conn.None? || ReaderAt(c, c.conn.value) == Some(Finished) ==> WakeUpComing(c)
  {
    InvHolds(acts);
  }

  // ----- what the loop counts ----------------------------------------------------------------------

  /** Milliseconds slept after k failures in a row: doubling from 100 up to 5000. */
  function BackoffAfter(k: nat): nat {
    if k == 0 then FIRST_BACKOFF else Doubled(BackoffAfter(k - 1))
  }

  ghost predicate Counts(c: Client) {
    && (c.loop.Backoff? ==> c.attempts > 0)
    && c.backoff == (if c.loop.Backoff? then BackoffAfter(c.attempts - 1) else BackoffAfter(c.attempts))
    && c.reconnections + One(c.wasConnected) + One(c.loop.Dialed? || c.loop.Stored?) == c.dials
  }

  /** Every sleep is the capped doubling of the failures since the last success, and the
      reconnection callback has run once per raised connection but the first. */
  lemma {:induction false} BackoffAndCallbacks(acts: seq<Action>)
    requires Exec(acts).Some?
    ensures Counts(Exec(acts).value)
  {
    if acts != [] {
      BackoffAndCallbacks(acts[..|acts| - 1]);
      CountsKept(Exec(acts[..|acts| - 1]).value, acts[|acts| - 1]);
    }
  }

  lemma CountsKept(c: Client, a: Action)
    requires Counts(c) && Do(c, a).Some?
    ensures Counts(Do(c, a).value)
  {
    hide Counts, LoopDo, ReaderDo, SenderDo;
    if LoopDo(c, a).Some? {
      LoopCounts(c, a);
    }
    if ReaderDo(c, a).Some? {
      ReaderCounts(c, a);
    }
    if SenderDo(c, a).Some? {
      SenderCounts(c, a);
    }
    TriggerCounts(c);
  }

  lemma TriggerCounts(c: Client)
    requires Counts(c)
    ensures Counts(c.(signal := true, started := true, books := BooksTriggered(c.books, c.signal)))
  {
  }

  lemma LoopCounts(c: Client, a: Action)
    requires Counts(c) && LoopDo(c, a).Some?
    ensures Counts(LoopDo(c, a).value)
  {
  }

  lemma ReaderCounts(c: Client, a: Action)
    requires Counts(c) && ReaderDo(c, a).Some?
    ensures Counts(ReaderDo(c, a).value)
  {
  }

  lemma SenderCounts(c: Client, a: Action)
    requires Counts(c) && SenderDo(c, a).Some?
    ensures Counts(SenderDo(c, a).value)
  {
  }

  lemma {:induction false} BackoffBounds(k: nat)
    ensures FIRST_BACKOFF <= BackoffAfter(k) <= MAX_BACKOFF
    ensures k > 0 ==> BackoffAfter(k - 1) <= BackoffAfter(k)
    ensures k >= 6 ==> BackoffAfter(k) == MAX_BACKOFF
  {
    if k > 0 {
      BackoffBounds(k - 1);
      if k == 6 {
        assert BackoffAfter(3) == 800;
        assert BackoffAfter(5) == 3200;
      }
    }
  }

  /** The closed form: 100 ms doubled for every failure, up to 5 s. */
  lemma {:induction false} BackoffClosedForm(k: nat)
    ensures BackoffAfter(k) == if k >= 6 then 5000 else 100 * Bits.Pow2(k)
  {
    if k > 0 {
      BackoffClosedForm(k - 1);
      SmallPowers();
    }
  }

  lemma SmallPowers()
    ensures Bits.Pow2(0) == 1 && Bits.Pow2(1) == 2 && Bits.Pow2(2) == 4
    ensures Bits.Pow2(3) == 8 && Bits.Pow2(4) == 16 && Bits.Pow2(5) == 32
  {
  }

  /** Dials that failed in a row at the end of a schedule. */
  function FailuresInARow(acts: seq<Action>): nat {
    if acts == [] then 0
    else
      match acts[|acts| - 1]
      case DialFails => FailuresInARow(acts[..|acts| - 1]) + 1
      case DialSucceeds => 0
      case _ => FailuresInARow(acts[..|acts| - 1])
  }

  /** Times the flag was raised. */
  function Raises(acts: seq<Action>): nat {
    if acts == [] then 0 else Raises(acts[..|acts| - 1]) + One(acts[|acts| - 1].RaiseFlag?)
  }

  /** What the loop's own counters stand for. */
  ghost predicate LoopHistory(c: Client, failures: nat, raises: nat) {
    && (!c.loop.Dialed? && !c.loop.Stored? ==> c.attempts == failures)
    && (c.loop.Dialed? || c.loop.Stored? ==> failures == 0)
    && c.wasConnected == (raises > 0)
    && c.reconnections == if raises > 0 then raises - 1 else 0
  }

  lemma LoopHistoryByLoop(c: Client, a: Action, failures: nat, raises: nat)
    requires LoopHistory(c, failures, raises) && LoopDo(c, a).Some?
    ensures LoopHistory(LoopDo(c, a).value,
                        if a.DialFails? then failures + 1 else if a.DialSucceeds? then 0 else failures,
                        raises + One(a.RaiseFlag?))
  {
  }

  lemma LoopHistoryByOthers(c: Client, a: Action, failures: nat, raises: nat)
    requires LoopHistory(c, failures, raises)
    ensures ReaderDo(c, a).Some? ==> LoopHistory(ReaderDo(c, a).value, failures, raises)
    ensures SenderDo(c, a).Some? ==> LoopHistory(SenderDo(c, a).value, failures, raises)
  {
  }

  lemma {:induction false} LoopHistoryHolds(acts: seq<Action>)
    requires Exec(acts).Some?
    ensures LoopHistory(Exec(acts).value, FailuresInARow(acts), Raises(acts))
  {
    if acts != [] {
      var init, a := acts[..|acts| - 1], acts[|acts| - 1];
      ExecLast(acts);
      LoopHistoryHolds(init);
      var c := Exec(init).value;
      hide LoopDo, ReaderDo, SenderDo, LoopHistory;
      match a
      case TriggerFirst => TriggerKeepsHistory(c, FailuresInARow(init), Raises(init));
      case ReaderLeaves(_) | ReaderLowers(_) | ReaderTriggers(_) =>
        LoopHistoryByOthers(c, a, FailuresInARow(init), Raises(init));
      case SendBegins | SenderReadsPointer | WriteSucceeds | WriteFails
         | SenderLowers | SenderClears | SenderTriggers =>
        LoopHistoryByOthers(c, a, FailuresInARow(init), Raises(init));
      case _ => LoopHistoryByLoop(c, a, FailuresInARow(init), Raises(init));
    }
  }

  lemma TriggerKeepsHistory(c: Client, failures: nat, raises: nat)
    requires LoopHistory(c, failures, raises)
    ensures LoopHistory(c.(signal := true, started := true, books := BooksTriggered(c.books, c.signal)),
                        failures, raises)
  {
  }

  /** After any schedule that leaves the loop asleep: with k dials failed in a row, it sleeps 100 ms
      times 2^(k-1), at most 5 s. And after any schedule the callback has run once for every time the
      flag was raised but the first. */
  lemma SleepsExactly(acts: seq<Action>)
    requires Exec(acts).Some?
    ensures var c := Exec(acts).value;
            var k := FailuresInARow(acts);
            && (c.loop.Backoff? ==> k > 0 && c.backoff == if k >= 7 then 5000 else 100 * Bits.Pow2(k - 1))
            && c.reconnections == if Raises(acts) > 0 then Raises(acts) - 1 else 0
  {
    hide Exec, Bits.Pow2, BackoffAfter, FailuresInARow, Raises;
    BackoffAndCallbacks(acts);
    LoopHistoryHolds(acts);
    if FailuresInARow(acts) > 0 {
      BackoffClosedForm(FailuresInARow(acts) - 1);
    }
  }

  // ----- what a send writes to --------------------------------------------------------------------

  /** The sender's moves in a schedule, last first: since its last flag check it only read the pointer. */
  ghost predicate CheckedThenRead(acts: seq<Action>, i: nat, j: nat, id: ConnId)
    requires i < j < |acts|
  {
    && acts[i].SendBegins? && Exec(acts[..i]).Some? && Exec(acts[..i]).value.connected
    && acts[j].SenderReadsPointer? && Exec(acts[..j]).Some? && Exec(acts[..j]).value.conn == Some(id)
    && (forall k :: i < k < |acts| && k != j ==> !SenderMoves(acts[k]))
  }

  predicate SenderMoves(a: Action) {
    a.SendBegins? || a.SenderReadsPointer? || a.WriteSucceeds? || a.WriteFails?
    || a.SenderLowers? || a.SenderClears? || a.SenderTriggers?
  }

  /** The last move of the sender was a flag check that found the flag up. */
  ghost predicate Checked(acts: seq<Action>, i: nat)
    requires i < |acts|
  {
    && acts[i].SendBegins? && Exec(acts[..i]).Some? && Exec(acts[..i]).value.connected
    && (forall k :: i < k < |acts| ==> !SenderMoves(acts[k]))
  }

  lemma CheckedStill(init: seq<Action>, a: Action, i: nat)
    requires i < |init| && Checked(init, i) && !SenderMoves(a)
    ensures Checked(init + [a], i)
  {
    hide Exec, SenderMoves;
    var acts := init + [a];
    assert acts[..i] == init[..i] && forall k :: 0 <= k < |init| ==> acts[k] == init[k];
  }

  lemma ReadStill(init: seq<Action>, a: Action, i: nat, j: nat, id: ConnId)
    requires i < j < |init| && CheckedThenRead(init, i, j, id) && !SenderMoves(a)
    ensures CheckedThenRead(init + [a], i, j, id)
  {
    hide Exec, SenderMoves;
    var acts := init + [a];
    assert acts[..i] == init[..i] && acts[..j] == init[..j] && forall k :: 0 <= k < |init| ==> acts[k] == init[k];
  }

  lemma OthersLeaveSender(c: Client, a: Action)
    requires Do(c, a).Some? && !SenderMoves(a)
    ensures Do(c, a).value.sender == c.sender
  {
  }

  lemma {:induction false} FlagSeenMeans(acts: seq<Action>) returns (i: nat)
    requires Exec(acts).Some? && Exec(acts).value.sender.FlagSeen?
    ensures i < |acts| && Checked(acts, i)
  {
    var init, a := acts[..|acts| - 1], acts[|acts| - 1];
    ExecLast(acts);
    var c := Exec(init).value;
    assert init + [a] == acts;
    if SenderMoves(a) {
      BecomesFlagSeen(c, a);
      hide Do, Exec, Checked;
      i := |init|;
      JustChecked(init, a);
    } else {
      OthersLeaveSender(c, a);
      hide Do, Checked, Exec;
      i := FlagSeenMeans(init);
      CheckedStill(init, a, i);
    }
  }

  lemma JustChecked(init: seq<Action>, a: Action)
    requires a.SendBegins? && Exec(init).Some? && Exec(init).value.connected
    ensures Checked(init + [a], |init|)
  {
    hide Exec;
    assert (init + [a])[..|init|] == init;
  }

  lemma JustRead(init: seq<Action>, a: Action, i: nat, id: ConnId)
    requires i < |init| && Checked(init, i) && a.SenderReadsPointer?
    requires Exec(init).Some? && Exec(init).value.conn == Some(id)
    ensures CheckedThenRead(init + [a], i, |init|, id)
  {
    hide Exec, SenderMoves;
    var acts := init + [a];
    assert acts[..|init|] == init && acts[..i] == init[..i] && forall k :: 0 <= k < |init| ==> acts[k] == init[k];
  }

  lemma BecomesFlagSeen(c: Client, a: Action)
    requires SenderMoves(a) && Do(c, a).Some? && Do(c, a).value.sender.FlagSeen?
    ensures a.SendBegins? && c.connected
  {
  }

  lemma BecomesWriting(c: Client, a: Action, id: ConnId)
    requires SenderMoves(a) && Do(c, a).Some? && Do(c, a).value.sender == Writing(id)
    ensures a.SenderReadsPointer? && c.sender.FlagSeen? && c.conn == Some(id)
  {
  }

  /** A send only ever writes to a connection that was stored when it read the pointer, after it had
      found the flag up, with no other step of the sender in between or since. */
  lemma {:induction false} WritesGuarded(acts: seq<Action>, id: ConnId) returns (i: nat, j: nat)
    requires Exec(acts).Some? && Exec(acts).value.sender == Writing(id)
    ensures i < j < |acts| && CheckedThenRead(acts, i, j, id)
  {
    var init, a := acts[..|acts| - 1], acts[|acts| - 1];
    ExecLast(acts);
    var c := Exec(init).value;
    assert init + [a] == acts;
    if SenderMoves(a) {
      BecomesWriting(c, a, id);
      hide Do, Exec, Checked, CheckedThenRead;
      i := FlagSeenMeans(init);
      j := |init|;
      JustRead(init, a, i, id);
    } else {
      OthersLeaveSender(c, a);
      hide Do, CheckedThenRead, Exec;
      i, j := WritesGuarded(init, id);
      ReadStill(init, a, i, j, id);
    }
  }

  // ----- what the signals cost --------------------------------------------------------------------

  /** The sender has failed on a connection and not yet triggered. */
  predicate SenderOwes(p: SenderPc) {
    p.WriteFailed? || p.FlagLowered? || p.PointerCleared?
  }

  predicate Redialing(l: LoopPc) {
    l.Closing? || l.Dialing? || l.Backoff?
  }

  /** Every signal taken is dialled once. */
  ghost predicate DialsAreSignals(c: Client) {
    c.dials + One(Redialing(c.loop)) == c.books.signals
  }

  /** Every signal stands for a trigger of its own - the constructor's, a reader's, or the sender's for
      a connection it failed on - and every other trigger was absorbed by a pending signal. */
  ghost predicate SignalsAreTriggers(c: Client) {
    c.books.signals + One(c.signal) + c.books.absorbed + One(SenderOwes(c.sender))
    == One(c.started) + |c.books.fallen| + |c.books.failed|
  }

  /** No connection is written to, or failed on, twice. */
  ghost predicate FailedOnce(c: Client) {
    && (forall id :: id in c.books.failed ==> id < c.dials)
    && (c.sender.Writing? ==> c.sender.id < c.dials && c.sender.id !in c.books.failed)
    && (c.conn.Some? && c.conn.value in c.books.failed ==> c.sender.WriteFailed? || c.sender.FlagLowered?)
    && (c.loop.Dialed? ==> c.loop.id !in c.books.failed && c.sender != Writing(c.loop.id))
  }

  /** The stored connection has lost its reader exactly when that reader's trigger is merged in the
      pending signal or, while the loop is about to close it, in the signal just taken. */
  ghost predicate Tagged(c: Client) {
    && (forall id :: id in c.books.fallen <==> ReaderAt(c, id) == Some(Finished))
    && c.books.merged + c.books.taken <= c.books.fallen
    && (c.books.merged != {} ==> c.signal)
    && (c.conn.Some? && c.conn.value in c.books.fallen ==>
          c.conn.value in c.books.merged || (c.loop.Closing? && c.conn.value in c.books.taken))
  }

  /** Open are the connection just dialled, the one stored, and every one the sender cleared. */
  ghost predicate OpenAre(c: Client) {
    && c.books.open == Held(c.conn) + (if c.loop.Dialed? then {c.loop.id} else {}) + c.books.cleared
    && (forall id :: id in c.books.cleared ==> id < c.dials)
    && (c.conn.Some? ==> c.conn.value !in c.books.cleared)
    && (c.loop.Dialed? ==> c.loop.id !in c.books.cleared)
  }

  ghost predicate Accounts(c: Client) {
    Ids(c) && DialsAreSignals(c) && SignalsAreTriggers(c) && FailedOnce(c) && Tagged(c) && OpenAre(c)
  }

  lemma DialsByLoop(c: Client, a: Action)
    requires DialsAreSignals(c) && LoopDo(c, a).Some?
    ensures DialsAreSignals(LoopDo(c, a).value)
  {
  }

  lemma DialsByOthers(c: Client, a: Action)
    requires DialsAreSignals(c)
    ensures ReaderDo(c, a).Some? ==> DialsAreSignals(ReaderDo(c, a).value)
    ensures SenderDo(c, a).Some? ==> DialsAreSignals(SenderDo(c, a).value)
  {
  }

  lemma DialsKept(c: Client, a: Action)
    requires DialsAreSignals(c) && Do(c, a).Some?
    ensures DialsAreSignals(Do(c, a).value)
  {
    hide LoopDo, ReaderDo, SenderDo;
    DialsByOthers(c, a);
    if LoopDo(c, a).Some? {
      DialsByLoop(c, a);
    }
  }

  lemma TriggersByLoop(c: Client, a: Action)
    requires SignalsAreTriggers(c) && LoopDo(c, a).Some?
    ensures SignalsAreTriggers(LoopDo(c, a).value)
  {
  }

  lemma TriggersByReader(c: Client, a: Action)
    requires SignalsAreTriggers(c) && Tagged(c) && ReaderDo(c, a).Some?
    ensures SignalsAreTriggers(ReaderDo(c, a).value)
  {
  }

  lemma TriggersBySender(c: Client, a: Action)
    requires SignalsAreTriggers(c) && FailedOnce(c) && SenderDo(c, a).Some?
    ensures SignalsAreTriggers(SenderDo(c, a).value)
  {
  }

  lemma TriggersKept(c: Client, a: Action)
    requires SignalsAreTriggers(c) && FailedOnce(c) && Tagged(c) && Do(c, a).Some?
    ensures SignalsAreTriggers(Do(c, a).value)
  {
    hide LoopDo, ReaderDo, SenderDo, FailedOnce, Tagged;
    match a
    case TriggerFirst =>
    case ReaderLeaves(_) | ReaderLowers(_) | ReaderTriggers(_) => TriggersByReader(c, a);
    case SendBegins | SenderReadsPointer | WriteSucceeds | WriteFails | SenderLowers | SenderClears | SenderTriggers =>
      TriggersBySender(c, a);
    case _ => TriggersByLoop(c, a);
  }

  lemma OpenByLoop(c: Client, a: Action)
    requires Ids(c) && OpenAre(c) && LoopDo(c, a).Some?
    ensures OpenAre(LoopDo(c, a).value)
  {
  }

  lemma OpenBySender(c: Client, a: Action)
    requires Ids(c) && OpenAre(c) && SenderDo(c, a).Some?
    ensures OpenAre(SenderDo(c, a).value)
  {
    var c' := SenderDo(c, a).value;
    assert c'.books.open == c.books.open && c'.loop == c.loop && c'.dials == c.dials;
    if a.SenderClears? {
      assert c'.conn == None && c'.books.cleared == c.books.cleared + Held(c.conn);
    } else {
      assert c'.conn == c.conn && c'.books.cleared == c.books.cleared;
    }
    hide SenderDo;
  }

  lemma OpenByReader(c: Client, a: Action)
    requires OpenAre(c) && ReaderDo(c, a).Some?
    ensures OpenAre(ReaderDo(c, a).value)
  {
  }

  lemma OpenKept(c: Client, a: Action)
    requires Ids(c) && OpenAre(c) && Do(c, a).Some?
    ensures OpenAre(Do(c, a).value)
  {
    hide LoopDo, ReaderDo, SenderDo, Ids;
    match a
    case TriggerFirst =>
    case ReaderLeaves(_) | ReaderLowers(_) | ReaderTriggers(_) => OpenByReader(c, a);
    case SendBegins | SenderReadsPointer | WriteSucceeds | WriteFails | SenderLowers | SenderClears | SenderTriggers =>
      OpenBySender(c, a);
    case _ => OpenByLoop(c, a);
  }

  lemma FailedByLoop(c: Client, a: Action)
    requires Ids(c) && FailedOnce(c) && LoopDo(c, a).Some?
    ensures FailedOnce(LoopDo(c, a).value)
  {
  }

  lemma FailedBySender(c: Client, a: Action)
    requires Ids(c) && FailedOnce(c) && SenderDo(c, a).Some?
    ensures FailedOnce(SenderDo(c, a).value)
  {
  }

  lemma FailedByReader(c: Client, a: Action)
    requires FailedOnce(c) && ReaderDo(c, a).Some?
    ensures FailedOnce(ReaderDo(c, a).value)
  {
  }

  lemma FailedOnceKept(c: Client, a: Action)
    requires Ids(c) && FailedOnce(c) && Do(c, a).Some?
    ensures FailedOnce(Do(c, a).value)
  {
    hide LoopDo, ReaderDo, SenderDo, Ids;
    match a
    case TriggerFirst =>
    case ReaderLeaves(_) | ReaderLowers(_) | ReaderTriggers(_) => FailedByReader(c, a);
    case SendBegins | SenderReadsPointer | WriteSucceeds | WriteFails | SenderLowers | SenderClears | SenderTriggers =>
      FailedBySender(c, a);
    case _ => FailedByLoop(c, a);
  }

  lemma TaggedByLoop(c: Client, a: Action)
    requires Ids(c) && Tagged(c) && LoopDo(c, a).Some?
    ensures Tagged(LoopDo(c, a).value)
  {
  }

  lemma TaggedByReader(c: Client, a: Action)
    requires Ids(c) && Tagged(c) && ReaderDo(c, a).Some?
    ensures Tagged(ReaderDo(c, a).value)
  {
  }

  lemma TaggedBySender(c: Client, a: Action)
    requires Ids(c) && Tagged(c) && SenderDo(c, a).Some?
    ensures Tagged(SenderDo(c, a).value)
  {
  }

  lemma TaggedKept(c: Client, a: Action)
    requires Ids(c) && Tagged(c) && Do(c, a).Some?
    ensures Tagged(Do(c, a).value)
  {
    hide LoopDo, ReaderDo, SenderDo;
    match a
    case TriggerFirst =>
    case ReaderLeaves(_) | ReaderLowers(_) | ReaderTriggers(_) => TaggedByReader(c, a);
    case SendBegins | SenderReadsPointer | WriteSucceeds | WriteFails | SenderLowers | SenderClears | SenderTriggers =>
      TaggedBySender(c, a);
    case _ => TaggedByLoop(c, a);
  }

  lemma {:induction false} AccountsHold(acts: seq<Action>)
    requires Exec(acts).Some?
    ensures Accounts(Exec(acts).value)
  {
    InvHolds(acts);
    if acts != [] {
      var a := acts[|acts| - 1];
      AccountsHold(acts[..|acts| - 1]);
      var c := Exec(acts[..|acts| - 1]).value;
      hide Do, DialsAreSignals, SignalsAreTriggers, FailedOnce, Tagged, OpenAre;
      DialsKept(c, a);
      TriggersKept(c, a);
      OpenKept(c, a);
      FailedOnceKept(c, a);
      TaggedKept(c, a);
    }
  }

  /** The connections that were lost: their reader has triggered, or a write to them failed. */
  function Lost(c: Client): set<ConnId> {
    c.books.fallen + c.books.failed
  }

  /** One dial for the constructor and at most two for every connection lost. */
  lemma DialsBounded(acts: seq<Action>)
    requires Exec(acts).Some?
    ensures var c := Exec(acts).value;
            && c.dials + One(Redialing(c.loop)) == c.books.signals
            && c.books.signals <= 1 + |c.books.fallen| + |c.books.failed|
            && c.dials <= 1 + 2 * |Lost(c)|
  {
    AccountsHold(acts);
    var b := Exec(acts).value.books;
    SubsetSize(b.fallen, b.fallen + b.failed);
    SubsetSize(b.failed, b.fallen + b.failed);
  }

  lemma UnionSize(a: set<ConnId>, b: set<ConnId>)
    ensures |a| + |b| == |a + b| + |a * b|
  {
    assert a + b == a + (b - a) && b == (b - a) + (a * b);
  }

  /** The exact count of dials, and when one lost connection costs one redial: with no redial, signal
      or trigger to come, exactly when as many triggers were absorbed by a pending signal as
      connections were lost both by their reader and by the sender. Each absorbed trigger saves a
      dial, and each connection lost twice triggers twice. */
  lemma DialsExactly(acts: seq<Action>)
    requires Exec(acts).Some?
    ensures var c := Exec(acts).value;
            var twice := |c.books.fallen * c.books.failed|;
            && c.dials + One(Redialing(c.loop)) + One(c.signal) + One(SenderOwes(c.sender)) + c.books.absorbed
               == One(c.started) + |Lost(c)| + twice
            && (c.started && !Redialing(c.loop) && !c.signal && !SenderOwes(c.sender) ==>
                  (c.dials == 1 + |Lost(c)| <==> c.books.absorbed == twice))
  {
    AccountsHold(acts);
    var b := Exec(acts).value.books;
    UnionSize(b.fallen, b.failed);
  }

  /** Closing is left to the loop, so a connection stays open beyond the one stored and the one just
      dialled exactly when the sender cleared it. */
  lemma OpenExactly(acts: seq<Action>, id: ConnId)
    requires Exec(acts).Some?
    ensures var c := Exec(acts).value;
            && (id in c.books.open && c.conn != Some(id) && c.loop != Dialed(id) <==> id in c.books.cleared)
            && (c.conn == Some(id) || c.loop == Dialed(id) ==> id in c.books.open)
  {
    AccountsHold(acts);
  }

  lemma SubsetSize(a: set<ConnId>, b: set<ConnId>)
    requires a <= b
    ensures |a| <= |b|
  {
    assert b == a + (b - a);
  }

  /** The loop, about to close a stored connection, closes a dead one exactly when the trigger of
      that connection's reader is in the signal it took, or came after it; just after taking the
      signal, exactly when it is in that signal. Otherwise the connection is still being read. */
  lemma SignalClosesDeadConnection(acts: seq<Action>)
    requires Exec(acts).Some? && Exec(acts).value.loop.Closing? && Exec(acts).value.conn.Some?
    ensures var c := Exec(acts).value;
            && (ReaderAt(c, c.conn.value) == Some(Finished)
                <==> c.conn.value in c.books.taken || c.conn.value in c.books.merged)
            && (acts[|acts| - 1].TakeSignal? ==>
                  (ReaderAt(c, c.conn.value) == Some(Finished) <==> c.conn.value in c.books.taken))
  {
    AccountsHold(acts);
  }

  // ----- a raised flag does not mean a stored connection -----------------------------------------------

  predicate FlagMeansStored(c: Client) {
    c.connected ==> c.conn.Some?
  }

  /** The loop closes, or the sender clears, under a raised flag; or the loop raises the flag
      after the sender has cleared what it stored. */
  predicate Breaks(c: Client, a: Action) {
    || (a.CloseOld? && c.connected)
    || (a.SenderClears? && c.connected)
    || (a.RaiseFlag? && c.conn.None?)
  }

  predicate Mends(a: Action) {
    a.ReaderLowers? || a.SenderLowers? || a.StorePointer?
  }

  lemma FlagByLoop(c: Client, a: Action)
    requires LoopDo(c, a).Some?
    ensures FlagMeansStored(c) ==> (FlagMeansStored(LoopDo(c, a).value) <==> !Breaks(c, a))
    ensures !FlagMeansStored(c) ==> (FlagMeansStored(LoopDo(c, a).value) <==> Mends(a))
  {
  }

  lemma FlagByReader(c: Client, a: Action)
    requires ReaderDo(c, a).Some?
    ensures FlagMeansStored(ReaderDo(c, a).value) <==> FlagMeansStored(c) || Mends(a)
    ensures !Breaks(c, a)
  {
  }

  lemma FlagBySender(c: Client, a: Action)
    requires SenderDo(c, a).Some?
    ensures FlagMeansStored(c) ==> (FlagMeansStored(SenderDo(c, a).value) <==> !Breaks(c, a))
    ensures !FlagMeansStored(c) ==> (FlagMeansStored(SenderDo(c, a).value) <==> Mends(a))
  {
  }

  lemma BreaksNotMends(c: Client, a: Action)
    ensures !(Breaks(c, a) && Mends(a))
    ensures a.TriggerFirst? ==> !Breaks(c, a) && !Mends(a)
  {
  }

  lemma FlagStepExact(c: Client, a: Action)
    requires Do(c, a).Some?
    ensures FlagMeansStored(c) ==> (FlagMeansStored(Do(c, a).value) <==> !Breaks(c, a))
    ensures !FlagMeansStored(c) ==> (FlagMeansStored(Do(c, a).value) <==> Mends(a))
    ensures !(Breaks(c, a) && Mends(a))
  {
    hide LoopDo, ReaderDo, SenderDo, Breaks, Mends;
    BreaksNotMends(c, a);
    match a
    case TriggerFirst =>
    case ReaderLeaves(_) | ReaderLowers(_) | ReaderTriggers(_) => FlagByReader(c, a);
    case SendBegins | SenderReadsPointer | WriteSucceeds | WriteFails | SenderLowers | SenderClears | SenderTriggers =>
      FlagBySender(c, a);
    case _ => FlagByLoop(c, a);
  }

  /** Step k of the schedule breaks the claim. */
  predicate BreaksAt(acts: seq<Action>, k: nat)
    requires k < |acts|
  {
    Exec(acts[..k]).Some? && Breaks(Exec(acts[..k]).value, acts[k])
  }

  /** Step k breaks the claim and nothing after it mends it. */
  ghost predicate BrokenSince(acts: seq<Action>, k: nat)
    requires k < |acts|
  {
    BreaksAt(acts, k) && forall j :: k < j < |acts| ==> !Mends(acts[j])
  }

  lemma BrokenStill(init: seq<Action>, a: Action, k: nat)
    requires k < |init|
    ensures BrokenSince(init + [a], k) <==> BrokenSince(init, k) && !Mends(a)
  {
    hide Exec, Mends, Breaks;
    var acts := init + [a];
    assert acts[..k] == init[..k];
    assert acts[|init|] == a && forall j :: 0 <= j < |init| ==> acts[j] == init[j];
  }

  lemma BrokenNow(init: seq<Action>, a: Action)
    requires Exec(init).Some?
    ensures BrokenSince(init + [a], |init|) <==> Breaks(Exec(init).value, a)
  {
    hide Exec, Mends, Breaks;
    assert (init + [a])[..|init|] == init;
  }

  /** After any schedule the flag is up with no connection stored exactly when some step broke the
      claim and no flag was lowered and no pointer stored since. */
  lemma {:induction false} FlagUpWithoutConnectionExactly(acts: seq<Action>)
    requires Exec(acts).Some?
    ensures !FlagMeansStored(Exec(acts).value) <==> exists k :: 0 <= k < |acts| && BrokenSince(acts, k)
  {
    hide Exec, Do, Mends, Breaks, FlagMeansStored, BrokenSince;
    if acts == [] {
      StartMeansStored();
    } else {
      var n := |acts| - 1;
      var init, a := acts[..n], acts[n];
      ExecLast(acts);
      FlagUpWithoutConnectionExactly(init);
      FlagStepExact(Exec(init).value, a);
      BrokenNow(init, a);
      assert init + [a] == acts;
      forall k | 0 <= k < n
        ensures BrokenSince(acts, k) <==> BrokenSince(init, k) && !Mends(a)
      {
        BrokenStill(init, a, k);
      }
    }
  }

  lemma StartMeansStored()
    ensures Exec([]) == Some(Start()) && FlagMeansStored(Start())
  {
  }

  lemma ExecLast(acts: seq<Action>)
    requires acts != [] && Exec(acts).Some?
    ensures Exec(acts[..|acts| - 1]).Some? && Exec(acts) == Do(Exec(acts[..|acts| - 1]).value, acts[|acts| - 1])
  {
    hide Do;
  }

  // ----- schedules in which the tempting claims fail ------------------------------------------------------

  lemma Snoc(acts: seq<Action>, c: Client, a: Action) returns (more: seq<Action>)
    requires Exec(acts) == Some(c) && Do(c, a).Some?
    ensures Exec(more) == Do(c, a)
  {
    more := acts + [a];
    assert more[..|more| - 1] == acts;
  }

  /** The client after the loop took a signal, closed and dialled. */
  function Redialled(c: Client): Client {
    c.(signal := false, conn := None, loop := Dialed(c.dials), dials := c.dials + 1,
       books := BooksDialled(BooksClosed(BooksTaken(c.books), c.conn), c.dials))
  }

  lemma TakeAndDial(acts: seq<Action>, c: Client) returns (more: seq<Action>)
    requires Exec(acts) == Some(c) && c.loop == Waiting && c.signal
    ensures Exec(more) == Some(Redialled(c))
  {
    hide Exec;
    var c1 := c.(signal := false, loop := Closing, books := BooksTaken(c.books));
    var c2 := c1.(conn := None, loop := Dialing, books := BooksClosed(c1.books, c.conn));
    more := Snoc(acts, c, TakeSignal);
    more := Snoc(more, c1, CloseOld);
    more := Snoc(more, c2, DialSucceeds);
  }

  /** The client after the loop published what it dialled and started its reader. */
  function Published(c: Client, id: ConnId): Client {
    c.(conn := Some(id), connected := true, loop := Waiting, readers := c.readers[id := Reading],
       backoff := FIRST_BACKOFF, attempts := 0, reconnections := c.reconnections + One(c.wasConnected),
       wasConnected := true)
  }

  lemma Publish(acts: seq<Action>, c: Client, id: ConnId) returns (more: seq<Action>)
    requires Exec(acts) == Some(c) && c.loop == Dialed(id)
    ensures Exec(more) == Some(Published(c, id))
  {
    hide Exec;
    var c1 := c.(conn := Some(id), loop := Stored(id));
    var c2 := c1.(connected := true, loop := Raised(id), backoff := FIRST_BACKOFF, attempts := 0,
                  reconnections := c.reconnections + One(c.wasConnected), wasConnected := true);
    more := Snoc(acts, c, StorePointer);
    more := Snoc(more, c1, RaiseFlag);
    more := Snoc(more, c2, StartReader);
  }

  /** The client after the reader of a connection left, lowered the flag and triggered. */
  function ReaderFallen(c: Client, id: ConnId): Client {
    c.(connected := false, signal := true, readers := c.readers[id := Lowering][id := Triggering][id := Finished],
       books := BooksFallen(c.books, id, c.signal))
  }

  lemma ReaderFalls(acts: seq<Action>, c: Client, id: ConnId) returns (more: seq<Action>)
    requires Exec(acts) == Some(c) && ReaderAt(c, id) == Some(Reading)
    ensures Exec(more) == Some(ReaderFallen(c, id))
  {
    hide Exec;
    var c1 := c.(readers := c.readers[id := Lowering]);
    var c2 := c1.(connected := false, readers := c1.readers[id := Triggering]);
    more := Snoc(acts, c, ReaderLeaves(id));
    more := Snoc(more, c1, ReaderLowers(id));
    more := Snoc(more, c2, ReaderTriggers(id));
  }

  /** The sender picks up the stored connection. */
  lemma SenderPicks(acts: seq<Action>, c: Client, id: ConnId) returns (more: seq<Action>)
    requires Exec(acts) == Some(c) && c.sender == Ready && c.connected && c.conn == Some(id)
    ensures Exec(more) == Some(c.(sender := Writing(id)))
  {
    hide Exec;
    more := Snoc(acts, c, SendBegins);
    more := Snoc(more, c.(sender := FlagSeen), SenderReadsPointer);
  }

  /** The client after the sender's write failed and it lowered the flag. */
  function SenderFailed(c: Client): Client
    requires c.sender.Writing?
  {
    c.(connected := false, sender := FlagLowered, books := BooksFailed(c.books, c.sender.id))
  }

  lemma SenderFails(acts: seq<Action>, c: Client) returns (more: seq<Action>)
    requires Exec(acts) == Some(c) && c.sender.Writing?
    ensures Exec(more) == Some(SenderFailed(c))
  {
    hide Exec;
    more := Snoc(acts, c, WriteFails);
    more := Snoc(more, c.(sender := WriteFailed, books := BooksFailed(c.books, c.sender.id)), SenderLowers);
  }

  /** The client after the sender cleared the pointer, and after it then triggered. */
  function SenderCleared(c: Client): Client {
    c.(conn := None, sender := PointerCleared, books := BooksCleared(c.books, c.conn))
  }

  function SenderTriggered(c: Client): Client {
    c.(signal := true, sender := Ready, books := BooksTriggered(c.books, c.signal))
  }

  /** The constructor has triggered. */
  ghost predicate Fresh(c: Client) {
    && !c.connected && c.conn == None && c.signal && c.loop == Waiting && c.readers == map[] && c.sender == Ready
    && c.started && c.dials == 0 && c.books == Books(0, {}, {}, {}, {}, 0, {}, {})
  }

  lemma FirstTrigger() returns (acts: seq<Action>, c: Client)
    ensures Exec(acts) == Some(c) && Fresh(c)
  {
    acts := [TriggerFirst];
    assert acts[..0] == [];
    c := Start().(signal := true, started := true, books := BooksTriggered(Start().books, false));
  }

  /** The first dial of a fresh client. */
  lemma FirstDial() returns (acts: seq<Action>, c: Client)
    ensures Exec(acts) == Some(c) && c.loop == Dialed(0) && c.dials == 1 && c.started && !c.signal
    ensures c.sender == Ready && c.readers == map[] && c.books == Books(1, {}, {}, {}, {}, 0, {0}, {})
  {
    hide Exec;
    acts, c := FirstTrigger();
    acts := TakeAndDial(acts, c);
    assert {} - Held(None) + {0} == {0};
    c := Redialled(c);
  }

  /** The first connection is up and read, and the sender is about to write to it. */
  ghost predicate FirstUp(c: Client) {
    && c.connected && c.conn == Some(0) && c.loop == Waiting && c.readers == map[0 := Reading] && c.sender == Writing(0)
    && c.started && !c.signal && c.dials == 1 && c.books == Books(1, {}, {}, {}, {}, 0, {0}, {})
  }

  lemma FirstConnection() returns (acts: seq<Action>, c: Client)
    ensures Exec(acts) == Some(c) && FirstUp(c)
  {
    hide Exec;
    acts, c := FirstDial();
    acts := Publish(acts, c, 0);
    c := Published(c, 0);
    acts := SenderPicks(acts, c, 0);
    c := c.(sender := Writing(0));
  }

  /** The flag can be up with no connection stored: a sender that failed on the old connection
      clears the pointer of the new one. Its trigger is then still to come. */
  lemma FlagUpWithoutConnection() returns (acts: seq<Action>, c: Client)
    ensures Exec(acts) == Some(c)
    ensures c.connected && c.conn.None? && c.loop.Waiting? && !c.signal
  {
    hide Exec;
    acts, c := FirstConnection();
    acts := ReaderFalls(acts, c, 0);
    c := ReaderFallen(c, 0);
    acts := TakeAndDial(acts, c);
    c := Redialled(c);
    acts := SenderFails(acts, c);
    c := SenderFailed(c);
    acts := Publish(acts, c, 1);
    c := Published(c, 1);
    acts := Snoc(acts, c, SenderClears);
    c := SenderCleared(c);
  }

  /** The sender has failed on the first connection and cleared it. */
  ghost predicate FirstGone(c: Client) {
    && !c.connected && c.conn == None && c.loop == Waiting && c.readers == map[0 := Reading]
    && c.sender == PointerCleared
    && c.started && !c.signal && c.dials == 1 && c.books == Books(1, {}, {}, {}, {0}, 0, {0}, {0})
  }

  lemma FirstCleared() returns (acts: seq<Action>, c: Client)
    ensures Exec(acts) == Some(c) && FirstGone(c)
  {
    hide Exec;
    acts, c := FirstConnection();
    acts := SenderFails(acts, c);
    c := SenderFailed(c);
    assert {} + {0} == {0} && Held(c.conn) == {0};
    acts := Snoc(acts, c, SenderClears);
    c := SenderCleared(c);
  }

  /** The reader of the first connection has fallen too, and the second is up and read; the sender's
      trigger is still to come. */
  lemma SecondConnection() returns (acts: seq<Action>, c: Client)
    ensures Exec(acts) == Some(c)
    ensures c.loop == Waiting && c.conn == Some(1)
    ensures ReaderAt(c, 0) == Some(Finished) && ReaderAt(c, 1) == Some(Reading)
    ensures c.connected && c.sender == PointerCleared && !c.signal && c.started && c.dials == 2
    ensures c.readers.Keys == {0, 1} && c.books.fallen == {0} && c.books.failed == {0}
  {
    hide Exec;
    acts, c := FirstCleared();
    acts := ReaderFalls(acts, c, 0);
    c := ReaderFallen(c, 0);
    assert c.readers == map[0 := Finished] && c.books.fallen == {0} && c.books.failed == {0};
    acts := TakeAndDial(acts, c);
    c := Redialled(c);
    acts := Publish(acts, c, 1);
    c := Published(c, 1);
  }

  /** A trigger that comes after the redial makes the loop close the fresh connection while its
      reader is at work. */
  lemma LateTriggerClosesFreshConnection() returns (acts: seq<Action>, c: Client)
    ensures Exec(acts) == Some(c)
    ensures c.loop.Closing? && c.conn == Some(1) && ReaderAt(c, 1) == Some(Reading) && c.connected
    ensures c.dials == 2 && Lost(c) == {0} && !Nudged(c)
  {
    hide Exec;
    acts, c := SecondConnection();
    acts := Snoc(acts, c, SenderTriggers);
    c := SenderTriggered(c);
    acts := Snoc(acts, c, TakeSignal);
    c := c.(signal := false, loop := Closing, books := BooksTaken(c.books));
  }

  /** The flag can be up with no connection stored and no trigger to come at all: closing the fresh
      connection does not lower it, and the loop is about to dial. */
  lemma FlagUpWhileRedialing() returns (acts: seq<Action>, c: Client)
    ensures Exec(acts) == Some(c)
    ensures c.connected && c.conn.None? && c.loop.Dialing? && !Nudged(c)
    ensures ReaderAt(c, 1) == Some(Reading) && c.dials == 2 && Lost(c) == {0}
  {
    hide Exec;
    acts, c := LateTriggerClosesFreshConnection();
    acts := Snoc(acts, c, CloseOld);
    c := c.(conn := None, loop := Dialing, books := BooksClosed(c.books, c.conn));
  }

  /** One lost connection can cost two redials, the most DialsBounded allows: only connection 0 is
      lost, the reader of connection 1 never stopped, and connection 2 has been dialled. */
  lemma OneLossTwoRedials() returns (acts: seq<Action>, c: Client)
    ensures Exec(acts) == Some(c)
    ensures c.dials == 3 && Lost(c) == {0} && ReaderAt(c, 1) == Some(Reading)
    ensures c.dials == 1 + 2 * |Lost(c)|
  {
    hide Exec;
    acts, c := FlagUpWhileRedialing();
    acts := Snoc(acts, c, DialSucceeds);
    c := c.(loop := Dialed(c.dials), dials := c.dials + 1, books := BooksDialled(c.books, c.dials));
  }

  /** A connection the sender clears stays open and read: at rest, with a second one up, both readers
      are at work and nothing was ever closed. */
  lemma TwoReadersAtWork() returns (acts: seq<Action>, c: Client)
    ensures Exec(acts) == Some(c)
    ensures c.loop.Waiting? && c.connected && c.conn == Some(1) && !Nudged(c)
    ensures ReaderAt(c, 0) == ReaderAt(c, 1) == Some(Reading)
    ensures c.books.open == {0, 1} && c.books.cleared == {0} && c.dials == 2
  {
    hide Exec;
    acts, c := FirstCleared();
    acts := Snoc(acts, c, SenderTriggers);
    c := SenderTriggered(c);
    acts := TakeAndDial(acts, c);
    c := Redialled(c);
    acts := Publish(acts, c, 1);
    c := Published(c, 1);
  }

  /** With the loop waiting and no signal or trigger to come, a raised flag does mean a stored
      connection, and the flag is up and that connection still has its reader. */
  lemma FlagUpWithoutConnectionIsTransient(acts: seq<Action>)
    requires Exec(acts).Some?
    requires Exec(acts).value.loop.Waiting? && !Nudged(Exec(acts).value)
    ensures Exec(acts).value.connected && Exec(acts).value.conn.Some?
    ensures ReaderAt(Exec(acts).value, Exec(acts).value.conn.value) != Some(Finished)
  {
    InvHolds(acts);
  }
}
