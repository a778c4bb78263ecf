/** The event thread, the cleanup thread and the measurement goroutines, interleaved at their
    lock boundaries. */
module SidecarThreads {
  import opened Prelude
  import opened Filter
  import opened Pool
  import opened SidecarModel
  import P = Priorities

  /** Where the event thread stands: the locals it holds and the critical section it runs next. */
  datatype EventPc =
    | Idle
    | Arrived(tx: Tx, originalRlp: Bytes)
    | EchoCheck(hash: Hash)
    | Adding(tx: Tx, txBytes: Bytes, originalRlp: Bytes)
    | Typing(tx: Tx)
    | Bidding(tx: Tx)
    | Sizing(tx: Tx)
    | Storing(tx: Tx, size: nat)
    | Mirroring(tx: Tx, size: nat)
    | Looking(tx: Tx)
    | Streaming(jobs: seq<Job>, pair: bool)
    | Sending(job: Job, originalRlp: Bytes, jobs: seq<Job>, pair: bool)
    | Tracking(hash: Hash, jobs: seq<Job>, pair: bool)
    | Untracking(hash: Hash, kind: Retirement)
    | Untracked(hash: Hash, kind: Retirement)
    | Removing(hash: Hash)

  /** Where the cleanup thread stands. `start` remembers the books when the pool was first sized. */
  datatype CleanPc =
    | Resting
    | Counted(before: nat, start: Ledger)
    | Cleaned(before: nat, start: Ledger)
    | Recounted(before: nat, after: nat, start: Ledger, end: Ledger)
    | Restating(after: nat, end: Ledger)
    | Sweeping

  /** The whole machine. `cleanedAt` and `sweptAt` remember the last cleanup of each map, and
      `inserts` the hash and raw bytes of every Insert received. */
  datatype Machine = Machine(
    s: State,
    now: Time,
    ev: EventPc,
    cl: CleanPc,
    cleanedAt: Time,
    sweptAt: Time,
    inserts: set<(Hash, Bytes)>)

  datatype Action =
    | BeginInsert(tx: Tx, originalRlp: Bytes, arrivedAt: Time, at: Time)
    | BeginRetire(hash: Hash, kind: Retirement, at: Time)
    | EventStep(ok: bool, at: Time)
    | CleanStep(at: Time)
    | EchoStep(ms: real, at: Time)
    | ArrivalStep(ms: real, at: Time)

  function Start(now: Time): Machine {
    Machine(Init(), now, Idle, Resting, now, now, {})
  }

  /** What is streamed once a transaction is counted; a backrun first looks its target up. */
  function AfterCounting(cfg: Config, tx: Tx): EventPc {
    var c := cfg.classify(tx);
    match c.txType
    case NormalTransaction => Streaming([], false)
    case TobBid =>
      if c.bid.None? || c.bid.value.amount.None? then Streaming([], false)
      else Streaming([Job(tx.hash, P.TobBid(c.bid.value.amount.value))], false)
    case BackrunBid =>
      if c.bid.None? || c.bid.value.amount.None? || c.bid.value.target.None? then Streaming([], false)
      else Looking(tx)
  }

  function AfterLookup(cfg: Config, s: State, tx: Tx): EventPc {
    var c := cfg.classify(tx);
    if c.bid.None? || c.bid.value.amount.None? || c.bid.value.target.None? then Streaming([], false)
    else
      var target := c.bid.value.target.value;
      if target !in s.pool then Streaming([], false)
      else Streaming([Job(s.pool[target].tx.hash, P.Opportunity(target)),
                      Job(tx.hash, P.BackrunBid(c.bid.value.amount.value, target))], true)
  }

  /** What one critical section of the event thread does to the state. */
  function RunSection(cfg: Config, s: State, ev: EventPc, ok: bool, at: Time): State {
    match ev
    case Idle => s
    case Arrived(tx, _) => if tx.binary.None? then CountDecodeError(s) else s
    case EchoCheck(h) => Echo(s, h, at)
    case Adding(tx, txBytes, originalRlp) => AddToPool(s, tx, txBytes, originalRlp, at)
    case Typing(tx) => SetType(s, tx.hash, cfg.classify(tx).txType)
    case Bidding(tx) => SetBid(s, tx.hash, cfg.classify(tx).bid)
    case Sizing(_) => s
    case Storing(_, size) => StoreSize(s, size)
    case Mirroring(tx, size) => CountKind(MirrorSize(s, size), cfg.classify(tx).txType)
    case Looking(_) => s
    case Streaming(jobs, pair) =>
      if jobs == [] then CountProcessed(if pair then CountPair(s) else s)
      else if Sendable(s, jobs[0].hash) then s
      else FailSend(s)
    case Sending(job, originalRlp, _, _) => Send(s, job, originalRlp, ok, at)
    case Tracking(h, _, _) => Track(s, h, at)
    case Untracking(h, _) => if h in s.tracked then Forget(s, h) else s
    case Untracked(_, kind) => CountForgotten(s, kind)
    case Removing(h) => RemoveFromPool(s, h)
  }

  /** Where the event thread stands after that section. */
  function NextPc(cfg: Config, s: State, ev: EventPc, ok: bool): EventPc {
    match ev
    case Idle => Idle
    case Arrived(tx, originalRlp) =>
      if tx.binary.None? then Idle
      else if tx.hash in s.pool then EchoCheck(tx.hash)
      else Adding(tx, tx.binary.value, originalRlp)
    case EchoCheck(_) => Idle
    case Adding(tx, _, _) => Typing(tx)
    case Typing(tx) => Bidding(tx)
    case Bidding(tx) => Sizing(tx)
    case Sizing(tx) => Storing(tx, |s.pool|)
    case Storing(tx, size) => Mirroring(tx, size)
    case Mirroring(tx, _) => AfterCounting(cfg, tx)
    case Looking(tx) => AfterLookup(cfg, s, tx)
    case Streaming(jobs, pair) =>
      if jobs == [] then Idle
      else if Sendable(s, jobs[0].hash)
      then Sending(jobs[0], s.pool[jobs[0].hash].originalRlp, jobs[1..], pair)
      else Streaming(jobs[1..], pair)
    case Sending(job, _, jobs, pair) => if ok then Tracking(job.hash, jobs, pair) else Streaming(jobs, pair)
    case Tracking(_, jobs, pair) => Streaming(jobs, pair)
    case Untracking(h, kind) => if h in s.tracked then Untracked(h, kind) else Removing(h)
    case Untracked(h, _) => Removing(h)
    case Removing(_) => Idle
  }

  /** One critical section of the event thread; none when it is between events. */
  function EventMove(cfg: Config, s: State, ev: EventPc, ok: bool, at: Time): Option<(State, EventPc)> {
    if ev.Idle? then None else Some((RunSection(cfg, s, ev, ok, at), NextPc(cfg, s, ev, ok)))
  }

  /** One critical section of the cleanup thread. */
  function CleanMove(cfg: Config, s: State, cl: CleanPc, at: Time): (State, CleanPc) {
    match cl
    case Resting => (s, Counted(|s.pool|, s.books))
    case Counted(before, start) => (CleanPool(s, at, cfg.maxDuration), Cleaned(before, start))
    case Cleaned(before, start) => (s, Recounted(before, |s.pool|, start, s.books))
    case Recounted(before, after, _, end) => (StoreSize(CountExpired(s, before, after), after), Restating(after, end))
    case Restating(after, _) => (MirrorSize(s, after), Sweeping)
    case Sweeping => (CleanTracked(s, at, cfg.maxDuration), Resting)
  }

  /** One step of any thread; None when it is not enabled. The clock never goes back. */
  function Do(cfg: Config, m: Machine, a: Action): Option<Machine> {
    if a.at < m.now then None
    else
      match a
      case BeginInsert(tx, originalRlp, arrivedAt, at) =>
        if m.ev != Idle || !(m.now <= arrivedAt <= at) then None
        else Some(m.(s := Receive(m.s, arrivedAt, at), ev := Arrived(tx, originalRlp), now := at,
                     inserts := m.inserts + {(tx.hash, originalRlp)}))
      case BeginRetire(h, kind, at) =>
        if m.ev != Idle then None
        else Some(m.(s := NoteRetirement(m.s, kind, at), ev := Untracking(h, kind), now := at))
      case EventStep(ok, at) =>
        (match EventMove(cfg, m.s, m.ev, ok, at)
         case None => None
         case Some((s, ev)) => Some(m.(s := s, ev := ev, now := at)))
      case CleanStep(at) =>
        var (s, cl) := CleanMove(cfg, m.s, m.cl, at);
        Some(m.(s := s, cl := cl, now := at,
                cleanedAt := if m.cl.Counted? then at else m.cleanedAt,
                sweptAt := if m.cl.Sweeping? then at else m.sweptAt))
      case EchoStep(ms, at) =>
        if ms !in m.s.measures.echoes then None else Some(m.(s := RecordEcho(m.s, ms), now := at))
      case ArrivalStep(ms, at) =>
        if ms !in m.s.measures.arrivals then None else Some(m.(s := RecordArrival(m.s, ms), now := at))
  }

  type Stepper = (Machine, Action) -> Option<Machine>

  function StepOf(cfg: Config): Stepper {
    (m: Machine, a: Action) => Do(cfg, m, a)
  }

  /** The machine after a schedule of actions. */
  function ExecWith(step: Stepper, m: Machine, acts: seq<Action>): Option<Machine> {
    if acts == [] then Some(m)
    else
      match ExecWith(step, m, acts[..|acts| - 1])
      case None => None
      case Some(m') => step(m', acts[|acts| - 1])
  }

  ghost predicate ReachedBy(step: Stepper, m: Machine, m': Machine) {
    exists acts :: ExecWith(step, m, acts) == Some(m')
  }

  /** Some schedule leads from one machine to the other. */
  ghost predicate Reaches(cfg: Config, m: Machine, m': Machine) {
    ReachedBy(StepOf(cfg), m, m')
  }

  /** Every step keeps the property. */
  ghost predicate Keeps(step: Stepper, inv: Machine -> bool) {
    forall m, a :: inv(m) && step(m, a).Some? ==> inv(step(m, a).value)
  }

  /** What every step keeps holds after every schedule. */
  lemma {:induction false} Invariance(step: Stepper, inv: Machine -> bool, m: Machine, acts: seq<Action>)
    requires inv(m) && Keeps(step, inv)
    requires ExecWith(step, m, acts).Some?
    ensures inv(ExecWith(step, m, acts).value)
  {
    if acts != [] {
      Invariance(step, inv, m, acts[..|acts| - 1]);
    }
  }

  lemma ReachedInvariance(step: Stepper, inv: Machine -> bool, m: Machine, m': Machine)
    requires inv(m) && Keeps(step, inv) && ReachedBy(step, m, m')
    ensures inv(m')
  {
    var acts :| ExecWith(step, m, acts) == Some(m');
    Invariance(step, inv, m, acts);
  }

  // ----- flaws: what breaks them, what mends them ----------------------------------------------

  /** A state to be avoided, the steps that lead into it and the steps that lead out of it. */
  datatype Flaw = Flaw(
    bad: Machine -> bool,
    breaks: (Machine, Action) -> bool,
    mends: (Machine, Action) -> bool)

  /** Among the machines considered, the steps into and out of the flaw are exactly these. */
  ghost predicate Exact(step: Stepper, flaw: Flaw, among: Machine -> bool) {
    forall m, a :: among(m) && step(m, a).Some? ==>
      (flaw.bad(step(m, a).value) <==> if flaw.bad(m) then !flaw.mends(m, a) else flaw.breaks(m, a))
  }

  /** Step k of the schedule breaks and is enabled there. */
  ghost predicate BreaksAt(step: Stepper, flaw: Flaw, m: Machine, acts: seq<Action>, k: nat)
    requires k < |acts|
  {
    var at := ExecWith(step, m, acts[..k]);
    at.Some? && !flaw.bad(at.value) && flaw.breaks(at.value, acts[k])
  }

  ghost predicate MendsAt(step: Stepper, flaw: Flaw, m: Machine, acts: seq<Action>, k: nat)
    requires k < |acts|
  {
    var at := ExecWith(step, m, acts[..k]);
    at.Some? && flaw.mends(at.value, acts[k])
  }

  /** Step k breaks and nothing after it mends. */
  ghost predicate FlawedSince(step: Stepper, flaw: Flaw, m: Machine, acts: seq<Action>, k: nat)
    requires k < |acts|
  {
    BreaksAt(step, flaw, m, acts, k) && forall j :: k < j < |acts| ==> !MendsAt(step, flaw, m, acts, j)
  }

  lemma FlawedStill(step: Stepper, flaw: Flaw, m: Machine, init: seq<Action>, a: Action, k: nat)
    requires k < |init|
    ensures FlawedSince(step, flaw, m, init + [a], k)
       <==> FlawedSince(step, flaw, m, init, k) && !MendsAt(step, flaw, m, init + [a], |init|)
  {
    hide ExecWith;
    var acts := init + [a];
    forall j | 0 <= j < |init|
      ensures acts[..j] == init[..j] && acts[j] == init[j]
    {
    }
    assert BreaksAt(step, flaw, m, acts, k) <==> BreaksAt(step, flaw, m, init, k);
    assert forall j :: 0 <= j < |init| ==> (MendsAt(step, flaw, m, acts, j) <==> MendsAt(step, flaw, m, init, j));
  }

  /** After any schedule the flaw is there exactly when some step broke into it and none mended it
      since. */
  lemma {:induction false} FlawExactly(step: Stepper, flaw: Flaw, among: Machine -> bool, m: Machine, acts: seq<Action>)
    requires !flaw.bad(m) && among(m) && Keeps(step, among) && Exact(step, flaw, among)
    requires ExecWith(step, m, acts).Some?
    ensures flaw.bad(ExecWith(step, m, acts).value)
       <==> exists k :: 0 <= k < |acts| && FlawedSince(step, flaw, m, acts, k)
  {
    if acts != [] {
      var n := |acts| - 1;
      var init, a := acts[..n], acts[n];
      FlawExactly(step, flaw, among, m, init);
      Invariance(step, among, m, init);
      var before := ExecWith(step, m, init).value;
      assert step(before, a).Some?;
      assert ExecWith(step, m, acts) == step(before, a);
      assert MendsAt(step, flaw, m, acts, n) <==> flaw.mends(before, a);
      assert FlawedSince(step, flaw, m, acts, n) <==> !flaw.bad(before) && flaw.breaks(before, a);
      assert init + [a] == acts;
      hide ExecWith, FlawedSince, MendsAt;
      forall k | 0 <= k < n
        ensures FlawedSince(step, flaw, m, acts, k)
            <==> FlawedSince(step, flaw, m, init, k) && !MendsAt(step, flaw, m, acts, n)
      {
        FlawedStill(step, flaw, m, init, a, k);
      }
    }
  }
}
