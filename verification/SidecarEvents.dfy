/** What each decoded event does to the sidecar, event by event. */
module SidecarEvents {
  import opened Prelude
  import opened Filter
  import opened Pool
  import opened SidecarModel
  import opened SidecarRuns
  import opened SidecarSends
  import opened SidecarHistory
  import opened SidecarSendHistory
  import Bincode
  import Sidecar

  /** A retired transaction is neither pooled nor tracked afterwards, and nothing else changes in either
      map; no Insert is counted. */
  predicate Gone(s: State, h: Hash, t: State) {
    && t.pool == s.pool - {h} && t.tracked == s.tracked - {h}
    && t.received == s.received && t.kinds == s.kinds && t.sends == s.sends && t.measures == s.measures
    && t.upkeep == s.upkeep && t.log == s.log
  }

  /** A Commit sets the commit time and counts a transaction whose echo had not come; a Drop is counted,
      and counted again when the echo had not come; an Eviction is counted only then. Each concerns the
      transaction the event names. */
  lemma RetirementEvents(cfg: Config, s: State, event: Bincode.Event, env: InsertEnv)
    requires !event.action.Insert?
    ensures var t := Step(cfg, s, Sidecar.InputOf(event, env));
            var tracked := One(event.txHash in s.tracked);
            var r := s.retired;
            && Gone(s, event.txHash, t)
            && match event.action
               case Commit => t.retired == r.(committedBeforeEcho := r.committedBeforeEcho + tracked,
                                              lastCommitTime := env.arrivedAt)
               case Drop(_) => t.retired == r.(droppedBeforeEcho := r.droppedBeforeEcho + tracked,
                                               dropped := r.dropped + 1)
               case Evict(_) => t.retired == r.(evictedBeforeEcho := r.evictedBeforeEcho + tracked)
  {
    var kind := match event.action case Commit => Committed case Drop(_) => Dropped case _ => Evicted;
    assert Step(cfg, s, Sidecar.InputOf(event, env)) == Retire(s, event.txHash, kind, env.arrivedAt);
    RetireFollows(s, event.txHash, kind, env.arrivedAt);
    RetireKeeps(s, event.txHash, kind, env.arrivedAt);
    hide Step, Retire;
  }

  /** An Insert is counted as received. Unless it is unreadable or pooled already, its transaction enters
      the pool with the raw bytes of the event, typed by the classifier, and nothing else does; it is
      counted under its type; and what it calls for is sent and logged. */
  lemma InsertEvents(cfg: Config, s: State, event: Bincode.Event, env: InsertEnv)
    requires Complete(cfg) && Sound(s.pool) && event.action.Insert? && event.action.originalRlp != []
    ensures var t := Step(cfg, s, Sidecar.InputOf(event, env));
            var tx := event.action.tx;
            var accepted := tx.binary.Some? && tx.hash !in s.pool;
            && t.received.txs == s.received.txs + 1 && t.received.lastReceivedAt == env.receivedAt
            && t.pool == (if !accepted then s.pool
                          else s.pool[tx.hash := Pooled(tx, tx.binary.value, event.action.originalRlp, env.pooledAt,
                                                        "txpool", tx.hash, cfg.classify(tx).txType,
                                                        cfg.classify(tx).bid)])
            && Classes(t.kinds) == Classes(s.kinds) + One(accepted)
            && (accepted ==> OfType(t.kinds, cfg.classify(tx).txType) == OfType(s.kinds, cfg.classify(tx).txType) + 1)
            && t.log == s.log + NewSends(cfg, s.pool, InsertEvent(tx, event.action.originalRlp, env))
  {
    var input := Sidecar.InputOf(event, env);
    assert input == InsertEvent(event.action.tx, event.action.originalRlp, env);
    StepFollows(cfg, s, input);
    StepPool(cfg, s, input);
    StepLog(cfg, s, input);
    hide Step, Complete, Sound, NewSends, MeasuresFollow;
    var t := Step(cfg, s, input);
    TypesFollow(cfg, s.pool, s.kinds, event.action.tx, t.kinds);
    hide KindsFollow, OfType, Classes;
  }

  lemma TypesFollow(cfg: Config, pool: map<Hash, Pooled>, was: Kinds, tx: Tx, kinds: Kinds)
    requires KindsFollow(cfg, pool, was, tx, kinds)
    ensures var accepted := tx.binary.Some? && tx.hash !in pool;
            && Classes(kinds) == Classes(was) + One(accepted)
            && (accepted ==> OfType(kinds, cfg.classify(tx).txType) == OfType(was, cfg.classify(tx).txType) + 1)
  {
  }

  function Classes(k: Kinds): nat {
    k.tob + k.backrun + k.normal
  }

  function OfType(k: Kinds, txType: TxType): nat {
    match txType
    case TobBid => k.tob
    case BackrunBid => k.backrun
    case NormalTransaction => k.normal
  }
}
