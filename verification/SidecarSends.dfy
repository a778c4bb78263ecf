/** The send log of whole runs: what is attempted for each input, where its bytes come from, how
    the priorities rank, and what reaches the node. */
module SidecarSends {
  import opened Prelude
  import opened Filter
  import opened Pool
  import opened SidecarModel
  import opened SidecarRuns
  import opened Endian
  import P = Priorities
  import Rlp
  import Framing
  import TxSender
  import Bits

  /** The attempts one input makes, given the pool it finds: one for an accepted top-of-block bid,
      target then bid for an accepted backrun whose target is pooled, none otherwise. */
  function NewSends(cfg: Config, pool: map<Hash, Pooled>, input: Input): seq<Attempt> {
    match input
    case InsertEvent(tx, originalRlp, env) =>
      if tx.binary.None? || tx.hash in pool then []
      else
        (match cfg.classify(tx)
         case Classification(TobBid, Some(BidData(Some(amount), _))) =>
           [Attempt(tx.hash, originalRlp, P.TobBid(amount), env.first.ok)]
         case Classification(BackrunBid, Some(BidData(Some(amount), Some(target)))) =>
           var pool' := PoolAfter(cfg, pool, input);
           if target !in pool' then []
           else [Attempt(target, pool'[target].originalRlp, P.Opportunity(target), env.first.ok),
                 Attempt(tx.hash, originalRlp, P.BackrunBid(amount, target), env.second.ok)]
         case _ => [])
    case _ => []
  }

  /** Every pooled record is under its own hash and has raw bytes. */
  ghost predicate Sound(pool: map<Hash, Pooled>) {
    forall h :: h in pool ==> pool[h].tx.hash == h && pool[h].originalRlp != []
  }

  lemma StreamLog(s: State, job: Job, env: SendEnv)
    requires job.hash in s.pool && s.pool[job.hash].originalRlp != []
    ensures Stream(s, job, env).pool == s.pool
    ensures Stream(s, job, env).log == s.log + [Attempt(job.hash, s.pool[job.hash].originalRlp, job.source, env.ok)]
  {
  }

  lemma AcceptLog(cfg: Config, s: State, tx: Tx, txBytes: Bytes, originalRlp: Bytes, at: Time)
    ensures Accept(cfg, s, tx, txBytes, originalRlp, at).log == s.log
  {
    hide AddToPool, SetType, SetBid;
    AddKeepsUpkeep(s, tx, txBytes, originalRlp, cfg.classify(tx), at);
  }

  lemma StreamAcceptedLog(cfg: Config, s: State, pool: map<Hash, Pooled>, tx: Tx, originalRlp: Bytes, env: InsertEnv)
    requires Complete(cfg) && Sound(s.pool) && tx.binary.Some? && tx.hash !in pool
    requires s.pool == PoolAfter(cfg, pool, InsertEvent(tx, originalRlp, env))
    ensures StreamAccepted(cfg, s, tx, env).log == s.log + NewSends(cfg, pool, InsertEvent(tx, originalRlp, env))
  {
    assert s.pool[tx.hash].originalRlp == originalRlp;
    hide PoolAfter;
    var c := cfg.classify(tx);
    assert CompleteBid(c);
    if c.txType == TobBid {
      var job := Job(tx.hash, P.TobBid(c.bid.value.amount.value));
      StreamLog(s, job, env.first);
      hide Stream;
    } else if c.txType == BackrunBid && c.bid.value.target.value in s.pool {
      var target := c.bid.value.target.value;
      var first := Job(target, P.Opportunity(target));
      var second := Job(tx.hash, P.BackrunBid(c.bid.value.amount.value, target));
      var t := Stream(s, first, env.first);
      StreamLog(s, first, env.first);
      StreamLog(t, second, env.second);
      hide Stream;
      assert HandleBackrunBid(s, tx, c.bid, env.first, env.second).log == Stream(t, second, env.second).log;
      assert s.log + [Attempt(target, s.pool[target].originalRlp, first.source, env.first.ok)]
                   + [Attempt(tx.hash, originalRlp, second.source, env.second.ok)]
          == s.log + [Attempt(target, s.pool[target].originalRlp, first.source, env.first.ok),
                      Attempt(tx.hash, originalRlp, second.source, env.second.ok)];
    } else {
      assert s.log + [] == s.log;
    }
  }

  lemma IncomingLog(cfg: Config, s: State, tx: Tx, originalRlp: Bytes, env: InsertEnv)
    requires Complete(cfg) && Sound(s.pool) && originalRlp != []
    ensures HandleIncoming(cfg, s, tx, originalRlp, env).log
         == s.log + NewSends(cfg, s.pool, InsertEvent(tx, originalRlp, env))
  {
    hide Accept, StreamAccepted;
    if tx.binary.Some? && tx.hash !in s.pool {
      var t := Accept(cfg, s, tx, tx.binary.value, originalRlp, env.pooledAt);
      AcceptedPool(cfg, s, tx, tx.binary.value, originalRlp, env.pooledAt);
      AcceptLog(cfg, s, tx, tx.binary.value, originalRlp, env.pooledAt);
      StreamAcceptedLog(cfg, t, s.pool, tx, originalRlp, env);
    } else {
      assert s.log + [] == s.log;
    }
  }

  lemma StepLog(cfg: Config, s: State, input: Input)
    requires Complete(cfg) && Sound(s.pool) && (input.InsertEvent? ==> input.originalRlp != [])
    ensures Step(cfg, s, input).log == s.log + NewSends(cfg, s.pool, input)
  {
    hide HandleIncoming, NewSends, Receive, Retire, Cleanup, RecordEcho, RecordArrival;
    if !input.InsertEvent? {
      OtherSends(cfg, s.pool, input);
      assert s.log + [] == s.log;
    }
    match input
    case InsertEvent(tx, originalRlp, env) =>
      ReceiveKeeps(s, env.arrivedAt, env.receivedAt);
      IncomingLog(cfg, Receive(s, env.arrivedAt, env.receivedAt), tx, originalRlp, env);
    case RetireEvent(h, kind, at) => RetireKeeps(s, h, kind, at);
    case Tick(poolNow, trackNow) => CleanupKeeps(cfg, s, poolNow, trackNow);
    case RunEcho(ms) => MeasuringKeeps(s, ms);
    case RunArrival(ms) => MeasuringKeeps(s, ms);
  }

  lemma OtherSends(cfg: Config, pool: map<Hash, Pooled>, input: Input)
    requires !input.InsertEvent?
    ensures NewSends(cfg, pool, input) == []
  {
  }

  /** Inserts come from the decoder, which never hands over an empty transaction. */
  ghost predicate RawBytes(inputs: seq<Input>) {
    forall i :: 0 <= i < |inputs| && inputs[i].InsertEvent? ==> inputs[i].originalRlp != []
  }

  lemma RunSound(cfg: Config, inputs: seq<Input>, n: nat)
    requires n <= |inputs| && RawBytes(inputs)
    ensures Sound(Run(cfg, inputs, n).pool)
  {
    hide Step;
    var pool := Run(cfg, inputs, n).pool;
    forall h | h in pool
      ensures pool[h].tx.hash == h && pool[h].originalRlp != []
    {
      RunAgrees(cfg, inputs, n, h);
      var i :| Live(cfg, inputs, i, n, h);
    }
  }

  /** The attempt carries the raw bytes of the Insert that put its transaction in the pool, which
      is still alive when the attempt is made. */
  ghost predicate CarriesInsert(cfg: Config, inputs: seq<Input>, n: nat, a: Attempt)
    requires n <= |inputs|
  {
    exists i :: Live(cfg, inputs, i, n, a.hash) && a.originalRlp == inputs[i].originalRlp
  }

  /** Input n extends the log by exactly its own attempts, and each carries, byte for byte, the
      raw bytes of the Insert that put its transaction in the pool. */
  lemma SendLogStep(cfg: Config, inputs: seq<Input>, n: nat)
    requires Complete(cfg) && RawBytes(inputs) && n < |inputs|
    ensures Run(cfg, inputs, n + 1).log == Run(cfg, inputs, n).log + NewSends(cfg, Run(cfg, inputs, n).pool, inputs[n])
    ensures forall a :: a in NewSends(cfg, Run(cfg, inputs, n).pool, inputs[n]) ==> CarriesInsert(cfg, inputs, n + 1, a)
  {
    hide Step;
    var s := Run(cfg, inputs, n);
    var pool' := Run(cfg, inputs, n + 1).pool;
    RunSound(cfg, inputs, n);
    StepLog(cfg, s, inputs[n]);
    StepPool(cfg, s, inputs[n]);
    forall a | a in NewSends(cfg, s.pool, inputs[n])
      ensures CarriesInsert(cfg, inputs, n + 1, a)
    {
      assert a.hash in pool' && a.originalRlp == pool'[a.hash].originalRlp;
      hide NewSends, PoolAfter;
      RunAgrees(cfg, inputs, n + 1, a.hash);
      var i :| Live(cfg, inputs, i, n + 1, a.hash);
    }
  }

  /** The three shapes of what an input sends: a pair has one group and strictly falling priority. */
  lemma SendShapes(cfg: Config, pool: map<Hash, Pooled>, input: Input)
    ensures var sends := NewSends(cfg, pool, input);
            || sends == []
            || (|sends| == 1 && sends[0].source.TobBid?)
            || (&& |sends| == 2 && sends[0].source.Opportunity? && sends[1].source.BackrunBid?
                && sends[0].hash == sends[0].source.tx == sends[1].source.target && sends[1].hash == input.tx.hash
                && P.KeyOf(sends[0].source).group == P.KeyOf(sends[1].source).group
                && P.Value(sends[0].source) > P.Value(sends[1].source))
  {
    var sends := NewSends(cfg, pool, input);
    if |sends| == 2 {
      hide P.Value;
      P.OpportunityLeadsGroup(sends[0].source.tx, sends[1].source.bid, sends[1].source.target);
    }
  }

  // ----- the log of a whole run --------------------------------------------------------------

  /** The attempts of the first n inputs, one input after the other. */
  function SendsOf(cfg: Config, inputs: seq<Input>, n: nat): seq<Attempt>
    requires n <= |inputs|
  {
    if n == 0 then [] else SendsOf(cfg, inputs, n - 1) + NewSends(cfg, Run(cfg, inputs, n - 1).pool, inputs[n - 1])
  }

  /** A matched pair: the target, then the bid on it, in one group with strictly falling priority. */
  predicate Pair(first: Attempt, second: Attempt) {
    && first.source.Opportunity? && second.source.BackrunBid?
    && first.hash == first.source.tx == second.source.target
    && P.KeyOf(first.source).group == P.KeyOf(second.source).group
    && P.Value(first.source) > P.Value(second.source)
  }

  /** Every target is followed at once by the bid on it, and every backrun bid comes at once after
      its target. */
  ghost predicate Paired(log: seq<Attempt>) {
    && (forall k :: 0 <= k < |log| && log[k].source.Opportunity? ==> k + 1 < |log| && Pair(log[k], log[k + 1]))
    && (forall k :: 0 <= k < |log| && log[k].source.BackrunBid? ==> k > 0 && Pair(log[k - 1], log[k]))
  }

  lemma PairedJoin(log: seq<Attempt>, more: seq<Attempt>)
    requires Paired(log) && Paired(more)
    ensures Paired(log + more)
  {
    hide Pair;
    var all := log + more;
    forall k | 0 <= k < |all| && all[k].source.Opportunity?
      ensures k + 1 < |all| && Pair(all[k], all[k + 1])
    {
      assert k >= |log| ==> all[k] == more[k - |log|];
    }
    forall k | 0 <= k < |all| && all[k].source.BackrunBid?
      ensures k > 0 && Pair(all[k - 1], all[k])
    {
      assert k >= |log| ==> all[k] == more[k - |log|];
    }
  }

  lemma NewSendsPaired(cfg: Config, pool: map<Hash, Pooled>, input: Input)
    ensures Paired(NewSends(cfg, pool, input))
  {
    SendShapes(cfg, pool, input);
    hide NewSends, P.Value, P.KeyOf;
  }

  lemma NothingPaired()
    ensures Paired([])
  {
  }

  lemma {:induction false} RunSendsPaired(cfg: Config, inputs: seq<Input>, n: nat)
    requires n <= |inputs|
    ensures Paired(SendsOf(cfg, inputs, n))
  {
    hide NewSends, Pair, Paired, Run, Step;
    if n == 0 {
      NothingPaired();
    } else {
      RunSendsPaired(cfg, inputs, n - 1);
      NewSendsPaired(cfg, Run(cfg, inputs, n - 1).pool, inputs[n - 1]);
      PairedJoin(SendsOf(cfg, inputs, n - 1), NewSends(cfg, Run(cfg, inputs, n - 1).pool, inputs[n - 1]));
    }
  }

  lemma {:induction false} RunLogIs(cfg: Config, inputs: seq<Input>, n: nat)
    requires Complete(cfg) && RawBytes(inputs) && n <= |inputs|
    ensures Run(cfg, inputs, n).log == SendsOf(cfg, inputs, n)
  {
    hide Step, NewSends;
    if n > 0 {
      RunLogIs(cfg, inputs, n - 1);
      SendLogStep(cfg, inputs, n - 1);
    }
  }

  /** Input m sent it, with the raw bytes of an Insert alive just after that input. */
  ghost predicate SentWith(cfg: Config, inputs: seq<Input>, m: nat, a: Attempt)
    requires m < |inputs|
  {
    CarriesInsert(cfg, inputs, m + 1, a) && a in NewSends(cfg, Run(cfg, inputs, m).pool, inputs[m])
  }

  /** Some one of the first n inputs sent it so. */
  ghost predicate SentBefore(cfg: Config, inputs: seq<Input>, n: nat, a: Attempt)
    requires n <= |inputs|
  {
    exists m :: 0 <= m < n && SentWith(cfg, inputs, m, a)
  }

  lemma {:induction false} SendsCarryInserts(cfg: Config, inputs: seq<Input>, n: nat, a: Attempt)
    requires Complete(cfg) && RawBytes(inputs) && n <= |inputs| && a in SendsOf(cfg, inputs, n)
    ensures SentBefore(cfg, inputs, n, a)
  {
    hide Step, NewSends, CarriesInsert;
    SendLogStep(cfg, inputs, n - 1);
    if a in NewSends(cfg, Run(cfg, inputs, n - 1).pool, inputs[n - 1]) {
      assert SentWith(cfg, inputs, n - 1, a);
    } else {
      SendsCarryInserts(cfg, inputs, n - 1, a);
    }
  }

  /** The send log of a whole run is each input's own attempts, one input after the other. Every
      entry carries, byte for byte, the raw bytes of the Insert that had put its transaction in the
      pool and was alive when it was sent; targets and backrun bids come in adjacent pairs of one
      group with strictly falling priority. */
  lemma RunLog(cfg: Config, inputs: seq<Input>, n: nat)
    requires Complete(cfg) && RawBytes(inputs) && n <= |inputs|
    ensures var log := Run(cfg, inputs, n).log;
            && log == SendsOf(cfg, inputs, n)
            && (forall k :: 0 <= k < |log| ==> SentBefore(cfg, inputs, n, log[k]))
            && Paired(log)
  {
    hide Step, NewSends, SentBefore, Paired;
    RunLogIs(cfg, inputs, n);
    RunSendsPaired(cfg, inputs, n);
    var log := Run(cfg, inputs, n).log;
    forall k | 0 <= k < |log|
      ensures SentBefore(cfg, inputs, n, log[k])
    {
      SendsCarryInserts(cfg, inputs, n, log[k]);
    }
  }

  lemma BetweenPair(first: Attempt, second: Attempt, a: Attempt)
    requires Pair(first, second) && P.Value(second.source) < P.Value(a.source) < P.Value(first.source)
    ensures a.source.BackrunBid? && P.KeyOf(a.source).group == P.KeyOf(first.source).group
    ensures P.KeyOf(a.source).bid > P.KeyOf(second.source).bid
  {
    P.GroupsDoNotInterleave(second.source, a.source, first.source);
    P.OrderIsLexicographic(second.source, a.source);
    P.OrderIsLexicographic(a.source, first.source);
    hide P.Value;
  }

  /** How the sends of a whole run rank: every top-of-block send above every other send, whichever
      came first; and above a bid and below its target nothing but higher bids of the same group. */
  lemma RunSendsRank(cfg: Config, inputs: seq<Input>, n: nat, i: nat, j: nat)
    requires Complete(cfg) && RawBytes(inputs) && n <= |inputs|
    requires i < |Run(cfg, inputs, n).log| && j < |Run(cfg, inputs, n).log|
    ensures var log := Run(cfg, inputs, n).log;
            && (log[i].source.TobBid? && !log[j].source.TobBid? ==> P.Value(log[i].source) > P.Value(log[j].source))
            && (log[i].source.Opportunity? ==>
                  && i + 1 < |log|
                  && (P.Value(log[i + 1].source) < P.Value(log[j].source) < P.Value(log[i].source) ==>
                        && log[j].source.BackrunBid? && P.KeyOf(log[j].source).group == P.KeyOf(log[i].source).group
                        && P.KeyOf(log[j].source).bid > P.KeyOf(log[i + 1].source).bid))
  {
    RunLog(cfg, inputs, n);
    hide P.Value, P.KeyOf, Run, Pair, SentWith;
    var log := Run(cfg, inputs, n).log;
    if log[i].source.TobBid? && !log[j].source.TobBid? {
      P.TobOutranksBackruns(log[i].source.bid, log[j].source);
    } else if log[i].source.Opportunity?
              && P.Value(log[i + 1].source) < P.Value(log[j].source) < P.Value(log[i].source) {
      BetweenPair(log[i], log[i + 1], log[j]);
    }
  }

  // ----- on the wire -------------------------------------------------------------------------

  /** The envelope of an attempt: raw bytes, priority, no extra data. */
  function EnvelopeOf(a: Attempt): Rlp.IpcTx {
    Rlp.IpcTx(a.originalRlp, P.Value(a.source), [])
  }

  /** The bytes a successful attempt writes: a 32-bit length, then the envelope. */
  function Message(a: Attempt): Option<Bytes> {
    TxSender.MessageBytes(EnvelopeOf(a))
  }

  /** A strict reader of the layout recovers the transaction bytes and the priority from a sent message
      exactly when the bytes are one RLP item: not for the bare form of a typed transaction, which the
      decoder accepts. The length prefix covers exactly the envelope, precisely when the envelope is
      shorter than 2^32 bytes; a transaction up to 43 bytes below that limit always is. */
  lemma MessageParsesBack(a: Attempt, rest: Bytes)
    requires |a.originalRlp| < 0x7fff_0000_0000_0000
    ensures Rlp.Envelope(EnvelopeOf(a)).Some?
    ensures var data := Rlp.Envelope(EnvelopeOf(a)).value;
            var stream := Message(a).value + rest;
            && (Rlp.ParseEnvelope(data) == Some(EnvelopeOf(a)) <==> Rlp.IsItem(a.originalRlp))
            && |stream| == 4 + |data| + |rest| && stream[4..4 + |data|] == data && stream[4 + |data|..] == rest
            && (FromBE(stream[..4]) == |data| <==> |data| < 0x1_0000_0000)
            && (|a.originalRlp| + 43 < 0x1_0000_0000 ==> |data| < 0x1_0000_0000)
  {
    var tx := EnvelopeOf(a);
    PriorityFits(a.source);
    Rlp.EnvelopeExists(tx);
    Rlp.EnvelopeParsesBack(tx);
    Rlp.EnvelopeSize(tx);
    var data := Rlp.Envelope(tx).value;
    hide Rlp.Envelope, Rlp.ParseEnvelope, Rlp.IsItem, P.Value;
    LengthPrefix(data, rest);
  }

  lemma PriorityFits(p: P.Source)
    ensures P.Value(p) < Pow256(32)
  {
    P.OrderIsLexicographic(p, p);
    P.Pow256IsPow2(32);
    P.Weights();
  }

  lemma LengthPrefix(data: Bytes, rest: Bytes)
    ensures var stream := Framing.FrameBytes(data) + rest;
            && |stream| == 4 + |data| + |rest| && stream[4..4 + |data|] == data && stream[4 + |data|..] == rest
            && (FromBE(stream[..4]) == |data| <==> |data| < 0x1_0000_0000)
  {
    Pow256Values();
    BETruncates(|data|, 4);
    var stream := Framing.FrameBytes(data) + rest;
    assert stream[..4] == ToBE(|data|, 4);
  }

  /** Field by field: the message of an attempt is one list that holds first the raw bytes, then the
      number the attempt's priority is, highest byte first and without leading zeros, then the empty
      list. When the raw bytes are one item they are exactly the first item. */
  lemma MessageFields(a: Attempt) returns (payload: Bytes, digits: Bytes)
    requires |a.originalRlp| < 0x7fff_0000_0000_0000
    ensures Message(a).Some? && |Message(a).value| >= 4
    ensures Rlp.Split(Message(a).value[4..]) == Some(Rlp.Piece(Rlp.ListItem, payload, []))
    ensures |a.originalRlp| <= |payload| && payload[..|a.originalRlp|] == a.originalRlp
    ensures Rlp.Split(payload[|a.originalRlp|..]) == Some(Rlp.Piece(Rlp.StringItem, digits, [0xc0]))
    ensures FromBE(digits) == P.Value(a.source) && (digits == [] || digits[0] != 0)
    ensures Rlp.IsItem(a.originalRlp) ==>
              Rlp.Split(payload).Some? && Rlp.Split(payload).value.rest == payload[|a.originalRlp|..]
  {
    PriorityFits(a.source);
    hide P.Value, Rlp.Split, Rlp.IsItem, FromBE, TxSender.MessageBytes;
    payload, digits := TxSender.MessageFields(a.originalRlp, P.Value(a.source));
  }

  /** What a strict reader finds in the message of an attempt. */
  function Received(a: Attempt): Option<(Bytes, nat)> {
    match Message(a)
    case None => None
    case Some(message) => TxSender.ReadBack(message)
  }

  /** Raw bytes that are one item and leave room for the rest of the message in its length field. */
  predicate Deliverable(a: Attempt) {
    Rlp.IsItem(a.originalRlp) && |a.originalRlp| + 43 < 0x1_0000_0000
  }

  /** A strict reader finds exactly the raw bytes and the priority, and that is the case exactly for
      raw bytes that are one item. */
  lemma ReceivedExactly(a: Attempt)
    requires |a.originalRlp| + 43 < 0x1_0000_0000
    ensures Received(a) == Some((a.originalRlp, P.Value(a.source))) <==> Rlp.IsItem(a.originalRlp)
  {
    PriorityFits(a.source);
    hide P.Value, Rlp.IsItem, TxSender.MessageBytes, TxSender.ReadBack;
    TxSender.ReadsBackExactly(a.originalRlp, P.Value(a.source));
  }

  /** The ranking of RunSendsRank, on the priorities a strict reader finds in the messages. */
  lemma RunMessagesRank(cfg: Config, inputs: seq<Input>, n: nat, i: nat, j: nat)
    requires Complete(cfg) && RawBytes(inputs) && n <= |inputs|
    requires i < |Run(cfg, inputs, n).log| && j < |Run(cfg, inputs, n).log|
    requires Deliverable(Run(cfg, inputs, n).log[i]) && Deliverable(Run(cfg, inputs, n).log[j])
    ensures var log := Run(cfg, inputs, n).log;
            && Received(log[i]).Some? && Received(log[i]).value.0 == log[i].originalRlp && Received(log[j]).Some?
            && (log[i].source.TobBid? && !log[j].source.TobBid? ==> Received(log[i]).value.1 > Received(log[j]).value.1)
            && (log[i].source.Opportunity? && j == i + 1 ==> Received(log[i]).value.1 > Received(log[j]).value.1)
  {
    RunSendsRank(cfg, inputs, n, i, j);
    RunLog(cfg, inputs, n);
    hide P.Value, P.KeyOf, Run, Received, SendsOf, SentBefore, Rlp.IsItem;
    var log := Run(cfg, inputs, n).log;
    ReceivedExactly(log[i]);
    ReceivedExactly(log[j]);
  }

  // ----- from the call to the auction to the priority on the wire ---------------------------------

  lemma Delivered(a: Attempt)
    ensures Deliverable(a) ==> Received(a) == Some((a.originalRlp, P.Value(a.source)))
  {
    hide Received, P.Value;
    if Deliverable(a) {
      ReceivedExactly(a);
    }
  }

  lemma TobBidSends(f: FilterConfig, maxDuration: Time, pool: map<Hash, Pooled>, tx: Tx, originalRlp: Bytes,
                    env: InsertEnv, amount: nat, zero: Hash)
    requires ValidFilter(f) && tx.binary.Some? && tx.hash !in pool
    requires CallsFlashBid(f, tx, amount, [zero]) && AllZero(zero)
    ensures NewSends(ConfigOf(f, maxDuration), pool, InsertEvent(tx, originalRlp, env))
         == [Attempt(tx.hash, originalRlp, P.TobBid(amount), env.first.ok)]
  {
    ClassificationByBytes(f, tx, amount, [zero]);
    hide CallsFlashBid, ClassifyTransaction, AllZero;
  }

  lemma BackrunBidSends(f: FilterConfig, maxDuration: Time, pool: map<Hash, Pooled>, tx: Tx, originalRlp: Bytes,
                        env: InsertEnv, amount: nat, target: Hash, zero: Hash)
    requires ValidFilter(f) && tx.binary.Some? && tx.hash !in pool && target in pool
    requires CallsFlashBid(f, tx, amount, [target, zero]) && AllZero(zero)
    ensures NewSends(ConfigOf(f, maxDuration), pool, InsertEvent(tx, originalRlp, env))
         == [Attempt(target, pool[target].originalRlp, P.Opportunity(target), env.first.ok),
             Attempt(tx.hash, originalRlp, P.BackrunBid(amount, target), env.second.ok)]
  {
    ClassificationByBytes(f, tx, amount, [target, zero]);
    hide CallsFlashBid, ClassifyTransaction, AllZero, RecordOf;
  }

  /** An accepted call to the auction with the single zero hash sends the transaction's own raw bytes
      with priority 2^255 plus the low 128 bits of the amount. */
  lemma TobBidOnTheWire(f: FilterConfig, maxDuration: Time, pool: map<Hash, Pooled>, tx: Tx, originalRlp: Bytes,
                        env: InsertEnv, amount: nat, zero: Hash)
    requires ValidFilter(f) && tx.binary.Some? && tx.hash !in pool
    requires CallsFlashBid(f, tx, amount, [zero]) && AllZero(zero)
    ensures var sends := NewSends(ConfigOf(f, maxDuration), pool, InsertEvent(tx, originalRlp, env));
            && |sends| == 1 && sends[0].hash == tx.hash && sends[0].originalRlp == originalRlp
            && (Deliverable(sends[0]) ==>
                  Received(sends[0]) == Some((originalRlp, Bits.Pow2(255) + amount % Bits.Pow2(128))))
  {
    hide P.Value, Bits.Pow2, Received, Deliverable;
    P.PriorityNumbers(amount, zero);
    TobBidSends(f, maxDuration, pool, tx, originalRlp, env, amount, zero);
    hide NewSends, CallsFlashBid, AllZero;
    Delivered(NewSends(ConfigOf(f, maxDuration), pool, InsertEvent(tx, originalRlp, env))[0]);
  }

  /** An accepted call with a pooled target and the zero hash sends the target's raw bytes with the top
      126 bits of its hash above bit 129 and bit 128 set, then the transaction's own with the same top
      bits and the low 128 bits of the amount. */
  lemma BackrunBidOnTheWire(f: FilterConfig, maxDuration: Time, pool: map<Hash, Pooled>, tx: Tx, originalRlp: Bytes,
                            env: InsertEnv, amount: nat, target: Hash, zero: Hash)
    requires ValidFilter(f) && tx.binary.Some? && tx.hash !in pool && target in pool
    requires CallsFlashBid(f, tx, amount, [target, zero]) && AllZero(zero)
    ensures var sends := NewSends(ConfigOf(f, maxDuration), pool, InsertEvent(tx, originalRlp, env));
            var group := FromBE(target) / Bits.Pow2(130) * Bits.Pow2(129);
            && |sends| == 2
            && sends[0].hash == target && sends[0].originalRlp == pool[target].originalRlp
            && sends[1].hash == tx.hash && sends[1].originalRlp == originalRlp
            && (Deliverable(sends[0]) ==>
                  Received(sends[0]) == Some((pool[target].originalRlp, group + Bits.Pow2(128))))
            && (Deliverable(sends[1]) ==>
                  Received(sends[1]) == Some((originalRlp, group + amount % Bits.Pow2(128))))
  {
    hide P.Value, Bits.Pow2, Received, Deliverable, FromBE;
    P.PriorityNumbers(amount, target);
    BackrunBidSends(f, maxDuration, pool, tx, originalRlp, env, amount, target, zero);
    hide NewSends, CallsFlashBid, AllZero;
    var sends := NewSends(ConfigOf(f, maxDuration), pool, InsertEvent(tx, originalRlp, env));
    Delivered(sends[0]);
    Delivered(sends[1]);
  }
}
