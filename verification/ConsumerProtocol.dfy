/** `Consumer.Run`: one fetcher, any number of workers and one committer, joined by two bounded FIFO
    channels and a one-shot `done` channel per batch.

    A label is one atomic action of one goroutine (or of the context), so a run of the program is a
    sequence of labels and every interleaving is some sequence. Batches are named by fetch order.

    Assumptions on the environment: polls return per-partition increasing offsets at or above the starting
    commit; a commit that takes effect moves each partition of its batch to the highest offset + 1; there is
    no rebalance. A commit may be applied or not, whatever error it reports.
  */
module ConsumerProtocol {
  import opened InsertHandler

  type Batch = seq<Record>

  datatype Fetcher =
    | Polling
    | SendingToWorkers(job: nat)
    | CountingInFlight(job: nat)
    | SendingToCommitter(job: nat)
    | ClosingWorkerChan
    | ClosingCommitterChan
    | WaitingForGoroutines
    | Returned

  datatype Worker = Idle | Handling(job: nat) | Signalling(job: nat) | Exited

  datatype Committer = Receiving | AwaitingDone(job: nat) | Committing(job: nat) | Uncounting(job: nat) | Finished

  /** What the environment answered to one handler call, and what the call did. */
  datatype HandlerCall = HandlerCall(env: Env, outcome: Outcome)

  type Outcomes = map<nat, HandlerCall>

  /** `handed` and `queued` count the batches ever sent into each channel; `signals` counts sends on each
      `done` channel, `done` is what those channels hold now. */
  datatype State = State(
    start: map<int, int>,
    cancelled: bool,
    fetched: seq<Batch>,
    fetcher: Fetcher,
    workerChan: seq<nat>,
    workerChanClosed: bool,
    committerChan: seq<nat>,
    committerChanClosed: bool,
    workers: seq<Worker>,
    committer: Committer,
    done: map<nat, bool>,
    inFlight: int,
    dropped: nat,
    committed: map<int, int>,
    handed: nat,
    queued: nat,
    signals: multiset<nat>,
    outcomes: Outcomes,
    offered: seq<nat>)

  datatype Label =
    | Cancel
    | Poll(batch: Batch)
    | PollNothing
    | PollStops
    | SendToWorkers
    | AbandonBeforeWorkers
    | CountInFlight
    | SendToCommitter
    | AbandonBeforeCommitter
    | CloseWorkerChan
    | CloseCommitterChan
    | Return
    | Take(w: nat)
    | Handle(w: nat, env: Env)
    | Signal(w: nat)
    | ExitWorker(w: nat)
    | Receive
    | AwaitDone
    | Commit(applied: bool)
    | Uncount
    | ExitCommitter

  // ---------------------------------------------------------------- commits

  function Partitions(b: Batch): set<int> {
    set r | r in b :: r.partition
  }

  /** The highest offset of partition p in a batch. */
  function Highest(b: Batch, p: int): (h: int)
    requires p in Partitions(b)
    ensures exists r :: r in b && r.partition == p && r.offset == h
    ensures forall r :: r in b && r.partition == p ==> r.offset <= h
  {
    var last := b[|b| - 1];
    var rest := b[..|b| - 1];
    assert b == rest + [last];
    if p !in Partitions(rest) then
      last.offset
    else
      var h := Highest(rest, p);
      if last.partition == p && h < last.offset then last.offset else h
  }

  function CommitBatch(committed: map<int, int>, b: Batch): map<int, int> {
    committed + map p | p in Partitions(b) :: Highest(b, p) + 1
  }

  ghost predicate FetchOk(start: map<int, int>, fetched: seq<Batch>, b: Batch) {
    && b != []
    && (forall r :: r in b && r.partition in start ==> start[r.partition] <= r.offset)
    && (forall k, q, r :: 0 <= k < |fetched| && q in fetched[k] && r in b && q.partition == r.partition ==>
           q.offset < r.offset)
  }

  // ---------------------------------------------------------------- steps

  function Initial(start: map<int, int>, workers: nat): State {
    State(start, false, [], Polling, [], false, [], false, seq(workers, _ => Idle), Receiving,
          map[], 0, 0, start, 0, 0, multiset{}, map[], [])
  }

  predicate AllExited(workers: seq<Worker>) {
    forall w :: 0 <= w < |workers| ==> workers[w].Exited?
  }

  predicate IdleAt(s: State, w: nat) {
    w < |s.workers| && s.workers[w].Idle?
  }

  predicate HandlingAt(s: State, w: nat) {
    w < |s.workers| && s.workers[w].Handling? && s.workers[w].job < |s.fetched|
  }

  predicate SignallingAt(s: State, w: nat) {
    w < |s.workers| && s.workers[w].Signalling?
  }

  ghost predicate Enabled(s: State, l: Label) {
    match l
    case Cancel => !s.cancelled
    // PollRecords is followed by the check of the context: a batch polled after cancellation is not used.
    case Poll(b) => s.fetcher.Polling? && !s.cancelled && FetchOk(s.start, s.fetched, b)
    case PollNothing => s.fetcher.Polling? && !s.cancelled
    // The context is cancelled or the client was closed.
    case PollStops => s.fetcher.Polling?
    case SendToWorkers => s.fetcher.SendingToWorkers? && |s.workerChan| < 2 * |s.workers|
    case AbandonBeforeWorkers => s.fetcher.SendingToWorkers? && s.cancelled
    case CountInFlight => s.fetcher.CountingInFlight?
    case SendToCommitter => s.fetcher.SendingToCommitter? && |s.committerChan| < 2 * |s.workers|
    case AbandonBeforeCommitter => s.fetcher.SendingToCommitter? && s.cancelled
    case CloseWorkerChan => s.fetcher.ClosingWorkerChan?
    case CloseCommitterChan => s.fetcher.ClosingCommitterChan?
    case Return => s.fetcher.WaitingForGoroutines? && s.committer.Finished? && AllExited(s.workers)
    case Take(w) => IdleAt(s, w) && s.workerChan != []
    case Handle(w, env) =>
      && HandlingAt(s, w)
      && |env.parse| == |s.fetched[s.workers[w].job]|
      && env.dlqConfigured
    // `done` holds one value: a second send would block.
    case Signal(w) => SignallingAt(s, w) && s.workers[w].job !in s.done && s.workers[w].job in s.outcomes
    case ExitWorker(w) => IdleAt(s, w) && s.workerChan == [] && s.workerChanClosed
    case Receive => s.committer.Receiving? && s.committerChan != []
    case AwaitDone => s.committer.AwaitingDone? && s.committer.job in s.done
    case Commit(_) => s.committer.Committing? && s.committer.job < |s.fetched|
    case Uncount => s.committer.Uncounting?
    case ExitCommitter => s.committer.Receiving? && s.committerChan == [] && s.committerChanClosed
  }

  ghost function Apply(s: State, l: Label): State
    requires Enabled(s, l)
  {
    match l
    case Cancel => s.(cancelled := true)
    case Poll(b) => s.(fetched := s.fetched + [b], fetcher := SendingToWorkers(|s.fetched|))
    case PollNothing => s
    case PollStops => s.(fetcher := ClosingWorkerChan)
    case SendToWorkers =>
      s.(workerChan := s.workerChan + [s.fetcher.job], handed := s.handed + 1,
          fetcher := CountingInFlight(s.fetcher.job))
    case AbandonBeforeWorkers => s.(fetcher := ClosingWorkerChan)
    case CountInFlight => s.(inFlight := s.inFlight + 1, fetcher := SendingToCommitter(s.fetcher.job))
    case SendToCommitter =>
      s.(committerChan := s.committerChan + [s.fetcher.job], queued := s.queued + 1, fetcher := Polling)
    case AbandonBeforeCommitter => s.(inFlight := s.inFlight - 1, fetcher := ClosingWorkerChan)
    case CloseWorkerChan => s.(workerChanClosed := true, fetcher := ClosingCommitterChan)
    case CloseCommitterChan => s.(committerChanClosed := true, fetcher := WaitingForGoroutines)
    case Return => s.(fetcher := Returned)
    case Take(w) => s.(workers := s.workers[w := Handling(s.workerChan[0])], workerChan := s.workerChan[1..])
    case Handle(w, env) =>
      var job := s.workers[w].job;
      s.(workers := s.workers[w := Signalling(job)],
          outcomes := s.outcomes[job := HandlerCall(env, HandlerOutcome(s.fetched[job], env))])
    case Signal(w) =>
      var job := s.workers[w].job;
      s.(workers := s.workers[w := Idle], done := s.done[job := s.outcomes[job].outcome.escaped],
          signals := s.signals + multiset{job})
    case ExitWorker(w) => s.(workers := s.workers[w := Exited])
    case Receive => s.(committer := AwaitingDone(s.committerChan[0]), committerChan := s.committerChan[1..])
    case AwaitDone =>
      var job := s.committer.job;
      s.(committer := Committing(job), done := s.done - {job}, dropped := s.dropped + (if s.done[job] then 1 else 0))
    case Commit(applied) =>
      var job := s.committer.job;
      s.(committer := Uncounting(job), offered := s.offered + [job],
         committed := if applied then CommitBatch(s.committed, s.fetched[job]) else s.committed)
    case Uncount => s.(committer := Receiving, inFlight := s.inFlight - 1)
    case ExitCommitter => s.(committer := Finished)
  }

  // ---------------------------------------------------------------- invariants

  /** How far the fetcher is: at most one batch is between its two sends. */
  ghost predicate FetcherInv(s: State) {
    && |s.workers| >= 1
    && s.queued <= s.handed <= |s.fetched| <= s.queued + 1
    && (match s.fetcher
        case Polling => s.queued == |s.fetched|
        case SendingToWorkers(j) => s.handed == j == |s.fetched| - 1
        case CountingInFlight(j) => s.queued == j == |s.fetched| - 1 && s.handed == |s.fetched|
        case SendingToCommitter(j) => s.queued == j == |s.fetched| - 1 && s.handed == |s.fetched|
        case _ => true)
    && (s.workerChanClosed <==>
           s.fetcher.ClosingCommitterChan? || s.fetcher.WaitingForGoroutines? || s.fetcher.Returned?)
    && (s.committerChanClosed <==> s.fetcher.WaitingForGoroutines? || s.fetcher.Returned?)
  }

  /** What a FIFO channel holds is the tail of what was sent into it. */
  predicate HoldsTail(chan: seq<nat>, sent: nat) {
    |chan| <= sent && forall i :: 0 <= i < |chan| ==> chan[i] == sent - |chan| + i
  }

  /** Both channels are bounded FIFO queues. */
  ghost predicate ChannelInv(s: State) {
    && |s.workerChan| <= 2 * |s.workers| && HoldsTail(s.workerChan, s.handed)
    && |s.committerChan| <= 2 * |s.workers| && HoldsTail(s.committerChan, s.queued)
  }

  function Taken(s: State): int {
    s.handed - |s.workerChan|
  }

  function Received(s: State): int {
    s.queued - |s.committerChan|
  }

  predicate Busy(at: Worker) {
    at.Handling? || at.Signalling?
  }

  predicate Holds(workers: seq<Worker>, w: nat, job: nat) {
    w < |workers| && Busy(workers[w]) && workers[w].job == job
  }

  ghost predicate InHand(workers: seq<Worker>, job: nat) {
    exists w :: Holds(workers, w, job)
  }

  /** Every batch taken from the worker channel is held by exactly one worker, or has signalled once. */
  ghost predicate WorkerInv(workers: seq<Worker>, taken: int, signals: multiset<nat>, drained: bool) {
    && (forall w :: 0 <= w < |workers| && Busy(workers[w]) ==> workers[w].job < taken && signals[workers[w].job] == 0)
    && (forall v, w :: 0 <= v < w < |workers| && Busy(workers[v]) && Busy(workers[w]) ==>
           workers[v].job != workers[w].job)
    && (forall job :: 0 <= job < taken ==> signals[job] == 1 || InHand(workers, job))
    && (forall job :: job in signals ==> job < taken && signals[job] == 1)
    && (forall w :: 0 <= w < |workers| && workers[w].Exited? ==> drained)
  }

  /** The call did what the handler does under its environment, and settled every record. */
  ghost predicate SettledBatch(b: Batch, call: HandlerCall) {
    |call.env.parse| == |b| && call.outcome == HandlerOutcome(b, call.env) && BatchSettled(b, call.env, call.outcome)
  }

  /** Outcomes exist for exactly the batches whose handler came back, and all of them are settled. */
  ghost predicate OutcomeInv(fetched: seq<Batch>, workers: seq<Worker>, signals: multiset<nat>, outcomes: Outcomes) {
    && (forall job :: job in outcomes ==> job < |fetched| && SettledBatch(fetched[job], outcomes[job]))
    && (forall job :: job in signals ==> job in outcomes)
    && (forall w :: 0 <= w < |workers| && workers[w].Signalling? ==> workers[w].job in outcomes)
  }

  function CountEscaped(outcomes: Outcomes, n: nat): nat {
    if n == 0 then 0
    else CountEscaped(outcomes, n - 1) + (if n - 1 in outcomes && outcomes[n - 1].outcome.escaped then 1 else 0)
  }

  /** Batches whose `done` value the committer has taken. */
  function Consumed(offered: seq<nat>, committer: Committer): nat {
    |offered| + (if committer.Committing? then 1 else 0)
  }

  /** The committer works through the batches in fetch order. */
  ghost predicate OrderInv(committer: Committer, offered: seq<nat>, received: int, drained: bool) {
    && (forall i :: 0 <= i < |offered| ==> offered[i] == i)
    && (match committer
        case Receiving => |offered| == received
        case AwaitingDone(j) => |offered| == j == received - 1
        case Committing(j) => |offered| == j == received - 1
        case Uncounting(j) => |offered| == j + 1 == received
        case Finished => |offered| == received && drained)
  }

  /** A `done` channel is full exactly from its signal until the committer takes the value. */
  ghost predicate DoneInv(consumed: nat, done: map<nat, bool>, signals: multiset<nat>, outcomes: Outcomes,
                          dropped: nat) {
    && (forall job :: 0 <= job < consumed ==> job in signals)
    && (forall job :: job in done <==> job in signals && job >= consumed)
    && (forall job :: job in done && job in outcomes ==> done[job] == outcomes[job].outcome.escaped)
    && dropped == CountEscaped(outcomes, consumed)
  }

  /** The gauge counts the batches added by the fetcher and not yet subtracted. */
  ghost predicate GaugeInv(s: State) {
    s.inFlight == s.queued + (if s.fetcher.SendingToCommitter? then 1 else 0)
                  - |s.offered| + (if s.committer.Uncounting? then 1 else 0)
  }

  ghost predicate LogOrder(start: map<int, int>, fetched: seq<Batch>) {
    && (forall k, r :: 0 <= k < |fetched| && r in fetched[k] && r.partition in start ==> start[r.partition] <= r.offset)
    && (forall j, k, q, r ::
          0 <= j < k < |fetched| && q in fetched[j] && r in fetched[k] && q.partition == r.partition ==>
            q.offset < r.offset)
  }

  /** Position `at` of partition p is one past a record of one of the first n batches. */
  ghost predicate PastRecord(fetched: seq<Batch>, n: nat, p: int, at: int) {
    exists k, r :: 0 <= k < n && k < |fetched| && r in fetched[k] && r.partition == p && at == r.offset + 1
  }

  /** A committed position is the starting one, or one past a record offered for commit. */
  ghost predicate CommitInv(start: map<int, int>, fetched: seq<Batch>, n: nat, committed: map<int, int>) {
    && (forall p :: p in committed ==>
           (p in start && committed[p] == start[p]) || PastRecord(fetched, n, p, committed[p]))
    && (forall p :: p in start ==> p in committed)
  }

  ghost predicate Inv(s: State) {
    && FetcherInv(s)
    && ChannelInv(s)
    && WorkerInv(s.workers, Taken(s), s.signals, Drained(s))
    && OutcomeInv(s.fetched, s.workers, s.signals, s.outcomes)
    && OrderInv(s.committer, s.offered, Received(s), s.committerChanClosed && s.committerChan == [])
    && DoneInv(Consumed(s.offered, s.committer), s.done, s.signals, s.outcomes, s.dropped)
    && GaugeInv(s)
    && LogOrder(s.start, s.fetched)
    && CommitInv(s.start, s.fetched, |s.offered|, s.committed)
  }

  lemma InitialInv(start: map<int, int>, workers: nat)
    requires workers >= 1
    ensures Inv(Initial(start, workers))
  {
  }

  // ---------------------------------------------------------------- every step keeps them

  lemma StepFetcher(s: State, l: Label)
    requires FetcherInv(s) && Enabled(s, l)
    ensures FetcherInv(Apply(s, l))
  {
    match l
    case Cancel =>
    case Poll(_) =>
    case Take(_) =>
    case Handle(_, _) =>
    case Signal(_) =>
    case ExitWorker(_) =>
    case _ =>
  }

  lemma SendKeepsTail(chan: seq<nat>, sent: nat)
    requires HoldsTail(chan, sent)
    ensures HoldsTail(chan + [sent], sent + 1)
  {
  }

  lemma ReceiveKeepsTail(chan: seq<nat>, sent: nat)
    requires HoldsTail(chan, sent) && chan != []
    ensures HoldsTail(chan[1..], sent) && chan[0] == sent - |chan|
  {
  }

  lemma ChannelsElsewhere(s: State, l: Label)
    requires Enabled(s, l) && !l.SendToWorkers? && !l.SendToCommitter? && !l.Take? && !l.Receive?
    ensures var t := Apply(s, l);
            && t.workerChan == s.workerChan && t.handed == s.handed && t.committerChan == s.committerChan &&
                  t.queued == s.queued
            && |t.workers| == |s.workers|
  {
    match l
    case Cancel =>
    case Poll(_) =>
    case Handle(_, _) =>
    case Signal(_) =>
    case ExitWorker(_) =>
    case _ =>
  }

  lemma StepChannel(s: State, l: Label)
    requires FetcherInv(s) && ChannelInv(s) && Enabled(s, l)
    ensures ChannelInv(Apply(s, l))
  {
    if l.SendToWorkers? {
      SendKeepsTail(s.workerChan, s.handed);
    } else if l.SendToCommitter? {
      SendKeepsTail(s.committerChan, s.queued);
    } else if l.Take? {
      ReceiveKeepsTail(s.workerChan, s.handed);
    } else if l.Receive? {
      ReceiveKeepsTail(s.committerChan, s.queued);
    } else {
      ChannelsElsewhere(s, l);
    }
  }

  predicate CommitterStep(l: Label) {
    l.Receive? || l.AwaitDone? || l.Commit? || l.Uncount? || l.ExitCommitter?
  }

  lemma OrderDrains(committer: Committer, offered: seq<nat>, received: int, before: bool, after: bool)
    requires OrderInv(committer, offered, received, before) && (before ==> after)
    ensures OrderInv(committer, offered, received, after)
  {
  }

  lemma OrderElsewhere(s: State, l: Label)
    requires FetcherInv(s) && Enabled(s, l) && !CommitterStep(l)
    ensures var t := Apply(s, l);
            && t.committer == s.committer && t.offered == s.offered && Received(t) == Received(s)
            && (s.committerChanClosed && s.committerChan == [] ==> t.committerChanClosed && t.committerChan == [])
  {
    match l
    case SendToCommitter =>
    case CloseCommitterChan =>
    case Handle(_, _) =>
    case Signal(_) =>
    case _ =>
  }

  lemma StepOrder(s: State, l: Label)
    requires FetcherInv(s) && ChannelInv(s) && Enabled(s, l)
    requires OrderInv(s.committer, s.offered, Received(s), s.committerChanClosed && s.committerChan == [])
    ensures var t := Apply(s, l);
            OrderInv(t.committer, t.offered, Received(t), t.committerChanClosed && t.committerChan == [])
  {
    var t := Apply(s, l);
    if CommitterStep(l) {
      match l {
        case Receive => ReceiveKeepsTail(s.committerChan, s.queued);
        case Commit(_) =>
        case _ =>
      }
    } else {
      OrderElsewhere(s, l);
      OrderDrains(s.committer, s.offered, Received(s), s.committerChanClosed && s.committerChan == [],
                  t.committerChanClosed && t.committerChan == []);
    }
  }

  lemma StepGauge(s: State, l: Label)
    requires FetcherInv(s) && GaugeInv(s) && Enabled(s, l)
    ensures GaugeInv(Apply(s, l))
  {
    match l
    case SendToCommitter =>
    case CountInFlight =>
    case AbandonBeforeCommitter =>
    case Commit(_) =>
    case Uncount =>
    case Take(_) =>
    case Handle(_, _) =>
    case Signal(_) =>
    case ExitWorker(_) =>
    case _ =>
  }

  lemma WorkerTakes(workers: seq<Worker>, w: nat, taken: nat, signals: multiset<nat>)
    requires WorkerInv(workers, taken, signals, false) && w < |workers| && workers[w].Idle?
    ensures WorkerInv(workers[w := Handling(taken)], taken + 1, signals, false)
  {
    var now := workers[w := Handling(taken)];
    forall job | 0 <= job < taken + 1 ensures signals[job] == 1 || InHand(now, job) {
      if job == taken {
        assert Holds(now, w, job);
      } else if signals[job] != 1 {
        var v :| Holds(workers, v, job);
        assert Holds(now, v, job);
      }
    }
  }

  lemma WorkerReplaced(workers: seq<Worker>, w: nat, at: Worker, taken: nat, signals: multiset<nat>, drained: bool)
    requires WorkerInv(workers, taken, signals, drained) && w < |workers|
    requires Busy(workers[w]) ==> Busy(at) && at.job == workers[w].job
    requires !Busy(workers[w]) ==> !Busy(at)
    requires at.Exited? ==> drained
    ensures WorkerInv(workers[w := at], taken, signals, drained)
  {
    var now := workers[w := at];
    forall job | 0 <= job < taken ensures signals[job] == 1 || InHand(now, job) {
      if signals[job] != 1 {
        var v :| Holds(workers, v, job);
        assert Holds(now, v, job);
      }
    }
  }

  lemma WorkerSignals(workers: seq<Worker>, w: nat, taken: nat, signals: multiset<nat>, drained: bool)
    requires WorkerInv(workers, taken, signals, drained) && w < |workers| && Busy(workers[w])
    ensures WorkerInv(workers[w := Idle], taken, signals + multiset{workers[w].job}, drained)
  {
    var now, job0 := workers[w := Idle], workers[w].job;
    var sent := signals + multiset{job0};
    forall job | 0 <= job < taken ensures sent[job] == 1 || InHand(now, job) {
      if job != job0 && signals[job] != 1 {
        var v :| Holds(workers, v, job);
        assert Holds(now, v, job);
      }
    }
    forall job | job in sent ensures job < taken && sent[job] == 1 {
      assert job != job0 ==> job in signals;
    }
  }

  lemma WorkerDrains(workers: seq<Worker>, taken: nat, signals: multiset<nat>, before: bool, after: bool)
    requires WorkerInv(workers, taken, signals, before) && (before ==> after)
    ensures WorkerInv(workers, taken, signals, after)
  {
  }

  function Drained(s: State): bool {
    s.workerChanClosed && s.workerChan == []
  }

  lemma TakeMoves(s: State, w: nat)
    requires ChannelInv(s) && Enabled(s, Take(w))
    ensures var t := Apply(s, Take(w));
            && t.workers == s.workers[w := Handling(Taken(s))] && t.signals == s.signals && Taken(t) == Taken(s) + 1
            && !Drained(s) && IdleAt(s, w)
  {
    ReceiveKeepsTail(s.workerChan, s.handed);
  }

  lemma StepTake(s: State, w: nat)
    requires ChannelInv(s) && Enabled(s, Take(w)) && WorkerInv(s.workers, Taken(s), s.signals, Drained(s))
    ensures var t := Apply(s, Take(w));
            WorkerInv(t.workers, Taken(t), t.signals, Drained(t))
  {
    TakeMoves(s, w);
    WorkerTakes(s.workers, w, Taken(s), s.signals);
    WorkerDrains(s.workers[w := Handling(Taken(s))], Taken(s) + 1, s.signals, false, Drained(Apply(s, Take(w))));
  }

  /** The steps that leave the workers and the signals alone. */
  lemma StepElsewhere(s: State, l: Label)
    requires FetcherInv(s) && ChannelInv(s) && Enabled(s, l)
    requires !l.Take? && !l.Handle? && !l.Signal? && !l.ExitWorker?
    ensures var t := Apply(s, l);
            t.workers == s.workers && t.signals == s.signals && Taken(t) == Taken(s) && (Drained(s) ==> Drained(t))
  {
  }

  lemma StepWorker(s: State, l: Label)
    requires FetcherInv(s) && ChannelInv(s) && Enabled(s, l)
    requires WorkerInv(s.workers, Taken(s), s.signals, Drained(s))
    ensures var t := Apply(s, l);
            WorkerInv(t.workers, Taken(t), t.signals, Drained(t))
  {
    if l.Take? {
      StepTake(s, l.w);
    } else if l.Handle? || l.ExitWorker? {
      WorkerReplaced(s.workers, l.w, Apply(s, l).workers[l.w], Taken(s), s.signals, Drained(s));
    } else if l.Signal? {
      WorkerSignals(s.workers, l.w, Taken(s), s.signals, Drained(s));
    } else {
      StepElsewhere(s, l);
      WorkerDrains(s.workers, Taken(s), s.signals, Drained(s), Drained(Apply(s, l)));
    }
  }

  lemma HandlerSettles(b: Batch, env: Env)
    requires |env.parse| == |b| && env.dlqConfigured
    ensures SettledBatch(b, HandlerCall(env, HandlerOutcome(b, env)))
  {
    EveryRecordSettles(b, env);
  }

  lemma OutcomeRecorded(fetched: seq<Batch>, workers: seq<Worker>, signals: multiset<nat>, outcomes: Outcomes,
                        w: nat, call: HandlerCall)
    requires OutcomeInv(fetched, workers, signals, outcomes) && w < |workers| && workers[w].Handling?
    requires workers[w].job < |fetched| && SettledBatch(fetched[workers[w].job], call)
    ensures OutcomeInv(fetched, workers[w := Signalling(workers[w].job)], signals, outcomes[workers[w].job := call])
  {
  }

  lemma StepHandleOutcome(s: State, w: nat, env: Env)
    requires OutcomeInv(s.fetched, s.workers, s.signals, s.outcomes) && Enabled(s, Handle(w, env))
    ensures var t := Apply(s, Handle(w, env));
            OutcomeInv(t.fetched, t.workers, t.signals, t.outcomes)
  {
    var b := s.fetched[s.workers[w].job];
    HandlerSettles(b, env);
    OutcomeRecorded(s.fetched, s.workers, s.signals, s.outcomes, w, HandlerCall(env, HandlerOutcome(b, env)));
  }

  lemma OutcomeSignalled(fetched: seq<Batch>, workers: seq<Worker>, signals: multiset<nat>, outcomes: Outcomes, w: nat)
    requires OutcomeInv(fetched, workers, signals, outcomes) && w < |workers| && workers[w].Signalling?
    ensures OutcomeInv(fetched, workers[w := Idle], signals + multiset{workers[w].job}, outcomes)
  {
    assert forall job :: job in signals + multiset{workers[w].job} ==> job == workers[w].job || job in signals;
  }

  lemma OutcomeMoved(fetched: seq<Batch>, workers: seq<Worker>, signals: multiset<nat>, outcomes: Outcomes, w: nat,
                     at: Worker)
    requires OutcomeInv(fetched, workers, signals, outcomes) && w < |workers| && !at.Signalling?
    ensures OutcomeInv(fetched, workers[w := at], signals, outcomes)
  {
  }

  lemma OutcomePolled(fetched: seq<Batch>, workers: seq<Worker>, signals: multiset<nat>, outcomes: Outcomes, b: Batch)
    requires OutcomeInv(fetched, workers, signals, outcomes)
    ensures OutcomeInv(fetched + [b], workers, signals, outcomes)
  {
  }

  lemma OutcomeElsewhere(s: State, l: Label)
    requires Enabled(s, l) && !l.Poll? && !l.Take? && !l.Handle? && !l.Signal? && !l.ExitWorker?
    ensures var t := Apply(s, l);
            t.fetched == s.fetched && t.workers == s.workers && t.signals == s.signals && t.outcomes == s.outcomes
  {
    match l
    case Cancel =>
    case AwaitDone =>
    case Commit(_) =>
    case Uncount =>
    case _ =>
  }

  lemma StepOutcome(s: State, l: Label)
    requires OutcomeInv(s.fetched, s.workers, s.signals, s.outcomes) && Enabled(s, l)
    ensures var t := Apply(s, l);
            OutcomeInv(t.fetched, t.workers, t.signals, t.outcomes)
  {
    if l.Handle? {
      StepHandleOutcome(s, l.w, l.env);
    } else if l.Signal? {
      OutcomeSignalled(s.fetched, s.workers, s.signals, s.outcomes, l.w);
    } else if l.Take? || l.ExitWorker? {
      OutcomeMoved(s.fetched, s.workers, s.signals, s.outcomes, l.w, Apply(s, l).workers[l.w]);
    } else if l.Poll? {
      OutcomePolled(s.fetched, s.workers, s.signals, s.outcomes, l.batch);
    } else {
      OutcomeElsewhere(s, l);
    }
  }

  lemma {:induction false} CountEscapedAgrees(a: Outcomes, b: Outcomes, n: nat)
    requires forall job: nat :: job < n ==> job in a && job in b && a[job] == b[job]
    ensures CountEscaped(a, n) == CountEscaped(b, n)
  {
    if n > 0 {
      CountEscapedAgrees(a, b, n - 1);
    }
  }

  lemma DoneHandled(consumed: nat, done: map<nat, bool>, signals: multiset<nat>, outcomes: Outcomes, dropped: nat,
                    job: nat, call: HandlerCall)
    requires DoneInv(consumed, done, signals, outcomes, dropped) && job !in signals
    requires forall j :: j in signals ==> j in outcomes
    ensures DoneInv(consumed, done, signals, outcomes[job := call], dropped)
  {
    CountEscapedAgrees(outcomes, outcomes[job := call], consumed);
  }

  lemma DoneSignalled(consumed: nat, done: map<nat, bool>, signals: multiset<nat>, outcomes: Outcomes,
                      dropped: nat, job: nat)
    requires DoneInv(consumed, done, signals, outcomes, dropped) && job !in signals && job in outcomes
    ensures DoneInv(consumed, done[job := outcomes[job].outcome.escaped], signals + multiset{job}, outcomes, dropped)
  {
    assert forall j :: j in signals + multiset{job} <==> j == job || j in signals;
  }

  lemma DoneTaken(consumed: nat, done: map<nat, bool>, signals: multiset<nat>, outcomes: Outcomes, dropped: nat)
    requires DoneInv(consumed, done, signals, outcomes, dropped) && consumed in done && consumed in outcomes
    ensures DoneInv(consumed + 1, done - {consumed}, signals, outcomes, dropped + (if done[consumed] then 1 else 0))
  {
  }

  lemma StepDoneAwait(s: State)
    requires Enabled(s, AwaitDone) && Consumed(s.offered, s.committer) == s.committer.job &&
             s.committer.job in s.outcomes
    requires DoneInv(Consumed(s.offered, s.committer), s.done, s.signals, s.outcomes, s.dropped)
    ensures var t := Apply(s, AwaitDone);
            DoneInv(Consumed(t.offered, t.committer), t.done, t.signals, t.outcomes, t.dropped)
  {
    var job := s.committer.job;
    var t := Apply(s, AwaitDone);
    DoneTaken(job, s.done, s.signals, s.outcomes, s.dropped);
    assert t.done == s.done - {job} && t.dropped == s.dropped + (if s.done[job] then 1 else 0);
    assert t.outcomes == s.outcomes && t.signals == s.signals;
    assert Consumed(t.offered, t.committer) == job + 1;
  }

  lemma StepDoneElsewhere(s: State, l: Label)
    requires Enabled(s, l) && !l.Handle? && !l.Signal? && !l.AwaitDone?
    ensures var t := Apply(s, l);
            && Consumed(t.offered, t.committer) == Consumed(s.offered, s.committer)
            && t.done == s.done && t.signals == s.signals && t.outcomes == s.outcomes && t.dropped == s.dropped
  {
    match l
    case Cancel =>
    case Take(_) =>
    case ExitWorker(_) =>
    case Receive =>
    case Commit(_) =>
    case _ =>
  }

  lemma StepDone(s: State, l: Label)
    requires WorkerInv(s.workers, Taken(s), s.signals, Drained(s))
    requires OutcomeInv(s.fetched, s.workers, s.signals, s.outcomes)
    requires OrderInv(s.committer, s.offered, Received(s), s.committerChanClosed && s.committerChan == [])
    requires DoneInv(Consumed(s.offered, s.committer), s.done, s.signals, s.outcomes, s.dropped)
    requires Enabled(s, l)
    ensures var t := Apply(s, l);
            DoneInv(Consumed(t.offered, t.committer), t.done, t.signals, t.outcomes, t.dropped)
  {
    if l.Handle? {
      var job := s.workers[l.w].job;
      DoneHandled(Consumed(s.offered, s.committer), s.done, s.signals, s.outcomes, s.dropped, job,
          Apply(s, l).outcomes[job]);
    } else if l.Signal? {
      DoneSignalled(Consumed(s.offered, s.committer), s.done, s.signals, s.outcomes, s.dropped, s.workers[l.w].job);
    } else if l.AwaitDone? {
      StepDoneAwait(s);
    } else {
      StepDoneElsewhere(s, l);
    }
  }

  lemma LogGrows(start: map<int, int>, fetched: seq<Batch>, b: Batch)
    requires LogOrder(start, fetched) && FetchOk(start, fetched, b)
    ensures LogOrder(start, fetched + [b])
  {
  }

  lemma LogElsewhere(s: State, l: Label)
    requires Enabled(s, l) && !l.Poll?
    ensures Apply(s, l).start == s.start && Apply(s, l).fetched == s.fetched
  {
    match l
    case Cancel =>
    case Take(_) =>
    case Handle(_, _) =>
    case Signal(_) =>
    case ExitWorker(_) =>
    case _ =>
  }

  lemma StepLog(s: State, l: Label)
    requires LogOrder(s.start, s.fetched) && Enabled(s, l)
    ensures LogOrder(Apply(s, l).start, Apply(s, l).fetched)
  {
    if l.Poll? {
      LogGrows(s.start, s.fetched, l.batch);
    } else {
      LogElsewhere(s, l);
    }
  }

  // ---------------------------------------------------------------- commits stay covered

  lemma MorePastRecords(fetched: seq<Batch>, more: seq<Batch>, n: nat, m: nat, p: int, at: int)
    requires PastRecord(fetched, n, p, at) && fetched <= more && n <= m
    ensures PastRecord(more, m, p, at)
  {
    var k, r :| 0 <= k < n && k < |fetched| && r in fetched[k] && r.partition == p && at == r.offset + 1;
    assert r in more[k];
  }

  /** More fetched batches, and perhaps more of them offered. */
  lemma CommitCovered(start: map<int, int>, fetched: seq<Batch>, more: seq<Batch>, n: nat, m: nat,
                      committed: map<int, int>)
    requires CommitInv(start, fetched, n, committed) && fetched <= more && n <= m
    ensures CommitInv(start, more, m, committed)
  {
    forall p | p in committed && !(p in start && committed[p] == start[p])
        ensures PastRecord(more, m, p, committed[p]) {
      MorePastRecords(fetched, more, n, m, p, committed[p]);
    }
  }

  /** The committed batch itself. */
  lemma CommitApplied(start: map<int, int>, fetched: seq<Batch>, n: nat, committed: map<int, int>)
    requires CommitInv(start, fetched, n, committed) && n < |fetched|
    ensures CommitInv(start, fetched, n + 1, CommitBatch(committed, fetched[n]))
  {
    CommitCovered(start, fetched, fetched, n, n + 1, committed);
    var c := CommitBatch(committed, fetched[n]);
    forall p | p in Partitions(fetched[n]) ensures PastRecord(fetched, n + 1, p, c[p]) {
      var r :| r in fetched[n] && r.partition == p && r.offset == Highest(fetched[n], p);
      assert c[p] == r.offset + 1;
    }
  }

  lemma CommitElsewhere(s: State, l: Label)
    requires Enabled(s, l) && !l.Commit?
    ensures Apply(s, l).offered == s.offered && Apply(s, l).committed == s.committed
  {
    match l
    case Uncount =>
    case Take(_) =>
    case Handle(_, _) =>
    case Signal(_) =>
    case AwaitDone =>
    case _ =>
  }

  lemma LogOnlyGrows(s: State, l: Label)
    requires Enabled(s, l)
    ensures Apply(s, l).start == s.start && s.fetched <= Apply(s, l).fetched
  {
    if !l.Poll? {
      LogElsewhere(s, l);
    }
  }

  lemma StepCommit(s: State, l: Label)
    requires Enabled(s, l)
    requires OrderInv(s.committer, s.offered, Received(s), s.committerChanClosed && s.committerChan == [])
    requires CommitInv(s.start, s.fetched, |s.offered|, s.committed)
    ensures var t := Apply(s, l);
            CommitInv(t.start, t.fetched, |t.offered|, t.committed)
  {
    if l.Commit? {
      if l.applied {
        CommitApplied(s.start, s.fetched, |s.offered|, s.committed);
      } else {
        CommitCovered(s.start, s.fetched, s.fetched, |s.offered|, |s.offered| + 1, s.committed);
      }
    } else {
      CommitElsewhere(s, l);
      LogOnlyGrows(s, l);
      CommitCovered(s.start, s.fetched, Apply(s, l).fetched, |s.offered|, |s.offered|, s.committed);
    }
  }

  lemma StepInv(s: State, l: Label)
    requires Inv(s) && Enabled(s, l)
    ensures Inv(Apply(s, l))
  {
    StepFetcher(s, l);
    StepChannel(s, l);
    StepWorker(s, l);
    StepOutcome(s, l);
    StepOrder(s, l);
    StepDone(s, l);
    StepGauge(s, l);
    StepLog(s, l);
    StepCommit(s, l);
  }

  // ---------------------------------------------------------------- whole runs

  ghost predicate Run(s: State, ls: seq<Label>, t: State)
    decreases |ls|
  {
    if ls == [] then s == t
    else Enabled(s, ls[0]) && Run(Apply(s, ls[0]), ls[1..], t)
  }

  lemma {:induction false} RunInv(s: State, ls: seq<Label>, t: State)
    requires Inv(s) && Run(s, ls, t)
    ensures Inv(t)
    decreases |ls|
  {
    if ls != [] {
      StepInv(s, ls[0]);
      RunInv(Apply(s, ls[0]), ls[1..], t);
    }
  }

  lemma CommitNeverMovesBack(s: State, l: Label, p: int)
    requires LogOrder(s.start, s.fetched) && CommitInv(s.start, s.fetched, |s.offered|, s.committed)
    requires OrderInv(s.committer, s.offered, Received(s), s.committerChanClosed && s.committerChan == [])
    requires Enabled(s, l) && p in s.committed
    ensures var t := Apply(s, l);
            p in t.committed && s.committed[p] <= t.committed[p]
  {
    if l.Commit? {
      BatchMovesForward(s.start, s.fetched, |s.offered|, s.committed, p);
    } else {
      CommitElsewhere(s, l);
    }
  }

  lemma BatchMovesForward(start: map<int, int>, fetched: seq<Batch>, n: nat, committed: map<int, int>, p: int)
    requires LogOrder(start, fetched) && CommitInv(start, fetched, n, committed) && n < |fetched| && p in committed
    ensures p in CommitBatch(committed, fetched[n]) && committed[p] <= CommitBatch(committed, fetched[n])[p]
  {
    var b := fetched[n];
    if p in Partitions(b) {
      assert CommitBatch(committed, b)[p] == Highest(b, p) + 1;
      var r :| r in b && r.partition == p && r.offset == Highest(b, p);
      CommittedBefore(start, fetched, n, committed, r);
    }
  }

  lemma CommittedBefore(start: map<int, int>, fetched: seq<Batch>, n: nat, committed: map<int, int>, r: Record)
    requires LogOrder(start, fetched) && CommitInv(start, fetched, n, committed)
    requires n < |fetched| && r in fetched[n] && r.partition in committed
    ensures committed[r.partition] <= r.offset
  {
    var p := r.partition;
    if !(p in start && committed[p] == start[p]) {
      assert PastRecord(fetched, n, p, committed[p]);
    }
  }

  /** No partition's committed offset ever decreases, over any run, whichever commits fail. */
  lemma {:induction false} CommitsNeverMoveBack(s: State, ls: seq<Label>, t: State, p: int)
    requires Inv(s) && Run(s, ls, t) && p in s.committed
    ensures p in t.committed && s.committed[p] <= t.committed[p]
    decreases |ls|
  {
    if ls != [] {
      StepInv(s, ls[0]);
      CommitNeverMovesBack(s, ls[0], p);
      CommitsNeverMoveBack(Apply(s, ls[0]), ls[1..], t, p);
    }
  }

  /** Record r of the k-th batch lies below its partition's committed offset. */
  predicate BelowCommit(s: State, k: nat, r: Record) {
    && k < |s.fetched| && r in s.fetched[k]
    && r.partition in s.committed && r.offset < s.committed[r.partition]
  }

  /** A fetched record below its partition's committed offset belongs to a batch that was offered. */
  lemma BelowCommitIsOffered(s: State, k: nat, r: Record)
    requires LogOrder(s.start, s.fetched) && CommitInv(s.start, s.fetched, |s.offered|, s.committed)
    requires BelowCommit(s, k, r)
    ensures k < |s.offered|
  {
    var p := r.partition;
    assert !(p in s.start && s.committed[p] == s.start[p]);
    var j, q :| 0 <= j < |s.offered| && j < |s.fetched| && q in s.fetched[j] && q.partition == p &&
        s.committed[p] == q.offset + 1;
  }

  /** The batches offered for commit are the first ones fetched, in order. */
  ghost predicate OffersPrefix(s: State) {
    |s.offered| <= |s.fetched| && forall i :: 0 <= i < |s.offered| ==> s.offered[i] == i
  }

  /** Every fetched record below its partition's committed offset belongs to an offered batch, whose handler
      came back with each record settled or with a panic. */
  ghost predicate HandledBelowCommits(s: State) {
    forall k: nat, r :: BelowCommit(s, k, r) ==>
      k in s.offered && k in s.outcomes && SettledBatch(s.fetched[k], s.outcomes[k])
  }

  ghost predicate SignalledAtMostOnce(s: State) {
    forall k :: s.signals[k] <= 1
  }

  lemma InvIsSafe(s: State)
    requires Inv(s)
    ensures OffersPrefix(s) && HandledBelowCommits(s) && SignalledAtMostOnce(s)
    ensures s.dropped == CountEscaped(s.outcomes, Consumed(s.offered, s.committer))
    ensures s.inFlight >= 0
  {
    forall k: nat, r | BelowCommit(s, k, r)
      ensures k in s.offered && k in s.outcomes && SettledBatch(s.fetched[k], s.outcomes[k])
    {
      BelowCommitIsOffered(s, k, r);
      assert s.offered[k] == k;
    }
  }

  lemma ReachableInv(start: map<int, int>, workers: nat, ls: seq<Label>, s: State)
    requires workers >= 1 && Run(Initial(start, workers), ls, s)
    ensures Inv(s)
  {
    InitialInv(start, workers);
    RunInv(Initial(start, workers), ls, s);
  }

  /** Safety, in every state of every run of every interleaving: batches are offered for commit in fetch
      order and without gaps; whatever lies below a committed offset was handled, and each of its records
      inserted, parked, counted malformed or counted lost, or its batch counted as dropped; `done` is
      signalled at most once per batch; the gauge is never negative. */
  lemma ConsumerIsSafe(start: map<int, int>, workers: nat, ls: seq<Label>, s: State)
    requires workers >= 1 && Run(Initial(start, workers), ls, s)
    ensures OffersPrefix(s) && HandledBelowCommits(s) && SignalledAtMostOnce(s)
    ensures s.dropped == CountEscaped(s.outcomes, Consumed(s.offered, s.committer))
    ensures s.inFlight >= 0
  {
    ReachableInv(start, workers, ls, s);
    InvIsSafe(s);
  }

  predicate Below(committed: map<int, int>, r: Record) {
    r.partition in committed && r.offset < committed[r.partition]
  }

  predicate OnePast(b: Batch, committed: map<int, int>, p: int) {
    p in committed && exists q :: q in b && q.partition == p && committed[p] == q.offset + 1
  }

  predicate SameAt(before: map<int, int>, after: map<int, int>, p: int) {
    (p in after <==> p in before) && (p in before ==> after[p] == before[p])
  }

  /** A batch is committed: every record of it is covered, each of its partitions ends one past a record of it, and
      no other partition moves. */
  ghost predicate Commits(before: map<int, int>, b: Batch, after: map<int, int>) {
    && (forall r :: r in b ==> Below(after, r))
    && (forall r :: r in b ==> OnePast(b, after, r.partition))
    && (forall p :: (forall r :: r in b ==> r.partition != p) ==> SameAt(before, after, p))
  }

  lemma BatchCommits(committed: map<int, int>, b: Batch)
    ensures Commits(committed, b, CommitBatch(committed, b))
  {
    var after := CommitBatch(committed, b);
    forall r | r in b ensures Below(after, r) && OnePast(b, after, r.partition) {
      assert r.partition in Partitions(b);
      assert after[r.partition] == Highest(b, r.partition) + 1;
    }
  }

  /** A commit that takes effect commits the whole batch the committer holds; one that does not changes nothing. */
  lemma CommitCoversBatch(s: State, applied: bool)
    requires Enabled(s, Commit(applied))
    ensures var after := Apply(s, Commit(applied)).committed;
            if applied then Commits(s.committed, s.fetched[s.committer.job], after) else after == s.committed
  {
    BatchCommits(s.committed, s.fetched[s.committer.job]);
  }

  /** Every commit of the run takes effect. */
  predicate CommitsApplied(ls: seq<Label>) {
    ls == [] || ((ls[0].Commit? ==> ls[0].applied) && CommitsApplied(ls[1..]))
  }

  predicate BatchBelow(committed: map<int, int>, b: Batch) {
    forall r :: r in b ==> Below(committed, r)
  }

  /** Every record of the first n batches is below its partition's commit. */
  predicate OffersCommitted(fetched: seq<Batch>, n: nat, committed: map<int, int>) {
    n <= |fetched| && forall k :: 0 <= k < n ==> BatchBelow(committed, fetched[k])
  }

  lemma StillBelow(before: map<int, int>, after: map<int, int>, b: Batch)
    requires BatchBelow(before, b) && forall p :: p in before ==> p in after && before[p] <= after[p]
    ensures BatchBelow(after, b)
  {
  }

  lemma OneMoreCommitted(start: map<int, int>, fetched: seq<Batch>, n: nat, committed: map<int, int>)
    requires LogOrder(start, fetched) && CommitInv(start, fetched, n, committed) && n < |fetched|
    requires OffersCommitted(fetched, n, committed)
    ensures OffersCommitted(fetched, n + 1, CommitBatch(committed, fetched[n]))
  {
    var after := CommitBatch(committed, fetched[n]);
    forall p | p in committed ensures p in after && committed[p] <= after[p] {
      BatchMovesForward(start, fetched, n, committed, p);
    }
    forall k | 0 <= k < n + 1 ensures BatchBelow(after, fetched[k]) {
      if k < n {
        StillBelow(committed, after, fetched[k]);
      } else {
        BatchCommits(committed, fetched[n]);
      }
    }
  }

  lemma MoreFetched(fetched: seq<Batch>, more: seq<Batch>, n: nat, committed: map<int, int>)
    requires OffersCommitted(fetched, n, committed) && fetched <= more
    ensures OffersCommitted(more, n, committed)
  {
    forall k | 0 <= k < n ensures BatchBelow(committed, more[k]) {
      assert more[k] == fetched[k];
    }
  }

  lemma StepCommits(s: State, l: Label)
    requires LogOrder(s.start, s.fetched) && CommitInv(s.start, s.fetched, |s.offered|, s.committed)
    requires OrderInv(s.committer, s.offered, Received(s), s.committerChanClosed && s.committerChan == [])
    requires Enabled(s, l) && OffersCommitted(s.fetched, |s.offered|, s.committed) && (l.Commit? ==> l.applied)
    ensures OffersCommitted(Apply(s, l).fetched, |Apply(s, l).offered|, Apply(s, l).committed)
  {
    if l.Commit? {
      OneMoreCommitted(s.start, s.fetched, |s.offered|, s.committed);
    } else {
      LogOnlyGrows(s, l);
      CommitElsewhere(s, l);
      MoreFetched(s.fetched, Apply(s, l).fetched, |s.offered|, s.committed);
    }
  }

  ghost predicate CommittedInv(s: State) {
    Inv(s) && OffersCommitted(s.fetched, |s.offered|, s.committed)
  }

  lemma StepCommittedInv(s: State, l: Label)
    requires CommittedInv(s) && Enabled(s, l) && (l.Commit? ==> l.applied)
    ensures CommittedInv(Apply(s, l))
  {
    StepInv(s, l);
    StepCommits(s, l);
  }

  lemma {:induction false} RunCommits(s: State, ls: seq<Label>, t: State)
    requires CommittedInv(s) && Run(s, ls, t) && CommitsApplied(ls)
    ensures CommittedInv(t)
    decreases |ls|
  {
    if ls != [] {
      StepCommittedInv(s, ls[0]);
      RunCommits(Apply(s, ls[0]), ls[1..], t);
    }
  }

  /** If every commit takes effect, then when Run returns every record of every batch given to the committer is
      below its partition's commit. */
  lemma ReturnedIsCommitted(start: map<int, int>, workers: nat, ls: seq<Label>, s: State)
    requires workers >= 1 && Run(Initial(start, workers), ls, s) && CommitsApplied(ls) && s.fetcher.Returned?
    ensures OffersCommitted(s.fetched, s.queued, s.committed)
  {
    ReturnIsClean(start, workers, ls, s);
    InitialInv(start, workers);
    RunCommits(Initial(start, workers), ls, s);
  }

  /** How far a crash can reach back: a batch being handled is fetched and not yet offered for commit, and never
      more than 2 * workers + 2 batches are. */
  lemma HandledIsInFlight(s: State, w: nat, env: Env)
    requires Inv(s)
    ensures |s.fetched| - |s.offered| <= 2 * |s.workers| + 2
    ensures Enabled(s, Handle(w, env)) ==> |s.offered| <= s.workers[w].job < |s.fetched|
  {
    forall job: nat | job < |s.offered| ensures s.signals[job] > 0 {
      assert job in s.signals;
    }
  }

  /** When Run returns, every batch given to a worker was handled and signalled exactly once, every batch
      given to the committer was offered, both channels are empty and the gauge is back at zero. */
  lemma ReturnIsClean(start: map<int, int>, workers: nat, ls: seq<Label>, s: State)
    requires workers >= 1 && Run(Initial(start, workers), ls, s) && s.fetcher.Returned?
    ensures s.inFlight == 0
    ensures s.workerChan == [] && s.committerChan == [] && |s.offered| == s.queued
    ensures forall k: nat :: k < s.handed ==> s.signals[k] == 1 && k in s.outcomes
  {
    ReachableInv(start, workers, ls, s);
    RunReturned(Initial(start, workers), ls, s);
    CleanWhenReturned(s);
  }

  lemma CleanWhenReturned(s: State)
    requires Inv(s) && ReturnInv(s) && s.fetcher.Returned?
    ensures s.inFlight == 0
    ensures s.workerChan == [] && s.committerChan == [] && |s.offered| == s.queued
    ensures forall k: nat :: k < s.handed ==> s.signals[k] == 1 && k in s.outcomes
  {
    assert s.workers[0].Exited?;
    forall k: nat | k < s.handed ensures s.signals[k] == 1 && k in s.outcomes {
      assert !InHand(s.workers, k);
    }
  }

  ghost predicate ReturnInv(s: State) {
    s.fetcher.Returned? ==> s.committer.Finished? && AllExited(s.workers)
  }

  lemma StepReturned(s: State, l: Label)
    requires ReturnInv(s) && Enabled(s, l)
    ensures ReturnInv(Apply(s, l))
  {
    match l
    case Cancel =>
    case Poll(_) =>
    case Return =>
    case Take(_) =>
    case Handle(_, _) =>
    case Signal(_) =>
    case ExitWorker(_) =>
    case _ =>
  }

  lemma {:induction false} RunReturned(s: State, ls: seq<Label>, t: State)
    requires ReturnInv(s) && Run(s, ls, t)
    ensures ReturnInv(t)
    decreases |ls|
  {
    if ls != [] {
      StepReturned(s, ls[0]);
      RunReturned(Apply(s, ls[0]), ls[1..], t);
    }
  }

  // ---------------------------------------------------------------- progress

  /** Polls and cancellation come from outside; every other step is the program working. */
  predicate IsWork(l: Label) {
    !l.Cancel? && !l.Poll? && !l.PollNothing?
  }

  function FetcherCost(f: Fetcher): nat {
    match f
    case Returned => 0
    case WaitingForGoroutines => 1
    case ClosingCommitterChan => 2
    case ClosingWorkerChan => 3
    case Polling => 4
    case SendingToCommitter(_) => 9
    case CountingInFlight(_) => 10
    case SendingToWorkers(_) => 14
  }

  function WorkerCost(w: Worker): nat {
    match w
    case Exited => 0
    case Idle => 1
    case Signalling(_) => 2
    case Handling(_) => 3
  }

  function CommitterCost(c: Committer): nat {
    match c
    case Finished => 0
    case Receiving => 1
    case Uncounting(_) => 2
    case Committing(_) => 3
    case AwaitingDone(_) => 4
  }

  function WorkersCost(ws: seq<Worker>): nat {
    if ws == [] then 0 else WorkersCost(ws[..|ws| - 1]) + WorkerCost(ws[|ws| - 1])
  }

  /** What is left to do: in both channels, in the workers' and the committer's hands, at the fetcher. */
  function Remaining(s: State): nat {
    FetcherCost(s.fetcher) + 3 * |s.workerChan| + 4 * |s.committerChan| + WorkersCost(s.workers) +
        CommitterCost(s.committer)
  }

  lemma {:induction false} WorkersCostUpdate(ws: seq<Worker>, w: nat, at: Worker)
    requires w < |ws|
    ensures WorkersCost(ws[w := at]) == WorkersCost(ws) - WorkerCost(ws[w]) + WorkerCost(at)
  {
    var last := |ws| - 1;
    if w < last {
      WorkersCostUpdate(ws[..last], w, at);
      assert ws[w := at][..last] == ws[..last][w := at];
    } else {
      assert ws[w := at][..last] == ws[..last];
    }
  }

  lemma {:induction false} WorkersCostBound(ws: seq<Worker>)
    ensures WorkersCost(ws) <= 3 * |ws|
  {
    if ws != [] {
      WorkersCostBound(ws[..|ws| - 1]);
    }
  }

  lemma WorkerStepShrinks(s: State, l: Label)
    requires Enabled(s, l) && (l.Take? || l.Handle? || l.Signal? || l.ExitWorker?)
    ensures Remaining(Apply(s, l)) < Remaining(s)
  {
    WorkersCostUpdate(s.workers, l.w, Apply(s, l).workers[l.w]);
    match l
    case Take(_) =>
    case Handle(_, _) =>
    case Signal(_) =>
    case ExitWorker(_) =>
  }

  /** Every step of the program itself strictly lowers what remains. */
  lemma WorkShrinks(s: State, l: Label)
    requires Enabled(s, l) && IsWork(l)
    ensures Remaining(Apply(s, l)) < Remaining(s)
  {
    match l
    case Take(_) => WorkerStepShrinks(s, l);
    case Handle(_, _) => WorkerStepShrinks(s, l);
    case Signal(_) => WorkerStepShrinks(s, l);
    case ExitWorker(_) => WorkerStepShrinks(s, l);
    case Receive =>
    case AwaitDone =>
    case Commit(_) =>
    case Uncount =>
    case ExitCommitter =>
    case _ =>
  }

  /** Nothing left but to poll or to have returned. */
  ghost predicate Quiet(s: State) {
    || s.fetcher.Returned?
    || (s.fetcher.Polling? && s.workerChan == [] && s.committerChan == [] && s.committer.Receiving? &&
        forall w :: 0 <= w < |s.workers| ==> s.workers[w].Idle?)
  }

  /** An environment that answers a handler call: one always exists. */
  function AnyEnv(b: Batch): Env {
    Env(seq(|b|, _ => Parsed), Success, true, Success, Success)
  }

  lemma WorkersCanMove(s: State) returns (l: Label)
    requires FetcherInv(s) && ChannelInv(s) && WorkerInv(s.workers, Taken(s), s.signals, Drained(s))
    requires OutcomeInv(s.fetched, s.workers, s.signals, s.outcomes)
    requires DoneInv(Consumed(s.offered, s.committer), s.done, s.signals, s.outcomes, s.dropped)
    requires s.workerChan != [] || exists w :: 0 <= w < |s.workers| && Busy(s.workers[w])
    ensures Enabled(s, l) && IsWork(l)
  {
    if w :| 0 <= w < |s.workers| && Busy(s.workers[w]) {
      l := if s.workers[w].Handling? then Handle(w, AnyEnv(s.fetched[s.workers[w].job])) else Signal(w);
    } else {
      assert !s.workers[0].Exited?;
      l := Take(0);
    }
  }

  lemma CommitterCanMove(s: State) returns (l: Label)
    requires FetcherInv(s) && ChannelInv(s) && WorkerInv(s.workers, Taken(s), s.signals, Drained(s))
    requires OrderInv(s.committer, s.offered, Received(s), s.committerChanClosed && s.committerChan == [])
    requires DoneInv(Consumed(s.offered, s.committer), s.done, s.signals, s.outcomes, s.dropped)
    requires s.workerChan == [] && forall w :: 0 <= w < |s.workers| ==> !Busy(s.workers[w])
    requires s.committerChan != [] || !(s.committer.Receiving? || s.committer.Finished?)
    ensures Enabled(s, l) && IsWork(l)
  {
    match s.committer
    case Receiving => l := Receive;
    case AwaitingDone(job) =>
      assert !InHand(s.workers, job);
      l := AwaitDone;
    case Committing(_) => l := Commit(false);
    case Uncounting(_) => l := Uncount;
    case Finished => l := Uncount;
  }

  lemma FetcherCanMove(s: State) returns (l: Label)
    requires FetcherInv(s) && WorkerInv(s.workers, Taken(s), s.signals, Drained(s))
    requires OrderInv(s.committer, s.offered, Received(s), s.committerChanClosed && s.committerChan == [])
    requires s.workerChan == [] && s.committerChan == [] && (s.committer.Receiving? || s.committer.Finished?)
    requires forall w :: 0 <= w < |s.workers| ==> !Busy(s.workers[w])
    requires !Quiet(s)
    ensures Enabled(s, l) && IsWork(l)
  {
    match s.fetcher
    case Polling => l := PollStops;
    case SendingToWorkers(_) => l := SendToWorkers;
    case CountingInFlight(_) => l := CountInFlight;
    case SendingToCommitter(_) => l := SendToCommitter;
    case ClosingWorkerChan => l := CloseWorkerChan;
    case ClosingCommitterChan => l := CloseCommitterChan;
    case Returned => l := Return;
    case WaitingForGoroutines =>
      if w :| 0 <= w < |s.workers| && s.workers[w].Idle? {
        l := ExitWorker(w);
      } else if s.committer.Receiving? {
        l := ExitCommitter;
      } else {
        l := Return;
      }
  }

  /** No deadlock: unless everything is drained and the fetcher is polling, or Run has returned, some goroutine
      can step. */
  lemma NoDeadlock(s: State) returns (l: Label)
    requires Inv(s) && !Quiet(s)
    ensures Enabled(s, l) && IsWork(l)
  {
    if s.workerChan != [] || exists w :: 0 <= w < |s.workers| && Busy(s.workers[w]) {
      l := WorkersCanMove(s);
    } else if s.committerChan != [] || !(s.committer.Receiving? || s.committer.Finished?) {
      l := CommitterCanMove(s);
    } else {
      l := FetcherCanMove(s);
    }
  }

  lemma CancelledOnlyWorks(s: State, l: Label)
    requires s.cancelled && Enabled(s, l)
    ensures IsWork(l) && Apply(s, l).cancelled
  {
  }

  lemma {:induction false} DrainIsFinite(s: State, ls: seq<Label>, t: State)
    requires s.cancelled && Run(s, ls, t)
    ensures t.cancelled && |ls| + Remaining(t) <= Remaining(s)
    decreases |ls|
  {
    if ls != [] {
      CancelledOnlyWorks(s, ls[0]);
      WorkShrinks(s, ls[0]);
      DrainIsFinite(Apply(s, ls[0]), ls[1..], t);
    }
  }

  /** Shutdown: once cancelled, a run takes at most 18 + 17 steps per worker more, and it can stop
      only by returning: in any state where Run has not returned there is a next step. */
  lemma ShutdownTerminates(start: map<int, int>, workers: nat, before: seq<Label>, s: State, ls: seq<Label>, t: State)
    requires workers >= 1 && Run(Initial(start, workers), before, s) && s.cancelled && Run(s, ls, t)
    ensures |ls| <= 18 + 17 * workers
    ensures t.fetcher.Returned? || exists l :: Enabled(t, l)
  {
    ReachableInv(start, workers, before, s);
    RunInv(s, ls, t);
    WorkersFixed(Initial(start, workers), before, s);
    DrainIsFinite(s, ls, t);
    RemainingBound(s);
    HasNextStep(t);
  }

  lemma RemainingBound(s: State)
    requires ChannelInv(s)
    ensures Remaining(s) <= 18 + 17 * |s.workers|
  {
    WorkersCostBound(s.workers);
  }

  lemma HasNextStep(s: State)
    requires Inv(s)
    ensures s.fetcher.Returned? || exists l :: Enabled(s, l)
  {
    if s.fetcher.Polling? {
      assert Enabled(s, PollStops);
    } else if !s.fetcher.Returned? {
      var l := NoDeadlock(s);
    }
  }

  lemma StepWorkersFixed(s: State, l: Label)
    requires Enabled(s, l)
    ensures |Apply(s, l).workers| == |s.workers|
  {
    match l
    case Cancel =>
    case Take(_) =>
    case Handle(_, _) =>
    case Signal(_) =>
    case ExitWorker(_) =>
    case _ =>
  }

  lemma {:induction false} WorkersFixed(s: State, ls: seq<Label>, t: State)
    requires Run(s, ls, t)
    ensures |t.workers| == |s.workers|
    decreases |ls|
  {
    if ls != [] {
      StepWorkersFixed(s, ls[0]);
      WorkersFixed(Apply(s, ls[0]), ls[1..], t);
    }
  }
}
