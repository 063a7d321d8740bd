/** AsyncPublisher: a bounded queue with close, published by a fixed set of workers.

    A label is one atomic action of one goroutine: each use of the read-write lock, of the closed flag and of
    the queue is a step of its own, so every interleaving of Enqueue, Close and the workers is a run. A pending
    writer does not hold back readers here, which only adds runs.
  */
module AsyncPublisher {

  /** The rows of one Enqueue call; `id` names the call. */
  datatype Batch = Batch(id: nat, rows: nat)

  datatype Stage = Entering | Reading | Admitted | Unlocking | Left

  datatype Call = Call(rows: nat, at: Stage)

  datatype Worker = Idle | Holding(batch: Batch) | Exited

  /** `Returned(true)` waited for the workers; `Returned(false)` found the publisher closed. */
  datatype Closer = Starting | Locked | Flagged | Closed | Waiting | Returned(waited: bool)

  /** `panicked` records a send on, or a close of, the closed queue. */
  datatype State = State(
    capacity: nat,
    queue: seq<Batch>,
    queueClosed: bool,
    closed: bool,
    calls: seq<Call>,
    workers: seq<Worker>,
    closers: seq<Closer>,
    published: seq<Batch>,
    dropped: seq<Batch>,
    droppedRows: nat,
    panicked: bool)

  datatype Label =
    | Enqueue(rows: nat)
    | ReadLock(c: nat)
    | ReadFlag(c: nat)
    | SendQueued(c: nat)
    | SendDirect(c: nat, to: nat)
    | SendFull(c: nat)
    | ReadUnlock(c: nat)
    | Take(w: nat)
    | Publish(w: nat, ok: bool)
    | Exit(w: nat)
    | CallClose
    | WriteLock(d: nat)
    | TestAndSet(d: nat)
    | CloseQueue(d: nat)
    | WriteUnlock(d: nat)
    | WaitReturns(d: nat)

  predicate WorkerStep(l: Label) {
    l.Take? || l.Publish? || l.Exit?
  }

  predicate EnqueueStep(l: Label) {
    l.ReadLock? || l.ReadFlag? || l.SendQueued? || l.SendDirect? || l.SendFull? || l.ReadUnlock?
  }

  predicate CloseStep(l: Label) {
    l.WriteLock? || l.TestAndSet? || l.CloseQueue? || l.WriteUnlock? || l.WaitReturns?
  }

  function Initial(capacity: nat, workers: nat): State {
    State(capacity, [], false, false, [], seq(workers, _ => Idle), [], [], [], 0, false)
  }

  // ---------------------------------------------------------------- steps

  predicate HoldsRead(call: Call) {
    call.at.Reading? || call.at.Admitted? || call.at.Unlocking?
  }

  predicate HoldsWrite(d: Closer) {
    d.Locked? || d.Flagged? || d.Closed?
  }

  predicate CallAt(s: State, c: nat, at: Stage) {
    c < |s.calls| && s.calls[c].at == at
  }

  predicate CloserAt(s: State, d: nat, at: Closer) {
    d < |s.closers| && s.closers[d] == at
  }

  predicate NoWriter(closers: seq<Closer>) {
    forall d :: 0 <= d < |closers| ==> !HoldsWrite(closers[d])
  }

  predicate NoReader(calls: seq<Call>) {
    forall c :: 0 <= c < |calls| ==> !HoldsRead(calls[c])
  }

  predicate AllExited(workers: seq<Worker>) {
    forall w :: 0 <= w < |workers| ==> workers[w].Exited?
  }

  ghost predicate Enabled(s: State, l: Label) {
    match l
    case Enqueue(_) => true
    case ReadLock(c) => CallAt(s, c, Entering) && NoWriter(s.closers)
    case ReadFlag(c) => CallAt(s, c, Reading)
    case SendQueued(c) => CallAt(s, c, Admitted) && |s.queue| < s.capacity
    // A receiver is already waiting, so the batch never sits in the buffer.
    case SendDirect(c, w) => CallAt(s, c, Admitted) && s.queue == [] && w < |s.workers| && s.workers[w].Idle?
    case SendFull(c) => CallAt(s, c, Admitted) && |s.queue| >= s.capacity
    case ReadUnlock(c) => CallAt(s, c, Unlocking)
    case Take(w) => w < |s.workers| && s.workers[w].Idle? && s.queue != []
    case Publish(w, _) => w < |s.workers| && s.workers[w].Holding?
    case Exit(w) => w < |s.workers| && s.workers[w].Idle? && s.queue == [] && s.queueClosed
    case CallClose => true
    case WriteLock(d) => CloserAt(s, d, Starting) && NoWriter(s.closers) && NoReader(s.calls)
    case TestAndSet(d) => CloserAt(s, d, Locked)
    case CloseQueue(d) => CloserAt(s, d, Flagged)
    case WriteUnlock(d) => CloserAt(s, d, Closed)
    case WaitReturns(d) => CloserAt(s, d, Waiting) && AllExited(s.workers)
  }

  function Moved(s: State, c: nat, at: Stage): State
    requires c < |s.calls|
  {
    s.(calls := s.calls[c := Call(s.calls[c].rows, at)])
  }

  function Drop(s: State, b: Batch): State {
    s.(dropped := s.dropped + [b], droppedRows := s.droppedRows + b.rows)
  }

  ghost function Apply(s: State, l: Label): State
    requires Enabled(s, l)
  {
    match l
    // A call without rows returns at once.
    case Enqueue(rows) => s.(calls := s.calls + [Call(rows, if rows == 0 then Left else Entering)])
    case ReadLock(c) => Moved(s, c, Reading)
    case ReadFlag(c) =>
      if s.closed then Drop(Moved(s, c, Unlocking), Batch(c, s.calls[c].rows)) else Moved(s, c, Admitted)
    case SendQueued(c) =>
      if s.queueClosed then s.(panicked := true)
      else Moved(s, c, Unlocking).(queue := s.queue + [Batch(c, s.calls[c].rows)])
    case SendDirect(c, w) =>
      if s.queueClosed then s.(panicked := true)
      else Moved(s, c, Unlocking).(workers := s.workers[w := Holding(Batch(c, s.calls[c].rows))])
    case SendFull(c) =>
      if s.queueClosed then s.(panicked := true)
      else Drop(Moved(s, c, Unlocking), Batch(c, s.calls[c].rows))
    case ReadUnlock(c) => Moved(s, c, Left)
    case Take(w) => s.(workers := s.workers[w := Holding(s.queue[0])], queue := s.queue[1..])
    case Publish(w, ok) =>
      var b := s.workers[w].batch;
      var t := s.(workers := s.workers[w := Idle]);
      if ok then t.(published := s.published + [b]) else Drop(t, b)
    case Exit(w) => s.(workers := s.workers[w := Exited])
    case CallClose => s.(closers := s.closers + [Starting])
    case WriteLock(d) => s.(closers := s.closers[d := Locked])
    case TestAndSet(d) =>
      if s.closed then s.(closers := s.closers[d := Returned(false)])
      else s.(closed := true, closers := s.closers[d := Flagged])
    case CloseQueue(d) =>
      if s.queueClosed then s.(panicked := true)
      else s.(queueClosed := true, closers := s.closers[d := Closed])
    case WriteUnlock(d) => s.(closers := s.closers[d := Waiting])
    case WaitReturns(d) => s.(closers := s.closers[d := Returned(true)])
  }

  ghost predicate Run(s: State, ls: seq<Label>, t: State)
    decreases |ls|
  {
    if ls == [] then s == t else Enabled(s, ls[0]) && Run(Apply(s, ls[0]), ls[1..], t)
  }

  // ---------------------------------------------------------------- the lock, the flag and the queue

  ghost predicate LockInv(calls: seq<Call>, closers: seq<Closer>) {
    && (forall c, d :: 0 <= c < |calls| && 0 <= d < |closers| && HoldsRead(calls[c]) ==> !HoldsWrite(closers[d]))
    && (forall d, e :: 0 <= d < e < |closers| && HoldsWrite(closers[d]) ==> !HoldsWrite(closers[e]))
  }

  /** A sender past the flag holds it down: nobody can be closing. */
  predicate OpenWhileAdmitted(calls: seq<Call>, closed: bool) {
    forall c :: 0 <= c < |calls| && calls[c].at.Admitted? ==> !closed
  }

  predicate HasClosed(d: Closer) {
    d.Closed? || d.Waiting? || d == Returned(true)
  }

  /** One closer closes the queue, after the flag. */
  predicate ClosersInv(closers: seq<Closer>, closed: bool, queueClosed: bool) {
    && (forall d :: 0 <= d < |closers| && closers[d].Flagged? ==> closed && !queueClosed)
    && (forall d :: 0 <= d < |closers| && HasClosed(closers[d]) ==> queueClosed)
  }

  ghost predicate FlagInv(s: State) {
    && !s.panicked
    && (s.queueClosed ==> s.closed)
    && OpenWhileAdmitted(s.calls, s.closed)
    && ClosersInv(s.closers, s.closed, s.queueClosed)
  }

  ghost predicate QueueInv(s: State) {
    && |s.queue| <= s.capacity
    && (forall w :: 0 <= w < |s.workers| && s.workers[w].Exited? ==> s.queueClosed && s.queue == [])
    && (forall d :: 0 <= d < |s.closers| && s.closers[d] == Returned(true) ==> AllExited(s.workers))
  }

  lemma ReaderMoves(calls: seq<Call>, closers: seq<Closer>, c: nat, call: Call)
    requires LockInv(calls, closers) && c < |calls|
    requires HoldsRead(call) ==> HoldsRead(calls[c]) || NoWriter(closers)
    ensures LockInv(calls[c := call], closers)
  {
  }

  lemma WriterMoves(calls: seq<Call>, closers: seq<Closer>, d: nat, closer: Closer)
    requires LockInv(calls, closers) && d < |closers|
    requires HoldsWrite(closer) ==> HoldsWrite(closers[d]) || (NoWriter(closers) && NoReader(calls))
    ensures LockInv(calls, closers[d := closer])
  {
  }

  /** An Enqueue step moves only its own call, which takes the read lock only from no writer. */
  lemma CallMoves(s: State, l: Label)
    requires Enabled(s, l) && EnqueueStep(l)
    ensures var t := Apply(s, l);
            && t.closers == s.closers && |t.calls| == |s.calls|
            && l.c < |s.calls| && t.calls == s.calls[l.c := t.calls[l.c]]
            && (HoldsRead(t.calls[l.c]) ==> HoldsRead(s.calls[l.c]) || NoWriter(s.closers))
  {
  }

  /** A Close step moves only its own closer, which takes the write lock only when it is free. */
  lemma CloserMoves(s: State, l: Label)
    requires Enabled(s, l) && CloseStep(l)
    ensures var t := Apply(s, l);
            && t.calls == s.calls && |t.closers| == |s.closers|
            && l.d < |s.closers| && t.closers == s.closers[l.d := t.closers[l.d]]
            && (HoldsWrite(t.closers[l.d]) ==> HoldsWrite(s.closers[l.d]) || (NoWriter(s.closers) && NoReader(s.calls)))
  {
  }

  lemma LockKeeps(s: State, l: Label)
    requires LockInv(s.calls, s.closers) && Enabled(s, l)
    ensures LockInv(Apply(s, l).calls, Apply(s, l).closers)
  {
    var t := Apply(s, l);
    if CloseStep(l) {
      CloserMoves(s, l);
      WriterMoves(s.calls, s.closers, l.d, t.closers[l.d]);
    } else if EnqueueStep(l) {
      CallMoves(s, l);
      ReaderMoves(s.calls, s.closers, l.c, t.calls[l.c]);
    }
  }

  lemma FlagKeeps(s: State, l: Label)
    requires LockInv(s.calls, s.closers) && FlagInv(s) && Enabled(s, l)
    ensures FlagInv(Apply(s, l))
  {
    match l
    case Enqueue(_) =>
    case ReadLock(_) =>
    case ReadFlag(_) =>
    case WriteLock(_) =>
    case TestAndSet(_) =>
    case CloseQueue(_) =>
    case WaitReturns(_) =>
    case _ =>
  }

  lemma QueueKeeps(s: State, l: Label)
    requires FlagInv(s) && QueueInv(s) && Enabled(s, l)
    ensures QueueInv(Apply(s, l))
  {
    match l
    case SendQueued(_) =>
    case SendDirect(_, _) =>
    case Take(_) =>
    case Publish(_, _) =>
    case Exit(_) =>
    case WaitReturns(_) =>
    case _ =>
  }

  // ---------------------------------------------------------------- where every batch is

  function Times(bs: seq<Batch>, b: Batch): nat {
    if bs == [] then 0 else Times(bs[..|bs| - 1], b) + if bs[|bs| - 1] == b then 1 else 0
  }

  function Held(workers: seq<Worker>, b: Batch): nat {
    if workers == [] then 0 else Held(workers[..|workers| - 1], b) + InHand(workers[|workers| - 1], b)
  }

  function InHand(w: Worker, b: Batch): nat {
    if w.Holding? && w.batch == b then 1 else 0
  }

  /** How often a batch is queued, held, published or dropped. */
  function Places(s: State, b: Batch): nat {
    Times(s.queue, b) + Held(s.workers, b) + Times(s.published, b) + Times(s.dropped, b)
  }

  /** The Enqueue call has handed over or dropped its rows. */
  predicate Decided(calls: seq<Call>, b: Batch) {
    b.id < |calls| && calls[b.id].rows == b.rows > 0 && (calls[b.id].at.Unlocking? || calls[b.id].at.Left?)
  }

  predicate PlacedOnce(s: State, b: Batch) {
    Places(s, b) == if Decided(s.calls, b) then 1 else 0
  }

  /** Calls without rows are through from the start. */
  ghost predicate CallInv(calls: seq<Call>) {
    forall c :: 0 <= c < |calls| && calls[c].rows == 0 ==> calls[c].at.Left?
  }

  function RowsOf(bs: seq<Batch>): nat {
    if bs == [] then 0 else RowsOf(bs[..|bs| - 1]) + bs[|bs| - 1].rows
  }

  lemma TimesOneMore(bs: seq<Batch>, x: Batch, b: Batch)
    ensures Times(bs + [x], b) == Times(bs, b) + if x == b then 1 else 0
  {
    assert (bs + [x])[..|bs|] == bs;
  }

  lemma {:induction false} TimesOneLess(bs: seq<Batch>, b: Batch)
    requires bs != []
    ensures Times(bs, b) == Times(bs[1..], b) + if bs[0] == b then 1 else 0
  {
    var n := |bs| - 1;
    if n > 0 {
      TimesOneLess(bs[..n], b);
      assert bs[..n][1..] == bs[1..][..n - 1];
    }
  }

  lemma {:induction false} HeldAfter(workers: seq<Worker>, w: nat, at: Worker, b: Batch)
    requires w < |workers|
    ensures Held(workers[w := at], b) + InHand(workers[w], b) == Held(workers, b) + InHand(at, b)
  {
    var n := |workers| - 1;
    if w < n {
      HeldAfter(workers[..n], w, at, b);
      assert workers[w := at][..n] == workers[..n][w := at];
    } else {
      assert workers[w := at][..n] == workers[..n];
    }
  }

  /** Every decision of an Enqueue call puts its batch in one more place. */
  lemma DecisionPlaces(s: State, c: nat, l: Label, b: Batch)
    requires !s.queueClosed && Enabled(s, l)
    requires l == SendQueued(c) || l == SendFull(c) || (l.SendDirect? && l.c == c)
    ensures Places(Apply(s, l), b) == Places(s, b) + if b == Batch(c, s.calls[c].rows) then 1 else 0
  {
    var x := Batch(c, s.calls[c].rows);
    match l
    case SendQueued(_) => TimesOneMore(s.queue, x, b);
    case SendDirect(_, w) => HeldAfter(s.workers, w, Holding(x), b);
    case SendFull(_) => TimesOneMore(s.dropped, x, b);
  }

  lemma DecidedNow(calls: seq<Call>, c: nat, b: Batch)
    requires CallInv(calls) && c < |calls| && (calls[c].at.Reading? || calls[c].at.Admitted?)
    ensures var now := calls[c := Call(calls[c].rows, Unlocking)];
            if b == Batch(c, calls[c].rows) then !Decided(calls, b) && Decided(now, b)
            else Decided(now, b) == Decided(calls, b)
  {
  }

  lemma CallKeeps(s: State, l: Label)
    requires CallInv(s.calls) && Enabled(s, l)
    ensures CallInv(Apply(s, l).calls)
  {
  }

  lemma TakePlaces(s: State, w: nat, b: Batch)
    requires Enabled(s, Take(w))
    ensures Places(Apply(s, Take(w)), b) == Places(s, b)
  {
    HeldAfter(s.workers, w, Holding(s.queue[0]), b);
    TimesOneLess(s.queue, b);
  }

  lemma PublishPlaces(s: State, w: nat, ok: bool, b: Batch)
    requires Enabled(s, Publish(w, ok))
    ensures Places(Apply(s, Publish(w, ok)), b) == Places(s, b)
  {
    HeldAfter(s.workers, w, Idle, b);
    TimesOneMore(if ok then s.published else s.dropped, s.workers[w].batch, b);
  }

  lemma WorkerPlaces(s: State, l: Label, b: Batch)
    requires Enabled(s, l) && WorkerStep(l)
    ensures Places(Apply(s, l), b) == Places(s, b) && Apply(s, l).calls == s.calls
  {
    match l
    case Take(w) => TakePlaces(s, w, b);
    case Publish(w, ok) => PublishPlaces(s, w, ok, b);
    case Exit(w) => HeldAfter(s.workers, w, Exited, b);
  }

  lemma CallPlaces(s: State, l: Label, b: Batch)
    requires FlagInv(s) && CallInv(s.calls) && PlacedOnce(s, b)
    requires Enabled(s, l) && (l.SendQueued? || l.SendDirect? || l.SendFull? || l.ReadFlag?)
    ensures PlacedOnce(Apply(s, l), b)
  {
    DecidedNow(s.calls, l.c, b);
    if !l.ReadFlag? {
      DecisionPlaces(s, l.c, l, b);
    } else if s.closed {
      TimesOneMore(s.dropped, Batch(l.c, s.calls[l.c].rows), b);
    }
  }

  lemma PlaceKeeps(s: State, l: Label, b: Batch)
    requires FlagInv(s) && CallInv(s.calls) && PlacedOnce(s, b) && Enabled(s, l)
    ensures PlacedOnce(Apply(s, l), b)
  {
    if WorkerStep(l) {
      WorkerPlaces(s, l, b);
    } else if l.SendQueued? || l.SendDirect? || l.SendFull? || l.ReadFlag? {
      CallPlaces(s, l, b);
    }
  }

  lemma CountKeeps(s: State, l: Label)
    requires s.droppedRows == RowsOf(s.dropped) && Enabled(s, l)
    ensures Apply(s, l).droppedRows == RowsOf(Apply(s, l).dropped)
  {
    var t := Apply(s, l);
    if t.dropped != s.dropped {
      assert t.dropped[..|s.dropped|] == s.dropped;
    }
  }

  // ---------------------------------------------------------------- whole runs

  ghost predicate Inv(s: State) {
    && LockInv(s.calls, s.closers)
    && FlagInv(s)
    && QueueInv(s)
    && CallInv(s.calls)
    && (forall b :: PlacedOnce(s, b))
    && s.droppedRows == RowsOf(s.dropped)
  }

  lemma {:induction false} NobodyHolds(workers: seq<Worker>, b: Batch)
    requires forall w :: 0 <= w < |workers| ==> !workers[w].Holding?
    ensures Held(workers, b) == 0
  {
    if workers != [] { NobodyHolds(workers[..|workers| - 1], b); }
  }

  lemma StepKeeps(s: State, l: Label)
    requires Inv(s) && Enabled(s, l)
    ensures Inv(Apply(s, l))
    ensures Apply(s, l).capacity == s.capacity && |Apply(s, l).workers| == |s.workers|
  {
    LockKeeps(s, l);
    FlagKeeps(s, l);
    QueueKeeps(s, l);
    CallKeeps(s, l);
    forall b ensures PlacedOnce(Apply(s, l), b) {
      PlaceKeeps(s, l, b);
    }
    CountKeeps(s, l);
  }

  lemma {:induction false} RunKeeps(s: State, ls: seq<Label>, t: State)
    requires Inv(s) && Run(s, ls, t)
    ensures Inv(t) && t.capacity == s.capacity && |t.workers| == |s.workers|
    decreases |ls|
  {
    if ls != [] {
      StepKeeps(s, ls[0]);
      RunKeeps(Apply(s, ls[0]), ls[1..], t);
    }
  }

  lemma ReachableInv(capacity: nat, workers: nat, ls: seq<Label>, s: State)
    requires Run(Initial(capacity, workers), ls, s)
    ensures Inv(s) && s.capacity == capacity && |s.workers| == workers
  {
    forall b ensures PlacedOnce(Initial(capacity, workers), b) {
      NobodyHolds(Initial(capacity, workers).workers, b);
    }
    RunKeeps(Initial(capacity, workers), ls, s);
  }

  /** In every interleaving: no send on the closed queue and no second close of it, the queue within its
      capacity, each batch with rows in exactly one place once its Enqueue is through (and in none before), and
      the counter equal to the rows dropped. */
  lemma EveryBatchInOnePlace(capacity: nat, workers: nat, ls: seq<Label>, s: State, b: Batch)
    requires Run(Initial(capacity, workers), ls, s)
    ensures !s.panicked && |s.queue| <= capacity
    ensures Places(s, b) == if Decided(s.calls, b) then 1 else 0
    ensures s.droppedRows == RowsOf(s.dropped)
  {
    ReachableInv(capacity, workers, ls, s);
    assert PlacedOnce(s, b);
  }

  /** Nothing is queued or held. */
  predicate Drained(s: State) {
    s.queue == [] && forall w :: 0 <= w < |s.workers| ==> !s.workers[w].Holding?
  }

  predicate CloseReturned(s: State, waited: bool) {
    Returned(waited) in s.closers
  }

  ghost predicate CloseDrains(capacity: nat, workers: nat) {
    forall ls, s :: Run(Initial(capacity, workers), ls, s) && CloseReturned(s, true) ==> Drained(s)
  }

  ghost predicate EarlyCloseDrains(capacity: nat, workers: nat) {
    forall ls, s :: Run(Initial(capacity, workers), ls, s) && CloseReturned(s, false) ==> Drained(s)
  }

  /** After a drain every batch that got through Enqueue is published or dropped, once. */
  lemma DrainedIsSettled(capacity: nat, workers: nat, ls: seq<Label>, s: State, b: Batch)
    requires Run(Initial(capacity, workers), ls, s) && Drained(s)
    ensures Times(s.published, b) + Times(s.dropped, b) == if Decided(s.calls, b) then 1 else 0
  {
    ReachableInv(capacity, workers, ls, s);
    assert PlacedOnce(s, b);
    NobodyHolds(s.workers, b);
  }

  /** Batches are dropped only at a closed publisher, at a full queue, or by a publish that failed; they are
      published only by one that succeeded. */
  lemma DropsHaveReasons(s: State, l: Label)
    requires Enabled(s, l)
    ensures Apply(s, l).dropped != s.dropped ==>
              (l.ReadFlag? && s.closed) || (l.SendFull? && |s.queue| >= s.capacity) || (l.Publish? && !l.ok)
    ensures Apply(s, l).published != s.published ==> l.Publish? && l.ok
  {
  }

  /** No label of the run closes the publisher, finds the queue full, or fails to publish. */
  predicate Smooth(ls: seq<Label>) {
    forall i :: 0 <= i < |ls| ==> !ls[i].CallClose? && !ls[i].SendFull? && (ls[i].Publish? ==> ls[i].ok)
  }

  /** In a run where nothing closes, fills or fails, nothing is dropped; where every publish fails, nothing is
      published. */
  lemma {:induction false} SmoothRunsDropNothing(s: State, ls: seq<Label>, t: State)
    requires Run(s, ls, t) && !s.closed && s.closers == []
    ensures Smooth(ls) ==> t.dropped == s.dropped
    ensures (forall i :: 0 <= i < |ls| && ls[i].Publish? ==> !ls[i].ok) ==> t.published == s.published
    decreases |ls|
  {
    if ls != [] {
      DropsHaveReasons(s, ls[0]);
      if Smooth(ls) {
        StaysOpen(s, ls[0]);
        SmoothRunsDropNothing(Apply(s, ls[0]), ls[1..], t);
      }
      if forall i :: 0 <= i < |ls| && ls[i].Publish? ==> !ls[i].ok {
        FailingRunsPublishNothing(s, ls, t);
      }
    }
  }

  lemma StaysOpen(s: State, l: Label)
    requires Enabled(s, l) && !l.CallClose? && s.closers == [] && !s.closed
    ensures Apply(s, l).closers == [] && !Apply(s, l).closed
  {
  }

  lemma {:induction false} FailingRunsPublishNothing(s: State, ls: seq<Label>, t: State)
    requires Run(s, ls, t) && forall i :: 0 <= i < |ls| && ls[i].Publish? ==> !ls[i].ok
    ensures t.published == s.published
    decreases |ls|
  {
    if ls != [] {
      DropsHaveReasons(s, ls[0]);
      FailingRunsPublishNothing(Apply(s, ls[0]), ls[1..], t);
    }
  }

  // ---------------------------------------------------------------- when Close drains

  lemma {:induction false} RunJoins(s: State, ls: seq<Label>, t: State, l: Label)
    requires Run(s, ls, t) && Enabled(t, l)
    ensures Run(s, ls + [l], Apply(t, l))
    decreases |ls|
  {
    if ls == [] {
      assert (ls + [l])[1..] == [];
    } else {
      RunJoins(Apply(s, ls[0]), ls[1..], t, l);
      assert (ls + [l])[1..] == ls[1..] + [l];
    }
  }

  lemma OneAdmitted(s0: State) returns (ls: seq<Label>, s: State)
    requires s0.calls == [] && s0.closers == [] && !s0.closed
    ensures Run(s0, ls, s) && s == s0.(calls := [Call(1, Admitted)])
  {
    ls, s := Next(s0, [], s0, Enqueue(1));
    ls, s := Next(s0, ls, s, ReadLock(0));
    ls, s := Next(s0, ls, s, ReadFlag(0));
  }

  /** One batch is queued, or held where there is no buffer. */
  lemma OneEnqueued(capacity: nat, workers: nat) returns (ls: seq<Label>, s: State)
    requires capacity > 0 || workers > 0
    ensures Run(Initial(capacity, workers), ls, s)
    ensures s.calls == [Call(1, Left)] && s.closers == [] && !s.closed && !s.queueClosed
    ensures |s.workers| == workers && !Drained(s)
  {
    var s0 := Initial(capacity, workers);
    ls, s := OneAdmitted(s0);
    if capacity > 0 {
      ls, s := Next(s0, ls, s, SendQueued(0));
    } else {
      ls, s := Next(s0, ls, s, SendDirect(0, 0));
      assert s.workers[0].Holding?;
    }
    ls, s := Next(s0, ls, s, ReadUnlock(0));
  }

  /** A Close gets the write lock when nobody else is at it. */
  lemma CloseLocks(s0: State, before: seq<Label>, s: State) returns (ls: seq<Label>, t: State)
    requires Run(s0, before, s) && NoWriter(s.closers) && NoReader(s.calls)
    ensures Run(s0, ls, t) && t == s.(closers := s.closers + [Locked])
  {
    ls, t := Next(s0, before, s, CallClose);
    ls, t := Next(s0, ls, t, WriteLock(|s.closers|));
  }

  /** The first Close runs up to its wait. */
  lemma CloseUpToWait(s0: State, before: seq<Label>, s: State) returns (ls: seq<Label>, t: State)
    requires Run(s0, before, s) && s.closers == [Locked] && !s.closed && !s.queueClosed
    ensures Run(s0, ls, t)
    ensures t == s.(closed := true, queueClosed := true, closers := [Waiting])
  {
    ls, t := Next(s0, before, s, TestAndSet(0));
    assert t == s.(closed := true, closers := [Flagged]);
    ls, t := Next(s0, ls, t, CloseQueue(0));
    ls, t := Next(s0, ls, t, WriteUnlock(0));
  }

  /** And then the publisher is closed, its Close waiting. */
  lemma LeftBehind(capacity: nat, workers: nat) returns (ls: seq<Label>, s: State)
    requires capacity > 0 || workers > 0
    ensures Run(Initial(capacity, workers), ls, s)
    ensures s.closed && s.closers == [Waiting] && |s.workers| == workers && s.calls == [Call(1, Left)] && !Drained(s)
  {
    var before, open := OneEnqueued(capacity, workers);
    ls, s := CloseLocks(Initial(capacity, workers), before, open);
    ls, s := CloseUpToWait(Initial(capacity, workers), ls, s);
  }

  lemma Next(s0: State, ls: seq<Label>, s: State, l: Label) returns (more: seq<Label>, t: State)
    requires Run(s0, ls, s) && Enabled(s, l)
    ensures Run(s0, more, t) && t == Apply(s, l)
  {
    RunJoins(s0, ls, s, l);
    more, t := ls + [l], Apply(s, l);
  }

  /** The Close that closes leaves nothing queued or held, except for a publisher built with a buffer and no
      workers: its Close returns over a queue nobody reads. */
  lemma CloseDrainsWithWorkers(capacity: nat, workers: nat)
    ensures CloseDrains(capacity, workers) <==> workers > 0 || capacity == 0
  {
    if workers > 0 || capacity == 0 {
      forall ls, s | Run(Initial(capacity, workers), ls, s) && CloseReturned(s, true) ensures Drained(s) {
        ReachableInv(capacity, workers, ls, s);
        var d :| 0 <= d < |s.closers| && s.closers[d] == Returned(true);
        assert workers > 0 ==> s.workers[0].Exited?;
      }
    } else {
      var ls, s := LeftBehind(capacity, workers);
      var ls', t := Next(Initial(capacity, workers), ls, s, WaitReturns(0));
      assert t.closers[0] == Returned(true);
    }
  }

  /** A Close that finds the publisher closed returns at once, while batches may still be queued or held: it
      waits for nothing unless there is nothing to wait for. */
  lemma SecondCloseDoesNotWait(capacity: nat, workers: nat)
    ensures EarlyCloseDrains(capacity, workers) <==> workers == 0 && capacity == 0
  {
    if workers == 0 && capacity == 0 {
      forall ls, s | Run(Initial(capacity, workers), ls, s) && CloseReturned(s, false) ensures Drained(s) {
        ReachableInv(capacity, workers, ls, s);
      }
    } else {
      var s0 := Initial(capacity, workers);
      var ls, s := LeftBehind(capacity, workers);
      ls, s := CloseLocks(s0, ls, s);
      ls, s := Next(s0, ls, s, TestAndSet(1));
      assert s.closers[1] == Returned(false);
    }
  }

  // ---------------------------------------------------------------- the drain ends

  function Weight(w: Worker): nat {
    match w case Exited => 0 case Idle => 1 case Holding(_) => 2
  }

  function WorkerWork(workers: seq<Worker>): nat {
    if workers == [] then 0 else WorkerWork(workers[..|workers| - 1]) + Weight(workers[|workers| - 1])
  }

  function Work(s: State): nat {
    3 * |s.queue| + WorkerWork(s.workers)
  }

  lemma {:induction false} WorkAfter(workers: seq<Worker>, w: nat, at: Worker)
    requires w < |workers|
    ensures WorkerWork(workers[w := at]) + Weight(workers[w]) == WorkerWork(workers) + Weight(at)
  {
    var n := |workers| - 1;
    if w < n {
      WorkAfter(workers[..n], w, at);
      assert workers[w := at][..n] == workers[..n][w := at];
    } else {
      assert workers[w := at][..n] == workers[..n];
    }
  }

  function WorkerSteps(ls: seq<Label>): nat {
    if ls == [] then 0 else (if WorkerStep(ls[0]) then 1 else 0) + WorkerSteps(ls[1..])
  }

  lemma WorkShrinks(s: State, l: Label)
    requires Inv(s) && s.queueClosed && Enabled(s, l)
    ensures Apply(s, l).queueClosed
    ensures Work(Apply(s, l)) + (if WorkerStep(l) then 1 else 0) <= Work(s)
  {
    match l
    case Take(w) => WorkAfter(s.workers, w, Holding(s.queue[0]));
    case Publish(w, ok) => WorkAfter(s.workers, w, Idle);
    case Exit(w) => WorkAfter(s.workers, w, Exited);
    case _ =>
  }

  /** Once the queue is closed the workers take only boundedly many more steps, whatever else runs. */
  lemma {:induction false} DrainIsFinite(s: State, ls: seq<Label>, t: State)
    requires Inv(s) && s.queueClosed && Run(s, ls, t)
    ensures WorkerSteps(ls) + Work(t) <= Work(s)
    decreases |ls|
  {
    if ls != [] {
      StepKeeps(s, ls[0]);
      WorkShrinks(s, ls[0]);
      DrainIsFinite(Apply(s, ls[0]), ls[1..], t);
    }
  }

  /** And until they have all exited, so that Close can return, one of them has a step. */
  lemma DrainProgresses(s: State) returns (l: Label)
    requires s.queueClosed && !AllExited(s.workers)
    ensures WorkerStep(l) && Enabled(s, l)
  {
    var w: nat :| w < |s.workers| && !s.workers[w].Exited?;
    l := if s.workers[w].Holding? then Publish(w, true) else if s.queue != [] then Take(w) else Exit(w);
  }
}
