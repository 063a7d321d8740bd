/** The consumer side of one batch: unmarshal, insert, dead-letter, recover.

    Go panics are modelled as a `panicked` result, the two `recover` calls as the
    code that looks at it. What the environment answers (does a record unmarshal,
    what do ClickHouse and the DLQ producer say) is a parameter, so every statement
    below is about all environments.
  */
module InsertHandler {

  datatype Record = Record(partition: int, offset: int, key: string, value: string)

  datatype Reason = InsertFailure | HandlerPanic

  /** A DLQ message keeps key and value; partition and offset are not copied. */
  datatype DeadLetter = DeadLetter(key: string, value: string, reason: Reason)

  /** What unmarshalling one record does. */
  datatype Parse = Parsed | Malformed | ParsePanics

  /** What one all-or-nothing call into ClickHouse or Kafka does. */
  datatype Reply = Success | Failure | Panics

  /** Everything the environment decides about one handler call. `firstDlq` answers the
      publish after a failed insert, `recoveryDlq` the one in the deferred function. */
  datatype Env = Env(parse: seq<Parse>, insert: Reply, dlqConfigured: bool, firstDlq: Reply, recoveryDlq: Reply)

  /** The table, the DLQ topic and the four counters the handler moves. */
  datatype Ledger = Ledger(
    table: seq<Record>,
    deadLetters: seq<DeadLetter>,
    malformed: nat,
    parkedFailure: nat,
    parkedPanic: nat,
    lost: nat)
  {
    function Plus(d: Ledger): Ledger {
      Ledger(table + d.table, deadLetters + d.deadLetters, malformed + d.malformed,
             parkedFailure + d.parkedFailure, parkedPanic + d.parkedPanic, lost + d.lost)
    }
  }

  lemma PlusAssociative(a: Ledger, b: Ledger, c: Ledger)
    ensures a.Plus(b).Plus(c) == a.Plus(b.Plus(c))
  {
    assert (a.table + b.table) + c.table == a.table + (b.table + c.table);
    assert (a.deadLetters + b.deadLetters) + c.deadLetters == a.deadLetters + (b.deadLetters + c.deadLetters);
  }

  const NOTHING := Ledger([], [], 0, 0, 0, 0)

  /** The effect of a call, and whether a panic left it. */
  datatype Outcome = Outcome(ledger: Ledger, escaped: bool)

  // ---------------------------------------------------------------- specification

  function Parked(r: Record, reason: Reason): DeadLetter {
    DeadLetter(r.key, r.value, reason)
  }

  function ParkedAll(recs: seq<Record>, reason: Reason): seq<DeadLetter> {
    seq(|recs|, i requires 0 <= i < |recs| => Parked(recs[i], reason))
  }

  /** From position `from` on, the topic holds one letter per record, in order, with its key, value and reason. */
  predicate LettersOf(recs: seq<Record>, reason: Reason, letters: seq<DeadLetter>, from: nat) {
    && |letters| == from + |recs|
    && forall i :: 0 <= i < |recs| ==>
         && letters[from + i].key == recs[i].key && letters[from + i].value == recs[i].value
         && letters[from + i].reason == reason
  }

  function PublishOutcome(recs: seq<Record>, reason: Reason, configured: bool, reply: Reply): Outcome {
    if !configured || recs == [] then Outcome(NOTHING, false)
    else match reply
      case Panics => Outcome(NOTHING, true)
      case Failure => Outcome(NOTHING.(lost := |recs|), false)
      case Success =>
        var parked := NOTHING.(deadLetters := ParkedAll(recs, reason));
        Outcome(if reason == InsertFailure then parked.(parkedFailure := |recs|) else parked.(parkedPanic := |recs|),
                false)
  }

  /** The records scanned before the first one whose unmarshalling panics. */
  function Scanned(parse: seq<Parse>): (n: nat)
    ensures n <= |parse|
    ensures forall i :: 0 <= i < n ==> parse[i] != ParsePanics
    ensures n < |parse| ==> parse[n] == ParsePanics
  {
    if parse == [] || parse[0] == ParsePanics then 0 else 1 + Scanned(parse[1..])
  }

  function Rows(recs: seq<Record>, parse: seq<Parse>, n: nat): (rows: seq<Record>)
    requires n <= |recs| == |parse|
  {
    if n == 0 then []
    else Rows(recs, parse, n - 1) + (if parse[n - 1] == Parsed then [recs[n - 1]] else [])
  }

  function MalformedCount(parse: seq<Parse>, n: nat): nat
    requires n <= |parse|
  {
    if n == 0 then 0 else MalformedCount(parse, n - 1) + (if parse[n - 1] == Malformed then 1 else 0)
  }

  /** The handler without its deferred function: `escaped` here is the panic to recover. */
  function BodyOutcome(recs: seq<Record>, env: Env): Outcome
    requires |env.parse| == |recs|
  {
    var n := Scanned(env.parse);
    var rows := Rows(recs, env.parse, n);
    var scan := NOTHING.(malformed := MalformedCount(env.parse, n));
    if n < |recs| then Outcome(scan, true)
    else if rows == [] then Outcome(scan, false)
    else match env.insert
      case Success => Outcome(scan.(table := rows), false)
      case Panics => Outcome(scan, true)
      case Failure =>
        var o := PublishOutcome(recs, InsertFailure, env.dlqConfigured, env.firstDlq);
        Outcome(scan.Plus(o.ledger), o.escaped)
  }

  /** The whole handler: a panic is dead-lettered; only a panic of that call escapes. */
  function HandlerOutcome(recs: seq<Record>, env: Env): Outcome
    requires |env.parse| == |recs|
  {
    var body := BodyOutcome(recs, env);
    if !body.escaped then body
    else
      var o := PublishOutcome(recs, HandlerPanic, env.dlqConfigured, env.recoveryDlq);
      Outcome(body.ledger.Plus(o.ledger), o.escaped)
  }

  // ---------------------------------------------------------------- the code

  /** The handler's sinks: ClickHouse table, DLQ topic, Prometheus counters. */
  class Sinks {
    var table: seq<Record>
    var deadLetters: seq<DeadLetter>
    var malformed: nat
    var parkedFailure: nat
    var parkedPanic: nat
    var lost: nat

    constructor ()
      ensures Contents() == NOTHING
    {
      table, deadLetters := [], [];
      malformed, parkedFailure, parkedPanic, lost := 0, 0, 0, 0;
    }

    function Contents(): Ledger
      reads this
    {
      Ledger(table, deadLetters, malformed, parkedFailure, parkedPanic, lost)
    }

    /** DLQ.PublishAll: park the whole batch, or count it lost. */
    method PublishAll(recs: seq<Record>, reason: Reason, configured: bool, reply: Reply) returns (panicked: bool)
      modifies this
      ensures Contents() == old(Contents()).Plus(PublishOutcome(recs, reason, configured, reply).ledger)
      ensures panicked == PublishOutcome(recs, reason, configured, reply).escaped
    {
      panicked := false;
      if !configured || recs == [] {
        return;
      }
      var out: seq<DeadLetter> := [];
      for i := 0 to |recs|
        invariant out == ParkedAll(recs, reason)[..i]
      {
        out := out + [Parked(recs[i], reason)];
      }
      match reply {
        case Panics =>
          panicked := true;
        case Failure =>
          lost := lost + |recs|;
        case Success =>
          deadLetters := deadLetters + out;
          if reason == InsertFailure {
            parkedFailure := parkedFailure + |recs|;
          } else {
            parkedPanic := parkedPanic + |recs|;
          }
      }
    }

    /** The loop over the batch, up to the first record whose unmarshalling panics. */
    method Scan(recs: seq<Record>, parse: seq<Parse>) returns (rows: seq<Record>, panicked: bool)
      requires |parse| == |recs|
      modifies this
      ensures Contents() == old(Contents()).Plus(NOTHING.(malformed := MalformedCount(parse, Scanned(parse))))
      ensures rows == Rows(recs, parse, Scanned(parse)) && (panicked <==> Scanned(parse) < |recs|)
    {
      rows := [];
      var i := 0;
      while i < |recs|
        invariant 0 <= i <= Scanned(parse)
        invariant rows == Rows(recs, parse, i)
        invariant Contents() == old(Contents()).Plus(NOTHING.(malformed := MalformedCount(parse, i)))
      {
        match parse[i] {
          case ParsePanics =>
            return rows, true;
          case Malformed =>
            malformed := malformed + 1;
          case Parsed =>
            rows := rows + [recs[i]];
        }
        i := i + 1;
      }
      panicked := false;
    }

    method Body(recs: seq<Record>, env: Env) returns (panicked: bool)
      requires |env.parse| == |recs|
      modifies this
      ensures Contents() == old(Contents()).Plus(BodyOutcome(recs, env).ledger)
      ensures panicked == BodyOutcome(recs, env).escaped
    {
      ghost var before := Contents();
      var rows;
      rows, panicked := Scan(recs, env.parse);
      if panicked || |rows| == 0 {
        return panicked;
      }
      match env.insert {
        case Success =>
          table := table + rows;
          return false;
        case Panics =>
          return true;
        case Failure =>
          panicked := PublishAll(recs, InsertFailure, env.dlqConfigured, env.firstDlq);
          PlusAssociative(before, NOTHING.(malformed := MalformedCount(env.parse, |recs|)),
                          PublishOutcome(recs, InsertFailure, env.dlqConfigured, env.firstDlq).ledger);
      }
    }

    /** The handler returned by NewInsertHandler. A panic of the deferred publish leaves it. */
    method Handle(recs: seq<Record>, env: Env) returns (escaped: bool)
      requires |env.parse| == |recs|
      modifies this
      ensures Contents() == old(Contents()).Plus(HandlerOutcome(recs, env).ledger)
      ensures escaped == HandlerOutcome(recs, env).escaped
    {
      ghost var before := Contents();
      ghost var body := BodyOutcome(recs, env);
      var panicked := Body(recs, env);
      if panicked {
        escaped := PublishAll(recs, HandlerPanic, env.dlqConfigured, env.recoveryDlq);
        PlusAssociative(before, body.ledger,
            PublishOutcome(recs, HandlerPanic, env.dlqConfigured, env.recoveryDlq).ledger);
      } else {
        escaped := false;
      }
    }
  }

  // ---------------------------------------------------------------- what it means

  /** Does this call reach the DLQ: some record panics, or there are rows and the insert does not succeed. */
  predicate ReachesDlq(recs: seq<Record>, env: Env)
    requires |env.parse| == |recs|
  {
    ParsePanics in env.parse || (Parsed in env.parse && env.insert != Success)
  }

  /** Record i is inserted, parked, counted malformed or counted lost. */
  predicate Settled(recs: seq<Record>, env: Env, ledger: Ledger, i: nat)
    requires |env.parse| == |recs| && i < |recs|
  {
    || recs[i] in ledger.table
    || (exists d :: d in ledger.deadLetters && d.key == recs[i].key && d.value == recs[i].value)
    || (env.parse[i] == Malformed && ledger.malformed == MalformedCount(env.parse, |env.parse|))
    || ledger.lost == |recs|
  }

  /** Each batch is settled record by record, or its panic reaches the worker, which counts the batch as dropped. */
  predicate BatchSettled(recs: seq<Record>, env: Env, o: Outcome)
    requires |env.parse| == |recs|
  {
    o.escaped || forall i :: 0 <= i < |recs| ==> Settled(recs, env, o.ledger, i)
  }

  function Counted(ledger: Ledger): nat {
    |ledger.table| + ledger.malformed + ledger.parkedFailure + ledger.parkedPanic + ledger.lost
  }

  /** Everything the batch's counters add up to; an escaped panic counts the whole batch as dropped. */
  function Accounted(recs: seq<Record>, o: Outcome): nat {
    Counted(o.ledger) + (if o.escaped then |recs| else 0)
  }

  lemma CountedBoth(a: Ledger, b: Ledger)
    ensures Counted(a.Plus(b)) == Counted(a) + Counted(b)
  {
  }

  lemma PublishCounts(recs: seq<Record>, reason: Reason, reply: Reply)
    requires recs != []
    ensures Accounted(recs, PublishOutcome(recs, reason, true, reply)) == |recs|
  {
  }

  lemma {:induction false} RowsContain(recs: seq<Record>, parse: seq<Parse>, n: nat, i: nat)
    requires i < n <= |recs| == |parse| && parse[i] == Parsed
    ensures recs[i] in Rows(recs, parse, n)
  {
    if i < n - 1 {
      RowsContain(recs, parse, n - 1, i);
    }
  }

  /** The rows are the records that unmarshal, in batch order: record i is row i less the malformed before it. */
  lemma {:induction false} RowsInOrder(recs: seq<Record>, parse: seq<Parse>, n: nat, i: nat)
    requires i < n <= Scanned(parse) && |recs| == |parse| && parse[i] == Parsed
    ensures 0 <= i - MalformedCount(parse, i) < |Rows(recs, parse, n)|
    ensures Rows(recs, parse, n)[i - MalformedCount(parse, i)] == recs[i]
  {
    ScanSplits(recs, parse, i);
    ScanSplits(recs, parse, n);
    if i < n - 1 {
      RowsInOrder(recs, parse, n - 1, i);
    }
  }

  /** Without a panic the scan splits the batch into rows and malformed records. */
  lemma {:induction false} ScanSplits(recs: seq<Record>, parse: seq<Parse>, n: nat)
    requires n <= Scanned(parse) && |recs| == |parse|
    ensures |Rows(recs, parse, n)| + MalformedCount(parse, n) == n
    ensures Rows(recs, parse, n) == [] <==> Parsed !in parse[..n]
  {
    if n > 0 {
      ScanSplits(recs, parse, n - 1);
      assert parse[..n] == parse[..n - 1] + [parse[n - 1]];
    }
  }

  lemma ReachesDlqExactly(recs: seq<Record>, env: Env)
    requires |env.parse| == |recs|
    ensures ReachesDlq(recs, env) <==>
            BodyOutcome(recs, env).escaped || (Rows(recs, env.parse, Scanned(env.parse)) != [] && env.insert == Failure)
  {
    var n := Scanned(env.parse);
    ScanSplits(recs, env.parse, n);
    if n == |recs| {
      assert env.parse[..n] == env.parse;
    }
  }

  lemma ParkedAllContains(recs: seq<Record>, reason: Reason, i: nat)
    requires i < |recs|
    ensures Parked(recs[i], reason) in ParkedAll(recs, reason)
  {
    assert ParkedAll(recs, reason)[i] == Parked(recs[i], reason);
  }

  /** A batch that reached the DLQ, and whose publish did not panic, is parked whole or counted lost whole. */
  lemma ReachedIsParkedOrLost(recs: seq<Record>, env: Env) returns (reason: Reason)
    requires |env.parse| == |recs| && env.dlqConfigured && ReachesDlq(recs, env) && !HandlerOutcome(recs, env).escaped
    ensures var ledger := HandlerOutcome(recs, env).ledger;
            ledger.lost == |recs| || ParkedAll(recs, reason) == ledger.deadLetters
  {
    ReachesDlqExactly(recs, env);
    reason := if BodyOutcome(recs, env).escaped then HandlerPanic else InsertFailure;
  }

  /** What a publish adds to whatever was there: after a success the topic has grown by the batch's own letters, with
      the reason given, and that reason's counter by their number; a failure counts them lost. */
  lemma PublishParks(before: Ledger, recs: seq<Record>, reason: Reason)
    requires recs != []
    ensures var after := before.Plus(PublishOutcome(recs, reason, true, Success).ledger);
            && LettersOf(recs, reason, after.deadLetters, |before.deadLetters|)
            && before.deadLetters <= after.deadLetters
            && after.parkedFailure == before.parkedFailure + (if reason == InsertFailure then |recs| else 0)
            && after.parkedPanic == before.parkedPanic + (if reason == HandlerPanic then |recs| else 0)
            && after.table == before.table && after.malformed == before.malformed && after.lost == before.lost
    ensures before.Plus(PublishOutcome(recs, reason, true, Failure).ledger) == before.(lost := before.lost + |recs|)
    ensures before.Plus(PublishOutcome(recs, reason, true, Panics).ledger) == before
  {
  }

  /** A failed insert parks the batch as such, a recovered panic as a panic: the letters are the batch's own, and
      only that reason's counter moves. */
  lemma BatchIsParked(recs: seq<Record>, env: Env)
    requires |env.parse| == |recs| && env.dlqConfigured && ReachesDlq(recs, env)
    ensures var o, panics := HandlerOutcome(recs, env), ParsePanics in env.parse || env.insert == Panics;
            && (!panics && env.firstDlq == Success ==>
                  && LettersOf(recs, InsertFailure, o.ledger.deadLetters, 0) && !o.escaped
                  && o.ledger.parkedFailure == |recs| && o.ledger.parkedPanic == 0 && o.ledger.lost == 0)
            && ((panics || env.firstDlq == Panics) && env.recoveryDlq == Success ==>
                  && LettersOf(recs, HandlerPanic, o.ledger.deadLetters, 0) && !o.escaped
                  && o.ledger.parkedPanic == |recs| && o.ledger.parkedFailure == 0 && o.ledger.lost == 0)
            && o.ledger.table == []
  {
    ReachesDlqExactly(recs, env);
    PanicEscapesBody(recs, env);
    ScanPanics(env.parse);
  }

  lemma ScanPanics(parse: seq<Parse>)
    ensures Scanned(parse) < |parse| <==> ParsePanics in parse
  {
  }

  /** The body ends in a panic exactly when a record, the insert or the publish after it panics. */
  lemma PanicEscapesBody(recs: seq<Record>, env: Env)
    requires |env.parse| == |recs| && env.dlqConfigured && ReachesDlq(recs, env)
    ensures BodyOutcome(recs, env).escaped <==>
            ParsePanics in env.parse || env.insert == Panics || env.firstDlq == Panics
  {
    ReachesDlqExactly(recs, env);
    ScanPanics(env.parse);
  }

  /** One that did not is inserted, but for its malformed records. */
  lemma NotReachedIsInserted(recs: seq<Record>, env: Env)
    requires |env.parse| == |recs| && !ReachesDlq(recs, env)
    ensures var o := HandlerOutcome(recs, env);
            && !o.escaped && o.ledger.table == Rows(recs, env.parse, |recs|)
            && o.ledger.malformed == MalformedCount(env.parse, |recs|) && ParsePanics !in env.parse
  {
    ReachesDlqExactly(recs, env);
  }

  /** With a DLQ every batch is settled, whatever panics, fails or is malformed. */
  lemma EveryRecordSettles(recs: seq<Record>, env: Env)
    requires |env.parse| == |recs|
    requires env.dlqConfigured || !ReachesDlq(recs, env)
    ensures BatchSettled(recs, env, HandlerOutcome(recs, env))
  {
    var o := HandlerOutcome(recs, env);
    if !ReachesDlq(recs, env) {
      NotReachedIsInserted(recs, env);
      forall i | 0 <= i < |recs| ensures Settled(recs, env, o.ledger, i) {
        assert env.parse[i] in env.parse;
        if env.parse[i] == Parsed {
          RowsContain(recs, env.parse, |recs|, i);
        }
      }
    } else if !o.escaped {
      var reason := ReachedIsParkedOrLost(recs, env);
      forall i | 0 <= i < |recs| ensures Settled(recs, env, o.ledger, i) {
        ParkedAllContains(recs, reason, i);
      }
    }
  }

  predicate KeepsNothing(ledger: Ledger) {
    ledger.table == [] && ledger.deadLetters == [] && ledger.lost == 0
  }

  lemma NothingAdded(ledger: Ledger)
    requires KeepsNothing(ledger)
    ensures KeepsNothing(ledger.Plus(NOTHING))
  {
  }

  /** The body inserts nothing unless the scan completes and the insert succeeds. */
  lemma BodyWithoutDlq(recs: seq<Record>, env: Env)
    requires |env.parse| == |recs| && !env.dlqConfigured
    requires Scanned(env.parse) < |recs| || env.insert != Success
    ensures KeepsNothing(BodyOutcome(recs, env).ledger)
  {
    var scan := NOTHING.(malformed := MalformedCount(env.parse, Scanned(env.parse)));
    var published := PublishOutcome(recs, InsertFailure, false, env.firstDlq);
    assert published == Outcome(NOTHING, false);
    assert KeepsNothing(scan);
    NothingAdded(scan);
    assert BodyOutcome(recs, env).ledger == scan || BodyOutcome(recs, env).ledger == scan.Plus(published.ledger);
  }

  lemma SuccessNeedsNoDlq(recs: seq<Record>, env: Env)
    requires |env.parse| == |recs| && Scanned(env.parse) == |recs| && env.insert == Success
    ensures !BodyOutcome(recs, env).escaped
  {
  }

  lemma WithoutDlqNothingIsKept(recs: seq<Record>, env: Env)
    requires |env.parse| == |recs| && !env.dlqConfigured
    requires BodyOutcome(recs, env).escaped ||
             (Rows(recs, env.parse, Scanned(env.parse)) != [] && env.insert == Failure)
    ensures !HandlerOutcome(recs, env).escaped && KeepsNothing(HandlerOutcome(recs, env).ledger)
  {
    if Scanned(env.parse) == |recs| && env.insert == Success {
      SuccessNeedsNoDlq(recs, env);
    } else {
      BodyWithoutDlq(recs, env);
      NothingAdded(BodyOutcome(recs, env).ledger);
    }
  }

  /** Without a DLQ a batch that needs it is settled only if nothing in it had to be parked;
      so a batch is always settled exactly when a DLQ is configured or not needed. */
  lemma NilDlqLeavesRecordsUnsettled(recs: seq<Record>, env: Env)
    requires |env.parse| == |recs|
    ensures BatchSettled(recs, env, HandlerOutcome(recs, env)) <==> env.dlqConfigured || !ReachesDlq(recs, env)
  {
    if env.dlqConfigured || !ReachesDlq(recs, env) {
      EveryRecordSettles(recs, env);
    } else {
      UnsettledWithoutDlq(recs, env);
    }
  }

  lemma UnsettledWithoutDlq(recs: seq<Record>, env: Env)
    requires |env.parse| == |recs| && !env.dlqConfigured && ReachesDlq(recs, env)
    ensures !BatchSettled(recs, env, HandlerOutcome(recs, env))
  {
    ReachesDlqExactly(recs, env);
    WithoutDlqNothingIsKept(recs, env);
    var o := HandlerOutcome(recs, env);
    var p := if ParsePanics in env.parse then ParsePanics else Parsed;
    var i :| 0 <= i < |env.parse| && env.parse[i] == p;
    EmptyLedgerSettlesNothing(recs, env, o.ledger, i);
  }

  lemma EmptyLedgerSettlesNothing(recs: seq<Record>, env: Env, ledger: Ledger, i: nat)
    requires |env.parse| == |recs| && i < |recs| && env.parse[i] != Malformed
    requires KeepsNothing(ledger)
    ensures !Settled(recs, env, ledger, i)
  {
  }

  /** The counters add up to the batch size, plus the malformed records of a batch that also went to the
      DLQ: the DLQ gets the whole batch, so those are counted twice. They add up to the batch size
      exactly when the batch avoids the DLQ or no record was counted malformed before. */
  lemma CountersAddUp(recs: seq<Record>, env: Env)
    requires |env.parse| == |recs| && env.dlqConfigured
    ensures var o := HandlerOutcome(recs, env);
            && Accounted(recs, o) == |recs| + (if ReachesDlq(recs, env) then o.ledger.malformed else 0)
            && (Accounted(recs, o) == |recs| <==>
                   !ReachesDlq(recs, env) || Malformed !in env.parse[..Scanned(env.parse)])
  {
    BodyCounts(recs, env);
    MalformedCountZero(env.parse, Scanned(env.parse));
    var body := BodyOutcome(recs, env);
    if body.escaped {
      PublishCounts(recs, HandlerPanic, env.recoveryDlq);
      CountedBoth(body.ledger, PublishOutcome(recs, HandlerPanic, true, env.recoveryDlq).ledger);
    }
  }

  /** Before recovery: what the scan counted, plus the whole batch if it reached the DLQ or panicked doing so. */
  lemma BodyCounts(recs: seq<Record>, env: Env)
    requires |env.parse| == |recs| && env.dlqConfigured
    ensures var body, malformed := BodyOutcome(recs, env), MalformedCount(env.parse, Scanned(env.parse));
            && body.ledger.malformed == malformed
            && if body.escaped then ReachesDlq(recs, env) && recs != [] && Counted(body.ledger) == malformed
               else Counted(body.ledger) == if ReachesDlq(recs, env) then |recs| + malformed else |recs|
  {
    ReachesDlqExactly(recs, env);
    ScanSplits(recs, env.parse, Scanned(env.parse));
    if Scanned(env.parse) == |recs| && Rows(recs, env.parse, |recs|) != [] && env.insert == Failure {
      PublishCounts(recs, InsertFailure, env.firstDlq);
      CountedBoth(NOTHING.(malformed := MalformedCount(env.parse, |recs|)),
                  PublishOutcome(recs, InsertFailure, true, env.firstDlq).ledger);
    }
  }

  lemma {:induction false} MalformedCountZero(parse: seq<Parse>, n: nat)
    requires n <= |parse|
    ensures MalformedCount(parse, n) == 0 <==> Malformed !in parse[..n]
  {
    if n > 0 {
      MalformedCountZero(parse, n - 1);
      assert parse[..n] == parse[..n - 1] + [parse[n - 1]];
    }
  }

  /** One malformed record, one good one, a failing insert: three counted for a batch of two. */
  lemma MalformedCountedTwice(a: Record, b: Record)
    ensures var env := Env([Malformed, Parsed], Failure, true, Success, Success);
            Accounted([a, b], HandlerOutcome([a, b], env)) == 3
  {
    var env := Env([Malformed, Parsed], Failure, true, Success, Success);
    CountersAddUp([a, b], env);
    assert env.parse[1..] == [Parsed];
    assert Scanned(env.parse) == 2;
    assert Parsed in env.parse by { assert env.parse[1] == Parsed; }
    assert MalformedCount(env.parse, 2) == 1;
  }
}
