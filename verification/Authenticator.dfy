/** Authenticator: API keys resolved through a cache with per-entry expiry and negative entries, one lookup in
    flight per key, and a limiter on lookups.

    The class runs one request at a time. The step system below it interleaves requests: a cache read, the
    clock check, the removal of an expired entry, each single-flight operation, the lookup, the stamping of an
    entry and its insertion are separate steps. Times are nanoseconds; time only advances. A cache key stands
    for the SHA-256 of an API key. The limiter's decisions are inputs.
  */
module Authenticator {
  import opened Lru

  type Key = nat

  /** What the finder says: a tenant, an invalid key, or any other error. */
  datatype Answer = Tenant(id: int) | Invalid | Transient

  datatype Result = MissingKey | RateLimited | Answered(answer: Answer)

  datatype Stored = Stored(answer: Answer, expiresAt: int)

  type Memory = Cache<Key, Stored>

  const NANOS_PER_SECOND := 1_000_000_000
  const DEFAULT_TTL := 30 * NANOS_PER_SECOND
  const NEGATIVE_TTL := 15 * NANOS_PER_SECOND
  const DEFAULT_CACHE_SIZE := 50_000

  function TtlOf(ttl: int, a: Answer): int {
    if a.Tenant? then ttl else NEGATIVE_TTL
  }

  /** An entry is served up to and including its expiry. */
  predicate Live(e: Option<Stored>, now: int) {
    e.Some? && now <= e.value.expiresAt
  }

  // ---------------------------------------------------------------- one request at a time

  class Authenticator {
    const ttl: int
    var cache: Memory

    constructor (ttl: int, cacheSize: int)
      ensures this.ttl == if ttl <= 0 then DEFAULT_TTL else ttl
      ensures cache.Valid() && cache.entries == []
      ensures cache.capacity == if cacheSize <= 0 then DEFAULT_CACHE_SIZE else cacheSize
    {
      this.ttl := if ttl <= 0 then DEFAULT_TTL else ttl;
      this.cache := Cache(if cacheSize <= 0 then DEFAULT_CACHE_SIZE else cacheSize, []);
    }

    method LookupCache(k: Key, now: int) returns (hit: Option<Answer>)
      requires cache.Valid()
      modifies this
      ensures cache.Valid()
      ensures var e := old(cache).Peek(k);
              hit == if e.Some? && now <= e.value.expiresAt then Some(e.value.answer) else None
      ensures forall q :: cache.Peek(q) == if q == k && hit.None? then None else old(cache).Peek(q)
    {
      GetKeeps(cache, k);
      var entry := cache.Peek(k);
      cache := cache.Get(k);
      if entry.None? {
        return None;
      }
      if now > entry.value.expiresAt {
        RemoveKeeps(cache, k);
        cache := cache.Remove(k);
        return None;
      }
      hit := Some(entry.value.answer);
    }

    method CacheSet(k: Key, answer: Answer, now: int)
      requires cache.Valid()
      modifies this
      ensures cache.Valid()
      ensures cache.Peek(k) == Some(Stored(answer, now + if answer.Tenant? then ttl else 15_000_000_000))
      ensures forall q :: q != k && cache.Peek(q).Some? ==> cache.Peek(q) == old(cache).Peek(q)
    {
      var keep := ttl;
      if !answer.Tenant? {
        keep := NEGATIVE_TTL;
      }
      AddKeeps(cache, k, Stored(answer, now + keep));
      cache := cache.Add(k, Stored(answer, now + keep));
    }

    /** The function given to single flight: the cache again, then the limiter, then the lookup. `now` is the
        clock at the recheck, `later` at the insertion. */
    method Flight(k: Key, now: int, later: int, allowed: bool, found: Answer) returns (r: Result, looked: bool)
      requires cache.Valid()
      modifies this
      ensures cache.Valid()
      ensures Live(old(cache).Peek(k), now) ==>
                && r == Answered(old(cache).Peek(k).value.answer) && !looked
                && forall q :: cache.Peek(q) == old(cache).Peek(q)
      ensures !Live(old(cache).Peek(k), now) ==>
                && looked == allowed && r == (if allowed then Answered(found) else RateLimited)
                && cache.Peek(k) ==
                   if looked && !found.Transient? then Some(Stored(found, later + TtlOf(ttl, found))) else None
      ensures forall q :: q != k && cache.Peek(q).Some? ==> cache.Peek(q) == old(cache).Peek(q)
    {
      var hit := LookupCache(k, now);
      if hit.Some? {
        return Answered(hit.value), false;
      }
      if !allowed {
        return RateLimited, false;
      }
      if found.Transient? || found.Invalid? {
        if found.Invalid? {
          CacheSet(k, Invalid, later);
        }
        return Answered(found), true;
      }
      CacheSet(k, found, later);
      return Answered(found), true;
    }

    /** `first`, `second` and `third` are the clock at the two cache reads and at the insertion. A live entry is
        the answer, without a lookup; otherwise the key's entry is afterwards what the lookup found, if that was
        definite, and gone if it was not or there was none. Nothing else enters the cache. */
    method ResolveTenantID(apiKey: string, k: Key, first: int, second: int, third: int, allowed: bool, found: Answer)
      returns (r: Result, looked: bool)
      requires cache.Valid()
      modifies this
      ensures cache.Valid()
      ensures apiKey == "" ==> r == MissingKey && !looked && cache == old(cache)
      ensures apiKey != "" && Live(old(cache).Peek(k), first) ==>
                && r == Answered(old(cache).Peek(k).value.answer) && !looked
                && forall q :: cache.Peek(q) == old(cache).Peek(q)
      ensures apiKey != "" && !Live(old(cache).Peek(k), first) ==>
                && looked == allowed && r == (if allowed then Answered(found) else RateLimited)
                && cache.Peek(k) ==
                   if looked && !found.Transient? then Some(Stored(found, third + TtlOf(ttl, found))) else None
      ensures forall q :: q != k && cache.Peek(q).Some? ==> cache.Peek(q) == old(cache).Peek(q)
    {
      if apiKey == "" {
        return MissingKey, false;
      }
      var hit := LookupCache(k, first);
      if hit.Some? {
        return Answered(hit.value), false;
      }
      r, looked := Flight(k, second, third, allowed, found);
    }
  }

  // ---------------------------------------------------------------- concurrent requests

  /** Where a reply came from; a cached one was checked at time `at`. */
  datatype Source = FromCache(expiresAt: int, at: int) | FromFinder | FromLimiter

  datatype Reply = Reply(result: Result, source: Source)

  /** A flight's leader goes through the stages of the function given to single flight. */
  datatype Stage =
    | Rechecking
    | RecheckRead(entry: Stored)
    | RecheckExpired
    | Limiting
    | LookingUp
    | Found(answer: Answer)
    | Stamped(entry: Stored)
    | Finishing(reply: Reply)

  datatype Request =
    | First(key: Key)
    | FirstRead(key: Key, entry: Stored)
    | FirstExpired(key: Key)
    | Joining(key: Key)
    | Leading(key: Key, stage: Stage)
    | Waiting(key: Key, leader: nat)
    | Done(key: Key, reply: Reply)

  /** The finder's answer to a lookup of a key, and when it came. */
  datatype Finding = Finding(key: Key, answer: Answer, at: int)

  datatype State = State(ttl: int, now: int, cache: Memory, requests: seq<Request>, flights: map<Key, nat>,
                         findings: set<Finding>)

  datatype Label =
    | Tick(elapsed: nat)
    | Call(key: Key)
    | Read(r: nat)
    | Check(r: nat)
    | Expire(r: nat)
    | Join(r: nat)
    | Allow(r: nat, ok: bool)
    | Find(r: nat, answer: Answer)
    | Stamp(r: nat)
    | Insert(r: nat)
    | Finish(r: nat)
    | Wake(r: nat)

  predicate Enabled(s: State, l: Label) {
    if l.Tick? || l.Call? then true
    else l.r < |s.requests| && RequestEnabled(s, s.requests[l.r], l)
  }

  predicate RequestEnabled(s: State, q: Request, l: Label) {
    match l
    case Read(_) => q.First? || (q.Leading? && q.stage.Rechecking?)
    case Check(_) => q.FirstRead? || (q.Leading? && q.stage.RecheckRead?)
    case Expire(_) => q.FirstExpired? || (q.Leading? && q.stage.RecheckExpired?)
    case Join(_) => q.Joining?
    case Allow(_, _) => q.Leading? && q.stage.Limiting?
    case Find(_, _) => q.Leading? && q.stage.LookingUp?
    case Stamp(_) => q.Leading? && q.stage.Found?
    case Insert(_) => q.Leading? && q.stage.Stamped?
    case Finish(_) => q.Leading? && q.stage.Finishing?
    case Wake(_) => q.Waiting? && q.leader < |s.requests| && s.requests[q.leader].Done?
    case _ => true
  }

  /** A lookup that missed goes on to single flight the first time, to the limiter the second. */
  function Missed(q: Request): Request {
    if q.Leading? then Leading(q.key, Limiting) else Joining(q.key)
  }

  function Hit(q: Request, reply: Reply): Request {
    if q.Leading? then Leading(q.key, Finishing(reply)) else Done(q.key, reply)
  }

  function AfterRead(q: Request, e: Option<Stored>): Request {
    if e.None? then Missed(q)
    else if q.Leading? then Leading(q.key, RecheckRead(e.value))
    else FirstRead(q.key, e.value)
  }

  function AfterCheck(q: Request, e: Stored, now: int): Request {
    if now > e.expiresAt then (if q.Leading? then Leading(q.key, RecheckExpired) else FirstExpired(q.key))
    else Hit(q, Reply(Answered(e.answer), FromCache(e.expiresAt, now)))
  }

  function EntryRead(q: Request): Stored
    requires q.FirstRead? || (q.Leading? && q.stage.RecheckRead?)
  {
    if q.FirstRead? then q.entry else q.stage.entry
  }

  /** A transient error is returned without being stored. */
  function AfterStamp(q: Request, answer: Answer, ttl: int, now: int): Request {
    if answer.Transient? then Leading(q.key, Finishing(Reply(Answered(answer), FromFinder)))
    else Leading(q.key, Stamped(Stored(answer, now + TtlOf(ttl, answer))))
  }

  function Moved(s: State, r: nat, q: Request): State
    requires r < |s.requests|
  {
    s.(requests := s.requests[r := q])
  }

  function Apply(s: State, l: Label): State
    requires Enabled(s, l)
  {
    match l
    case Tick(elapsed) => s.(now := s.now + elapsed)
    case Call(k) => s.(requests := s.requests + [First(k)])
    case _ => RequestStep(s, s.requests[l.r], l)
  }

  function RequestStep(s: State, q: Request, l: Label): State
    requires !l.Tick? && !l.Call? && Enabled(s, l) && q == s.requests[l.r]
  {
    match l
    case Read(r) => Moved(s, r, AfterRead(q, s.cache.Peek(q.key))).(cache := s.cache.Get(q.key))
    case Check(r) => Moved(s, r, AfterCheck(q, EntryRead(q), s.now))
    // Whatever entry the key has by now goes.
    case Expire(r) => Moved(s, r, Missed(q)).(cache := s.cache.Remove(q.key))
    case Join(r) =>
      if q.key in s.flights then Moved(s, r, Waiting(q.key, s.flights[q.key]))
      else Moved(s, r, Leading(q.key, Rechecking)).(flights := s.flights[q.key := r])
    case Allow(r, ok) =>
      Moved(s, r, Leading(q.key, if ok then LookingUp else Finishing(Reply(RateLimited, FromLimiter))))
    case Find(r, a) => Moved(s, r, Leading(q.key, Found(a))).(findings := s.findings + {Finding(q.key, a, s.now)})
    case Stamp(r) => Moved(s, r, AfterStamp(q, q.stage.answer, s.ttl, s.now))
    case Insert(r) =>
      Moved(s, r, Leading(q.key, Finishing(Reply(Answered(q.stage.entry.answer), FromFinder))))
        .(cache := s.cache.Add(q.key, q.stage.entry))
    case Finish(r) => Moved(s, r, Done(q.key, q.stage.reply)).(flights := s.flights - {q.key})
    case Wake(r) => Moved(s, r, Done(q.key, s.requests[q.leader].reply))
  }

  ghost predicate Run(s: State, ls: seq<Label>, t: State)
    decreases |ls|
  {
    if ls == [] then s == t else Enabled(s, ls[0]) && Run(Apply(s, ls[0]), ls[1..], t)
  }

  // ---------------------------------------------------------------- single flight

  /** The leader registered for a key is the one request running its flight. */
  ghost predicate FlightInv(requests: seq<Request>, flights: map<Key, nat>) {
    && (forall r :: 0 <= r < |requests| && requests[r].Leading? ==>
           requests[r].key in flights && flights[requests[r].key] == r)
    && (forall k :: k in flights ==>
           flights[k] < |requests| && requests[flights[k]].Leading? && requests[flights[k]].key == k)
    && (forall r :: 0 <= r < |requests| && requests[r].Waiting? ==>
          var q := requests[r];
          && q.leader < |requests| && requests[q.leader].key == q.key
          && (requests[q.leader].Leading? || requests[q.leader].Done?))
  }

  /** A request that stays in its flight, or outside any. */
  lemma FlightUnmoved(requests: seq<Request>, flights: map<Key, nat>, r: nat, q: Request)
    requires FlightInv(requests, flights) && r < |requests| && !requests[r].Done?
    requires q.key == requests[r].key && (q.Leading? <==> requests[r].Leading?)
    requires q.Waiting? ==> q.leader < |requests| && q.leader != r && requests[q.leader].key == q.key &&
                            (requests[q.leader].Leading? || requests[q.leader].Done?)
    ensures FlightInv(requests[r := q], flights)
  {
  }

  lemma FlightStarts(requests: seq<Request>, flights: map<Key, nat>, r: nat)
    requires FlightInv(requests, flights) && r < |requests| && requests[r].Joining? && requests[r].key !in flights
    ensures FlightInv(requests[r := Leading(requests[r].key, Rechecking)], flights[requests[r].key := r])
  {
  }

  lemma FlightEnds(requests: seq<Request>, flights: map<Key, nat>, r: nat, reply: Reply)
    requires FlightInv(requests, flights) && r < |requests| && requests[r].Leading?
    ensures FlightInv(requests[r := Done(requests[r].key, reply)], flights - {requests[r].key})
  {
  }

  lemma StepStays(s: State, l: Label)
    requires Enabled(s, l) && !l.Tick? && !l.Call? && !l.Join? && !l.Finish?
    ensures var t := Apply(s, l);
            && |t.requests| == |s.requests| && t.requests == s.requests[l.r := t.requests[l.r]]
            && t.flights == s.flights
            && !s.requests[l.r].Done? && !t.requests[l.r].Waiting?
            && t.requests[l.r].key == s.requests[l.r].key && (t.requests[l.r].Leading? <==> s.requests[l.r].Leading?)
  {
  }

  lemma FlightKeeps(s: State, l: Label)
    requires FlightInv(s.requests, s.flights) && Enabled(s, l)
    ensures FlightInv(Apply(s, l).requests, Apply(s, l).flights)
  {
    match l
    case Tick(_) =>
    case Call(_) =>
    case Join(r) =>
      var k := s.requests[r].key;
      if k in s.flights {
        FlightUnmoved(s.requests, s.flights, r, Waiting(k, s.flights[k]));
      } else {
        FlightStarts(s.requests, s.flights, r);
      }
    case Finish(r) => FlightEnds(s.requests, s.flights, r, s.requests[r].stage.reply);
    case _ =>
      StepStays(s, l);
      FlightUnmoved(s.requests, s.flights, l.r, Apply(s, l).requests[l.r]);
  }

  // ---------------------------------------------------------------- where answers come from

  /** The finder gave this answer for the key at some time before the entry was stamped, and it is definite. */
  ghost predicate Given(findings: set<Finding>, now: int, ttl: int, k: Key, e: Stored) {
    && !e.answer.Transient?
    && exists f :: f in findings && f.key == k && f.answer == e.answer &&
          f.at <= e.expiresAt - TtlOf(ttl, e.answer) <= now
  }

  ghost predicate FoundFor(findings: set<Finding>, now: int, k: Key, a: Answer) {
    exists f :: f in findings && f.key == k && f.answer == a && f.at <= now
  }

  /** Cached replies come from an entry the finder gave, within its life; others are the finder's own answer or
      the limiter's refusal. */
  ghost predicate ReplyInv(findings: set<Finding>, now: int, ttl: int, k: Key, reply: Reply) {
    match reply.source
    case FromCache(expiresAt, at) =>
      && reply.result.Answered? && at <= expiresAt && at <= now
      && Given(findings, at, ttl, k, Stored(reply.result.answer, expiresAt))
    case FromFinder => reply.result.Answered? && FoundFor(findings, now, k, reply.result.answer)
    case FromLimiter => reply.result.RateLimited?
  }

  ghost predicate RequestInv(findings: set<Finding>, now: int, ttl: int, q: Request) {
    match q
    case FirstRead(k, e) => Given(findings, now, ttl, k, e)
    case Leading(k, RecheckRead(e)) => Given(findings, now, ttl, k, e)
    case Leading(k, Found(a)) => FoundFor(findings, now, k, a)
    case Leading(k, Stamped(e)) => Given(findings, now, ttl, k, e)
    case Leading(k, Finishing(reply)) => ReplyInv(findings, now, ttl, k, reply)
    case Done(k, reply) => ReplyInv(findings, now, ttl, k, reply)
    case _ => true
  }

  ghost predicate CacheInv(findings: set<Finding>, now: int, ttl: int, cache: Memory) {
    cache.Valid() && forall k :: cache.Peek(k).Some? ==> Given(findings, now, ttl, k, cache.Peek(k).value)
  }

  ghost predicate Inv(s: State) {
    && FlightInv(s.requests, s.flights)
    && CacheInv(s.findings, s.now, s.ttl, s.cache)
    && forall r :: 0 <= r < |s.requests| ==> RequestInv(s.findings, s.now, s.ttl, s.requests[r])
  }

  /** Time advancing and more lookups leave what holds of a request or the cache. */
  lemma LaterGiven(findings: set<Finding>, more: set<Finding>, now: int, later: int, ttl: int, k: Key, e: Stored)
    requires Given(findings, now, ttl, k, e) && findings <= more && now <= later
    ensures Given(more, later, ttl, k, e)
  {
    var f :| f in findings && f.key == k && f.answer == e.answer && f.at <= e.expiresAt - TtlOf(ttl, e.answer) <= now;
    assert f in more;
  }

  lemma LaterFound(findings: set<Finding>, more: set<Finding>, now: int, later: int, k: Key, a: Answer)
    requires FoundFor(findings, now, k, a) && findings <= more && now <= later
    ensures FoundFor(more, later, k, a)
  {
    var f :| f in findings && f.key == k && f.answer == a && f.at <= now;
    assert f in more;
  }

  lemma LaterReply(findings: set<Finding>, more: set<Finding>, now: int, later: int, ttl: int, k: Key, reply: Reply)
    requires ReplyInv(findings, now, ttl, k, reply) && findings <= more && now <= later
    ensures ReplyInv(more, later, ttl, k, reply)
  {
    match reply.source
    case FromCache(expiresAt, at) => LaterGiven(findings, more, at, at, ttl, k, Stored(reply.result.answer, expiresAt));
    case FromFinder => LaterFound(findings, more, now, later, k, reply.result.answer);
    case FromLimiter =>
  }

  lemma LaterRequest(findings: set<Finding>, more: set<Finding>, now: int, later: int, ttl: int, q: Request)
    requires RequestInv(findings, now, ttl, q) && findings <= more && now <= later
    ensures RequestInv(more, later, ttl, q)
  {
    match q
    case FirstRead(k, e) => LaterGiven(findings, more, now, later, ttl, k, e);
    case Leading(k, RecheckRead(e)) => LaterGiven(findings, more, now, later, ttl, k, e);
    case Leading(k, Found(a)) => LaterFound(findings, more, now, later, k, a);
    case Leading(k, Stamped(e)) => LaterGiven(findings, more, now, later, ttl, k, e);
    case Leading(k, Finishing(reply)) => LaterReply(findings, more, now, later, ttl, k, reply);
    case Done(k, reply) => LaterReply(findings, more, now, later, ttl, k, reply);
    case _ =>
  }

  lemma LaterCache(findings: set<Finding>, more: set<Finding>, now: int, later: int, ttl: int, cache: Memory)
    requires CacheInv(findings, now, ttl, cache) && findings <= more && now <= later
    ensures CacheInv(more, later, ttl, cache)
  {
    forall k | cache.Peek(k).Some? ensures Given(more, later, ttl, k, cache.Peek(k).value) {
      LaterGiven(findings, more, now, later, ttl, k, cache.Peek(k).value);
    }
  }

  lemma CacheKeeps(s: State, l: Label)
    requires Inv(s) && Enabled(s, l)
    ensures CacheInv(Apply(s, l).findings, Apply(s, l).now, s.ttl, Apply(s, l).cache)
  {
    var t := Apply(s, l);
    match l {
      case Read(r) => GetKeeps(s.cache, s.requests[r].key);
      case Expire(r) => RemoveKeeps(s.cache, s.requests[r].key);
      case Insert(r) =>
        AddKeeps(s.cache, s.requests[r].key, s.requests[r].stage.entry);
        assert RequestInv(s.findings, s.now, s.ttl, s.requests[r]);
      case _ => LaterCache(s.findings, t.findings, s.now, t.now, s.ttl, s.cache);
    }
  }

  /** The request that moved. */
  lemma MoverKeeps(s: State, l: Label)
    requires Inv(s) && Enabled(s, l) && !l.Tick? && !l.Call?
    ensures var t := Apply(s, l);
            |t.requests| == |s.requests| && RequestInv(t.findings, t.now, t.ttl, t.requests[l.r])
  {
    var q := s.requests[l.r];
    assert RequestInv(s.findings, s.now, s.ttl, q);
    match l {
      case Check(_) => CheckKeeps(s, l.r);
      case Find(_, a) =>
        var t := Apply(s, l);
        assert Finding(q.key, a, s.now) in t.findings;
      case Wake(_) => assert RequestInv(s.findings, s.now, s.ttl, s.requests[q.leader]);
      case _ =>
    }
  }

  lemma CheckKeeps(s: State, r: nat)
    requires Enabled(s, Check(r)) && RequestInv(s.findings, s.now, s.ttl, s.requests[r])
    ensures RequestInv(s.findings, s.now, s.ttl, AfterCheck(s.requests[r], EntryRead(s.requests[r]), s.now))
  {
    var e := EntryRead(s.requests[r]);
    assert Stored(e.answer, e.expiresAt) == e;
  }

  lemma StepKeeps(s: State, l: Label)
    requires Inv(s) && Enabled(s, l)
    ensures Inv(Apply(s, l)) && Apply(s, l).ttl == s.ttl
  {
    var t := Apply(s, l);
    FlightKeeps(s, l);
    CacheKeeps(s, l);
    if !l.Tick? && !l.Call? {
      MoverKeeps(s, l);
    }
    forall r | 0 <= r < |t.requests| ensures RequestInv(t.findings, t.now, t.ttl, t.requests[r]) {
      if r < |s.requests| && (l.Tick? || l.Call? || r != l.r) {
        LaterRequest(s.findings, t.findings, s.now, t.now, s.ttl, s.requests[r]);
      }
    }
  }

  lemma {:induction false} RunKeeps(s: State, ls: seq<Label>, t: State)
    requires Inv(s) && Run(s, ls, t)
    ensures Inv(t) && t.ttl == s.ttl
    decreases |ls|
  {
    if ls != [] {
      StepKeeps(s, ls[0]);
      RunKeeps(Apply(s, ls[0]), ls[1..], t);
    }
  }

  function Initial(ttl: int, cacheSize: nat, now: int): State {
    State(ttl, now, Cache(cacheSize, []), [], map[], {})
  }

  /** Over every run, a reply served from the cache, to the request itself or shared by its flight, is an answer
      the finder gave for that very key, definite, and stored no longer than its TTL before it was checked. Other
      replies are the finder's answer to a lookup of that key, or the limiter's. */
  lemma RepliesAreGiven(ttl: int, cacheSize: nat, start: int, ls: seq<Label>, s: State, r: nat)
    requires cacheSize >= 1 && Run(Initial(ttl, cacheSize, start), ls, s)
    requires r < |s.requests| && s.requests[r].Done?
    ensures var (k, reply) := (s.requests[r].key, s.requests[r].reply);
            match reply.source
            case FromCache(expiresAt, at) =>
              && reply.result.Answered? && !reply.result.answer.Transient?
              && var stored := expiresAt - if reply.result.answer.Tenant? then ttl else 15_000_000_000;
                 && stored <= at <= expiresAt
                 && exists f :: f in s.findings && f.key == k && f.answer == reply.result.answer && f.at <= stored
            case FromFinder =>
              && reply.result.Answered?
              && exists f :: f in s.findings && f.key == k && f.answer == reply.result.answer
            case FromLimiter => reply.result == RateLimited
  {
    RunKeeps(Initial(ttl, cacheSize, start), ls, s);
    assert RequestInv(s.findings, s.now, s.ttl, s.requests[r]);
  }

  /** A definite answer is stored, for its TTL from the stamp; whatever else runs between the two steps. */
  lemma DefiniteIsStored(s: State, r: nat, t: State)
    requires Enabled(s, Stamp(r)) && !s.requests[r].stage.answer.Transient?
    requires r < |t.requests| && t.requests[r] == Apply(s, Stamp(r)).requests[r] && t.cache.Valid()
    ensures Enabled(t, Insert(r))
    ensures var a := s.requests[r].stage.answer;
            Apply(t, Insert(r)).cache.Peek(s.requests[r].key) ==
              Some(Stored(a, s.now + if a.Tenant? then s.ttl else 15_000_000_000))
  {
    AddKeeps(t.cache, t.requests[r].key, t.requests[r].stage.entry);
  }

  /** An entry that has not expired is the reply, without a lookup, on the first read as on the recheck. */
  lemma LiveEntryIsServed(s: State, r: nat)
    requires Enabled(s, Check(r)) && s.now <= EntryRead(s.requests[r]).expiresAt
    ensures var e, q := EntryRead(s.requests[r]), Apply(s, Check(r)).requests[r];
            var reply := Reply(Answered(e.answer), FromCache(e.expiresAt, s.now));
            q == Done(s.requests[r].key, reply) || q == Leading(s.requests[r].key, Finishing(reply))
  {
  }

  /** Transient errors and refusals never enter the cache: every entry is a definite answer of the finder. */
  lemma CacheHoldsFindings(ttl: int, cacheSize: nat, start: int, ls: seq<Label>, s: State, k: Key)
    requires cacheSize >= 1 && Run(Initial(ttl, cacheSize, start), ls, s) && s.cache.Peek(k).Some?
    ensures !s.cache.Peek(k).value.answer.Transient?
    ensures exists f :: f in s.findings && f.key == k && f.answer == s.cache.Peek(k).value.answer
    ensures |s.cache.entries| <= cacheSize
  {
    RunKeeps(Initial(ttl, cacheSize, start), ls, s);
    RunCapacity(Initial(ttl, cacheSize, start), ls, s);
    assert Given(s.findings, s.now, s.ttl, k, s.cache.Peek(k).value);
  }

  lemma {:induction false} RunCapacity(s: State, ls: seq<Label>, t: State)
    requires Run(s, ls, t)
    ensures t.cache.capacity == s.cache.capacity
    decreases |ls|
  {
    if ls != [] {
      RunCapacity(Apply(s, ls[0]), ls[1..], t);
    }
  }

  /** At most one lookup per key is in flight. */
  lemma OneLookupPerKey(ttl: int, cacheSize: nat, start: int, ls: seq<Label>, s: State, q: nat, r: nat)
    requires cacheSize >= 1 && Run(Initial(ttl, cacheSize, start), ls, s)
    requires q < |s.requests| && r < |s.requests| && s.requests[q].Leading? && s.requests[r].Leading?
    requires s.requests[q].key == s.requests[r].key
    ensures q == r
  {
    RunKeeps(Initial(ttl, cacheSize, start), ls, s);
  }

  /** No request is stuck: one that is not done has a step of its own, or waits for a leader that has. */
  lemma NobodyIsStuck(ttl: int, cacheSize: nat, start: int, ls: seq<Label>, s: State, r: nat) returns (l: Label)
    requires cacheSize >= 1 && Run(Initial(ttl, cacheSize, start), ls, s)
    requires r < |s.requests| && !s.requests[r].Done?
    ensures Enabled(s, l) && !l.Tick? && !l.Call?
    ensures l.r != r ==>
              s.requests[r].Waiting? && l.r == s.requests[r].leader && s.requests[l.r].key == s.requests[r].key
  {
    RunKeeps(Initial(ttl, cacheSize, start), ls, s);
    var q := s.requests[r];
    l := if q.Waiting? && s.requests[q.leader].Done? then Wake(r)
         else if q.Waiting? then NextStep(s.requests[q.leader], q.leader)
         else NextStep(q, r);
  }

  function NextStep(q: Request, r: nat): Label
    requires !q.Waiting? && !q.Done?
  {
    match q
    case First(_) => Read(r)
    case FirstRead(_, _) => Check(r)
    case FirstExpired(_) => Expire(r)
    case Joining(_) => Join(r)
    case Leading(_, stage) =>
      match stage
      case Rechecking => Read(r)
      case RecheckRead(_) => Check(r)
      case RecheckExpired => Expire(r)
      case Limiting => Allow(r, false)
      case LookingUp => Find(r, Transient)
      case Found(_) => Stamp(r)
      case Stamped(_) => Insert(r)
      case Finishing(_) => Finish(r)
  }

  // ---------------------------------------------------------------- every request ends

  /** Steps a request has left, at most. */
  function Rank(q: Request): nat {
    match q
    case First(_) => 13
    case FirstRead(_, _) => 12
    case FirstExpired(_) => 11
    case Joining(_) => 10
    case Waiting(_, _) => 1
    case Done(_, _) => 0
    case Leading(_, stage) =>
      match stage
      case Rechecking => 9
      case RecheckRead(_) => 8
      case RecheckExpired => 7
      case Limiting => 6
      case LookingUp => 5
      case Found(_) => 4
      case Stamped(_) => 3
      case Finishing(_) => 2
  }

  /** Every step of a request brings it nearer its end, and no other step moves it. */
  lemma RankShrinks(s: State, l: Label, r: nat)
    requires Enabled(s, l) && r < |s.requests|
    ensures var t := Apply(s, l);
            && r < |t.requests| && t.requests[r].key == s.requests[r].key
            && if l.Tick? || l.Call? || l.r != r then t.requests[r] == s.requests[r]
               else Rank(t.requests[r]) < Rank(s.requests[r])
  {
  }

  function StepsOf(ls: seq<Label>, r: nat): nat {
    if ls == [] then 0 else (if !ls[0].Tick? && !ls[0].Call? && ls[0].r == r then 1 else 0) + StepsOf(ls[1..], r)
  }

  /** A request takes at most 13 steps, over every run. */
  lemma {:induction false} RequestsEnd(s: State, ls: seq<Label>, t: State, r: nat)
    requires Run(s, ls, t) && r < |s.requests|
    ensures r < |t.requests| && StepsOf(ls, r) + Rank(t.requests[r]) <= Rank(s.requests[r]) <= 13
    decreases |ls|
  {
    if ls != [] {
      RankShrinks(s, ls[0], r);
      RequestsEnd(Apply(s, ls[0]), ls[1..], t, r);
    }
  }
}
