/** Micro-batch abduction epochs: which observations an epoch moves from pending to processed. */
module Abduction {
  import opened Text
  import B = Batching

  // ------------------------------------------------------------ the batch

  /** How many of n sorted ids the slice up to the limit takes. */
  function BatchSize(n: nat, limit: int): nat {
    if limit >= n then n else if limit >= 0 then limit else if -limit >= n then 0 else n + limit
  }

  /** The `size` smallest of the pending ids. */
  ghost predicate IsSmallest(batch: set<string>, pending: set<string>, size: nat) {
    batch <= pending && |batch| == size && forall x, y :: x in batch && y in pending - batch ==> StrLe(x, y)
  }

  lemma SmallestIsUnique(a: set<string>, b: set<string>, pending: set<string>, size: nat)
    requires IsSmallest(a, pending, size) && IsSmallest(b, pending, size)
    ensures a == b
  {
    if a != b {
      var onlyA, onlyB := a - b, b - a;
      assert a == onlyA + a * b && b == onlyB + a * b;
      assert |onlyA| + |a * b| == |onlyB| + |a * b|;
      assert onlyA != {} && onlyB != {};
      var x, y :| x in onlyA && y in onlyB;
      StrLeAntisymmetric(x, y);
      assert false;
    }
  }

  lemma IdOrder()
    ensures B.IsTotalPreorder((a: string, b: string) => StrLe(a, b))
  {
    forall a: string, b: string ensures StrLe(a, b) || StrLe(b, a) {
      StrLeTotal(a, b);
    }
    forall a: string, b: string, c: string | StrLe(a, b) && StrLe(b, c) ensures StrLe(a, c) {
      StrLeTransitive(a, b, c);
    }
  }

  /** The ids, each once, in ascending order. */
  method SortIds(ids: set<string>) returns (sorted: seq<string>)
    ensures B.NoDuplicates(sorted) && B.IsSorted((a, b) => StrLe(a, b), sorted)
    ensures forall x :: x in sorted <==> x in ids
  {
    var listed: seq<string> := [];
    var rest := ids;
    while rest != {}
      invariant rest <= ids && B.NoDuplicates(listed)
      invariant forall x :: x in listed <==> x in ids - rest
    {
      var x :| x in rest;
      rest := rest - {x};
      listed := listed + [x];
    }
    IdOrder();
    sorted := B.Sort((a, b) => StrLe(a, b), listed);
    B.BagHasNoDuplicates(listed);
    B.BagHasNoDuplicates(sorted);
    assert forall x :: x in sorted <==> x in multiset(sorted);
    assert forall x :: x in listed <==> x in multiset(listed);
  }

  function Elements(s: seq<string>): set<string> {
    set x | x in s
  }

  lemma {:induction false} CountElements(s: seq<string>)
    requires B.NoDuplicates(s)
    ensures |Elements(s)| == |s|
  {
    if s != [] {
      var t := s[1..];
      assert s == [s[0]] + t;
      B.NoDuplicatesCons(s[0], t);
      CountElements(t);
      assert Elements(s) == Elements(t) + {s[0]};
    } else {
      assert Elements(s) == {};
    }
  }

  /** A prefix of the sorted ids is the batch of that size. */
  lemma PrefixIsSmallest(sorted: seq<string>, batch: seq<string>, ids: set<string>)
    requires B.NoDuplicates(sorted) && B.IsSorted((a, b) => StrLe(a, b), sorted) && batch <= sorted
    requires forall x :: x in sorted <==> x in ids
    ensures IsSmallest(Elements(batch), ids, |batch|)
  {
    CountElements(batch);
    assert forall k :: 0 <= k < |batch| ==> batch[k] == sorted[k] && sorted[k] in Elements(batch);
    forall x, y | x in Elements(batch) && y in ids - Elements(batch) ensures StrLe(x, y) {
      var i :| 0 <= i < |batch| && batch[i] == x;
      var j :| 0 <= j < |sorted| && sorted[j] == y;
      assert sorted[i] == x;
    }
  }

  // ------------------------------------------------------------ one epoch

  datatype Runtime = Runtime(
    pending: set<string>, processed: set<string>, lastHash: Option<string>, calls: nat, epoch: nat, failures: nat)

  /** What the provider does on one attempt; `Malformed` fails to parse. */
  datatype Reply = Raised | Empty | Malformed | Valid

  /** The first reply that did not raise, if the retries last so long. */
  function Answer(world: nat -> Reply, retries: nat, maxRetries: int): Option<Reply>
    decreases maxRetries + 1 - retries
  {
    if retries > maxRetries then None
    else if world(retries) != Raised then Some(world(retries))
    else Answer(world, retries + 1, maxRetries)
  }

  /** How often the provider is called before a reply is taken or the retries are used up. */
  function Attempts(world: nat -> Reply, retries: nat, maxRetries: int): (n: nat)
    ensures n <= if retries > maxRetries then 0 else maxRetries + 1 - retries
    ensures n == 0 <==> retries > maxRetries
    decreases maxRetries + 1 - retries
  {
    if retries > maxRetries then 0
    else if world(retries) != Raised then 1
    else 1 + Attempts(world, retries + 1, maxRetries)
  }

  /** The batch is processed, whatever came of it. */
  function Moved(rt: Runtime, batch: set<string>, hash: string): Runtime {
    rt.(pending := rt.pending - batch, processed := rt.processed + batch, lastHash := Some(hash))
  }

  predicate IsSkipped(rt: Runtime, batch: set<string>, hash: string) {
    batch == {} || rt.lastHash == Some(hash)
  }

  function Epoch(rt: Runtime, batch: set<string>, hash: string, world: nat -> Reply, maxRetries: int): Runtime {
    if IsSkipped(rt, batch, hash) || maxRetries < 0 then rt
    else
      match Answer(world, 0, maxRetries)
      case None => Moved(rt, batch, hash).(failures := rt.failures + 1)
      case Some(Empty) => rt
      case Some(reply) =>
        Moved(rt, batch, hash).(
          calls := rt.calls + 1, epoch := rt.epoch + 1, failures := rt.failures + if reply == Malformed then 1 else 0)
  }

  /** The provider calls of one epoch. */
  function EpochCalls(rt: Runtime, batch: set<string>, hash: string, world: nat -> Reply, maxRetries: int): (n: nat)
    ensures n <= if maxRetries < 0 then 0 else maxRetries + 1
    ensures n == 0 <==> IsSkipped(rt, batch, hash) || maxRetries < 0
  {
    if IsSkipped(rt, batch, hash) then 0 else Attempts(world, 0, maxRetries)
  }

  class AbductionRuntime {
    var pending: set<string>
    var processed: set<string>
    var lastHash: Option<string>
    var calls: nat
    var epoch: nat
    var failures: nat

    constructor ()
      ensures View() == Runtime({}, {}, None, 0, 0, 0)
    {
      pending, processed, lastHash, calls, epoch, failures := {}, {}, None, 0, 0, 0;
    }

    function View(): Runtime
      reads this
    {
      Runtime(pending, processed, lastHash, calls, epoch, failures)
    }

    /** An observation comes in; one that was processed before is not pending again. */
    method Ingest(id: string)
      modifies this`pending
      ensures View() == IngestOne(old(View()), id)
    {
      if id !in processed {
        pending := pending + {id};
      }
    }

    method MoveBatch(batch: seq<string>)
      modifies this`pending, this`processed
      ensures pending == old(pending) - Elements(batch) && processed == old(processed) + Elements(batch)
    {
      for i := 0 to |batch|
        invariant pending == old(pending) - Elements(batch[..i]) && processed == old(processed) + Elements(batch[..i])
      {
        assert batch[..i + 1] == batch[..i] + [batch[i]];
        processed := processed + {batch[i]};
        pending := pending - {batch[i]};
      }
      assert batch[..|batch|] == batch;
    }

    method NextBatch(limit: int) returns (batch: seq<string>)
      ensures IsSmallest(Elements(batch), pending, BatchSize(|pending|, limit)) && B.NoDuplicates(batch)
      ensures batch == [] <==> Elements(batch) == {}
    {
      var sorted := SortIds(pending);
      batch := Take(sorted, limit);
      CountElements(sorted);
      assert Elements(sorted) == pending;
      PrefixIsSmallest(sorted, batch, pending);
      assert batch != [] ==> batch[0] in Elements(batch);
    }

    /** Accepts a reply, or gives up on the batch if there is none. */
    method Settle(batch: seq<string>, hash: string, reply: Option<Reply>)
      requires reply !in {Some(Empty), Some(Raised)}
      modifies this
      ensures View() == (match reply
        case None => Moved(old(View()), Elements(batch), hash).(failures := old(failures) + 1)
        case Some(r) => Moved(old(View()), Elements(batch), hash).(
          calls := old(calls) + 1, epoch := old(epoch) + 1, failures := old(failures) + if r == Malformed then 1 else 0))
    {
      if reply != None {
        calls := calls + 1;
        epoch := epoch + 1;
      }
      lastHash := Some(hash);
      MoveBatch(batch);
      if reply == None || reply == Some(Malformed) {
        failures := failures + 1;
      }
    }

    /** `attempts`: how often the provider was called. */
    method ExecuteEpoch(limit: int, hash: seq<string> -> string, world: nat -> Reply, maxRetries: int)
      returns (batch: seq<string>, attempts: nat)
      modifies this
      ensures IsSmallest(Elements(batch), old(pending), BatchSize(|old(pending)|, limit))
      ensures View() == Epoch(old(View()), Elements(batch), hash(batch), world, maxRetries)
      ensures attempts == EpochCalls(old(View()), Elements(batch), hash(batch), world, maxRetries)
    {
      batch := NextBatch(limit);
      attempts := 0;
      if batch == [] || lastHash == Some(hash(batch)) {
        return;
      }
      var reply;
      reply, attempts := CallProvider(world, maxRetries);
      if maxRetries < 0 || reply == Some(Empty) {
        return;
      }
      Settle(batch, hash(batch), reply);
    }
  }

  method CallProvider(world: nat -> Reply, maxRetries: int) returns (reply: Option<Reply>, attempts: nat)
    ensures reply == Answer(world, 0, maxRetries) && reply != Some(Raised)
    ensures attempts == Attempts(world, 0, maxRetries)
  {
    reply, attempts := None, 0;
    while reply == None && attempts <= maxRetries
      invariant attempts <= if maxRetries < 0 then 0 else maxRetries + 1
      invariant reply == None ==> Answer(world, 0, maxRetries) == Answer(world, attempts, maxRetries)
      invariant Attempts(world, 0, maxRetries) == attempts + if reply == None then Attempts(world, attempts, maxRetries) else 0
      invariant reply != None ==> attempts > 0 && reply != Some(Raised) && Answer(world, 0, maxRetries) == reply
      decreases reply == None, maxRetries - attempts
    {
      if world(attempts) != Raised {
        reply := Some(world(attempts));
      }
      attempts := attempts + 1;
    }
  }

  // ------------------------------------------------------------ when an epoch moves its batch

  lemma {:induction false} AnswerIsFirst(world: nat -> Reply, retries: nat, maxRetries: int)
    ensures Answer(world, retries, maxRetries) == None <==> forall k: nat :: retries <= k <= maxRetries ==> world(k) == Raised
    ensures Answer(world, retries, maxRetries) != None ==>
      exists k: nat :: IsFirstReply(world, retries, maxRetries, k) && Answer(world, retries, maxRetries) == Some(world(k))
    decreases maxRetries + 1 - retries
  {
    if retries <= maxRetries {
      if world(retries) != Raised {
        assert IsFirstReply(world, retries, maxRetries, retries);
      } else {
        AnswerIsFirst(world, retries + 1, maxRetries);
        if Answer(world, retries, maxRetries) != None {
          var k: nat :| IsFirstReply(world, retries + 1, maxRetries, k) && Answer(world, retries + 1, maxRetries) == Some(world(k));
          assert IsFirstReply(world, retries, maxRetries, k);
        }
      }
    }
  }

  ghost predicate IsFirstReply(world: nat -> Reply, retries: nat, maxRetries: int, k: nat) {
    retries <= k <= maxRetries && world(k) != Raised && forall j: nat :: retries <= j < k ==> world(j) == Raised
  }

  /** The first reply that does not raise is an empty one. */
  ghost predicate RepliesEmpty(world: nat -> Reply, maxRetries: int) {
    exists k: nat :: IsFirstReply(world, 0, maxRetries, k) && world(k) == Empty
  }

  /**
   * An epoch that is not skipped moves its whole batch, even when every attempt raised or the reply does not
   * parse, unless the provider replies with nothing or the retry limit is negative. Then nothing changes at all.
   */
  lemma EpochMovesUnlessEmpty(rt: Runtime, batch: set<string>, hash: string, world: nat -> Reply, maxRetries: int)
    requires batch <= rt.pending && rt.pending !! rt.processed && !IsSkipped(rt, batch, hash)
    ensures var r := Epoch(rt, batch, hash, world, maxRetries);
      if RepliesEmpty(world, maxRetries) || maxRetries < 0 then r == rt
      else
        && r.pending == rt.pending - batch && r.processed == rt.processed + batch && r.lastHash == Some(hash)
        && |r.pending| == |rt.pending| - |batch| && r.calls + r.failures > rt.calls + rt.failures
  {
    AnswerIsFirst(world, 0, maxRetries);
    assert |rt.pending| == |rt.pending - batch| + |batch| by {
      assert rt.pending == (rt.pending - batch) + batch;
    }
    if Answer(world, 0, maxRetries) != None {
      var k: nat :| IsFirstReply(world, 0, maxRetries, k) && Answer(world, 0, maxRetries) == Some(world(k));
      if RepliesEmpty(world, maxRetries) {
        var j: nat :| IsFirstReply(world, 0, maxRetries, j) && world(j) == Empty;
        assert j == k;
      }
    }
  }

  /** The limit is a slice bound: a negative one leaves off that many ids. */
  lemma BatchSizeIs(ids: seq<string>, limit: int)
    ensures BatchSize(|ids|, limit) == |Take(ids, limit)|
  {
  }

  ghost predicate IsDue(rt: Runtime, batch: set<string>, hash: string) {
    (exists id :: id in batch) && (rt.lastHash == None || rt.lastHash.value != hash)
  }

  lemma DueIs(rt: Runtime, batch: set<string>, hash: string)
    ensures IsSkipped(rt, batch, hash) <==> !IsDue(rt, batch, hash)
  {
    if batch != {} {
      var id :| id in batch;
    }
  }

  /** The batch moves, the hash is remembered, and the counts grow by these. */
  ghost predicate Moves(rt: Runtime, batch: set<string>, hash: string, r: Runtime, calls: nat, failures: nat) {
    r == Runtime(rt.pending - batch, rt.processed + batch, Some(hash), rt.calls + calls, rt.epoch + calls, rt.failures + failures)
  }

  /**
   * What an epoch does, and how often it calls the provider: nothing if it is not due; a failure if every attempt
   * raises; nothing again if the first reply is empty; otherwise one call, which fails too if the reply does not parse.
   */
  lemma EpochIs(rt: Runtime, batch: set<string>, hash: string, world: nat -> Reply, maxRetries: int)
    ensures var r, n := Epoch(rt, batch, hash, world, maxRetries), EpochCalls(rt, batch, hash, world, maxRetries);
      && (!IsDue(rt, batch, hash) || maxRetries < 0 ==> r == rt && n == 0)
      && (IsDue(rt, batch, hash) && maxRetries >= 0 && (forall k: nat :: k <= maxRetries ==> world(k) == Raised) ==>
            Moves(rt, batch, hash, r, 0, 1) && n == maxRetries + 1)
      && forall k: nat :: IsDue(rt, batch, hash) && IsFirstReply(world, 0, maxRetries, k) ==>
           && n == k + 1
           && (world(k) == Empty ==> r == rt)
           && (world(k) == Malformed ==> Moves(rt, batch, hash, r, 1, 1))
           && (world(k) == Valid ==> Moves(rt, batch, hash, r, 1, 0))
  {
    DueIs(rt, batch, hash);
    AnswerIsFirst(world, 0, maxRetries);
    AttemptsAre(world, 0, maxRetries);
    forall k: nat | IsFirstReply(world, 0, maxRetries, k) ensures Answer(world, 0, maxRetries) == Some(world(k)) {
      var j: nat :| IsFirstReply(world, 0, maxRetries, j) && Answer(world, 0, maxRetries) == Some(world(j));
      assert j == k;
    }
  }

  /** Every attempt up to the first reply is made, or all of them. */
  lemma {:induction false} AttemptsAre(world: nat -> Reply, retries: nat, maxRetries: int)
    ensures forall k: nat :: IsFirstReply(world, retries, maxRetries, k) ==> Attempts(world, retries, maxRetries) == k + 1 - retries
    ensures retries <= maxRetries && (forall k: nat :: retries <= k <= maxRetries ==> world(k) == Raised) ==>
      Attempts(world, retries, maxRetries) == maxRetries + 1 - retries
    decreases maxRetries + 1 - retries
  {
    if retries <= maxRetries && world(retries) == Raised {
      AttemptsAre(world, retries + 1, maxRetries);
      forall k: nat | IsFirstReply(world, retries, maxRetries, k) ensures IsFirstReply(world, retries + 1, maxRetries, k) {}
    }
  }

  // ------------------------------------------------------------ runs

  function IngestOne(rt: Runtime, id: string): Runtime {
    if id in rt.processed then rt else rt.(pending := rt.pending + {id})
  }

  datatype Event = Ingest(id: string) | Run(batch: set<string>, hash: string, world: nat -> Reply, limit: int, maxRetries: int)

  ghost predicate IsEvent(rt: Runtime, e: Event) {
    e.Run? ==> IsSmallest(e.batch, rt.pending, BatchSize(|rt.pending|, e.limit))
  }

  function Apply(rt: Runtime, e: Event): Runtime {
    match e
    case Ingest(id) => IngestOne(rt, id)
    case Run(batch, hash, world, _, maxRetries) => Epoch(rt, batch, hash, world, maxRetries)
  }

  ghost predicate IsHistory(rt: Runtime, events: seq<Event>)
    decreases |events|
  {
    events == [] || (IsEvent(rt, events[0]) && IsHistory(Apply(rt, events[0]), events[1..]))
  }

  ghost function After(rt: Runtime, events: seq<Event>): Runtime
    decreases |events|
  {
    if events == [] then rt else After(Apply(rt, events[0]), events[1..])
  }

  ghost function IngestedBy(e: Event): set<string> {
    if e.Ingest? then {e.id} else {}
  }

  ghost function Ingested(events: seq<Event>): set<string> {
    if events == [] then {} else IngestedBy(events[0]) + Ingested(events[1..])
  }

  /** Nothing is lost, nothing is in both sets, and what is processed stays processed. */
  ghost predicate Conserves(rt: Runtime, r: Runtime, more: set<string>) {
    r.pending !! r.processed && rt.processed <= r.processed && r.pending + r.processed == rt.pending + rt.processed + more
  }

  lemma ApplyConserves(rt: Runtime, e: Event)
    requires rt.pending !! rt.processed && IsEvent(rt, e)
    ensures Conserves(rt, Apply(rt, e), IngestedBy(e))
  {
  }

  lemma ConservesIsTransitive(a: Runtime, b: Runtime, c: Runtime, x: set<string>, y: set<string>)
    requires Conserves(a, b, x) && Conserves(b, c, y)
    ensures Conserves(a, c, x + y)
  {
    assert c.pending + c.processed == a.pending + a.processed + x + y;
  }

  /** No observation is lost or processed twice, over any interleaving of ingests and epochs. */
  lemma {:induction false} HistoryConserves(rt: Runtime, events: seq<Event>)
    requires rt.pending !! rt.processed && IsHistory(rt, events)
    ensures Conserves(rt, After(rt, events), Ingested(events))
    decreases |events|
  {
    if events != [] {
      var r := Apply(rt, events[0]);
      ApplyConserves(rt, events[0]);
      HistoryConserves(r, events[1..]);
      ConservesIsTransitive(rt, r, After(r, events[1..]), IngestedBy(events[0]), Ingested(events[1..]));
    }
  }

  function ProviderCalls(rt: Runtime, events: seq<Event>): nat
    decreases |events|
  {
    if events == [] then 0
    else
      (match events[0]
       case Ingest(_) => 0
       case Run(batch, hash, world, _, maxRetries) => EpochCalls(rt, batch, hash, world, maxRetries))
      + ProviderCalls(Apply(rt, events[0]), events[1..])
  }

  /** An epoch that is due and gets nothing for a reply. */
  ghost predicate ComesBackEmpty(rt: Runtime, e: Event) {
    e.Run? && !IsSkipped(rt, e.batch, e.hash) && e.maxRetries >= 0 && RepliesEmpty(e.world, e.maxRetries)
  }

  /**
   * However many epochs come back empty, the runtime stays as it was, its call and failure counts with it, and
   * each of them has called the provider.
   */
  lemma {:induction false} EmptyReplyIsRepeated(rt: Runtime, events: seq<Event>)
    requires forall e :: e in events ==> ComesBackEmpty(rt, e) && IsEvent(rt, e)
    ensures IsHistory(rt, events) && After(rt, events) == rt && ProviderCalls(rt, events) >= |events|
    decreases |events|
  {
    if events != [] {
      var e := events[0];
      assert e in events;
      EmptyReplyChangesNothing(rt, e);
      EmptyReplyIsRepeated(rt, events[1..]);
    }
  }

  lemma EmptyReplyChangesNothing(rt: Runtime, e: Event)
    requires ComesBackEmpty(rt, e)
    ensures Apply(rt, e) == rt && EpochCalls(rt, e.batch, e.hash, e.world, e.maxRetries) > 0
  {
    AnswerIsFirst(e.world, 0, e.maxRetries);
    var j: nat :| IsFirstReply(e.world, 0, e.maxRetries, j) && e.world(j) == Empty;
    var k: nat :| IsFirstReply(e.world, 0, e.maxRetries, k) && Answer(e.world, 0, e.maxRetries) == Some(e.world(k));
    assert j == k;
  }

  /** An epoch that goes through: not skipped, retries allowed, and answered or given up on. */
  ghost predicate GoesThrough(rt: Runtime, e: Event) {
    e.Run? && !IsSkipped(rt, e.batch, e.hash) && e.maxRetries >= 0 && !RepliesEmpty(e.world, e.maxRetries)
  }

  ghost predicate AllGoThrough(rt: Runtime, events: seq<Event>, limit: nat)
    decreases |events|
  {
    events == [] || (GoesThrough(rt, events[0]) && events[0].limit == limit && AllGoThrough(Apply(rt, events[0]), events[1..], limit))
  }

  /** What is left of n after k subtractions of the limit. */
  function Left(n: nat, k: nat, limit: nat): nat {
    if n <= k * limit then 0 else n - k * limit
  }

  lemma LeftAfter(n: nat, k: nat, limit: nat)
    ensures Left(Left(n, 1, limit), k, limit) == Left(n, k + 1, limit)
  {
    assert (k + 1) * limit == k * limit + limit;
  }

  lemma EpochTakesLimit(rt: Runtime, e: Event)
    requires rt.pending !! rt.processed && IsEvent(rt, e) && GoesThrough(rt, e) && e.limit >= 0
    ensures |Apply(rt, e).pending| == Left(|rt.pending|, 1, e.limit) && Apply(rt, e).pending !! Apply(rt, e).processed
  {
    EpochMovesUnlessEmpty(rt, e.batch, e.hash, e.world, e.maxRetries);
    ApplyConserves(rt, e);
  }

  /** Each epoch that goes through takes exactly the limit, or all that is left. */
  lemma {:induction false} EpochsDrain(rt: Runtime, events: seq<Event>, limit: nat)
    requires rt.pending !! rt.processed && IsHistory(rt, events) && AllGoThrough(rt, events, limit)
    ensures |After(rt, events).pending| == Left(|rt.pending|, |events|, limit)
    decreases |events|
  {
    if events != [] {
      var r := Apply(rt, events[0]);
      EpochTakesLimit(rt, events[0]);
      EpochsDrain(r, events[1..], limit);
      LeftAfter(|rt.pending|, |events| - 1, limit);
    }
  }
}
