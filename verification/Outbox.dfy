/** The outbox dispatcher: one pass by itself, several at once, and retention. */
module Outbox {
  import opened Results

  type JobId = nat

  /** `published` is when the broker confirmed the event's message. */
  datatype Event = Event(job: JobId, published: Option<int>, attempts: nat, failing: bool)

  predicate IsPending(e: Event) {
    e.published.None?
  }

  /** The positions of the pending events among the first `n`, oldest first. */
  function PendingBelow(events: seq<Event>, n: nat): (at: seq<nat>)
    requires n <= |events|
    ensures forall k :: 0 <= k < |at| ==> at[k] < n && IsPending(events[at[k]])
    ensures forall i: nat :: i < n && IsPending(events[i]) ==> i in at
    ensures forall j, k :: 0 <= j < k < |at| ==> at[j] < at[k]
  {
    if n == 0 then [] else PendingBelow(events, n - 1) + if IsPending(events[n - 1]) then [n - 1] else []
  }

  function Pending(events: seq<Event>): seq<nat> {
    PendingBelow(events, |events|)
  }

  function Smaller(m: nat, n: nat): nat { if m < n then m else n }

  /** How many of the first `n` attempts succeed. */
  function Successes(succeeds: nat -> bool, n: nat): nat {
    if n == 0 then 0 else Successes(succeeds, n - 1) + if succeeds(n - 1) then 1 else 0
  }

  function Published(e: Event, now: int): Event {
    e.(published := Some(now), failing := false)
  }

  function Failed(e: Event): Event {
    e.(attempts := e.attempts + 1, failing := true)
  }

  /** After the first `n` attempts on the events at `queue`: each was tried once, in turn. */
  ghost predicate Attempted(before: seq<Event>, after: seq<Event>, queue: seq<nat>, n: nat, succeeds: nat -> bool,
      now: int)
    requires n <= |queue| && forall k :: 0 <= k < |queue| ==> queue[k] < |before|
  {
    && |after| == |before|
    && (forall k :: 0 <= k < n ==>
          after[queue[k]] == if succeeds(k) then Published(before[queue[k]], now) else Failed(before[queue[k]]))
    && (forall i :: 0 <= i < |before| && i !in queue[..n] ==> after[i] == before[i])
  }

  /** The event at `i` was published at `now`, or has one more failed attempt. */
  ghost predicate WasTried(before: seq<Event>, after: seq<Event>, i: nat, confirmed: bool, now: int) {
    && i < |before| && i < |after| && after[i].job == before[i].job
    && if confirmed then after[i].published == Some(now) && after[i].attempts == before[i].attempts && !after[i].failing
       else after[i].published.None? && after[i].attempts == before[i].attempts + 1 && after[i].failing
  }

  lemma {:induction false} SuccessesCount(succeeds: nat -> bool, n: nat)
    ensures Successes(succeeds, n) == |set k | 0 <= k < n && succeeds(k)|
  {
    if n > 0 {
      SuccessesCount(succeeds, n - 1);
      var front := set k | 0 <= k < n - 1 && succeeds(k);
      assert (set k | 0 <= k < n && succeeds(k)) == front + if succeeds(n - 1) then {n - 1} else {};
    }
  }

  ghost predicate FailedSoFar(queue: seq<nat>, n: nat, succeeds: nat -> bool, failed: set<nat>)
    requires n <= |queue|
  {
    forall i :: i in failed <==> exists k :: 0 <= k < n && queue[k] == i && !succeeds(k)
  }

  /** The oldest pending event outside `failed`, if any. */
  method Oldest(events: seq<Event>, failed: set<nat>) returns (found: Option<nat>)
    ensures found.Some? ==> found.value < |events| && IsPending(events[found.value]) && found.value !in failed
    ensures found.Some? ==> forall i :: 0 <= i < found.value && IsPending(events[i]) ==> i in failed
    ensures found.None? ==> forall i :: 0 <= i < |events| && IsPending(events[i]) ==> i in failed
  {
    for i := 0 to |events|
      invariant forall j :: 0 <= j < i && IsPending(events[j]) ==> j in failed
    {
      if IsPending(events[i]) && i !in failed {
        return Some(i);
      }
    }
    return None;
  }

  /** What is left to try is exactly the rest of the queue. */
  lemma {:induction false} StillToTry(before: seq<Event>, after: seq<Event>, n: nat, succeeds: nat -> bool, now: int,
      failed: set<nat>, i: nat)
    requires n <= |Pending(before)| && Attempted(before, after, Pending(before), n, succeeds, now)
    requires FailedSoFar(Pending(before), n, succeeds, failed) && i < |before|
    ensures IsPending(after[i]) && i !in failed <==> i in Pending(before)[n..]
  {
    var queue := Pending(before);
    assert queue == queue[..n] + queue[n..];
    if i in queue[..n] {
      var k :| 0 <= k < n && queue[k] == i;
      assert forall m :: 0 <= m < |queue| - n ==> queue[n..][m] == queue[n + m] > queue[k];
    }
  }

  lemma {:induction false} OldestIsNext(before: seq<Event>, after: seq<Event>, n: nat, succeeds: nat -> bool,
      now: int, failed: set<nat>, found: Option<nat>)
    requires n <= |Pending(before)| && Attempted(before, after, Pending(before), n, succeeds, now)
    requires FailedSoFar(Pending(before), n, succeeds, failed)
    requires found.Some? ==> found.value < |after| && IsPending(after[found.value]) && found.value !in failed
    requires found.Some? ==> forall i :: 0 <= i < found.value && IsPending(after[i]) ==> i in failed
    requires found.None? ==> forall i :: 0 <= i < |after| && IsPending(after[i]) ==> i in failed
    ensures found == if n < |Pending(before)| then Some(Pending(before)[n]) else None
  {
    var queue := Pending(before);
    if n < |queue| {
      assert queue[n..][0] == queue[n];
      StillToTry(before, after, n, succeeds, now, failed, queue[n]);
    }
    if found.Some? {
      StillToTry(before, after, n, succeeds, now, failed, found.value);
      var m :| 0 <= m < |queue[n..]| && queue[n..][m] == found.value;
      assert queue[n + m] == found.value;
    }
  }

  lemma {:induction false} OneMoreAttempt(before: seq<Event>, after: seq<Event>, next: seq<Event>, n: nat,
      succeeds: nat -> bool, now: int)
    requires n < |Pending(before)| && Attempted(before, after, Pending(before), n, succeeds, now)
    requires var i := Pending(before)[n];
             i < |after| && next == after[i := if succeeds(n) then Published(after[i], now) else Failed(after[i])]
    ensures Attempted(before, next, Pending(before), n + 1, succeeds, now)
  {
    var queue := Pending(before);
    assert queue[..n + 1] == queue[..n] + [queue[n]];
    assert queue[n] !in queue[..n];
    forall k | 0 <= k < n
      ensures next[queue[k]] == after[queue[k]]
    {
      assert queue[..n][k] == queue[k];
    }
    forall i | 0 <= i < |before| && i !in queue[..n + 1]
      ensures next[i] == before[i]
    {
      assert i !in queue[..n] && i != queue[n];
    }
  }

  /** A pass after `n` attempts. */
  ghost predicate Pass(before: seq<Event>, now: int, succeeds: nat -> bool, n: nat, events: seq<Event>,
      failed: set<nat>, published: nat) {
    && n <= |Pending(before)| && Attempted(before, events, Pending(before), n, succeeds, now)
    && FailedSoFar(Pending(before), n, succeeds, failed) && published == Successes(succeeds, n)
  }

  lemma {:induction false} PassStarts(before: seq<Event>, now: int, succeeds: nat -> bool)
    ensures Pass(before, now, succeeds, 0, before, {}, 0)
  {
  }

  lemma {:induction false} FailureIsKept(queue: seq<nat>, n: nat, succeeds: nat -> bool, failed: set<nat>)
    requires n < |queue| && FailedSoFar(queue, n, succeeds, failed)
    ensures FailedSoFar(queue, n + 1, succeeds, if succeeds(n) then failed else failed + {queue[n]})
  {
  }

  lemma {:induction false} PassGoesOn(before: seq<Event>, now: int, succeeds: nat -> bool, n: nat, events: seq<Event>,
      failed: set<nat>, published: nat)
    requires Pass(before, now, succeeds, n, events, failed, published) && n < |Pending(before)|
    ensures var i := Pending(before)[n];
            i < |events| &&
            if succeeds(n) then
              Pass(before, now, succeeds, n + 1, events[i := Published(events[i], now)], failed, published + 1)
            else Pass(before, now, succeeds, n + 1, events[i := Failed(events[i])], failed + {i}, published)
  {
    var i := Pending(before)[n];
    OneMoreAttempt(before, events, events[i := if succeeds(n) then Published(events[i], now) else Failed(events[i])],
      n, succeeds, now);
    FailureIsKept(Pending(before), n, succeeds, failed);
  }

  ghost predicate AllTried(before: seq<Event>, after: seq<Event>, n: nat, succeeds: nat -> bool, now: int) {
    n <= |Pending(before)| && forall k :: 0 <= k < n ==> WasTried(before, after, Pending(before)[k], succeeds(k), now)
  }

  lemma {:induction false} PassTries(before: seq<Event>, now: int, succeeds: nat -> bool, n: nat, events: seq<Event>,
      failed: set<nat>, published: nat)
    requires Pass(before, now, succeeds, n, events, failed, published)
    ensures AllTried(before, events, n, succeeds, now) && published == |set k | 0 <= k < n && succeeds(k)|
  {
    SuccessesCount(succeeds, n);
  }

  class Dispatcher {
    var events: seq<Event>

    constructor (initial: seq<Event>)
      ensures events == initial
    {
      events := initial;
    }

    /** One pass by a lone dispatcher; `succeeds` says which attempts the broker confirms.
        It tries the oldest pending events, each exactly once, however many fail. */
    method DispatchPending(batchSize: nat, succeeds: nat -> bool, now: int) returns (published: nat, ghost tried: nat)
      modifies this
      ensures tried == Smaller(batchSize, |Pending(old(events))|)
      ensures Attempted(old(events), events, Pending(old(events)), tried, succeeds, now)
      ensures AllTried(old(events), events, tried, succeeds, now)
      ensures published == |set k | 0 <= k < tried && succeeds(k)|
    {
      var failed: set<nat> := {};
      published := 0;
      var n := 0;
      ghost var before := events;
      PassStarts(before, now, succeeds);
      while n < batchSize
        invariant n <= batchSize && Pass(before, now, succeeds, n, events, failed, published)
      {
        var row := Oldest(events, failed);
        OldestIsNext(before, events, n, succeeds, now, failed, row);
        if row.None? {
          break;
        }
        var i := row.value;
        PassGoesOn(before, now, succeeds, n, events, failed, published);
        if succeeds(n) {
          events := events[i := Published(events[i], now)];
          published := published + 1;
        } else {
          events := events[i := Failed(events[i])];
          failed := failed + {i};
        }
        n := n + 1;
      }
      tried := n;
      PassTries(before, now, succeeds, n, events, failed, published);
    }

    /** Retention: one batch of the events published before the cutoff goes. */
    method PurgePublished(retentionDays: int, batchSize: int, now: int) returns (deleted: Result<nat>)
      modifies this
      ensures deleted.Success? <==> retentionDays >= 0 && batchSize >= 1
      ensures deleted.Failure? ==> events == old(events)
      ensures deleted.Success? ==>
                var gone := Batch(old(events), now - retentionDays * 86400, batchSize);
                deleted.value == |gone| && events == Without(old(events), gone, |old(events)|)
    {
      if retentionDays < 0 || batchSize < 1 {
        return Failure(Rejected);
      }
      var gone := Batch(events, now - retentionDays * 86400, batchSize);
      events := Without(events, gone, |events|);
      return Success(|gone|);
    }
  }

  // ---- Retention ----

  predicate Expired(e: Event, cutoff: int) {
    e.published.Some? && e.published.value < cutoff
  }

  /** The expired event published first among the first `n`, outside `gone`. */
  function FirstExpired(events: seq<Event>, cutoff: int, gone: set<nat>, n: nat): (found: Option<nat>)
    requires n <= |events|
    ensures found.Some? ==> found.value < n && Expired(events[found.value], cutoff) && found.value !in gone
    ensures found.Some? ==> forall j :: 0 <= j < n && j !in gone && Expired(events[j], cutoff) ==>
                              events[found.value].published.value <= events[j].published.value
    ensures found.None? ==> forall j :: 0 <= j < n && Expired(events[j], cutoff) ==> j in gone
  {
    if n == 0 then None else
      var front := FirstExpired(events, cutoff, gone, n - 1);
      if Expired(events[n - 1], cutoff) && n - 1 !in gone &&
         (front.None? || events[n - 1].published.value < events[front.value].published.value) then Some(n - 1)
      else front
  }

  /** The first `limit` expired events in order of publication. */
  function Batch(events: seq<Event>, cutoff: int, limit: nat): (gone: set<nat>)
    ensures forall i :: i in gone ==> i < |events| && Expired(events[i], cutoff)
  {
    if limit == 0 then {} else
      var gone := Batch(events, cutoff, limit - 1);
      match FirstExpired(events, cutoff, gone, |events|)
      case None => gone
      case Some(i) => gone + {i}
  }

  function Without(events: seq<Event>, gone: set<nat>, n: nat): seq<Event>
    requires n <= |events|
  {
    if n == 0 then [] else Without(events, gone, n - 1) + if n - 1 in gone then [] else [events[n - 1]]
  }

  lemma {:induction false} BatchSize(events: seq<Event>, cutoff: int, limit: nat)
    ensures |Batch(events, cutoff, limit)| <= limit
  {
    if limit > 0 {
      BatchSize(events, cutoff, limit - 1);
    }
  }

  lemma {:induction false} BatchIsFull(events: seq<Event>, cutoff: int, limit: nat, j: nat)
    requires j < |events| && Expired(events[j], cutoff) && j !in Batch(events, cutoff, limit)
    ensures |Batch(events, cutoff, limit)| == limit
  {
    if limit > 0 {
      BatchIsFull(events, cutoff, limit - 1, j);
    }
  }

  lemma {:induction false} BatchGrows(events: seq<Event>, cutoff: int, limit: nat, i: nat)
    requires limit > 0
    ensures i in Batch(events, cutoff, limit) <==>
              || i in Batch(events, cutoff, limit - 1)
              || FirstExpired(events, cutoff, Batch(events, cutoff, limit - 1), |events|) == Some(i)
  {
  }

  lemma {:induction false} NoneGoesBefore(events: seq<Event>, cutoff: int, limit: nat, j: nat, i: nat)
    requires j < |events| && Expired(events[j], cutoff) && j !in Batch(events, cutoff, limit)
    requires i in Batch(events, cutoff, limit)
    ensures events[i].published.value <= events[j].published.value
  {
    BatchGrows(events, cutoff, limit, i);
    BatchGrows(events, cutoff, limit, j);
    if i in Batch(events, cutoff, limit - 1) {
      NoneGoesBefore(events, cutoff, limit - 1, j, i);
    } else {
      NextIsFirst(events, cutoff, Batch(events, cutoff, limit - 1), i, j);
    }
  }

  lemma {:induction false} NextIsFirst(events: seq<Event>, cutoff: int, gone: set<nat>, i: nat, j: nat)
    requires FirstExpired(events, cutoff, gone, |events|) == Some(i)
    requires j < |events| && j !in gone && Expired(events[j], cutoff)
    ensures events[i].published.value <= events[j].published.value
  {
  }

  /** An expired event stays only if the batch is full of events published no later. */
  lemma {:induction false} OldestGoFirst(events: seq<Event>, cutoff: int, limit: nat, j: nat)
    requires j < |events| && Expired(events[j], cutoff) && j !in Batch(events, cutoff, limit)
    ensures |Batch(events, cutoff, limit)| == limit
    ensures forall i :: i in Batch(events, cutoff, limit) ==> events[i].published.value <= events[j].published.value
  {
    BatchIsFull(events, cutoff, limit, j);
    forall i | i in Batch(events, cutoff, limit)
      ensures events[i].published.value <= events[j].published.value
    {
      NoneGoesBefore(events, cutoff, limit, j, i);
    }
  }

  /** The positions below `n` outside `gone`, in order. */
  function Staying(gone: set<nat>, n: nat): (at: seq<nat>)
    ensures forall k :: 0 <= k < |at| ==> at[k] < n
  {
    if n == 0 then [] else Staying(gone, n - 1) + if n - 1 in gone then [] else [n - 1]
  }

  lemma {:induction false} StayingIs(gone: set<nat>, n: nat, i: nat, j: nat, k: nat)
    ensures i in Staying(gone, n) <==> i < n && i !in gone
    ensures j < k < |Staying(gone, n)| ==> Staying(gone, n)[j] < Staying(gone, n)[k]
  {
    if n > 0 {
      StayingIs(gone, n - 1, i, j, k);
    }
  }

  /** `after` is the first `n` of `before` without the positions `gone`, in order. */
  ghost predicate IsRest(before: seq<Event>, n: nat, gone: set<nat>, after: seq<Event>) {
    && n <= |before| && |after| == |Staying(gone, n)|
    && (forall k :: 0 <= k < |after| ==> after[k] == before[Staying(gone, n)[k]])
  }

  predicate PublishedBefore(e: Event, cutoff: int) {
    e.published.Some? && e.published.value < cutoff
  }

  /** What goes was published before the cutoff; what was published before it stays only
      when the batch is full of events published no later; the others stay in order. */
  ghost predicate Retains(before: seq<Event>, gone: set<nat>, after: seq<Event>, cutoff: int, limit: nat) {
    && (forall i :: i in gone ==> i < |before| && PublishedBefore(before[i], cutoff)) && |gone| <= limit
    && (forall j: nat :: j < |before| && j !in gone && PublishedBefore(before[j], cutoff) ==>
          && |gone| == limit
          && forall i :: i in gone ==> before[i].published.value <= before[j].published.value)
    && IsRest(before, |before|, gone, after)
  }

  lemma {:induction false} WithoutAt(events: seq<Event>, gone: set<nat>, n: nat, k: nat)
    requires n <= |events|
    ensures |Without(events, gone, n)| == |Staying(gone, n)|
    ensures k < |Staying(gone, n)| ==> Without(events, gone, n)[k] == events[Staying(gone, n)[k]]
  {
    if n > 0 {
      WithoutAt(events, gone, n - 1, k);
    }
  }

  lemma {:induction false} WithoutIsRest(events: seq<Event>, gone: set<nat>, n: nat)
    requires n <= |events|
    ensures IsRest(events, n, gone, Without(events, gone, n))
  {
    WithoutAt(events, gone, n, 0);
    forall k: nat | k < |Staying(gone, n)|
      ensures Without(events, gone, n)[k] == events[Staying(gone, n)[k]]
    {
      WithoutAt(events, gone, n, k);
    }
  }

  lemma {:induction false} BatchRetains(events: seq<Event>, cutoff: int, limit: nat)
    ensures var gone := Batch(events, cutoff, limit);
            Retains(events, gone, Without(events, gone, |events|), cutoff, limit)
  {
    var gone := Batch(events, cutoff, limit);
    BatchSize(events, cutoff, limit);
    WithoutIsRest(events, gone, |events|);
    forall j: nat | j < |events| && j !in gone && PublishedBefore(events[j], cutoff)
      ensures |gone| == limit
      ensures forall i :: i in gone ==> events[i].published.value <= events[j].published.value
    {
      OldestGoFirst(events, cutoff, limit, j);
    }
  }

  /** `deleted` events went by the rules of retention. */
  ghost predicate Purged(before: seq<Event>, after: seq<Event>, deleted: nat, cutoff: int, limit: nat) {
    exists gone :: |gone| == deleted && Retains(before, gone, after, cutoff, limit)
  }

  /** What a purge deletes and leaves. */
  lemma {:induction false} PurgeKeepsTheRules(before: seq<Event>, after: seq<Event>, cutoff: int, limit: nat)
    requires after == Without(before, Batch(before, cutoff, limit), |before|)
    ensures Purged(before, after, |Batch(before, cutoff, limit)|, cutoff, limit)
  {
    BatchRetains(before, cutoff, limit);
  }

  function PendingEvents(events: seq<Event>): seq<Event> {
    if events == [] then [] else
      var n := |events| - 1;
      PendingEvents(events[..n]) + if IsPending(events[n]) then [events[n]] else []
  }

  lemma {:induction false} PendingEventsAppend(events: seq<Event>, e: Event)
    ensures PendingEvents(events + [e]) == PendingEvents(events) + if IsPending(e) then [e] else []
  {
    assert (events + [e])[..|events|] == events;
  }

  /** Retention keeps every pending event, in order. */
  lemma {:induction false} PendingSurvives(events: seq<Event>, cutoff: int, limit: nat, n: nat)
    requires n <= |events|
    ensures PendingEvents(Without(events, Batch(events, cutoff, limit), n)) == PendingEvents(events[..n])
  {
    if n > 0 {
      var gone := Batch(events, cutoff, limit);
      PendingSurvives(events, cutoff, limit, n - 1);
      assert events[..n] == events[..n - 1] + [events[n - 1]];
      PendingEventsAppend(events[..n - 1], events[n - 1]);
      if n - 1 !in gone {
        PendingEventsAppend(Without(events, gone, n - 1), events[n - 1]);
      } else {
        assert Without(events, gone, n) == Without(events, gone, n - 1);
        assert !IsPending(events[n - 1]);
      }
    }
  }
}
