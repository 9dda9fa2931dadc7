/** The two runs that lose a job once `claim_job`, or the retry publish and its mark,
    is not one step. */
module Races {
  import opened Results
  import opened JobRows
  import opened Protocol
  import opened Delivery

  const FIRST := Message(0, 1)
  const SECOND := Message(0, 2)
  const CONFIG := Config(900, 3)

  function Quiet(rows: Row, history: seq<Event>, drawn: Token, queued: multiset<Message>, retry: multiset<Message>,
                 handlers: map<nat, Handler>, artifacts: set<JobId>): State
  {
    State(Jobs(map[0 := rows], map[0 := history], drawn), map[0 := OutboxRow(0, true, true)],
          Broker(queued, retry, multiset{}), handlers, artifacts, 0.0)
  }

  const CLAIMED_ROW := Row(Processing, Some(0), Some(900.0), 1)
  const FAILED_ROW := Row(Failed, None, None, 1)

  /** Append one step to a run. */
  lemma {:induction false} Extend(c: Config, states: seq<State>, steps: seq<Step>, step: Step, next: State)
    returns (states': seq<State>, steps': seq<Step>)
    requires IsRun(c, states, steps)
    requires Enabled(c, states[|steps|], step) && next == Apply(c, states[|steps|], step)
    ensures states' == states + [next] && steps' == steps + [step] && IsRun(c, states', steps')
  {
    states', steps' := states + [next], steps + [step];
    forall i | 0 <= i < |steps'|
      ensures Enabled(c, states'[i], steps'[i]) && states'[i + 1] == Apply(c, states'[i], steps'[i])
    {
      if i < |steps| {
        assert Enabled(c, states[i], steps[i]);
      }
    }
  }

  /** The job is enqueued, published, delivered to handler 0 and claimed by it. */
  lemma {:induction false} Opening() returns (states: seq<State>, steps: seq<Step>)
    ensures IsRun(CONFIG, states, steps)
    ensures states[|steps|] == CLAIMED
  {
    states, steps := [START], [];
    var s1 := State(Jobs(map[0 := NEW_ROW], map[0 := []], 0), map[0 := OutboxRow(0, false, false)], START.broker,
      map[], {}, 0.0);
    states, steps := Extend(CONFIG, states, steps, Enqueue(0, 0), s1);
    var s2 := s1.(broker := s1.broker.(main := multiset{FIRST}), outbox := map[0 := OutboxRow(0, true, false)]);
    states, steps := Extend(CONFIG, states, steps, Publish(0), s2);
    var s3 := Quiet(NEW_ROW, [], 0, multiset{FIRST}, multiset{}, map[], {});
    states, steps := Extend(CONFIG, states, steps, MarkPublished(0), s3);
    var s4 := Quiet(NEW_ROW, [], 0, multiset{}, multiset{}, map[0 := Handler(FIRST, Received, true)], {});
    states, steps := Extend(CONFIG, states, steps, Deliver(FIRST, 0), s4);
    Claims(s4);
    states, steps := Extend(CONFIG, states, steps, TryClaim(0), CLAIMED);
  }

  const CLAIMED := Quiet(CLAIMED_ROW, [ClaimedBy(0)], 1, multiset{}, multiset{},
    map[0 := Handler(FIRST, Running(0), true)], {})

  lemma {:induction false} Claims(s: State)
    requires s == Quiet(NEW_ROW, [], 0, multiset{}, multiset{}, map[0 := Handler(FIRST, Received, true)], {})
    ensures Enabled(CONFIG, s, TryClaim(0)) && Apply(CONFIG, s, TryClaim(0)) == CLAIMED
  {
    var s' := Apply(CONFIG, s, TryClaim(0));
    assert s'.jobs.rows == CLAIMED.jobs.rows;
    assert s'.jobs.history[0] == [ClaimedBy(0)];
    assert s'.jobs.history == CLAIMED.jobs.history;
    assert s'.handlers == CLAIMED.handlers;
  }

  // ---- A split claim ----

  /** Handler 0 lost its connection and failed; handler 1 got the message again. */
  function Rivals(row: Row, history: seq<Event>, zero: Phase, one: Phase): State {
    Quiet(row, history, 1, multiset{}, multiset{},
          map[0 := Handler(FIRST, zero, false), 1 := Handler(FIRST, one, true)], {})
  }

  lemma {:induction false} Redelivered(states: seq<State>, steps: seq<Step>)
    returns (states': seq<State>, steps': seq<Step>)
    requires IsRun(CONFIG, states, steps) && states[|steps|] == CLAIMED
    ensures IsRun(CONFIG, states', steps')
    ensures states'[|steps'|] == Rivals(CLAIMED_ROW, [ClaimedBy(0)], Running(0), Received)
  {
    var s1 := Quiet(CLAIMED_ROW, [ClaimedBy(0)], 1, multiset{FIRST}, multiset{},
      map[0 := Handler(FIRST, Running(0), false)], {});
    states', steps' := Extend(CONFIG, states, steps, Disconnect(0), s1);
    var s2 := Rivals(CLAIMED_ROW, [ClaimedBy(0)], Running(0), Received);
    states', steps' := Extend(CONFIG, states', steps', Deliver(FIRST, 1), s2);
  }

  lemma {:induction false} FailsBetweenReads(states: seq<State>, steps: seq<Step>)
    returns (states': seq<State>, steps': seq<Step>)
    requires IsRun(CONFIG, states, steps)
    requires states[|steps|] == Rivals(CLAIMED_ROW, [ClaimedBy(0)], Running(0), Received)
    ensures IsRun(CONFIG, states', steps')
    ensures states'[|steps'|] == Rivals(FAILED_ROW, [ClaimedBy(0), FailedBy(0)], Settling(0, true), Missed(0.0))
  {
    var s1 := Rivals(CLAIMED_ROW, [ClaimedBy(0)], Running(0), Missed(0.0));
    states', steps' := Extend(CONFIG, states, steps, TryClaim(1), s1);
    var s2 := Rivals(CLAIMED_ROW, [ClaimedBy(0)], Failing(0, true), Missed(0.0));
    states', steps' := Extend(CONFIG, states', steps', Raise(0, true), s2);
    var s3 := Rivals(FAILED_ROW, [ClaimedBy(0), FailedBy(0)], Settling(0, true), Missed(0.0));
    assert Apply(CONFIG, s2, SettleFailed(0)).jobs.history[0] == s3.jobs.history[0];
    assert Apply(CONFIG, s2, SettleFailed(0)).jobs.history == s3.jobs.history;
    states', steps' := Extend(CONFIG, states', steps', SettleFailed(0), s3);
  }

  /** A claiming update that misses a live lease, and reads the row again after its holder
      has failed, takes the job for settled: nothing is left of it. */
  lemma {:induction false} SplitClaimLosesAJob() returns (states: seq<State>, steps: seq<Step>)
    ensures IsRun(CONFIG, states, steps)
    ensures var last := states[|steps|];
            0 in last.jobs.rows && last.jobs.rows[0].status == Failed && !Findable(last, 0)
  {
    states, steps := Opening();
    states, steps := Redelivered(states, steps);
    states, steps := FailsBetweenReads(states, steps);
    var s1 := Rivals(FAILED_ROW, [ClaimedBy(0), FailedBy(0)], Settling(0, true), ToAck);
    states, steps := Extend(CONFIG, states, steps, ReadAgain(1), s1);
    var s2 := Quiet(FAILED_ROW, [ClaimedBy(0), FailedBy(0)], 1, multiset{}, multiset{},
                    map[0 := Handler(FIRST, Settling(0, true), false)], {});
    states, steps := Extend(CONFIG, states, steps, Ack(1), s2);
  }

  // ---- A late mark ----

  const FAILED_ONCE := [ClaimedBy(0), FailedBy(0)]
  const DONE_TWICE := [ClaimedBy(0), FailedBy(0), ClaimedBy(1), CompletedBy(1)]
  const BUMPED_ROW := Row(Failed, None, None, 2)

  lemma {:induction false} FailsAndPublishes(states: seq<State>, steps: seq<Step>)
    returns (states': seq<State>, steps': seq<Step>)
    requires IsRun(CONFIG, states, steps) && states[|steps|] == CLAIMED
    ensures IsRun(CONFIG, states', steps')
    ensures states'[|steps'|] == Quiet(BUMPED_ROW, FAILED_ONCE, 1, multiset{}, multiset{SECOND},
                                       map[0 := Handler(FIRST, Published(0), true)], {})
  {
    var s1 := Quiet(CLAIMED_ROW, [ClaimedBy(0)], 1, multiset{}, multiset{},
      map[0 := Handler(FIRST, Failing(0, true), true)], {});
    states', steps' := Extend(CONFIG, states, steps, Raise(0, true), s1);
    var s2 := Quiet(FAILED_ROW, FAILED_ONCE, 1, multiset{}, multiset{},
      map[0 := Handler(FIRST, Settling(0, true), true)], {});
    assert Apply(CONFIG, s1, SettleFailed(0)).jobs.history[0] == s2.jobs.history[0];
    assert Apply(CONFIG, s1, SettleFailed(0)).jobs.history == s2.jobs.history;
    states', steps' := Extend(CONFIG, states', steps', SettleFailed(0), s2);
    var s3 := Quiet(BUMPED_ROW, FAILED_ONCE, 1, multiset{}, multiset{SECOND},
      map[0 := Handler(FIRST, Published(0), true)], {});
    assert Apply(CONFIG, s2, PublishRetry(0)).jobs.rows == s3.jobs.rows;
    states', steps' := Extend(CONFIG, states', steps', PublishRetry(0), s3);
  }

  function Overtaken(row: Row, history: seq<Event>, drawn: Token, one: Phase, artifacts: set<JobId>): State {
    Quiet(row, history, drawn, multiset{}, multiset{},
          map[0 := Handler(FIRST, Published(0), true), 1 := Handler(SECOND, one, true)], artifacts)
  }

  const RECLAIMED_ROW := Row(Processing, Some(1), Some(900.0), 2)

  lemma {:induction false} RetryArrives(states: seq<State>, steps: seq<Step>)
    returns (states': seq<State>, steps': seq<Step>)
    requires IsRun(CONFIG, states, steps)
    requires states[|steps|] == Quiet(BUMPED_ROW, FAILED_ONCE, 1, multiset{}, multiset{SECOND},
                                      map[0 := Handler(FIRST, Published(0), true)], {})
    ensures IsRun(CONFIG, states', steps')
    ensures states'[|steps'|] == Overtaken(RECLAIMED_ROW, FAILED_ONCE + [ClaimedBy(1)], 2, Running(1), {})
  {
    var s1 := Quiet(BUMPED_ROW, FAILED_ONCE, 1, multiset{SECOND}, multiset{},
      map[0 := Handler(FIRST, Published(0), true)], {});
    states', steps' := Extend(CONFIG, states, steps, Redirect(SECOND), s1);
    var s2 := Overtaken(BUMPED_ROW, FAILED_ONCE, 1, Received, {});
    states', steps' := Extend(CONFIG, states', steps', Deliver(SECOND, 1), s2);
    Reclaims(s2);
    states', steps' := Extend(CONFIG, states', steps', TryClaim(1), Apply(CONFIG, s2, TryClaim(1)));
  }

  lemma {:induction false} Reclaims(s: State)
    requires s == Overtaken(BUMPED_ROW, FAILED_ONCE, 1, Received, {})
    ensures Enabled(CONFIG, s, TryClaim(1))
    ensures Apply(CONFIG, s, TryClaim(1)) == Overtaken(RECLAIMED_ROW, FAILED_ONCE + [ClaimedBy(1)], 2, Running(1), {})
  {
    var s' := Apply(CONFIG, s, TryClaim(1));
    var t := Overtaken(RECLAIMED_ROW, FAILED_ONCE + [ClaimedBy(1)], 2, Running(1), {});
    assert s'.jobs.rows == t.jobs.rows;
    assert s'.jobs.history == t.jobs.history;
    assert s'.handlers == t.handlers;
  }

  lemma {:induction false} RetryCompletes(states: seq<State>, steps: seq<Step>)
    returns (states': seq<State>, steps': seq<Step>)
    requires IsRun(CONFIG, states, steps)
    requires states[|steps|] == Overtaken(RECLAIMED_ROW, FAILED_ONCE + [ClaimedBy(1)], 2, Running(1), {})
    ensures IsRun(CONFIG, states', steps')
    ensures states'[|steps'|] == Quiet(Row(Completed, None, None, 2), DONE_TWICE, 2, multiset{}, multiset{},
                                       map[0 := Handler(FIRST, Published(0), true)], {0})
  {
    var s1 := Overtaken(RECLAIMED_ROW, FAILED_ONCE + [ClaimedBy(1)], 2, Stored(1), {0});
    states', steps' := Extend(CONFIG, states, steps, Store(1), s1);
    var s2 := Overtaken(Row(Completed, None, None, 2), DONE_TWICE, 2, Done(1), {0});
    assert Apply(CONFIG, s1, Finish(1)).jobs.history[0] == s2.jobs.history[0];
    assert Apply(CONFIG, s1, Finish(1)).jobs.history == s2.jobs.history;
    states', steps' := Extend(CONFIG, states', steps', Finish(1), s2);
    var s3 := Quiet(Row(Completed, None, None, 2), DONE_TWICE, 2, multiset{}, multiset{},
                    map[0 := Handler(FIRST, Published(0), true)], {0});
    states', steps' := Extend(CONFIG, states', steps', Ack(1), s3);
  }

  const REOPENED_ROW := Row(Retrying, None, None, 2)

  lemma {:induction false} MarkReopens(states: seq<State>, steps: seq<Step>)
    returns (states': seq<State>, steps': seq<Step>)
    requires IsRun(CONFIG, states, steps)
    requires states[|steps|] == Quiet(Row(Completed, None, None, 2), DONE_TWICE, 2, multiset{}, multiset{},
                                      map[0 := Handler(FIRST, Published(0), true)], {0})
    ensures IsRun(CONFIG, states', steps')
    ensures states'[|steps'|] == Quiet(REOPENED_ROW, DONE_TWICE + [Rescheduled], 2, multiset{}, multiset{}, map[], {0})
  {
    var history := DONE_TWICE + [Rescheduled];
    var s1 := Quiet(REOPENED_ROW, history, 2, multiset{}, multiset{}, map[0 := Handler(FIRST, ToAck, true)], {0});
    assert Apply(CONFIG, states[|steps|], MarkRetrying(0)).jobs.history == s1.jobs.history;
    states', steps' := Extend(CONFIG, states, steps, MarkRetrying(0), s1);
    var s2 := Quiet(REOPENED_ROW, history, 2, multiset{}, multiset{}, map[], {0});
    states', steps' := Extend(CONFIG, states', steps', Ack(0), s2);
  }

  /** A mark made after the retry copy was delivered and completed puts the row back to
      retrying with no copy left to retry it. */
  lemma {:induction false} LateMarkLosesAJob() returns (states: seq<State>, steps: seq<Step>)
    ensures IsRun(CONFIG, states, steps)
    ensures var last := states[|steps|];
            0 in last.jobs.rows && last.jobs.rows[0].status == Retrying && !Findable(last, 0)
  {
    states, steps := Opening();
    states, steps := FailsAndPublishes(states, steps);
    states, steps := RetryArrives(states, steps);
    states, steps := RetryCompletes(states, steps);
    states, steps := MarkReopens(states, steps);
  }
}
