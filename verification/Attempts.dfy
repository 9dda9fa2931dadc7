/** Which failures are retried, which end in the dead-letter queue, and how often a
    message can come back. */
module Attempts {
  import opened JobRows
  import opened Protocol

  /** The message is in the main or the retry queue, or with a handler. */
  ghost predicate Around(s: State, m: Message) {
    m in s.broker.main || m in s.broker.retry || exists tag :: tag in s.handlers && s.handlers[tag].message == m
  }

  predicate IsJob(s: State, job: JobId) {
    job in s.jobs.rows && job in s.jobs.history
  }

  /** Every message is of a job of the table, and its attempt is within the limit. */
  ghost predicate Limited(c: Config, s: State) {
    && (forall e :: e in s.outbox ==> IsJob(s, s.outbox[e].job))
    && (forall m :: Around(s, m) ==> WithinLimit(c, s, m))
  }

  ghost predicate WithinLimit(c: Config, s: State, m: Message) {
    IsJob(s, m.job) && 1 <= m.attempt && (c.maxAttempts >= 1 ==> m.attempt <= c.maxAttempts)
  }

  // ---- One step ----

  lemma {:induction false} JobsStay(c: Config, s: State, step: Step, job: JobId)
    requires Enabled(c, s, step) && IsJob(s, job)
    ensures IsJob(Apply(c, s, step), job)
  {
  }

  /** What a step does to the queues and the handlers' messages. */
  ghost predicate ComesFrom(s: State, step: Step, m: Message) {
    || Around(s, m)
    || (step.Publish? && step.event in s.outbox && m == Message(s.outbox[step.event].job, 1))
    || (step.PublishRetry? && step.tag in s.handlers
        && m == Message(s.handlers[step.tag].message.job, s.handlers[step.tag].message.attempt + 1))
  }

  lemma {:induction false} MainComesFrom(c: Config, s: State, step: Step, m: Message)
    requires Enabled(c, s, step) && m in Apply(c, s, step).broker.main
    ensures ComesFrom(s, step, m)
  {
  }

  lemma {:induction false} RetryComesFrom(c: Config, s: State, step: Step, m: Message)
    requires Enabled(c, s, step) && m in Apply(c, s, step).broker.retry
    ensures ComesFrom(s, step, m)
  {
  }

  lemma {:induction false} HandlerComesFrom(c: Config, s: State, step: Step, tag: nat)
    requires Enabled(c, s, step) && tag in Apply(c, s, step).handlers
    ensures ComesFrom(s, step, Apply(c, s, step).handlers[tag].message)
  {
    if tag in s.handlers {
      assert Around(s, s.handlers[tag].message);
    }
  }

  lemma {:induction false} MessageComesFrom(c: Config, s: State, step: Step, m: Message)
    requires Enabled(c, s, step) && Around(Apply(c, s, step), m)
    ensures ComesFrom(s, step, m)
  {
    var s' := Apply(c, s, step);
    if m in s'.broker.main {
      MainComesFrom(c, s, step, m);
    } else if m in s'.broker.retry {
      RetryComesFrom(c, s, step, m);
    } else {
      var tag :| tag in s'.handlers && s'.handlers[tag].message == m;
      HandlerComesFrom(c, s, step, tag);
    }
  }

  lemma {:induction false} OutboxStaysKnown(c: Config, s: State, step: Step, e: nat)
    requires Limited(c, s) && Enabled(c, s, step) && e in Apply(c, s, step).outbox
    ensures IsJob(Apply(c, s, step), Apply(c, s, step).outbox[e].job)
  {
    if e in s.outbox {
      JobsStay(c, s, step, s.outbox[e].job);
    }
  }

  lemma {:induction false} MessageStaysLimited(c: Config, s: State, step: Step, m: Message)
    requires Limited(c, s) && Enabled(c, s, step) && Around(Apply(c, s, step), m)
    ensures WithinLimit(c, Apply(c, s, step), m)
  {
    MessageComesFrom(c, s, step, m);
    if Around(s, m) {
      assert WithinLimit(c, s, m);
    } else if step.PublishRetry? {
      assert Around(s, s.handlers[step.tag].message);
      assert WithinLimit(c, s, s.handlers[step.tag].message);
    }
    JobsStay(c, s, step, m.job);
  }

  lemma {:induction false} StepKeepsLimit(c: Config, s: State, step: Step)
    requires Limited(c, s) && Enabled(c, s, step)
    ensures Limited(c, Apply(c, s, step))
  {
    var s' := Apply(c, s, step);
    forall e | e in s'.outbox
      ensures IsJob(s', s'.outbox[e].job)
    {
      OutboxStaysKnown(c, s, step, e);
    }
    forall m | Around(s', m)
      ensures WithinLimit(c, s', m)
    {
      MessageStaysLimited(c, s, step, m);
    }
  }

  // ---- Runs ----

  lemma {:induction false} RunIsLimited(c: Config, states: seq<State>, steps: seq<Step>)
    requires IsRun(c, states, steps)
    ensures Limited(c, states[|steps|])
  {
    if steps != [] {
      var n := |steps| - 1;
      RunPrefix(c, states, steps);
      RunIsLimited(c, states[..n + 1], steps[..n]);
      StepKeepsLimit(c, states[n], steps[n]);
    }
  }

  lemma {:induction false} CutRun(c: Config, states: seq<State>, steps: seq<Step>, i: nat)
    requires IsRun(c, states, steps) && i <= |steps|
    ensures IsRun(c, states[..i + 1], steps[..i])
    ensures i < |steps| ==> Enabled(c, states[i], steps[i]) && states[i + 1] == Apply(c, states[i], steps[i])
  {
  }

  /** No message in a queue or with a handler is ever beyond the last attempt. */
  lemma {:induction false} NoAttemptBeyondTheLast(c: Config, states: seq<State>, steps: seq<Step>, i: nat, m: Message)
    requires IsRun(c, states, steps) && i <= |steps| && c.maxAttempts >= 1 && Around(states[i], m)
    ensures 1 <= m.attempt <= c.maxAttempts
  {
    CutRun(c, states, steps, i);
    RunIsLimited(c, states[..i + 1], steps[..i]);
    assert WithinLimit(c, states[i], m);
  }

  // ---- How the handler's failure was classified ----

  /** Whether the last failure of `tag` was retryable: as it was raised, and always when the
      completion found the lease gone. */
  ghost function LastFailure(steps: seq<Step>, tag: nat): bool {
    if steps == [] then false else
      match steps[|steps| - 1]
      case Raise(t, retryable) => if t == tag then retryable else LastFailure(steps[..|steps| - 1], tag)
      case Finish(t) => if t == tag then true else LastFailure(steps[..|steps| - 1], tag)
      case _ => LastFailure(steps[..|steps| - 1], tag)
  }

  predicate Remembers(h: Handler, retryable: bool) {
    h.phase.Failing? || h.phase.Settling? ==> h.phase.retryable == retryable
  }

  lemma {:induction false} StepRemembers(c: Config, s: State, step: Step, tag: nat, steps: seq<Step>)
    requires Enabled(c, s, step) && tag in Apply(c, s, step).handlers
    requires tag in s.handlers ==> Remembers(s.handlers[tag], LastFailure(steps, tag))
    ensures Remembers(Apply(c, s, step).handlers[tag], LastFailure(steps + [step], tag))
  {
    assert (steps + [step])[..|steps|] == steps;
  }

  lemma {:induction false} RunRemembers(c: Config, states: seq<State>, steps: seq<Step>, tag: nat)
    requires IsRun(c, states, steps) && tag in states[|steps|].handlers
    ensures Remembers(states[|steps|].handlers[tag], LastFailure(steps, tag))
  {
    if steps != [] {
      var n := |steps| - 1;
      RunPrefix(c, states, steps);
      if tag in states[n].handlers {
        RunRemembers(c, states[..n + 1], steps[..n], tag);
      }
      assert steps == steps[..n] + [steps[n]];
      StepRemembers(c, states[n], steps[n], tag, steps[..n]);
    }
  }

  // ---- Where a settled failure goes ----

  /** The failure was retryable and an attempt is left. */
  ghost predicate RetryIsDue(c: Config, steps: seq<Step>, tag: nat, m: Message) {
    LastFailure(steps, tag) && m.attempt < c.maxAttempts
  }

  /** A retry is published for a retryable failure with an attempt left, and the copy has
      the next attempt. */
  lemma {:induction false} RetriesAreDue(c: Config, states: seq<State>, steps: seq<Step>, i: nat, tag: nat)
    requires IsRun(c, states, steps) && i < |steps| && steps[i] == PublishRetry(tag)
    ensures tag in states[i].handlers
    ensures var m := states[i].handlers[tag].message;
            && RetryIsDue(c, steps[..i], tag, m)
            && states[i + 1].broker.retry == states[i].broker.retry + multiset{Message(m.job, m.attempt + 1)}
            && states[i + 1].broker.dlq == states[i].broker.dlq
  {
    CutRun(c, states, steps, i);
    RunRemembers(c, states[..i + 1], steps[..i], tag);
  }

  /** A failure goes to the dead-letter queue when it was terminal or was the last attempt. */
  lemma {:induction false} DeadLettersAreFinal(c: Config, states: seq<State>, steps: seq<Step>, i: nat, tag: nat)
    requires IsRun(c, states, steps) && i < |steps| && steps[i] == PublishDlq(tag)
    ensures tag in states[i].handlers
    ensures var m := states[i].handlers[tag].message;
            && !RetryIsDue(c, steps[..i], tag, m)
            && states[i + 1].broker.dlq == states[i].broker.dlq + multiset{m.job}
            && states[i + 1].broker.retry == states[i].broker.retry
  {
    CutRun(c, states, steps, i);
    RunRemembers(c, states[..i + 1], steps[..i], tag);
  }

  /** A connected handler that settles a failure has exactly one way to go on. */
  lemma {:induction false} ExactlyOneWayOn(c: Config, states: seq<State>, steps: seq<Step>, tag: nat)
    requires IsRun(c, states, steps) && tag in states[|steps|].handlers
    requires states[|steps|].handlers[tag].phase.Settling? && states[|steps|].handlers[tag].attached
    ensures var s := states[|steps|];
            var due := RetryIsDue(c, steps, tag, s.handlers[tag].message);
            && (Enabled(c, s, PublishRetry(tag)) <==> due)
            && (Enabled(c, s, PublishDlq(tag)) <==> !due)
  {
    var s := states[|steps|];
    RunIsLimited(c, states, steps);
    RunRemembers(c, states, steps, tag);
    assert Around(s, s.handlers[tag].message);
    assert WithinLimit(c, s, s.handlers[tag].message);
  }

  // ---- What the row records ----

  /** A claim and a retry write the attempt they are for. */
  lemma {:induction false} AttemptIsRecorded(c: Config, s: State, step: Step, tag: nat)
    requires Enabled(c, s, step) && (step == TryClaim(tag) || step == PublishRetry(tag))
    ensures At(s, tag)
    ensures var m, s' := s.handlers[tag].message, Apply(c, s, step);
            && m.job in s'.jobs.rows
            && (step == PublishRetry(tag) ==> s'.jobs.rows[m.job].attempt == m.attempt + 1)
            && (step == TryClaim(tag) && s'.jobs.rows != s.jobs.rows ==> s'.jobs.rows[m.job].attempt == m.attempt)
            && (step == TryClaim(tag) ==> (s'.handlers[tag].phase.Running? <==> s'.jobs.history != s.jobs.history))
  {
    var job := s.handlers[tag].message.job;
    if step == TryClaim(tag) && Claimable(s.jobs.rows[job], s.now) {
      var s' := Apply(c, s, step);
      assert |s'.jobs.history[job]| == |s.jobs.history[job]| + 1;
    }
  }
}
