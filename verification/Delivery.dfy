/** No job is lost: what every run of the delivery protocol keeps about the copies of
    a job's message, and the two races that break it. */
module Delivery {
  import opened JobRows
  import opened Protocol
  import opened Fencing

  /** An unpublished outbox row for the job. */
  ghost predicate Pending(s: State, job: JobId) {
    exists e :: e in s.outbox && s.outbox[e].job == job && !s.outbox[e].published
  }

  /** A copy of the job's message in one of the queues. */
  ghost predicate InQueue(s: State, job: JobId) {
    || (exists m :: m in s.broker.main && m.job == job)
    || (exists m :: m in s.broker.retry && m.job == job)
    || job in s.broker.dlq
  }

  /** An unacknowledged delivery of the job's message. */
  ghost predicate Unacked(s: State, job: JobId) {
    exists tag :: tag in s.handlers && s.handlers[tag].message.job == job && s.handlers[tag].attached
  }

  /** The job can still be found. */
  ghost predicate Findable(s: State, job: JobId) {
    Pending(s, job) || InQueue(s, job) || Unacked(s, job)
  }

  // ---- The invariant ----

  /** A delivery that will not simply be acknowledged next. */
  predicate Carries(h: Handler, job: JobId) {
    h.message.job == job && h.attached && !h.phase.ToAck? && !h.phase.Done? && !h.phase.Published?
  }

  ghost predicate Unsent(s: State, job: JobId) {
    exists e :: e in s.outbox && s.outbox[e].job == job && !s.outbox[e].sent
  }

  ghost predicate InHand(s: State, job: JobId) {
    exists tag :: tag in s.handlers && Carries(s.handlers[tag], job)
  }

  /** The job is carried by something that only ever passes it on. */
  ghost predicate Carried(s: State, job: JobId) {
    Unsent(s, job) || InQueue(s, job) || InHand(s, job)
  }

  ghost predicate NoneDropped(s: State) {
    && (forall e :: e in s.outbox && s.outbox[e].published ==> s.outbox[e].sent)
    && (forall job: JobId :: job in s.jobs.rows && s.jobs.rows[job].status != Completed ==> Carried(s, job))
  }

  lemma {:induction false} CarriedIsFindable(s: State, job: JobId)
    requires NoneDropped(s) && Carried(s, job)
    ensures Findable(s, job)
  {
  }

  /** Carried by something other than the delivery `tag`. */
  ghost predicate CarriedElsewhere(s: State, job: JobId, tag: nat) {
    || Unsent(s, job) || InQueue(s, job)
    || (exists other :: other != tag && other in s.handlers && Carries(s.handlers[other], job))
  }

  /** Two steps can be spoiled by a concurrent writer: reading a row again after the
      claiming update missed it, and marking a row after its retry copy went out.  They
      do no harm if the row is what the code takes it to be, or if the job has another
      carrier. */
  ghost predicate Harmless(s: State, step: Step) {
    match step
    case ReadAgain(tag) =>
      At(s, tag) && s.handlers[tag].phase.Missed? ==>
        || Classify(s.jobs.rows[s.handlers[tag].message.job], s.handlers[tag].phase.at) != NotClaimable
        || CarriedElsewhere(s, s.handlers[tag].message.job, tag)
    case MarkRetrying(tag) =>
      At(s, tag) && s.jobs.rows[s.handlers[tag].message.job].status == Completed ==>
        Carried(s, s.handlers[tag].message.job)
    case _ => true
  }

  // ---- How carriers move ----

  lemma {:induction false} UnsentMoves(c: Config, s: State, step: Step, job: JobId)
    requires Enabled(c, s, step) && Unsent(s, job)
    requires forall e :: e in s.outbox && s.outbox[e].published ==> s.outbox[e].sent
    ensures Carried(Apply(c, s, step), job)
  {
    var e :| e in s.outbox && s.outbox[e].job == job && !s.outbox[e].sent;
    var s' := Apply(c, s, step);
    if step == Publish(e) {
      assert Message(job, 1) in s'.broker.main;
    } else {
      assert e in s'.outbox && s'.outbox[e] == s.outbox[e];
    }
  }

  lemma {:induction false} MainMoves(c: Config, s: State, step: Step, m: Message)
    requires Enabled(c, s, step) && m in s.broker.main
    ensures Carried(Apply(c, s, step), m.job)
  {
    var s' := Apply(c, s, step);
    if step.Deliver? && step.message == m {
      assert Carries(s'.handlers[step.tag], m.job);
    } else {
      assert m in s'.broker.main;
    }
  }

  lemma {:induction false} RetryMoves(c: Config, s: State, step: Step, m: Message)
    requires Enabled(c, s, step) && m in s.broker.retry
    ensures Carried(Apply(c, s, step), m.job)
  {
    var s' := Apply(c, s, step);
    if step.Redirect? && step.message == m {
      assert m in s'.broker.main;
    } else {
      assert m in s'.broker.retry;
    }
  }

  lemma {:induction false} DlqStays(c: Config, s: State, step: Step, job: JobId)
    requires Enabled(c, s, step) && job in s.broker.dlq
    ensures job in Apply(c, s, step).broker.dlq
  {
  }

  lemma {:induction false} QueueMoves(c: Config, s: State, step: Step, job: JobId)
    requires Enabled(c, s, step) && InQueue(s, job)
    ensures Carried(Apply(c, s, step), job)
  {
    if m :| m in s.broker.main && m.job == job {
      MainMoves(c, s, step, m);
    } else if m :| m in s.broker.retry && m.job == job {
      RetryMoves(c, s, step, m);
    } else {
      DlqStays(c, s, step, job);
    }
  }

  predicate Touches(step: Step, tag: nat) {
    match step
    case Deliver(_, t) => t == tag
    case Quarantine(t) => t == tag
    case TryClaim(t) => t == tag
    case ReadAgain(t) => t == tag
    case Store(t) => t == tag
    case Adopt(t) => t == tag
    case Finish(t) => t == tag
    case Raise(t, _) => t == tag
    case SettleFailed(t) => t == tag
    case PublishRetry(t) => t == tag
    case MarkRetrying(t) => t == tag
    case PublishDlq(t) => t == tag
    case Ack(t) => t == tag
    case Nack(t) => t == tag
    case Disconnect(t) => t == tag
    case Crash(t) => t == tag
    case _ => false
  }

  lemma {:induction false} UntouchedHandlerStays(c: Config, s: State, step: Step, tag: nat)
    requires Enabled(c, s, step) && tag in s.handlers && !Touches(step, tag)
    ensures tag in Apply(c, s, step).handlers && Apply(c, s, step).handlers[tag] == s.handlers[tag]
  {
  }

  ghost predicate CarriedOrCompleted(s: State, job: JobId) {
    Carried(s, job) || (job in s.jobs.rows && s.jobs.rows[job].status == Completed)
  }

  /** The steps in which a handler hands its message, or a copy of it, to the broker. */
  predicate HandsOver(step: Step) {
    step.Quarantine? || step.PublishRetry? || step.PublishDlq? || step.Nack? || step.Disconnect? || step.Crash?
  }

  lemma {:induction false} HandedOver(c: Config, s: State, step: Step, tag: nat, job: JobId)
    requires Enabled(c, s, step) && tag in s.handlers && Carries(s.handlers[tag], job)
    requires Touches(step, tag) && HandsOver(step)
    ensures InQueue(Apply(c, s, step), job)
  {
    var s' := Apply(c, s, step);
    var m := s.handlers[tag].message;
    match step {
      case Quarantine(_) => assert job in s'.broker.dlq;
      case PublishRetry(_) => assert m.(attempt := m.attempt + 1) in s'.broker.retry;
      case PublishDlq(_) => assert job in s'.broker.dlq;
      case Nack(_) => assert m in s'.broker.retry;
      case Disconnect(_) => assert m in s'.broker.main;
      case Crash(_) => assert m in s'.broker.main;
    }
  }

  /** Of the other steps, only learning that the job is completed, or completing it, ends
      the carrying, except for the answer that a late read can give. */
  lemma {:induction false} KeptInHand(c: Config, s: State, step: Step, tag: nat, job: JobId)
    requires Enabled(c, s, step) && tag in s.handlers && Carries(s.handlers[tag], job)
    requires Touches(step, tag) && !HandsOver(step) && !step.ReadAgain?
    ensures CarriedOrCompleted(Apply(c, s, step), job)
  {
    var s' := Apply(c, s, step);
    assert tag in s'.handlers ==> Carries(s'.handlers[tag], job) || s'.jobs.rows[job].status == Completed;
  }

  lemma {:induction false} ReadAgainInHand(c: Config, s: State, step: Step, tag: nat, job: JobId)
    requires Enabled(c, s, step) && tag in s.handlers && Carries(s.handlers[tag], job)
    requires step == ReadAgain(tag) && Classify(s.jobs.rows[job], s.handlers[tag].phase.at) != NotClaimable
    ensures CarriedOrCompleted(Apply(c, s, step), job)
  {
    assert Carries(Apply(c, s, step).handlers[tag], job) || s.jobs.rows[job].status == Completed;
  }

  /** A late read leaves every other carrier where it is. */
  lemma {:induction false} ReadAgainElsewhere(c: Config, s: State, tag: nat, job: JobId)
    requires Enabled(c, s, ReadAgain(tag)) && CarriedElsewhere(s, job, tag)
    ensures Carried(Apply(c, s, ReadAgain(tag)), job)
  {
    var s' := Apply(c, s, ReadAgain(tag));
    if other :| other != tag && other in s.handlers && Carries(s.handlers[other], job) {
      assert Carries(s'.handlers[other], job);
    }
  }

  lemma {:induction false} HandMoves(c: Config, s: State, step: Step, job: JobId)
    requires Enabled(c, s, step) && InHand(s, job) && Harmless(s, step)
    ensures CarriedOrCompleted(Apply(c, s, step), job)
  {
    var tag :| tag in s.handlers && Carries(s.handlers[tag], job);
    if !Touches(step, tag) {
      UntouchedHandlerStays(c, s, step, tag);
    } else if HandsOver(step) {
      HandedOver(c, s, step, tag, job);
    } else if !step.ReadAgain? {
      KeptInHand(c, s, step, tag, job);
    } else if CarriedElsewhere(s, job, tag) {
      ReadAgainElsewhere(c, s, tag, job);
    } else {
      ReadAgainInHand(c, s, step, tag, job);
    }
  }

  lemma {:induction false} CarriedMoves(c: Config, s: State, step: Step, job: JobId)
    requires Enabled(c, s, step) && Carried(s, job) && Harmless(s, step)
    requires forall e :: e in s.outbox && s.outbox[e].published ==> s.outbox[e].sent
    ensures CarriedOrCompleted(Apply(c, s, step), job)
  {
    if Unsent(s, job) {
      UnsentMoves(c, s, step, job);
    } else if InQueue(s, job) {
      QueueMoves(c, s, step, job);
    } else {
      HandMoves(c, s, step, job);
    }
  }

  lemma {:induction false} NewJobIsUnsent(c: Config, s: State, step: Step, job: JobId)
    requires Enabled(c, s, step) && job !in s.jobs.rows && job in Apply(c, s, step).jobs.rows
    ensures Unsent(Apply(c, s, step), job)
  {
    if !WritesRow(step) {
      QuietStep(c, s, step);
    } else {
      assert step.Enqueue?;
      assert step.event in Apply(c, s, step).outbox;
    }
  }

  lemma {:induction false} OutboxStaysOrdered(c: Config, s: State, step: Step)
    requires Enabled(c, s, step) && forall e :: e in s.outbox && s.outbox[e].published ==> s.outbox[e].sent
    ensures forall e :: e in Apply(c, s, step).outbox && Apply(c, s, step).outbox[e].published ==>
              Apply(c, s, step).outbox[e].sent
  {
  }

  lemma {:induction false} HarmlessStepDropsNone(c: Config, s: State, step: Step)
    requires Fenced(s) && NoneDropped(s) && Enabled(c, s, step) && Harmless(s, step)
    ensures NoneDropped(Apply(c, s, step))
  {
    var s' := Apply(c, s, step);
    OutboxStaysOrdered(c, s, step);
    forall job: JobId | job in s'.jobs.rows && s'.jobs.rows[job].status != Completed
      ensures Carried(s', job)
    {
      if job !in s.jobs.rows {
        NewJobIsUnsent(c, s, step, job);
      } else {
        if s.jobs.rows[job].status == Completed {
          OnlyRescheduleReopens(c, s, step, job);
        }
        CarriedMoves(c, s, step, job);
      }
    }
  }

  /** Nothing carries a job after a late read or a late mark that did not before. */
  lemma {:induction false} LateStepsCarryNothing(c: Config, s: State, step: Step, job: JobId)
    requires Enabled(c, s, step) && (step.ReadAgain? || step.MarkRetrying?)
    requires Carried(Apply(c, s, step), job)
    ensures Carried(s, job)
    ensures step.ReadAgain? && Apply(c, s, step).handlers[step.tag].phase.ToAck? ==> CarriedElsewhere(s, job, step.tag)
  {
    var s' := Apply(c, s, step);
    if InHand(s', job) {
      var tag :| tag in s'.handlers && Carries(s'.handlers[tag], job);
      assert Carries(s.handlers[tag], job);
    }
  }

  /** Exactly the harmless steps drop no job. */
  lemma {:induction false} DropsNoneIffHarmless(c: Config, s: State, step: Step)
    requires Fenced(s) && NoneDropped(s) && Enabled(c, s, step)
    ensures NoneDropped(Apply(c, s, step)) <==> Harmless(s, step)
  {
    if Harmless(s, step) {
      HarmlessStepDropsNone(c, s, step);
    } else {
      var s' := Apply(c, s, step);
      var job := s.handlers[step.tag].message.job;
      if Carried(s', job) {
        LateStepsCarryNothing(c, s, step, job);
      }
    }
  }

  // ---- Runs ----

  ghost predicate HarmlessRun(c: Config, states: seq<State>, steps: seq<Step>) {
    IsRun(c, states, steps) && forall i :: 0 <= i < |steps| ==> Harmless(states[i], steps[i])
  }

  lemma {:induction false} RunDropsNone(c: Config, states: seq<State>, steps: seq<Step>)
    requires HarmlessRun(c, states, steps)
    ensures NoneDropped(states[|steps|])
  {
    if steps != [] {
      var n := |steps| - 1;
      RunPrefix(c, states, steps);
      RunDropsNone(c, states[..n + 1], steps[..n]);
      RunIsFenced(c, states[..n + 1], steps[..n]);
      HarmlessStepDropsNone(c, states[n], steps[n]);
    }
  }

  /** In every run of harmless steps, a job that is not completed has an unpublished
      outbox row, a copy in a queue, or an unacknowledged delivery: through any crashes,
      lost connections, redeliveries and lost leases. */
  lemma {:induction false} NoJobIsLost(c: Config, states: seq<State>, steps: seq<Step>, job: JobId)
    requires HarmlessRun(c, states, steps)
    requires job in states[|steps|].jobs.rows && states[|steps|].jobs.rows[job].status != Completed
    ensures Findable(states[|steps|], job)
  {
    RunDropsNone(c, states, steps);
    CarriedIsFindable(states[|steps|], job);
  }

  /** `claim_job` is one step, and so are the retry publish and its mark. */
  ghost predicate AtomicRun(c: Config, states: seq<State>, steps: seq<Step>) {
    && IsRun(c, states, steps)
    && (forall i :: 0 <= i < |steps| && steps[i].ReadAgain? ==> i > 0 && steps[i - 1] == TryClaim(steps[i].tag))
    && (forall i :: 0 <= i < |steps| && steps[i].MarkRetrying? ==> i > 0 && steps[i - 1] == PublishRetry(steps[i].tag))
  }

  lemma {:induction false} AtomicStepsAreHarmless(c: Config, s: State, first: Step, second: Step)
    requires Enabled(c, s, first)
    requires second.ReadAgain? || second.MarkRetrying?
    requires first == if second.ReadAgain? then TryClaim(second.tag) else PublishRetry(second.tag)
    ensures Harmless(Apply(c, s, first), second)
  {
    var s' := Apply(c, s, first);
    var m := s.handlers[second.tag].message;
    if second.ReadAgain? {
      if s'.handlers[second.tag].phase.Missed? {
        UndisturbedClassification(s.jobs.rows[m.job], s.now);
      }
    } else {
      assert m.(attempt := m.attempt + 1) in s'.broker.retry;
    }
  }

  lemma {:induction false} AtomicRunIsHarmless(c: Config, states: seq<State>, steps: seq<Step>)
    requires AtomicRun(c, states, steps)
    ensures HarmlessRun(c, states, steps)
  {
    forall i | 0 <= i < |steps|
      ensures Harmless(states[i], steps[i])
    {
      if steps[i].ReadAgain? || steps[i].MarkRetrying? {
        assert Enabled(c, states[i - 1], steps[i - 1]);
        AtomicStepsAreHarmless(c, states[i - 1], steps[i - 1], steps[i]);
      }
    }
  }

  /** With those two step pairs undivided, no run at all loses a job. */
  lemma {:induction false} AtomicRunLosesNoJob(c: Config, states: seq<State>, steps: seq<Step>, job: JobId)
    requires AtomicRun(c, states, steps)
    requires job in states[|steps|].jobs.rows && states[|steps|].jobs.rows[job].status != Completed
    ensures Findable(states[|steps|], job)
  {
    AtomicRunIsHarmless(c, states, steps);
    NoJobIsLost(c, states, steps, job);
  }
}
