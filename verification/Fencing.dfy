/** What every run of the delivery protocol keeps about the claim on a job. */
module Fencing {
  import opened Results
  import opened JobRows
  import opened Protocol

  // ---- A row and its history ----

  ghost predicate Ends(history: seq<Event>, e: Event) {
    history != [] && history[|history| - 1] == e
  }

  /** The row is what its last event made it. */
  ghost predicate RowFits(row: Row, history: seq<Event>) {
    && Consistent(row)
    && (row.status == Queued <==> history == [])
    && (forall t: Token :: row.token == Some(t) <==> Ends(history, ClaimedBy(t)))
    && (row.status == Completed <==> history != [] && history[|history| - 1].CompletedBy?)
    && (row.status == Retrying <==> Ends(history, Rescheduled))
  }

  /** Completion and failure come right after the claim they belong to; only a reschedule
      follows a completion; claims carry rising tokens below `bound`. */
  ghost predicate HistoryFits(history: seq<Event>, bound: Token) {
    && (forall i :: 0 <= i < |history| && history[i].CompletedBy? ==>
          i > 0 && history[i - 1] == ClaimedBy(history[i].token))
    && (forall i :: 0 <= i < |history| && history[i].FailedBy? ==>
          i > 0 && history[i - 1] == ClaimedBy(history[i].token))
    && (forall i :: 0 < i < |history| && history[i - 1].CompletedBy? ==> history[i] == Rescheduled)
    && (forall i :: 0 <= i < |history| && history[i].ClaimedBy? ==> history[i].token < bound)
    && (forall i, j :: 0 <= i < j < |history| && history[i].ClaimedBy? && history[j].ClaimedBy? ==>
          history[i].token < history[j].token)
  }

  ghost predicate JobFits(s: State, job: JobId) {
    && (job in s.jobs.rows <==> job in s.jobs.history)
    && (job in s.jobs.rows ==>
          RowFits(s.jobs.rows[job], s.jobs.history[job]) && HistoryFits(s.jobs.history[job], s.jobs.nextToken))
  }

  ghost predicate SameToken(p: Phase, q: Phase) {
    HasToken(p) && HasToken(q) && TokenOf(p) == TokenOf(q)
  }

  /** A handler that holds a token got it before, and no other handler holds it. */
  ghost predicate HandlersFit(s: State) {
    && (forall tag :: tag in s.handlers && HasToken(s.handlers[tag].phase) ==>
          TokenOf(s.handlers[tag].phase) < s.jobs.nextToken)
    && (forall a, b :: a in s.handlers && b in s.handlers && SameToken(s.handlers[a].phase, s.handlers[b].phase) ==>
          a == b)
  }

  /** A stored result is behind every completed job and every handler about to complete one. */
  ghost predicate ResultsFit(s: State) {
    && (forall tag :: tag in s.handlers && (s.handlers[tag].phase.Stored? || s.handlers[tag].phase.Done?) ==>
          s.handlers[tag].message.job in s.artifacts)
    && (forall job :: job in s.jobs.rows && s.jobs.rows[job].status == Completed ==> job in s.artifacts)
  }

  ghost predicate Fenced(s: State) {
    (forall job: JobId :: JobFits(s, job)) && HandlersFit(s) && ResultsFit(s)
  }

  // ---- One event ----

  lemma {:induction false} ExtendHistory(history: seq<Event>, e: Event, bound: Token, bound': Token)
    requires HistoryFits(history, bound) && bound <= bound'
    requires e.CompletedBy? || e.FailedBy? ==> Ends(history, ClaimedBy(e.token))
    requires history != [] && history[|history| - 1].CompletedBy? ==> e == Rescheduled
    requires e.ClaimedBy? ==> bound <= e.token < bound'
    ensures HistoryFits(history + [e], bound')
  {
  }

  /** The row of `job` and its history after at most one event. */
  ghost predicate RowStep(before: Row, history: seq<Event>, bound: Token, after: Row, history': seq<Event>,
      bound': Token) {
    || (history' == history && bound' == bound
        && after.status == before.status && after.token == before.token && (after.lease.Some? <==> before.lease.Some?))
    || (history' == history && bound' >= bound && after == before)
    || (exists e :: history' == history + [e] && EventFits(before, bound, e, after, bound'))
  }

  /** `e` is allowed on `before` and makes it `after`. */
  ghost predicate EventFits(before: Row, bound: Token, e: Event, after: Row, bound': Token) {
    match e
    case ClaimedBy(t) =>
      before.status != Completed && t == bound && bound' == bound + 1
      && after.status == Processing && after.token == Some(t) && after.lease.Some?
    case CompletedBy(t) =>
      HeldBy(before, t) && bound' == bound && after.status == Completed && after.token == None && after.lease == None
    case FailedBy(t) =>
      HeldBy(before, t) && bound' == bound && after.status == Failed && after.token == None && after.lease == None
    case Rescheduled =>
      bound' == bound && after.status == Retrying && after.token == None && after.lease == None
  }

  ghost predicate JobStep(s: State, s': State, job: JobId) {
    && job in s.jobs.rows && job in s.jobs.history && job in s'.jobs.rows && job in s'.jobs.history
    && RowStep(s.jobs.rows[job], s.jobs.history[job], s.jobs.nextToken,
               s'.jobs.rows[job], s'.jobs.history[job], s'.jobs.nextToken)
  }

  lemma {:induction false} RowStepKeepsFit(before: Row, history: seq<Event>, bound: Token, after: Row,
      history': seq<Event>, bound': Token)
    requires RowFits(before, history) && HistoryFits(history, bound)
    requires RowStep(before, history, bound, after, history', bound')
    ensures RowFits(after, history') && HistoryFits(history', bound')
  {
    if e :| history' == history + [e] && EventFits(before, bound, e, after, bound') {
      ExtendHistory(history, e, bound, bound');
    }
  }

  /** The steps that write to a row that is there. */
  predicate WritesRow(step: Step) {
    step.TryClaim? || step.Finish? || step.SettleFailed? || step.MarkRetrying? || step.PublishRetry? || step.Renew? ||
      step.Enqueue?
  }

  lemma {:induction false} QuietStep(c: Config, s: State, step: Step)
    requires Enabled(c, s, step) && !WritesRow(step)
    ensures var s' := Apply(c, s, step);
            s'.jobs == s.jobs
  {
  }

  lemma {:induction false} FieldStep(c: Config, s: State, step: Step, job: JobId)
    requires Enabled(c, s, step) && job in s.jobs.rows && job in s.jobs.history
    requires (step.PublishRetry? || step.Renew? || step.Enqueue?) && Consistent(s.jobs.rows[job])
    ensures JobStep(s, Apply(c, s, step), job)
  {
  }

  lemma {:induction false} ClaimStep(c: Config, s: State, step: Step, job: JobId)
    requires Enabled(c, s, step) && job in s.jobs.rows && job in s.jobs.history && step.TryClaim?
    ensures JobStep(s, Apply(c, s, step), job)
  {
    var s' := Apply(c, s, step);
    if job == s.handlers[step.tag].message.job && Claimable(s.jobs.rows[job], s.now) {
      assert EventFits(s.jobs.rows[job], s.jobs.nextToken, ClaimedBy(s.jobs.nextToken), s'.jobs.rows[job],
               s'.jobs.nextToken);
    }
  }

  lemma {:induction false} SettleStep(c: Config, s: State, step: Step, job: JobId)
    requires Enabled(c, s, step) && job in s.jobs.rows && job in s.jobs.history
    requires step.Finish? || step.SettleFailed? || step.MarkRetrying?
    ensures JobStep(s, Apply(c, s, step), job)
  {
    var s' := Apply(c, s, step);
    var h := s.handlers[step.tag];
    if job == h.message.job {
      if step.MarkRetrying? {
        assert EventFits(s.jobs.rows[job], s.jobs.nextToken, Rescheduled, s'.jobs.rows[job], s'.jobs.nextToken);
      } else if HeldBy(s.jobs.rows[job], h.phase.token) {
        var e := if step.Finish? then CompletedBy(h.phase.token) else FailedBy(h.phase.token);
        assert EventFits(s.jobs.rows[job], s.jobs.nextToken, e, s'.jobs.rows[job], s'.jobs.nextToken);
      }
    }
  }

  /** Whatever the step, a row that is there makes a row step. */
  lemma {:induction false} StepIsRowStep(c: Config, s: State, step: Step, job: JobId)
    requires Enabled(c, s, step) && job in s.jobs.rows && job in s.jobs.history && Consistent(s.jobs.rows[job])
    ensures JobStep(s, Apply(c, s, step), job)
  {
    if !WritesRow(step) {
      QuietStep(c, s, step);
    } else if step.TryClaim? {
      ClaimStep(c, s, step, job);
    } else if step.Finish? || step.SettleFailed? || step.MarkRetrying? {
      SettleStep(c, s, step, job);
    } else {
      FieldStep(c, s, step, job);
    }
  }

  /** Only enqueueing adds a row. */
  lemma {:induction false} NewRowsAreFresh(c: Config, s: State, step: Step, job: JobId)
    requires Enabled(c, s, step) && job !in s.jobs.rows && job !in s.jobs.history
    ensures var s' := Apply(c, s, step);
            && (job in s'.jobs.rows <==> job in s'.jobs.history)
            && (job in s'.jobs.rows ==> s'.jobs.rows[job] == NEW_ROW && s'.jobs.history[job] == [])
  {
    if !WritesRow(step) {
      QuietStep(c, s, step);
    }
  }

  lemma {:induction false} StepKeepsJob(c: Config, s: State, step: Step, job: JobId)
    requires Enabled(c, s, step) && JobFits(s, job)
    ensures JobFits(Apply(c, s, step), job)
  {
    var s' := Apply(c, s, step);
    if job in s.jobs.rows {
      StepIsRowStep(c, s, step, job);
      RowStepKeepsFit(s.jobs.rows[job], s.jobs.history[job], s.jobs.nextToken,
                      s'.jobs.rows[job], s'.jobs.history[job], s'.jobs.nextToken);
    } else {
      NewRowsAreFresh(c, s, step, job);
    }
  }

  lemma {:induction false} StepKeepsJobs(c: Config, s: State, step: Step)
    requires Enabled(c, s, step) && forall job: JobId :: JobFits(s, job)
    ensures forall job: JobId :: JobFits(Apply(c, s, step), job)
  {
    forall job: JobId
      ensures JobFits(Apply(c, s, step), job)
    {
      StepKeepsJob(c, s, step, job);
    }
  }

  lemma {:induction false} OtherStepsDrawNoToken(c: Config, s: State, step: Step, tag: nat)
    requires Enabled(c, s, step) && !step.TryClaim? && tag in Apply(c, s, step).handlers
    requires HasToken(Apply(c, s, step).handlers[tag].phase)
    ensures tag in s.handlers && SameToken(s.handlers[tag].phase, Apply(c, s, step).handlers[tag].phase)
    ensures Apply(c, s, step).jobs.nextToken == s.jobs.nextToken
  {
  }

  /** A handler with a token had it before the step, or drew it in the step. */
  lemma {:induction false} StepKeepsToken(c: Config, s: State, step: Step, tag: nat)
    requires Enabled(c, s, step) && tag in Apply(c, s, step).handlers
    requires HasToken(Apply(c, s, step).handlers[tag].phase)
    ensures var s' := Apply(c, s, step);
            || (tag in s.handlers && SameToken(s.handlers[tag].phase, s'.handlers[tag].phase))
            || (TokenOf(s'.handlers[tag].phase) == s.jobs.nextToken && s'.jobs.nextToken == s.jobs.nextToken + 1
                && step.TryClaim? && step.tag == tag)
    ensures Apply(c, s, step).jobs.nextToken >= s.jobs.nextToken
  {
    if !step.TryClaim? {
      OtherStepsDrawNoToken(c, s, step, tag);
    }
  }

  lemma {:induction false} StepKeepsHandlers(c: Config, s: State, step: Step)
    requires Enabled(c, s, step) && HandlersFit(s)
    ensures HandlersFit(Apply(c, s, step))
  {
    var s' := Apply(c, s, step);
    forall tag | tag in s'.handlers && HasToken(s'.handlers[tag].phase)
      ensures TokenOf(s'.handlers[tag].phase) < s'.jobs.nextToken
    {
      StepKeepsToken(c, s, step, tag);
    }
    forall a, b | a in s'.handlers && b in s'.handlers && SameToken(s'.handlers[a].phase, s'.handlers[b].phase)
      ensures a == b
    {
      StepKeepsToken(c, s, step, a);
      StepKeepsToken(c, s, step, b);
    }
  }

  ghost predicate HasResult(s: State, h: Handler) {
    h.phase.Stored? || h.phase.Done? ==> h.message.job in s.artifacts
  }

  lemma {:induction false} StepKeepsResult(c: Config, s: State, step: Step, tag: nat)
    requires Enabled(c, s, step) && tag in Apply(c, s, step).handlers
    requires tag in s.handlers ==> HasResult(s, s.handlers[tag])
    ensures HasResult(Apply(c, s, step), Apply(c, s, step).handlers[tag])
    ensures s.artifacts <= Apply(c, s, step).artifacts
  {
  }

  /** A job becomes completed only through a handler that stored its result. */
  lemma {:induction false} CompletingStep(c: Config, s: State, step: Step, job: JobId)
    requires Enabled(c, s, step) && job in Apply(c, s, step).jobs.rows
    requires Apply(c, s, step).jobs.rows[job].status == Completed
    ensures job in s.jobs.rows
    ensures s.jobs.rows[job].status == Completed ||
            (step.Finish? && s.handlers[step.tag].phase.Stored? && s.handlers[step.tag].message.job == job)
  {
    if !WritesRow(step) {
      QuietStep(c, s, step);
    }
  }

  lemma {:induction false} StepKeepsResults(c: Config, s: State, step: Step)
    requires Enabled(c, s, step) && ResultsFit(s)
    ensures ResultsFit(Apply(c, s, step))
  {
    var s' := Apply(c, s, step);
    forall tag | tag in s'.handlers
      ensures HasResult(s', s'.handlers[tag])
    {
      StepKeepsResult(c, s, step, tag);
    }
    forall job | job in s'.jobs.rows && s'.jobs.rows[job].status == Completed
      ensures job in s'.artifacts
    {
      CompletingStep(c, s, step, job);
      ArtifactsStay(c, s, step);
    }
  }

  lemma {:induction false} ArtifactsStay(c: Config, s: State, step: Step)
    requires Enabled(c, s, step)
    ensures s.artifacts <= Apply(c, s, step).artifacts
  {
  }

  /** Every reachable state is fenced. */
  lemma {:induction false} RunIsFenced(c: Config, states: seq<State>, steps: seq<Step>)
    requires IsRun(c, states, steps)
    ensures Fenced(states[|steps|])
  {
    if steps != [] {
      RunPrefix(c, states, steps);
      var n := |steps| - 1;
      RunIsFenced(c, states[..n + 1], steps[..n]);
      StepKeepsJobs(c, states[n], steps[n]);
      StepKeepsHandlers(c, states[n], steps[n]);
      StepKeepsResults(c, states[n], steps[n]);
    }
  }

  lemma {:induction false} RunTo(c: Config, states: seq<State>, steps: seq<Step>, i: nat)
    requires IsRun(c, states, steps) && i <= |steps|
    ensures IsRun(c, states[..i + 1], steps[..i])
    decreases |steps| - i
  {
    if i < |steps| {
      RunTo(c, states, steps, i + 1);
      RunPrefix(c, states[..i + 2], steps[..i + 1]);
      assert states[..i + 2][..i + 1] == states[..i + 1] && steps[..i + 1][..i] == steps[..i];
    } else {
      assert states[..i + 1] == states && steps[..i] == steps;
    }
  }

  /** At every point of every run: a token is held exactly while processing, completions
      and failures follow their own claim, and a completed job has a stored result. */
  lemma {:induction false} FencedThroughout(c: Config, states: seq<State>, steps: seq<Step>, i: nat, job: JobId)
    requires IsRun(c, states, steps) && i <= |steps| && job in states[i].jobs.rows
    ensures job in states[i].jobs.history
    ensures states[i].jobs.rows[job].token.Some? <==> states[i].jobs.rows[job].status == Processing
    ensures HistoryFits(states[i].jobs.history[job], states[i].jobs.nextToken)
    ensures states[i].jobs.rows[job].status == Completed ==> job in states[i].artifacts
  {
    RunTo(c, states, steps, i);
    RunIsFenced(c, states[..i + 1], steps[..i]);
    assert JobFits(states[i], job);
  }

  /** The handler has the token that the row has. */
  ghost predicate HoldsClaim(s: State, tag: nat, job: JobId)
    requires tag in s.handlers && job in s.jobs.rows
  {
    HasToken(s.handlers[tag].phase) && HeldBy(s.jobs.rows[job], TokenOf(s.handlers[tag].phase))
  }

  /** Whoever completes a job is its latest claimant, with no settlement in between. */
  lemma {:induction false} CompletedByLatestClaimant(c: Config, s: State, step: Step, job: JobId)
    requires Fenced(s) && Enabled(c, s, step) && job in s.jobs.rows && s.jobs.rows[job].status != Completed
    requires job in Apply(c, s, step).jobs.rows && Apply(c, s, step).jobs.rows[job].status == Completed
    ensures step.Finish? && At(s, step.tag) && s.handlers[step.tag].message.job == job
    ensures s.handlers[step.tag].phase.Stored?
    ensures Ends(s.jobs.history[job], ClaimedBy(s.handlers[step.tag].phase.token))
    ensures forall tag :: tag in s.handlers && HoldsClaim(s, tag, job) ==> tag == step.tag
  {
    assert JobFits(s, job);
    CompletingStep(c, s, step, job);
    assert HeldBy(s.jobs.rows[job], s.handlers[step.tag].phase.token);
    forall tag | tag in s.handlers && HoldsClaim(s, tag, job)
      ensures tag == step.tag
    {
      assert SameToken(s.handlers[tag].phase, s.handlers[step.tag].phase);
    }
  }

  /** Only the unguarded reschedule takes a job out of its completed state. */
  lemma {:induction false} OnlyRescheduleReopens(c: Config, s: State, step: Step, job: JobId)
    requires Fenced(s) && Enabled(c, s, step) && job in s.jobs.rows && s.jobs.rows[job].status == Completed
    requires job in Apply(c, s, step).jobs.rows && Apply(c, s, step).jobs.rows[job].status != Completed
    ensures step.MarkRetrying? && s.handlers[step.tag].message.job == job
  {
    assert JobFits(s, job);
    if !WritesRow(step) {
      QuietStep(c, s, step);
    }
  }
}
