/** Several dispatchers on one outbox, each holding the row lock of one event at a time. */
module Dispatchers {
  type Worker = nat
  type EventId = nat

  /** `Holding` a locked row before the broker was asked; `Sent` once it confirmed. */
  datatype Phase = Idle | Holding(event: EventId) | Sent(event: EventId)

  /** `sent` counts the confirmed publications of each event. */
  datatype State = State(pending: set<EventId>, workers: map<Worker, Phase>, sent: map<EventId, nat>)

  /** A pass selects the oldest row it has not failed on; here any unlocked pending row
      may be selected, which allows more runs. */
  datatype Step =
    | Arrive(event: EventId)                   // a committed row, not known before
    | Select(worker: Worker, event: EventId)   // locks a pending row that nobody has locked
    | Publish(worker: Worker)
    | Refuse(worker: Worker)                   // the broker did not confirm
    | Commit(worker: Worker)                   // marked published, the lock released

  ghost predicate Locked(s: State, e: EventId) {
    exists w :: w in s.workers && s.workers[w] != Idle && s.workers[w].event == e
  }

  ghost predicate Enabled(s: State, step: Step) {
    match step
    case Arrive(e) => e !in s.pending && e !in s.sent
    case Select(w, e) => w in s.workers && s.workers[w].Idle? && e in s.pending && e in s.sent && !Locked(s, e)
    case Publish(w) => w in s.workers && s.workers[w].Holding? && s.workers[w].event in s.sent
    case Refuse(w) => w in s.workers && s.workers[w].Holding?
    case Commit(w) => w in s.workers && s.workers[w].Sent?
  }

  function Apply(s: State, step: Step): State
    requires Enabled(s, step)
  {
    match step
    case Arrive(e) => s.(pending := s.pending + {e}, sent := s.sent[e := 0])
    case Select(w, e) => s.(workers := s.workers[w := Holding(e)])
    case Publish(w) =>
      var e := s.workers[w].event;
      s.(workers := s.workers[w := Sent(e)], sent := s.sent[e := s.sent[e] + 1])
    case Refuse(w) => s.(workers := s.workers[w := Idle])
    case Commit(w) => s.(workers := s.workers[w := Idle], pending := s.pending - {s.workers[w].event})
  }

  /** Nothing locked and nothing sent. */
  ghost predicate Starts(s: State) {
    && (forall w :: w in s.workers ==> s.workers[w] == Idle)
    && (forall e :: e in s.sent ==> s.sent[e] == 0 && e in s.pending)
  }

  ghost predicate IsSending(s: State, e: EventId) {
    exists w :: w in s.workers && s.workers[w] == Sent(e)
  }

  predicate Shares(p: Phase, q: Phase) {
    p != Idle && q != Idle && p.event == q.event
  }

  /** One worker to a locked row, which is pending; what was sent is committed or about to be. */
  ghost predicate Exclusive(s: State) {
    && (forall v, w :: v in s.workers && w in s.workers && Shares(s.workers[v], s.workers[w]) ==> v == w)
    && (forall w :: w in s.workers && s.workers[w] != Idle ==> s.workers[w].event in s.pending)
    && (forall e :: e in s.sent ==> s.sent[e] == if e !in s.pending || IsSending(s, e) then 1 else 0)
  }

  /** An event that arrives is new to every worker. */
  lemma {:induction false} ArrivalKeepsExclusive(s: State, e: EventId)
    requires Exclusive(s) && Enabled(s, Arrive(e))
    ensures Exclusive(Apply(s, Arrive(e)))
  {
    var s' := Apply(s, Arrive(e));
    assert forall d :: IsSending(s', d) <==> IsSending(s, d);
  }

  lemma {:induction false} StepKeepsExclusive(s: State, step: Step)
    requires Exclusive(s) && Enabled(s, step)
    ensures Exclusive(Apply(s, step))
  {
    if step.Arrive? {
      ArrivalKeepsExclusive(s, step.event);
    } else {
      WorkerKeepsExclusive(s, step, step.worker);
    }
  }

  lemma {:induction false} WorkerKeepsExclusive(s: State, step: Step, worker: Worker)
    requires Exclusive(s) && Enabled(s, step) && !step.Arrive? && worker == step.worker
    ensures Exclusive(Apply(s, step))
  {
    var s' := Apply(s, step);
    forall e | e in s'.sent
      ensures s'.sent[e] == if e !in s'.pending || IsSending(s', e) then 1 else 0
    {
      if w :| w in s.workers && s.workers[w] == Sent(e) && w != worker {
        assert s'.workers[w] == Sent(e);
      }
      if s'.workers[worker] == Sent(e) {
        assert IsSending(s', e);
      }
      if s.workers[worker] == Sent(e) {
        assert IsSending(s, e);
      }
    }
  }

  ghost predicate IsRun(states: seq<State>, steps: seq<Step>) {
    && |states| == |steps| + 1 && Starts(states[0])
    && forall i :: 0 <= i < |steps| ==> Enabled(states[i], steps[i]) && states[i + 1] == Apply(states[i], steps[i])
  }

  lemma {:induction false} RunIsExclusive(states: seq<State>, steps: seq<Step>)
    requires IsRun(states, steps)
    ensures Exclusive(states[|steps|])
  {
    if steps != [] {
      var n := |steps| - 1;
      assert Enabled(states[n], steps[n]);
      RunIsExclusive(states[..n + 1], steps[..n]);
      StepKeepsExclusive(states[n], steps[n]);
    }
  }

  /** In every run without a crash, whenever events arrive, no event is published twice, and one that is marked
      published was published once. */
  lemma {:induction false} PublishedAtMostOnce(states: seq<State>, steps: seq<Step>, e: EventId)
    requires IsRun(states, steps) && e in states[|steps|].sent
    ensures states[|steps|].sent[e] <= 1
    ensures e !in states[|steps|].pending ==> states[|steps|].sent[e] == 1
  {
    RunIsExclusive(states, steps);
  }
}
