/** How many copies of a message there are: deliveries, redeliveries and the way through the
    retry queue neither lose nor double one. */
module Copies {
  import opened Protocol

  // ---- Copies of a message ----

  /** The unacknowledged deliveries of `m`. */
  ghost function Holders(s: State, m: Message): set<nat> {
    set tag | tag in s.handlers && s.handlers[tag].attached && s.handlers[tag].message == m
  }

  /** The copies of `m` that the broker has, queued or not yet acknowledged. */
  ghost function Copies(s: State, m: Message): nat {
    s.broker.main[m] + s.broker.retry[m] + |Holders(s, m)|
  }

  /** The step publishes `m`. */
  predicate Sends(s: State, step: Step, m: Message) {
    || (step.Publish? && step.event in s.outbox && m == Message(s.outbox[step.event].job, 1))
    || (step.PublishRetry? && step.tag in s.handlers
        && m == Message(s.handlers[step.tag].message.job, s.handlers[step.tag].message.attempt + 1))
  }

  /** The step acknowledges a delivery of `m`. */
  predicate Acknowledges(s: State, step: Step, m: Message) {
    step.Ack? && step.tag in s.handlers && s.handlers[step.tag].message == m
  }

  lemma {:induction false} SameHolders(s: State, s': State, m: Message)
    requires forall tag :: tag in s.handlers <==> tag in s'.handlers
    requires forall tag :: tag in s.handlers ==> s'.handlers[tag].message == s.handlers[tag].message
    requires forall tag :: tag in s.handlers ==> s'.handlers[tag].attached == s.handlers[tag].attached
    ensures Holders(s', m) == Holders(s, m)
  {
  }

  /** A delivery that ends, or is lost with its connection. */
  lemma {:induction false} LostHolder(s: State, s': State, tag: nat, m: Message)
    requires tag in s.handlers && (tag in s'.handlers ==> !s'.handlers[tag].attached)
    requires forall other :: other != tag ==> (other in s.handlers <==> other in s'.handlers)
    requires forall other :: other != tag && other in s.handlers ==> s'.handlers[other] == s.handlers[other]
    ensures |Holders(s', m)| == |Holders(s, m)| -
              if s.handlers[tag].attached && s.handlers[tag].message == m then 1 else 0
  {
    assert Holders(s', m) == Holders(s, m) - {tag};
  }

  lemma {:induction false} NewHolder(s: State, s': State, tag: nat, h: Handler, m: Message)
    requires tag !in s.handlers && s'.handlers == s.handlers[tag := h] && h.attached
    ensures |Holders(s', m)| == |Holders(s, m)| + if h.message == m then 1 else 0
  {
    assert Holders(s', m) == if h.message == m then Holders(s, m) + {tag} else Holders(s, m);
  }

  predicate EndsDelivery(step: Step) {
    step.Ack? || step.Nack? || step.Crash? || step.Disconnect?
  }

  predicate EndsDeliveryOf(s: State, step: Step, m: Message) {
    EndsDelivery(step) && step.tag in s.handlers && s.handlers[step.tag].attached && s.handlers[step.tag].message == m
  }

  lemma {:induction false} HoldersStay(c: Config, s: State, step: Step, m: Message)
    requires Enabled(c, s, step) && !step.Deliver? && !EndsDelivery(step)
    ensures Holders(Apply(c, s, step), m) == Holders(s, m)
  {
    SameHolders(s, Apply(c, s, step), m);
  }

  lemma {:induction false} HolderGoes(c: Config, s: State, step: Step, m: Message)
    requires Enabled(c, s, step) && EndsDelivery(step)
    ensures |Holders(Apply(c, s, step), m)| == |Holders(s, m)| - if EndsDeliveryOf(s, step, m) then 1 else 0
  {
    LostHolder(s, Apply(c, s, step), step.tag, m);
  }

  lemma {:induction false} HoldersAfter(c: Config, s: State, step: Step, m: Message)
    requires Enabled(c, s, step)
    ensures |Holders(Apply(c, s, step), m)| == |Holders(s, m)| +
              (if step == Deliver(m, TagOf(step)) then 1 else 0) - if EndsDeliveryOf(s, step, m) then 1 else 0
  {
    if step.Deliver? {
      NewHolder(s, Apply(c, s, step), step.tag, Handler(step.message, Received, true), m);
    } else if EndsDelivery(step) {
      HolderGoes(c, s, step, m);
    } else {
      HoldersStay(c, s, step, m);
    }
  }

  function TagOf(step: Step): nat {
    if step.Deliver? then step.tag else 0
  }

  /** What comes back into the main queue from a lost connection. */
  predicate Requeues(s: State, step: Step, m: Message) {
    (step.Crash? || step.Disconnect?) && EndsDeliveryOf(s, step, m)
  }

  predicate WritesMain(step: Step) {
    step.Publish? || step.Deliver? || step.Redirect? || step.Crash? || step.Disconnect?
  }

  lemma {:induction false} MainStays(c: Config, s: State, step: Step)
    requires Enabled(c, s, step) && !WritesMain(step)
    ensures Apply(c, s, step).broker.main == s.broker.main
  {
  }

  lemma {:induction false} MainMoves(c: Config, s: State, step: Step)
    requires Enabled(c, s, step) && (step.Publish? || step.Deliver? || step.Redirect?)
    ensures step.Publish? ==>
              Apply(c, s, step).broker.main == s.broker.main + multiset{Message(s.outbox[step.event].job, 1)}
    ensures step.Deliver? ==> Apply(c, s, step).broker.main == s.broker.main - multiset{step.message}
    ensures step.Redirect? ==> Apply(c, s, step).broker.main == s.broker.main + multiset{step.message}
  {
  }

  lemma {:induction false} MainGetsBack(c: Config, s: State, step: Step)
    requires Enabled(c, s, step) && (step.Crash? || step.Disconnect?)
    ensures step.tag in s.handlers
    ensures Apply(c, s, step).broker.main == s.broker.main +
              if s.handlers[step.tag].attached then multiset{s.handlers[step.tag].message} else multiset{}
  {
  }

  lemma {:induction false} MainAfter(c: Config, s: State, step: Step, m: Message)
    requires Enabled(c, s, step)
    ensures Apply(c, s, step).broker.main[m] == s.broker.main[m] +
              (if (step.Publish? && Sends(s, step, m)) || step == Redirect(m) || Requeues(s, step, m) then 1 else 0) -
              if step == Deliver(m, TagOf(step)) then 1 else 0
  {
    if !WritesMain(step) {
      MainStays(c, s, step);
    } else if step.Crash? || step.Disconnect? {
      MainGetsBack(c, s, step);
    } else {
      MainMoves(c, s, step);
    }
  }

  predicate WritesRetry(step: Step) {
    step.PublishRetry? || step.Nack? || step.Redirect?
  }

  lemma {:induction false} RetryStays(c: Config, s: State, step: Step)
    requires Enabled(c, s, step) && !WritesRetry(step)
    ensures Apply(c, s, step).broker.retry == s.broker.retry
  {
  }

  lemma {:induction false} RetryAfter(c: Config, s: State, step: Step, m: Message)
    requires Enabled(c, s, step)
    ensures Apply(c, s, step).broker.retry[m] == s.broker.retry[m] +
              (if step.PublishRetry? && Sends(s, step, m) then 1 else 0) +
              (if step.Nack? && EndsDeliveryOf(s, step, m) then 1 else 0) - if step == Redirect(m) then 1 else 0
  {
    if !WritesRetry(step) {
      RetryStays(c, s, step);
    }
  }

  /** No step but publishing makes a copy, none but an acknowledgement loses one: deliveries,
      redeliveries after a crash and the way through the retry queue keep their number. */
  lemma {:induction false} CopiesAreConserved(c: Config, s: State, step: Step, m: Message)
    requires Enabled(c, s, step)
    ensures Copies(Apply(c, s, step), m) ==
            Copies(s, m) + (if Sends(s, step, m) then 1 else 0) - if Acknowledges(s, step, m) then 1 else 0
  {
    HoldersAfter(c, s, step, m);
    MainAfter(c, s, step, m);
    RetryAfter(c, s, step, m);
  }

  /** The publications of `m` less its acknowledgements. */
  ghost function Balance(states: seq<State>, steps: seq<Step>, m: Message): int
    requires |states| == |steps| + 1
  {
    if steps == [] then 0 else
      var n := |steps| - 1;
      Balance(states[..n + 1], steps[..n], m) + (if Sends(states[n], steps[n], m) then 1 else 0) -
      if Acknowledges(states[n], steps[n], m) then 1 else 0
  }

  /** At the end of every run as many copies of a message are around as were published and not
      acknowledged. */
  lemma {:induction false} CopiesAreBalance(c: Config, states: seq<State>, steps: seq<Step>, m: Message)
    requires IsRun(c, states, steps)
    ensures Copies(states[|steps|], m) == Balance(states, steps, m)
  {
    if steps == [] {
      assert Holders(states[0], m) == {};
    } else {
      var n := |steps| - 1;
      RunPrefix(c, states, steps);
      CopiesAreBalance(c, states[..n + 1], steps[..n], m);
      CopiesAreConserved(c, states[n], steps[n], m);
    }
  }
}
