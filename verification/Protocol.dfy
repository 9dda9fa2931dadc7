/** Delivery of jobs: a transactional outbox, at-least-once queues, and a lease with
    fencing tokens, as steps over durable state and running handlers.

    A handler is one execution of the consumer callback.  It keeps running when its
    connection drops: the broker then redelivers the message, and the handler can no
    longer publish, acknowledge or reject. */
module Protocol {
  import opened JobRows

  type JobId = nat

  datatype Message = Message(job: JobId, attempt: nat)

  /** `sent` once a publish was confirmed; `published` once that was recorded. */
  datatype OutboxRow = OutboxRow(job: JobId, sent: bool, published: bool)

  datatype Phase =
    | Received                                    // before the claiming update
    | Missed(at: real)                             // the claiming update matched no row
    | Running(token: Token)
    | Stored(token: Token)                        // the result is in the object store
    | Done(token: Token)                          // marked completed, to be acknowledged
    | Failing(token: Token, retryable: bool)      // an exception was caught
    | Settling(token: Token, retryable: bool)     // the row was marked failed, if it was still ours
    | Published(token: Token)                     // the retry copy is out, the row not yet marked
    | ToAck
    | ToNack

  datatype Handler = Handler(message: Message, phase: Phase, attached: bool)

  /** What happened to a row, oldest first; renewals and attempt numbers are not kept. */
  datatype Event = ClaimedBy(token: Token) | CompletedBy(token: Token) | FailedBy(token: Token) | Rescheduled

  /** The jobs table, with every row's history, and the next token to be drawn. */
  datatype Jobs = Jobs(rows: map<JobId, Row>, history: map<JobId, seq<Event>>, nextToken: Token)

  datatype Broker = Broker(main: multiset<Message>, retry: multiset<Message>, dlq: multiset<JobId>)

  datatype State = State(
    jobs: Jobs, outbox: map<nat, OutboxRow>, broker: Broker, handlers: map<nat, Handler>, artifacts: set<JobId>,
      now: real)

  datatype Config = Config(leaseSeconds: nat, maxAttempts: nat)

  datatype Step =
    | Enqueue(job: JobId, event: nat)
    | Publish(event: nat)
    | MarkPublished(event: nat)
    | Purge(event: nat)
    | Deliver(message: Message, tag: nat)
    | Redirect(message: Message)                  // the retry queue's TTL
    | Quarantine(tag: nat)                        // a message of another job type
    | TryClaim(tag: nat)
    | ReadAgain(tag: nat)
    | Store(tag: nat)
    | Adopt(tag: nat)                             // a valid artifact was already there
    | Finish(tag: nat)
    | Raise(tag: nat, retryable: bool)
    | SettleFailed(tag: nat)
    | PublishRetry(tag: nat)
    | MarkRetrying(tag: nat)
    | PublishDlq(tag: nat)
    | Ack(tag: nat)
    | Nack(tag: nat)
    | Renew(tag: nat)
    | Disconnect(tag: nat)
    | Crash(tag: nat)
    | Tick(to: real)

  // ---- The steps ----

  predicate At(s: State, tag: nat) {
    tag in s.handlers && s.handlers[tag].message.job in s.jobs.rows && s.handlers[tag].message.job in s.jobs.history
  }

  predicate Enabled(c: Config, s: State, step: Step) {
    match step
    case Enqueue(job, event) => job !in s.jobs.rows && event !in s.outbox
    case Publish(event) => event in s.outbox && !s.outbox[event].published
    case MarkPublished(event) => event in s.outbox && s.outbox[event].sent
    case Purge(event) => event in s.outbox && s.outbox[event].published
    case Deliver(message, tag) => message in s.broker.main && tag !in s.handlers
    case Redirect(message) => message in s.broker.retry
    case Quarantine(tag) => At(s, tag) && s.handlers[tag].phase.Received? && s.handlers[tag].attached
    case TryClaim(tag) => At(s, tag) && s.handlers[tag].phase.Received?
    case ReadAgain(tag) => At(s, tag) && s.handlers[tag].phase.Missed?
    case Store(tag) => At(s, tag) && s.handlers[tag].phase.Running?
    case Adopt(tag) => At(s, tag) && s.handlers[tag].phase.Running? && s.handlers[tag].message.job in s.artifacts
    case Finish(tag) => At(s, tag) && s.handlers[tag].phase.Stored?
    case Raise(tag, _) =>
      At(s, tag) && (s.handlers[tag].phase.Running? || s.handlers[tag].phase.Stored? || s.handlers[tag].phase.Done?)
    case SettleFailed(tag) => At(s, tag) && s.handlers[tag].phase.Failing?
    case PublishRetry(tag) =>
      At(s, tag) && s.handlers[tag].phase.Settling? && s.handlers[tag].attached && Retries(c, s.handlers[tag])
    case MarkRetrying(tag) => At(s, tag) && s.handlers[tag].phase.Published?
    case PublishDlq(tag) =>
      At(s, tag) && s.handlers[tag].phase.Settling? && s.handlers[tag].attached && !Retries(c, s.handlers[tag])
    case Ack(tag) => At(s, tag) && (s.handlers[tag].phase.ToAck? || s.handlers[tag].phase.Done?) &&
      s.handlers[tag].attached
    case Nack(tag) => At(s, tag) && s.handlers[tag].phase.ToNack? && s.handlers[tag].attached
    case Renew(tag) => At(s, tag) && HasToken(s.handlers[tag].phase)
    case Disconnect(tag) => At(s, tag) && s.handlers[tag].attached
    case Crash(tag) => At(s, tag)
    case Tick(to) => s.now <= to
  }

  predicate Retries(c: Config, h: Handler)
    requires h.phase.Settling?
  {
    h.phase.retryable && h.message.attempt < c.maxAttempts
  }

  predicate HasToken(p: Phase) {
    p.Running? || p.Stored? || p.Done? || p.Failing? || p.Settling? || p.Published?
  }

  function TokenOf(p: Phase): Token
    requires HasToken(p)
  {
    match p
    case Running(t) => t
    case Stored(t) => t
    case Done(t) => t
    case Failing(t, _) => t
    case Settling(t, _) => t
    case Published(t) => t
  }

  function Moved(s: State, tag: nat, phase: Phase): State
    requires tag in s.handlers
  {
    s.(handlers := s.handlers[tag := s.handlers[tag].(phase := phase)])
  }

  function Gone(s: State, tag: nat): State {
    s.(handlers := s.handlers - {tag})
  }

  function ToMain(s: State, m: Message): State {
    s.(broker := s.broker.(main := s.broker.main + multiset{m}))
  }

  function ToRetry(s: State, m: Message): State {
    s.(broker := s.broker.(retry := s.broker.retry + multiset{m}))
  }

  function ToDlq(s: State, job: JobId): State {
    s.(broker := s.broker.(dlq := s.broker.dlq + multiset{job}))
  }

  function WithRow(s: State, job: JobId, row: Row): State {
    s.(jobs := s.jobs.(rows := s.jobs.rows[job := row]))
  }

  function Requeued(s: State, tag: nat): State
    requires tag in s.handlers
  {
    if s.handlers[tag].attached then ToMain(s, s.handlers[tag].message) else s
  }

  /** The row of `job` becomes `row`, by `event`. */
  function Logged(s: State, job: JobId, row: Row, event: Event): State
    requires job in s.jobs.rows && job in s.jobs.history
  {
    s.(jobs := s.jobs.(rows := s.jobs.rows[job := row],
                       history := s.jobs.history[job := s.jobs.history[job] + [event]]))
  }

  /** The conditional claiming update; a miss remembers the time it was tried. */
  function ApplyClaim(c: Config, s: State, tag: nat): State
    requires At(s, tag)
  {
    var m := s.handlers[tag].message;
    var row := s.jobs.rows[m.job];
    if Claimable(row, s.now) then
      var token := s.jobs.nextToken;
      var claimed := AsClaimed(row, token, s.now, c.leaseSeconds).(attempt := m.attempt);
      var logged := Logged(s, m.job, claimed, ClaimedBy(token));
      Moved(logged.(jobs := logged.jobs.(nextToken := token + 1)), tag, Running(token))
    else Moved(s, tag, Missed(s.now))
  }

  /** `mark_completed` by the claim's token, or a lost lease. */
  function ApplyFinish(s: State, tag: nat): State
    requires At(s, tag) && s.handlers[tag].phase.Stored?
  {
    var job, t := s.handlers[tag].message.job, s.handlers[tag].phase.token;
    if HeldBy(s.jobs.rows[job], t) then
      Moved(Logged(s, job, AsReleased(s.jobs.rows[job], Completed), CompletedBy(t)), tag, Done(t))
    else Moved(s, tag, Failing(t, true))
  }

  /** `mark_failed` by the claim's token; settling goes on either way. */
  function ApplyFailed(s: State, tag: nat): State
    requires At(s, tag) && s.handlers[tag].phase.Failing?
  {
    var job, t := s.handlers[tag].message.job, s.handlers[tag].phase.token;
    var next := Settling(t, s.handlers[tag].phase.retryable);
    if HeldBy(s.jobs.rows[job], t) then
      Moved(Logged(s, job, AsReleased(s.jobs.rows[job], Failed), FailedBy(t)), tag, next)
    else Moved(s, tag, next)
  }

  function ApplyRenew(c: Config, s: State, tag: nat): State
    requires At(s, tag) && HasToken(s.handlers[tag].phase)
  {
    var job, t := s.handlers[tag].message.job, TokenOf(s.handlers[tag].phase);
    if s.jobs.rows[job].status == Processing && HeldBy(s.jobs.rows[job], t) then
      WithRow(s, job, AsRenewed(s.jobs.rows[job], s.now, c.leaseSeconds))
    else s
  }

  function Apply(c: Config, s: State, step: Step): State
    requires Enabled(c, s, step)
  {
    match step
    case Enqueue(job, event) =>
      s.(jobs := s.jobs.(rows := s.jobs.rows[job := NEW_ROW], history := s.jobs.history[job := []]),
         outbox := s.outbox[event := OutboxRow(job, false, false)])
    case Publish(event) =>
      ToMain(s, Message(s.outbox[event].job, 1)).(outbox := s.outbox[event := s.outbox[event].(sent := true)])
    case MarkPublished(event) => s.(outbox := s.outbox[event := s.outbox[event].(published := true)])
    case Purge(event) => s.(outbox := s.outbox - {event})
    case Deliver(message, tag) =>
      s.(broker := s.broker.(main := s.broker.main - multiset{message}),
         handlers := s.handlers[tag := Handler(message, Received, true)])
    case Redirect(message) => ToMain(s.(broker := s.broker.(retry := s.broker.retry - multiset{message})), message)
    case Quarantine(tag) => Moved(ToDlq(s, s.handlers[tag].message.job), tag, ToAck)
    case TryClaim(tag) => ApplyClaim(c, s, tag)
    case ReadAgain(tag) =>
      Moved(s, tag, if Classify(s.jobs.rows[s.handlers[tag].message.job], s.handlers[tag].phase.at) == LeaseBusy
                    then ToNack else ToAck)
    case Store(tag) =>
      Moved(s, tag, Stored(s.handlers[tag].phase.token)).(artifacts := s.artifacts + {s.handlers[tag].message.job})
    case Adopt(tag) => Moved(s, tag, Stored(s.handlers[tag].phase.token))
    case Finish(tag) => ApplyFinish(s, tag)
    case Raise(tag, retryable) => Moved(s, tag, Failing(TokenOf(s.handlers[tag].phase), retryable))
    case SettleFailed(tag) => ApplyFailed(s, tag)
    case PublishRetry(tag) =>
      var m := s.handlers[tag].message;
      var bumped := s.jobs.rows[m.job].(attempt := m.attempt + 1);
      Moved(WithRow(ToRetry(s, m.(attempt := m.attempt + 1)), m.job, bumped), tag,
        Published(s.handlers[tag].phase.token))
    case MarkRetrying(tag) =>
      var job := s.handlers[tag].message.job;
      Moved(Logged(s, job, AsReleased(s.jobs.rows[job], Retrying), Rescheduled), tag, ToAck)
    case PublishDlq(tag) => Moved(ToDlq(s, s.handlers[tag].message.job), tag, ToAck)
    case Ack(tag) => Gone(s, tag)
    case Nack(tag) => Gone(ToRetry(s, s.handlers[tag].message), tag)
    case Renew(tag) => ApplyRenew(c, s, tag)
    case Disconnect(tag) =>
      Requeued(s, tag).(handlers := s.handlers[tag := s.handlers[tag].(attached := false)])
    case Crash(tag) => Gone(Requeued(s, tag), tag)
    case Tick(to) => s.(now := to)
  }

  const START := State(Jobs(map[], map[], 0), map[], Broker(multiset{}, multiset{}, multiset{}), map[], {}, 0.0)

  /** A run: where each step leads. */
  ghost predicate IsRun(c: Config, states: seq<State>, steps: seq<Step>) {
    && |states| == |steps| + 1 && states[0] == START
    && forall i :: 0 <= i < |steps| ==>
         Enabled(c, states[i], steps[i]) && states[i + 1] == Apply(c, states[i], steps[i])
  }

  lemma {:induction false} RunPrefix(c: Config, states: seq<State>, steps: seq<Step>)
    requires IsRun(c, states, steps) && steps != []
    ensures var n := |steps| - 1;
            && IsRun(c, states[..n + 1], steps[..n])
            && Enabled(c, states[n], steps[n]) && states[n + 1] == Apply(c, states[n], steps[n])
  {
    var n := |steps| - 1;
    assert steps[n] in steps;
  }
}
