/** The lease, retry and dead-letter protocol as a state machine. Any number of deliveries and retry
    workers run against one ledger; every ledger call is one atomic step. A failing call may have taken
    effect: the two steps that say so are those of a persist and of a completion mark, since a claim, a
    lease or a failure record that does so is one that succeeds and whose caller then crashes. Each leased record is a task
    of its own, so every order in which workers go through their batches is among the runs. */
module Protocol {
  import opened Domain
  import opened Ledger
  import Backoff

  datatype Config = Config(baseDelay: Duration, maxDelay: Duration, maxAttempts: int, leaseTimeout: Duration) {
    /** What the service's constructor guarantees. */
    predicate Valid() {
      0 < baseDelay && 0 < maxDelay && maxAttempts >= 1 && leaseTimeout > 0
    }

    /** The configuration that the service's constructor keeps: each setting that is not positive gets its
        default, and the others stay. */
    function WithDefaults(): (c: Config)
      ensures c.Valid() && (Valid() ==> c == this)
      ensures baseDelay > 0 ==> c.baseDelay == baseDelay
      ensures maxDelay > 0 ==> c.maxDelay == maxDelay
      ensures maxAttempts > 0 ==> c.maxAttempts == maxAttempts
      ensures leaseTimeout > 0 ==> c.leaseTimeout == leaseTimeout
      ensures baseDelay <= 0 ==> c.baseDelay == DEFAULT_CONFIG.baseDelay
      ensures maxDelay <= 0 ==> c.maxDelay == DEFAULT_CONFIG.maxDelay
      ensures maxAttempts <= 0 ==> c.maxAttempts == DEFAULT_CONFIG.maxAttempts
      ensures leaseTimeout <= 0 ==> c.leaseTimeout == DEFAULT_CONFIG.leaseTimeout
    {
      Config(
        if baseDelay <= 0 then DEFAULT_CONFIG.baseDelay else baseDelay,
        if maxDelay <= 0 then DEFAULT_CONFIG.maxDelay else maxDelay,
        if maxAttempts <= 0 then DEFAULT_CONFIG.maxAttempts else maxAttempts,
        if leaseTimeout <= 0 then DEFAULT_CONFIG.leaseTimeout else leaseTimeout)
    }
  }

  const DEFAULT_CONFIG := Config(SECOND, 30 * SECOND, 5, 2 * MINUTE)

  /** The configuration of a service. */
  type Settings = c: Config | c.Valid() witness DEFAULT_CONFIG

  /** What a caller that holds a copy of a leased record is about to do. */
  datatype Task =
    | Applying(r: Record)                                  // persist the payload
    | Finishing(r: Record)                                 // mark the event completed
    | Reporting(r: Record, err: string, nextRetryAt: Time) // record a failure
  {
    /** Recorded on a first attempt, the failure makes the next attempt skip the payload. */
    predicate AsksToSkip(c: Config) {
      Reporting? && COMPLETION_PREFIX <= err && nextRetryAt != ZERO_TIME && c.maxAttempts > 1
    }
  }

  /** What happened to one record since it was inserted. */
  datatype Life = Life(applied: nat, retryLeases: nat, staleLeases: nat)

  datatype State = State(
    now: Time, ledger: Events, tasks: map<int, Task>, nextTask: int,
    applied: set<EventKey>,                     // keys with a payload that was persisted
    appliedPayloads: set<(EventKey, Payload)>,  // and with which payload
    lives: map<EventKey, Life>, inserted: nat, purged: nat)

  datatype Step =
    | Tick(to: Time)
    | Deliver(key: EventKey, payload: Payload, at: Time)
    | LeaseBatch(at: Time, limit: nat, items: seq<Record>)
    | PersistOk(t: int)
    | PersistError(t: int, error: Error, at: Time)
    | PersistLost(t: int, error: Error, at: Time)  // takes effect, but answers with an error
    | MarkOk(t: int)
    | MarkError(t: int, error: Error, at: Time)
    | MarkLost(t: int, error: Error, at: Time)     // takes effect, but answers with an error
    | RecordOk(t: int)
    | RecordError(t: int)
    | Crash(t: int)
    | Retain(keys: set<EventKey>)

  function Init(now: Time): State {
    State(now, map[], map[], 0, {}, {}, map[], 0, 0)
  }

  /** How a worker starts on a record that it has leased. */
  function Start(r: Record): Task {
    if r.IsCompletionRetry() then Finishing(r) else Applying(r)
  }

  /** The retry time that a failure asks for: none unless the error is transient. */
  function RetryAt(c: Config, r: Record, error: Error, at: Time): Time {
    if error.transient then at + Backoff.DelayFor(c.baseDelay, c.maxDelay, r.attemptCount) else ZERO_TIME
  }

  /** A transient failure always gets a retry time: no delay leads back to the zero time. */
  lemma TransientFailuresAreRetried(c: Config, r: Record, error: Error, at: Time)
    requires c.Valid() && at >= 0
    ensures RetryAt(c, r, error, at) == ZERO_TIME <==> !error.transient
  {
    Backoff.DelayFitsWord(c.baseDelay, c.maxDelay, Backoff.Wanted(r.attemptCount));
  }

  /** A step may happen. Clock readings are never ahead of the clock, but may lag behind it; the clock
      runs after the Unix epoch. */
  ghost predicate Enabled(c: Config, s: State, step: Step) {
    match step
    case Tick(to) => s.now <= to
    case Deliver(_, _, at) => 0 <= at <= s.now
    case LeaseBatch(at, limit, items) =>
      0 <= at <= s.now && limit > 0 && IsBatch(s.ledger, at, at - c.leaseTimeout, limit, items)
    case PersistOk(t) => t in s.tasks && s.tasks[t].Applying?
    case PersistError(t, _, at) => t in s.tasks && s.tasks[t].Applying? && 0 <= at <= s.now
    case PersistLost(t, _, at) => t in s.tasks && s.tasks[t].Applying? && 0 <= at <= s.now
    case MarkOk(t) => t in s.tasks && s.tasks[t].Finishing?
    case MarkError(t, _, at) => t in s.tasks && s.tasks[t].Finishing? && 0 <= at <= s.now
    case MarkLost(t, _, at) => t in s.tasks && s.tasks[t].Finishing? && 0 <= at <= s.now
    case RecordOk(t) => t in s.tasks && s.tasks[t].Reporting?
    case RecordError(t) => t in s.tasks && s.tasks[t].Reporting?
    case Crash(t) => t in s.tasks
    case Retain(keys) => forall k :: k in keys ==> k in s.ledger && s.ledger[k].Terminal()
  }

  function LeasedLives(s: State, items: seq<Record>): map<EventKey, Life> {
    map k | k in s.lives ::
      var life := s.lives[k];
      if k !in KeysOf(items) || k !in s.ledger then life
      else if s.ledger[k].status == RetryScheduled then life.(retryLeases := life.retryLeases + 1)
      else life.(staleLeases := life.staleLeases + 1)
  }

  /** The task numbers from `first` on that a batch of `n` records gets. */
  function TaskNumbers(first: int, n: nat): (ids: set<int>)
    ensures forall t :: t in ids <==> first <= t < first + n
  {
    if n == 0 then {} else TaskNumbers(first, n - 1) + {first + n - 1}
  }

  function NewTasks(first: int, at: Time, items: seq<Record>): (tasks: map<int, Task>)
    ensures forall t :: t in tasks <==> first <= t < first + |items|
    ensures forall t :: t in tasks ==> tasks[t] == Start(Leased(items[t - first], at))
  {
    map t | t in TaskNumbers(first, |items|) :: Start(Leased(items[t - first], at))
  }

  /** The state once the payload of task `t` has been persisted. */
  function Persisted(s: State, t: int): State
    requires t in s.tasks
  {
    var r := s.tasks[t].r;
    s.(applied := s.applied + {r.key}, appliedPayloads := s.appliedPayloads + {(r.key, r.payload)},
       lives := if r.key in s.lives
                then s.lives[r.key := s.lives[r.key].(applied := s.lives[r.key].applied + 1)] else s.lives)
  }

  function Apply(c: Config, s: State, step: Step): State
    requires Enabled(c, s, step)
  {
    match step
    case Tick(to) => s.(now := to)
    case Deliver(key, payload, at) =>
      var r := NewRecord(key, payload, at);
      if key in s.ledger then s
      else s.(ledger := Claim(s.ledger, r), tasks := s.tasks[s.nextTask := Applying(r)],
              nextTask := s.nextTask + 1, lives := s.lives[key := Life(0, 0, 0)], inserted := s.inserted + 1)
    case LeaseBatch(at, limit, items) =>
      s.(ledger := TakeBatch(s.ledger, at, items), tasks := s.tasks + NewTasks(s.nextTask, at, items),
         nextTask := s.nextTask + |items|, lives := LeasedLives(s, items))
    case PersistOk(t) =>
      Persisted(s, t).(tasks := s.tasks[t := Finishing(s.tasks[t].r)])
    case PersistError(t, error, at) =>
      var r := s.tasks[t].r;
      s.(tasks := s.tasks[t := Reporting(r, error.text, RetryAt(c, r, error, at))])
    case PersistLost(t, error, at) =>
      var r := s.tasks[t].r;
      Persisted(s, t).(tasks := s.tasks[t := Reporting(r, error.text, RetryAt(c, r, error, at))])
    case MarkOk(t) =>
      s.(ledger := Complete(s.ledger, s.tasks[t].r.key), tasks := s.tasks - {t})
    case MarkError(t, error, at) =>
      var r := s.tasks[t].r;
      s.(tasks := s.tasks[t := Reporting(r, COMPLETION_PREFIX + error.text, RetryAt(c, r, error, at))])
    case MarkLost(t, error, at) =>
      var r := s.tasks[t].r;
      s.(ledger := Complete(s.ledger, r.key),
         tasks := s.tasks[t := Reporting(r, COMPLETION_PREFIX + error.text, RetryAt(c, r, error, at))])
    case RecordOk(t) =>
      var task := s.tasks[t];
      s.(ledger := Fail(s.ledger, task.r.key, task.err, task.nextRetryAt, c.maxAttempts), tasks := s.tasks - {t})
    case RecordError(t) => s.(tasks := s.tasks - {t})
    case Crash(t) => s.(tasks := s.tasks - {t})
    case Retain(keys) =>
      s.(ledger := Purge(s.ledger, keys), lives := s.lives - keys, purged := s.purged + |keys|)
  }

  /** A persist error that makes the next attempt skip the payload: transient, so that there is a next
      attempt, and beginning like a completion error. */
  predicate Misleads(c: Config, e: Error) {
    e.transient && COMPLETION_PREFIX <= e.text && c.maxAttempts > 1
  }

  predicate Plain(c: Config, step: Step) {
    step.PersistError? ==> !Misleads(c, step.error)
  }

  /** No persist error of the run misleads. */
  ghost predicate AllPlain(c: Config, steps: seq<Step>) {
    forall i :: 0 <= i < |steps| ==> Plain(c, steps[i])
  }

  /** `steps` can be taken one after the other from `s`. */
  ghost predicate Legal(c: Config, s: State, steps: seq<Step>)
    decreases |steps|
  {
    steps == [] || (Enabled(c, s, steps[0]) && Legal(c, Apply(c, s, steps[0]), steps[1..]))
  }

  ghost function Run(c: Config, s: State, steps: seq<Step>): State
    requires Legal(c, s, steps)
    decreases |steps|
  {
    if steps == [] then s else Run(c, Apply(c, s, steps[0]), steps[1..])
  }
}
