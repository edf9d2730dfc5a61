/**
 The outbox relay: sweeps select undelivered rows, enqueue a job for each and
 lock it; queue workers dispatch the jobs and record the outcome in the row.

 Everything between two awaits is one step, and the steps of the sweeps, of the
 workers, of the clock and of the application inserting rows interleave freely.
 The listener decides when a sweep begins, so its flags are part of the state.

 The queue is its visible effect: a set of jobs deduplicated by id, where a
 completed job disappears, a job that failed five times stays for good, and
 adding an id that is present does nothing.
 */
module OutboxRelay {
  import opened Wrappers
  import JsonText
  import Q = Sequences
  import L = OutboxListener

  type EventId = nat

  const LOCK_MILLIS := 5 * 60000
  const BATCH := 500
  const MAX_ATTEMPTS := 5

  datatype Row = Row(processedAt: Option<int>, lastError: Option<string>, lockedUntil: Option<int>)

  datatype Phase = Waiting | Dispatching | Succeeded | Failed | Exhausted

  datatype Job = Job(attempts: nat, phase: Phase)

  /** Where a sweep is: `now` is read before the select, `todo` is what the snapshot still holds. */
  datatype Sweep =
    | Selecting(now: int)
    | Adding(now: int, todo: seq<EventId>)
    | Locking(now: int, todo: seq<EventId>)
    | Polled

  /** created and dispatched are history: jobs created and dispatch attempts begun, per event. */
  datatype State = State(
    clock: int,
    listener: L.Flags,
    sweeps: map<nat, Sweep>,
    rows: map<EventId, Row>,
    jobs: map<EventId, Job>,
    created: multiset<EventId>,
    dispatched: multiset<EventId>)

  datatype Step =
    | Tick(millis: nat)
    | InsertRow(id: EventId)
    | Trigger
    | StartListener
    | StopListener
    | SweepResolves(k: nat)
    | SweepRejects(k: nat)
    | Select(k: nat, chosen: seq<EventId>)
    | Add(k: nat)
    | Lock(k: nat)
    | PollFails(k: nat)                          // the select, an add or an update throws; the poll ends
    | Begin(id: EventId)
    | RecordSuccess(id: EventId)
    | RecordFailure(id: EventId, message: string)
    | Settle(id: EventId)                        // the queue learns how the attempt ended

  const INITIAL := State(0, L.INITIAL, map[], map[], map[], multiset{}, multiset{})

  predicate HasOutcome(row: Row) {
    row.processedAt.Some? || row.lastError.Some?
  }

  /** The where clause of the poll. */
  predicate Eligible(row: Row, now: int) {
    !HasOutcome(row) && (row.lockedUntil.None? || row.lockedUntil.value < now)
  }

  predicate Live(s: State, e: EventId) {
    e in s.jobs && s.jobs[e].phase != Exhausted
  }

  ghost predicate Distinct(es: seq<EventId>) {
    forall i, j :: 0 <= i < j < |es| ==> es[i] != es[j]
  }

  /** Some rows that qualify, each once; all of them when fewer than the limit. */
  ghost predicate Snapshot(rows: map<EventId, Row>, now: int, chosen: seq<EventId>) {
    && Distinct(chosen) && |chosen| <= BATCH
    && (forall e :: e in chosen ==> e in rows && Eligible(rows[e], now))
    && (|chosen| < BATCH ==> forall e :: e in rows && Eligible(rows[e], now) ==> e in chosen)
  }

  ghost predicate Enabled(s: State, step: Step) {
    match step
    case Tick(_) => true
    case InsertRow(e) => e !in s.rows
    case Trigger => true
    case StartListener => true
    case StopListener => true
    case SweepResolves(k) => k in s.sweeps && s.sweeps[k].Polled? && k in s.listener.active
    case SweepRejects(k) => k in s.sweeps && s.sweeps[k].Polled? && k in s.listener.active
    case Select(k, chosen) =>
      k in s.sweeps && s.sweeps[k].Selecting? && Snapshot(s.rows, s.sweeps[k].now, chosen)
    case Add(k) => k in s.sweeps && s.sweeps[k].Adding? && s.sweeps[k].todo != []
    case Lock(k) => k in s.sweeps && s.sweeps[k].Locking? && s.sweeps[k].todo != []
    case PollFails(k) => k in s.sweeps
    case Begin(e) => e in s.jobs && s.jobs[e].phase == Waiting
    case RecordSuccess(e) => e in s.jobs && s.jobs[e].phase == Dispatching && e in s.rows
    case RecordFailure(e, _) => e in s.jobs && s.jobs[e].phase == Dispatching && e in s.rows
    case Settle(e) => e in s.jobs && (s.jobs[e].phase == Succeeded || s.jobs[e].phase == Failed)
  }

  /** The listener moves; a sweep it has just started begins by reading the clock. */
  function Listen(s: State, f: L.Flags): (t: State) {
    s.(listener := f,
       sweeps := map k | k in f.active :: if k in s.sweeps then s.sweeps[k] else Selecting(s.clock))
  }

  function Continue(now: int, todo: seq<EventId>): (p: Sweep) {
    if todo == [] then Polled else Adding(now, todo)
  }

  function MarkDone(row: Row, clock: int): (r: Row) {
    row.(processedAt := Some(clock), lockedUntil := None)
  }

  function MarkFailed(row: Row, message: string): (r: Row) {
    row.(lastError := Some(if message == "" then "Unknown processing error" else message), lockedUntil := None)
  }

  function AddJob(jobs: map<EventId, Job>, e: EventId): (r: map<EventId, Job>) {
    if e in jobs then jobs else jobs[e := Job(0, Waiting)]
  }

  function LockRow(rows: map<EventId, Row>, e: EventId, now: int): (r: map<EventId, Row>) {
    if e in rows then rows[e := rows[e].(lockedUntil := Some(now + LOCK_MILLIS))] else rows
  }

  function SettleJob(jobs: map<EventId, Job>, e: EventId): (r: map<EventId, Job>)
    requires e in jobs
  {
    var job := jobs[e];
    if job.phase == Succeeded then jobs - {e}
    else jobs[e := job.(phase := if job.attempts < MAX_ATTEMPTS then Waiting else Exhausted)]
  }

  ghost function Apply(s: State, step: Step): (t: State)
    requires Enabled(s, step)
  {
    match step
    case Tick(d) => s.(clock := s.clock + d)
    case InsertRow(e) => s.(rows := s.rows[e := Row(None, None, None)])
    case Trigger => Listen(s, L.Step(s.listener, L.Trigger))
    case StartListener => Listen(s, L.Step(s.listener, L.Start))
    case StopListener => Listen(s, L.Step(s.listener, L.Stop))
    case SweepResolves(k) => Listen(s, L.Step(s.listener, L.Resolved(k)))
    case SweepRejects(k) => Listen(s, L.Step(s.listener, L.Rejected(k)))
    case Select(k, chosen) => s.(sweeps := s.sweeps[k := Continue(s.sweeps[k].now, chosen)])
    case Add(k) =>
      var e := s.sweeps[k].todo[0];
      s.(jobs := AddJob(s.jobs, e),
         created := if e in s.jobs then s.created else s.created + multiset{e},
         sweeps := s.sweeps[k := Locking(s.sweeps[k].now, s.sweeps[k].todo)])
    case Lock(k) =>
      var p := s.sweeps[k];
      s.(rows := LockRow(s.rows, p.todo[0], p.now), sweeps := s.sweeps[k := Continue(p.now, p.todo[1..])])
    case PollFails(k) => s.(sweeps := s.sweeps[k := Polled])
    case Begin(e) =>
      s.(jobs := s.jobs[e := Job(s.jobs[e].attempts + 1, Dispatching)], dispatched := s.dispatched + multiset{e})
    case RecordSuccess(e) =>
      s.(rows := s.rows[e := MarkDone(s.rows[e], s.clock)], jobs := s.jobs[e := s.jobs[e].(phase := Succeeded)])
    case RecordFailure(e, message) =>
      s.(rows := s.rows[e := MarkFailed(s.rows[e], message)], jobs := s.jobs[e := s.jobs[e].(phase := Failed)])
    case Settle(e) => s.(jobs := SettleJob(s.jobs, e))
  }

  ghost predicate Run(s: State, steps: seq<Step>, t: State)
    decreases |steps|
  {
    if steps == [] then s == t
    else Enabled(s, steps[0]) && Run(Apply(s, steps[0]), steps[1..], t)
  }

  // ---- The invariant ----

  ghost predicate JobOk(job: Job, row: Row) {
    && job.attempts <= MAX_ATTEMPTS
    && match job.phase
       case Waiting => job.attempts < MAX_ATTEMPTS
       case Dispatching => true
       case Succeeded => row.processedAt.Some?
       case Failed => row.lastError.Some?
       case Exhausted => row.lastError.Some?
  }

  ghost function JobOf(s: State, e: EventId): (j: Option<Job>) {
    if e in s.jobs then Some(s.jobs[e]) else None
  }

  ghost predicate Alive(job: Option<Job>) {
    job.Some? && job.value.phase != Exhausted
  }

  /** What ties a row to its job, the number of its jobs and the number of its attempts. */
  ghost predicate RowOk(row: Row, job: Option<Job>, created: nat, dispatched: nat) {
    && (row.lockedUntil.Some? ==> Alive(job) || HasOutcome(row))
    && (HasOutcome(row) ==> created > 0)
    && (job.Some? ==> created > 0 && JobOk(job.value, row))
    && (created > 0 && job.None? ==> row.processedAt.Some?)
    && created <= 2
    && (created == 2 ==> row.processedAt.Some?)
    && dispatched <= MAX_ATTEMPTS * created
    && (job.Some? ==> dispatched <= MAX_ATTEMPTS * (created - 1) + job.value.attempts)
  }

  ghost predicate EventOk(s: State, e: EventId)
    requires e in s.rows
  {
    RowOk(s.rows[e], JobOf(s, e), s.created[e], s.dispatched[e])
  }

  /** The events a sweep may still add. */
  ghost function Pending(p: Sweep): (es: seq<EventId>) {
    match p
    case Selecting(_) => []
    case Adding(_, todo) => todo
    case Locking(_, todo) => if todo == [] then [] else todo[1..]
    case Polled => []
  }

  ghost predicate SweepOk(s: State, p: Sweep) {
    && (p.Adding? || p.Locking? ==>
         && p.todo != [] && Distinct(p.todo) && forall e :: e in p.todo ==> e in s.rows)
    && (p.Locking? ==> Live(s, p.todo[0]) || HasOutcome(s.rows[p.todo[0]]))
    && (forall e :: e in Pending(p) ==> s.created[e] <= 1)
  }

  ghost predicate Inv(s: State) {
    && L.Safe(s.listener)
    && s.sweeps.Keys == s.listener.active
    && s.jobs.Keys <= s.rows.Keys
    && (forall e :: e in s.created || e in s.dispatched ==> e in s.rows)
    && (forall e :: e in s.rows ==> EventOk(s, e))
    && (forall k :: k in s.sweeps ==> SweepOk(s, s.sweeps[k]))
  }

  /** The part of a state the listener and the clock do not touch. */
  ghost predicate SameRecords(s: State, t: State) {
    s.rows == t.rows && s.jobs == t.jobs && s.created == t.created && s.dispatched == t.dispatched
  }

  lemma {:induction false} RecordsKeepOk(s: State, t: State)
    requires Inv(s) && SameRecords(s, t)
    ensures forall e :: e in t.rows ==> EventOk(t, e)
    ensures forall k :: k in s.sweeps ==> SweepOk(t, s.sweeps[k])
  {
    forall e | e in t.rows ensures EventOk(t, e) {
      assert EventOk(s, e);
    }
    forall k | k in s.sweeps ensures SweepOk(t, s.sweeps[k]) {
      assert SweepOk(s, s.sweeps[k]);
    }
  }

  lemma {:induction false} ListeningKeepsInv(s: State, e: L.Event)
    requires Inv(s) && L.Enabled(s.listener, e)
    ensures Inv(Listen(s, L.Step(s.listener, e)))
  {
    L.StepIsSafe(s.listener, e);
    RecordsKeepOk(s, Listen(s, L.Step(s.listener, e)));
  }

  lemma {:induction false} InsertingKeepsInv(s: State, e: EventId)
    requires Inv(s) && Enabled(s, InsertRow(e))
    ensures Inv(Apply(s, InsertRow(e)))
  {
    var t := Apply(s, InsertRow(e));
    forall x | x in t.rows ensures EventOk(t, x) {
      if x != e { assert EventOk(s, x); }
    }
    forall k | k in t.sweeps ensures SweepOk(t, t.sweeps[k]) {
      assert SweepOk(s, s.sweeps[k]);
    }
  }

  lemma {:induction false} OnlySweep(s: State, k: nat)
    requires Inv(s) && k in s.sweeps
    ensures s.sweeps.Keys == {k}
  {
  }

  /** A step of sweep k keeps the invariant if it keeps it for k and for the rows: no other sweep is there. */
  lemma {:induction false} SweepStepKeepsInv(s: State, t: State, k: nat, p: Sweep)
    requires Inv(s) && k in s.sweeps
    requires t.listener == s.listener && t.sweeps == s.sweeps[k := p]
    requires t.jobs.Keys <= t.rows.Keys && forall e :: e in t.created || e in t.dispatched ==> e in t.rows
    requires forall e :: e in t.rows ==> EventOk(t, e)
    requires SweepOk(t, p)
    ensures Inv(t)
  {
    OnlySweep(s, k);
  }

  lemma {:induction false} SelectingKeepsInv(s: State, k: nat, chosen: seq<EventId>)
    requires Inv(s) && Enabled(s, Select(k, chosen))
    ensures Inv(Apply(s, Select(k, chosen)))
  {
    var t := Apply(s, Select(k, chosen));
    RecordsKeepOk(s, t);
    forall e | e in chosen ensures t.created[e] <= 1 {
      assert EventOk(s, e);
    }
    SweepStepKeepsInv(s, t, k, Continue(s.sweeps[k].now, chosen));
  }

  lemma {:induction false} AddingKeepsRows(s: State, k: nat, x: EventId)
    requires Inv(s) && Enabled(s, Add(k)) && x in s.rows
    ensures EventOk(Apply(s, Add(k)), x)
  {
    var t, e := Apply(s, Add(k)), s.sweeps[k].todo[0];
    assert SweepOk(s, s.sweeps[k]);
    assert EventOk(s, x);
    if x == e && e !in s.jobs {
      assert e in Pending(s.sweeps[k]);
      assert JobOf(t, x) == Some(Job(0, Waiting)) && t.created[x] == s.created[x] + 1;
    } else {
      assert JobOf(t, x) == JobOf(s, x) && t.created[x] == s.created[x];
    }
  }

  lemma {:induction false} AddingKeepsInv(s: State, k: nat)
    requires Inv(s) && Enabled(s, Add(k))
    ensures Inv(Apply(s, Add(k)))
  {
    var t := Apply(s, Add(k));
    var p := s.sweeps[k];
    assert SweepOk(s, p);
    forall x | x in t.rows ensures EventOk(t, x) {
      AddingKeepsRows(s, k, x);
    }
    SweepStepKeepsInv(s, t, k, Locking(p.now, p.todo)) by {
      forall e | e in p.todo[1..] ensures t.created[e] <= 1 {
        var i :| 0 <= i < |p.todo| - 1 && p.todo[1..][i] == e;
        assert p.todo[i + 1] == e && e != p.todo[0];
        assert e in Pending(p);
      }
      assert EventOk(t, p.todo[0]);
    }
  }

  lemma {:induction false} LockingKeepsInv(s: State, k: nat)
    requires Inv(s) && Enabled(s, Lock(k))
    ensures Inv(Apply(s, Lock(k)))
  {
    var t := Apply(s, Lock(k));
    var p := s.sweeps[k];
    assert SweepOk(s, p);
    forall x | x in t.rows ensures EventOk(t, x) {
      assert EventOk(s, x);
    }
    forall i, j | 0 <= i < j < |p.todo| - 1 ensures p.todo[1..][i] != p.todo[1..][j] {
      assert p.todo[i + 1] != p.todo[j + 1];
    }
    SweepStepKeepsInv(s, t, k, Continue(p.now, p.todo[1..]));
  }

  lemma {:induction false} FailingKeepsInv(s: State, k: nat)
    requires Inv(s) && Enabled(s, PollFails(k))
    ensures Inv(Apply(s, PollFails(k)))
  {
    RecordsKeepOk(s, Apply(s, PollFails(k)));
    SweepStepKeepsInv(s, Apply(s, PollFails(k)), k, Polled);
  }

  /** A step of a worker on event e keeps the invariant if it keeps it for e. */
  lemma {:induction false} WorkerStepKeepsInv(s: State, t: State, e: EventId)
    requires Inv(s) && e in s.rows && e in s.jobs && s.jobs[e].phase != Exhausted
    requires t.listener == s.listener && t.sweeps == s.sweeps && t.created == s.created
    requires t.rows.Keys == s.rows.Keys && t.jobs.Keys <= s.jobs.Keys
    requires t.dispatched == s.dispatched || t.dispatched == s.dispatched + multiset{e}
    requires forall x :: x in s.rows && x != e ==> t.rows[x] == s.rows[x] && JobOf(t, x) == JobOf(s, x)
    requires EventOk(t, e) && (Live(t, e) || HasOutcome(t.rows[e]))
    ensures Inv(t)
  {
    forall x | x in t.rows ensures EventOk(t, x) {
      if x != e { assert EventOk(s, x); }
    }
    forall k | k in t.sweeps ensures SweepOk(t, t.sweeps[k]) {
      assert SweepOk(s, s.sweeps[k]);
      if t.sweeps[k].Locking? && t.sweeps[k].todo[0] != e {
        var x := t.sweeps[k].todo[0];
        assert JobOf(t, x) == JobOf(s, x);
      }
    }
  }

  lemma {:induction false} BeginningKeepsInv(s: State, e: EventId)
    requires Inv(s) && Enabled(s, Begin(e))
    ensures Inv(Apply(s, Begin(e)))
  {
    assert EventOk(s, e);
    WorkerStepKeepsInv(s, Apply(s, Begin(e)), e);
  }

  lemma {:induction false} RecordingKeepsInv(s: State, step: Step)
    requires Inv(s) && Enabled(s, step) && (step.RecordSuccess? || step.RecordFailure?)
    ensures Inv(Apply(s, step))
  {
    assert EventOk(s, step.id);
    WorkerStepKeepsInv(s, Apply(s, step), step.id);
  }

  lemma {:induction false} SettlingKeepsInv(s: State, e: EventId)
    requires Inv(s) && Enabled(s, Settle(e))
    ensures Inv(Apply(s, Settle(e)))
  {
    assert EventOk(s, e);
    WorkerStepKeepsInv(s, Apply(s, Settle(e)), e);
  }

  lemma {:induction false} StepKeepsInv(s: State, step: Step)
    requires Inv(s) && Enabled(s, step)
    ensures Inv(Apply(s, step))
  {
    match step
    case Tick(_) => RecordsKeepOk(s, Apply(s, step));
    case InsertRow(e) => InsertingKeepsInv(s, e);
    case Trigger => ListeningKeepsInv(s, L.Trigger);
    case StartListener => ListeningKeepsInv(s, L.Start);
    case StopListener => ListeningKeepsInv(s, L.Stop);
    case SweepResolves(k) => ListeningKeepsInv(s, L.Resolved(k));
    case SweepRejects(k) => ListeningKeepsInv(s, L.Rejected(k));
    case Select(k, chosen) => SelectingKeepsInv(s, k, chosen);
    case Add(k) => AddingKeepsInv(s, k);
    case Lock(k) => LockingKeepsInv(s, k);
    case PollFails(k) => FailingKeepsInv(s, k);
    case Begin(e) => BeginningKeepsInv(s, e);
    case RecordSuccess(_) => RecordingKeepsInv(s, step);
    case RecordFailure(_, _) => RecordingKeepsInv(s, step);
    case Settle(e) => SettlingKeepsInv(s, e);
  }

  lemma {:induction false} RunKeepsInv(s: State, steps: seq<Step>, t: State)
    requires Inv(s) && Run(s, steps, t)
    ensures Inv(t)
    decreases |steps|
  {
    if steps == [] {
    } else {
      StepKeepsInv(s, steps[0]);
      RunKeepsInv(Apply(s, steps[0]), steps[1..], t);
    }
  }

  // ---- Main results ----

  /**
   No event is stranded.  In every reachable state a locked row has a live job or
   a recorded outcome, and a row without outcome has a live job or qualifies for
   a poll that starts now.
   */
  lemma {:induction false} NoEventIsStranded(steps: seq<Step>, s: State, e: EventId)
    requires Run(INITIAL, steps, s) && e in s.rows
    ensures s.rows[e].lockedUntil.Some? ==> Live(s, e) || HasOutcome(s.rows[e])
    ensures !HasOutcome(s.rows[e]) ==> Live(s, e) || Eligible(s.rows[e], s.clock)
  {
    RunKeepsInv(INITIAL, steps, s);
    assert EventOk(s, e);
  }

  /** In every reachable state an event has had at most two jobs and ten dispatch attempts. */
  lemma {:induction false} AtMostTwoJobs(steps: seq<Step>, s: State, e: EventId)
    requires Run(INITIAL, steps, s)
    ensures s.created[e] <= 2 && s.dispatched[e] <= 10
  {
    RunKeepsInv(INITIAL, steps, s);
    if e in s.rows {
      assert EventOk(s, e);
    }
  }

  /**
   When the second job appears: exactly when a sweep adds, from its stale
   snapshot, an event whose first job has been delivered and removed since.
   */
  lemma {:induction false} SecondJobIsARedelivery(steps: seq<Step>, s: State, k: nat)
    requires Run(INITIAL, steps, s) && Enabled(s, Add(k))
    ensures var e := s.sweeps[k].todo[0];
      && e in s.rows
      && (Apply(s, Add(k)).created[e] == 2 && s.created[e] == 1 <==>
            e !in s.jobs && s.rows[e].processedAt.Some?)
  {
    RunKeepsInv(INITIAL, steps, s);
    assert SweepOk(s, s.sweeps[k]);
    assert EventOk(s, s.sweeps[k].todo[0]);
  }

  // ---- When one job is enough ----

  ghost predicate SelectsLive(s: State, step: Step, e: EventId) {
    step.Select? && e in step.chosen && Live(s, e)
  }

  /** Somewhere in the run a poll selects e while its job is live: the lock has run out, or was never set. */
  ghost predicate SelectedWhileLive(s: State, steps: seq<Step>, e: EventId)
    decreases |steps|
  {
    steps != [] && Enabled(s, steps[0])
    && (SelectsLive(s, steps[0], e) || SelectedWhileLive(Apply(s, steps[0]), steps[1..], e))
  }

  /** e has had at most one job, and once it has had one no sweep is about to add it. */
  ghost predicate AddedOnce(s: State, e: EventId) {
    s.created[e] <= 1 && (s.created[e] == 1 ==> forall k :: k in s.sweeps ==> e !in Pending(s.sweeps[k]))
  }

  lemma {:induction false} SelectKeepsAddedOnce(s: State, k: nat, chosen: seq<EventId>, e: EventId)
    requires Inv(s) && Enabled(s, Select(k, chosen)) && AddedOnce(s, e) && !SelectsLive(s, Select(k, chosen), e)
    ensures AddedOnce(Apply(s, Select(k, chosen)), e)
  {
    OnlySweep(s, k);
    if e in chosen {
      assert EventOk(s, e);
    }
  }

  lemma {:induction false} HeadIsNotInTail(es: seq<EventId>)
    requires es != [] && Distinct(es)
    ensures es[0] !in es[1..] && forall e :: e in es[1..] ==> e in es
  {
    assert forall i :: 0 <= i < |es| - 1 ==> es[1..][i] == es[i + 1];
  }

  lemma {:induction false} AddKeepsAddedOnce(s: State, k: nat, e: EventId)
    requires Inv(s) && Enabled(s, Add(k)) && AddedOnce(s, e)
    ensures AddedOnce(Apply(s, Add(k)), e)
  {
    var p, t := s.sweeps[k], Apply(s, Add(k));
    OnlySweep(s, k);
    assert SweepOk(s, p);
    HeadIsNotInTail(p.todo);
    assert t.sweeps.Keys == {k} && Pending(t.sweeps[k]) == p.todo[1..] && Pending(p) == p.todo;
    if e == p.todo[0] {
      assert s.created[e] == 0 && t.created[e] <= 1;
    } else {
      assert t.created[e] == s.created[e];
    }
  }

  lemma {:induction false} LockKeepsAddedOnce(s: State, k: nat, e: EventId)
    requires Inv(s) && Enabled(s, Lock(k)) && AddedOnce(s, e)
    ensures AddedOnce(Apply(s, Lock(k)), e)
  {
    OnlySweep(s, k);
  }

  lemma {:induction false} StepKeepsAddedOnce(s: State, step: Step, e: EventId)
    requires Inv(s) && Enabled(s, step) && AddedOnce(s, e) && !SelectsLive(s, step, e)
    ensures AddedOnce(Apply(s, step), e)
  {
    match step
    case Select(k, chosen) => SelectKeepsAddedOnce(s, k, chosen, e);
    case Add(k) => AddKeepsAddedOnce(s, k, e);
    case Lock(k) => LockKeepsAddedOnce(s, k, e);
    case _ =>
  }

  lemma {:induction false} RunKeepsAddedOnce(s: State, steps: seq<Step>, t: State, e: EventId)
    requires Inv(s) && Run(s, steps, t) && AddedOnce(s, e) && !SelectedWhileLive(s, steps, e)
    ensures AddedOnce(t, e)
    decreases |steps|
  {
    if steps == [] {
    } else {
      StepKeepsInv(s, steps[0]);
      StepKeepsAddedOnce(s, steps[0], e);
      RunKeepsAddedOnce(Apply(s, steps[0]), steps[1..], t, e);
    }
  }

  /** Over any run an event only gets a second job if some poll selected it while its first job was live. */
  lemma {:induction false} SecondJobNeedsALiveSelection(steps: seq<Step>, s: State, e: EventId)
    requires Run(INITIAL, steps, s) && s.created[e] > 1
    ensures SelectedWhileLive(INITIAL, steps, e)
  {
    if !SelectedWhileLive(INITIAL, steps, e) {
      RunKeepsAddedOnce(INITIAL, steps, s, e);
      assert false;
    }
  }

  /** No poll fails between adding a job and locking its row, and when a poll selects no live job's lock has run out. */
  ghost predicate TimelyStep(s: State, step: Step)
    requires Enabled(s, step)
  {
    match step
    case PollFails(k) => !s.sweeps[k].Locking?
    case Select(k, _) =>
      forall e :: e in s.rows && Live(s, e) && s.rows[e].lockedUntil.Some? ==> s.rows[e].lockedUntil.value >= s.sweeps[k].now
    case _ => true
  }

  ghost predicate Timely(s: State, steps: seq<Step>)
    decreases |steps|
  {
    steps != [] ==> Enabled(s, steps[0]) && TimelyStep(s, steps[0]) && Timely(Apply(s, steps[0]), steps[1..])
  }

  ghost predicate BeingLocked(s: State, e: EventId) {
    exists k :: k in s.sweeps && s.sweeps[k].Locking? && s.sweeps[k].todo != [] && s.sweeps[k].todo[0] == e
  }

  /** A live job without outcome has its row locked, or about to be. */
  ghost predicate Guarded(s: State, e: EventId) {
    Live(s, e) && e in s.rows && !HasOutcome(s.rows[e]) ==> s.rows[e].lockedUntil.Some? || BeingLocked(s, e)
  }

  lemma {:induction false} GuardedIsNotSelected(s: State, step: Step, e: EventId)
    requires Inv(s) && Enabled(s, step) && Guarded(s, e) && TimelyStep(s, step)
    ensures !SelectsLive(s, step, e)
  {
    if step.Select? {
      OnlySweep(s, step.k);
    }
  }

  lemma {:induction false} AddKeepsGuarded(s: State, k: nat, e: EventId)
    requires Inv(s) && Enabled(s, Add(k)) && Guarded(s, e)
    ensures Guarded(Apply(s, Add(k)), e)
  {
    OnlySweep(s, k);
    var t := Apply(s, Add(k));
    assert t.sweeps[k].todo[0] == s.sweeps[k].todo[0];
    if e == s.sweeps[k].todo[0] {
      assert BeingLocked(t, e);
    }
  }

  lemma {:induction false} LockKeepsGuarded(s: State, k: nat, e: EventId)
    requires Inv(s) && Enabled(s, Lock(k)) && Guarded(s, e)
    ensures Guarded(Apply(s, Lock(k)), e)
  {
    OnlySweep(s, k);
  }

  /** Steps of the listener only end sweeps that are polled. */
  lemma {:induction false} ListeningKeepsGuarded(s: State, event: L.Event, e: EventId)
    requires Inv(s) && Guarded(s, e) && L.Enabled(s.listener, event)
    requires event.Resolved? || event.Rejected? ==> event.sweep in s.sweeps && s.sweeps[event.sweep].Polled?
    ensures Guarded(Listen(s, L.Step(s.listener, event)), e)
  {
    var t := Listen(s, L.Step(s.listener, event));
    if BeingLocked(s, e) {
      var k :| k in s.sweeps && s.sweeps[k].Locking? && s.sweeps[k].todo != [] && s.sweeps[k].todo[0] == e;
      OnlySweep(s, k);
      assert k in t.sweeps && t.sweeps[k] == s.sweeps[k];
      assert BeingLocked(t, e);
    }
  }

  lemma {:induction false} WorkerKeepsGuarded(s: State, t: State, e: EventId)
    requires Guarded(s, e) && t.sweeps == s.sweeps && s.jobs.Keys <= s.rows.Keys
    requires Live(t, e) && e in t.rows && !HasOutcome(t.rows[e]) ==> Live(s, e) && t.rows[e] == s.rows[e]
    ensures Guarded(t, e)
  {
    if BeingLocked(s, e) {
      var k :| k in s.sweeps && s.sweeps[k].Locking? && s.sweeps[k].todo != [] && s.sweeps[k].todo[0] == e;
      assert BeingLocked(t, e);
    }
  }

  lemma {:induction false} StepKeepsGuarded(s: State, step: Step, e: EventId)
    requires Inv(s) && Enabled(s, step) && Guarded(s, e) && TimelyStep(s, step)
    ensures Guarded(Apply(s, step), e)
  {
    if e in s.rows {
      assert EventOk(s, e);
    }
    match step
    case Add(k) => AddKeepsGuarded(s, k, e);
    case Lock(k) => LockKeepsGuarded(s, k, e);
    case Select(k, _) => OnlySweep(s, k);
    case PollFails(k) => OnlySweep(s, k);
    case Trigger => ListeningKeepsGuarded(s, L.Trigger, e);
    case StartListener => ListeningKeepsGuarded(s, L.Start, e);
    case StopListener => ListeningKeepsGuarded(s, L.Stop, e);
    case SweepResolves(k) => ListeningKeepsGuarded(s, L.Resolved(k), e);
    case SweepRejects(k) => ListeningKeepsGuarded(s, L.Rejected(k), e);
    case _ => WorkerKeepsGuarded(s, Apply(s, step), e);
  }

  lemma {:induction false} TimelyRunsSelectNothingLive(s: State, steps: seq<Step>, t: State, e: EventId)
    requires Inv(s) && Run(s, steps, t) && Guarded(s, e) && Timely(s, steps)
    ensures !SelectedWhileLive(s, steps, e)
    decreases |steps|
  {
    if steps == [] {
    } else {
      StepKeepsInv(s, steps[0]);
      GuardedIsNotSelected(s, steps[0], e);
      StepKeepsGuarded(s, steps[0], e);
      TimelyRunsSelectNothingLive(Apply(s, steps[0]), steps[1..], t, e);
    }
  }

  /** So a timely run gives every event one job, and no event more than five dispatch attempts. */
  lemma {:induction false} TimelyRunsUseOneJob(steps: seq<Step>, s: State, e: EventId)
    requires Run(INITIAL, steps, s) && Timely(INITIAL, steps)
    ensures s.created[e] <= 1 && s.dispatched[e] <= 5
  {
    TimelyRunsSelectNothingLive(INITIAL, steps, s, e);
    RunKeepsAddedOnce(INITIAL, steps, s, e);
    RunKeepsInv(INITIAL, steps, s);
    if e in s.rows {
      assert EventOk(s, e);
    }
  }

  /** A delivered row stays delivered, and a recorded error stays recorded. */
  lemma {:induction false} OutcomesStay(s: State, steps: seq<Step>, t: State, e: EventId)
    requires Run(s, steps, t) && e in s.rows
    ensures e in t.rows
    ensures s.rows[e].processedAt.Some? ==> t.rows[e].processedAt.Some?
    ensures s.rows[e].lastError.Some? ==> t.rows[e].lastError.Some?
    decreases |steps|
  {
    if steps == [] {
    } else {
      OutcomesStay(Apply(s, steps[0]), steps[1..], t, e);
    }
  }

  // ---- What the outcomes say ----

  ghost function ErrorOf(s: State, e: EventId): (text: Option<string>) {
    if e in s.rows then s.rows[e].lastError else None
  }

  ghost function DoneAt(s: State, e: EventId): (time: Option<int>) {
    if e in s.rows then s.rows[e].processedAt else None
  }

  /** The message of the last failure the run records for e. */
  function LastFailure(steps: seq<Step>, e: EventId): (message: Option<string>) {
    if steps == [] then None
    else
      var later := LastFailure(steps[1..], e);
      if later.Some? then later
      else if steps[0].RecordFailure? && steps[0].id == e then Some(steps[0].message)
      else None
  }

  /** The time of the last success the run, begun at the time `clock`, records for e. */
  function LastSuccess(clock: int, steps: seq<Step>, e: EventId): (time: Option<int>)
    decreases steps
  {
    if steps == [] then None
    else
      var later := LastSuccess(if steps[0].Tick? then clock + steps[0].millis else clock, steps[1..], e);
      if later.Some? then later
      else if steps[0] == RecordSuccess(e) then Some(clock)
      else None
  }

  /** The row's error is the message of the event's last recorded failure, whatever else happened since. */
  lemma {:induction false} ErrorIsLastFailure(s: State, steps: seq<Step>, t: State, e: EventId)
    requires Run(s, steps, t)
    ensures match LastFailure(steps, e)
            case None => ErrorOf(t, e) == ErrorOf(s, e)
            case Some(message) => ErrorOf(t, e) == Some(if message == "" then "Unknown processing error" else message)
    decreases |steps|
  {
    if steps == [] {
    } else {
      ErrorIsLastFailure(Apply(s, steps[0]), steps[1..], t, e);
    }
  }

  /** ... and its time of processing is that of the last recorded success. */
  lemma {:induction false} ProcessedAtIsLastSuccess(s: State, steps: seq<Step>, t: State, e: EventId)
    requires Run(s, steps, t)
    ensures match LastSuccess(s.clock, steps, e)
            case None => DoneAt(t, e) == DoneAt(s, e)
            case Some(time) => DoneAt(t, e) == Some(time)
    decreases |steps|
  {
    if steps == [] {
    } else {
      ProcessedAtIsLastSuccess(Apply(s, steps[0]), steps[1..], t, e);
    }
  }

  lemma {:induction false} RunStep(s: State, step: Step, steps: seq<Step>, t: State)
    requires Enabled(s, step) && Run(Apply(s, step), steps, t)
    ensures Run(s, [step] + steps, t)
  {
    assert ([step] + steps)[1..] == steps;
  }

  lemma {:induction false} RunsCompose(s: State, xs: seq<Step>, t: State, ys: seq<Step>, u: State)
    requires Run(s, xs, t) && Run(t, ys, u)
    ensures Run(s, xs + ys, u)
    decreases |xs|
  {
    if xs == [] {
      assert xs + ys == ys;
    } else {
      assert (xs + ys)[1..] == xs[1..] + ys;
      RunsCompose(Apply(s, xs[0]), xs[1..], t, ys, u);
    }
  }

  // ---- An uninterrupted poll ----

  function AddAll(jobs: map<EventId, Job>, es: seq<EventId>): (r: map<EventId, Job>)
    decreases es
  {
    if es == [] then jobs else AddAll(AddJob(jobs, es[0]), es[1..])
  }

  function LockAll(rows: map<EventId, Row>, es: seq<EventId>, now: int): (r: map<EventId, Row>)
    decreases es
  {
    if es == [] then rows else LockAll(LockRow(rows, es[0], now), es[1..], now)
  }

  /** Every selected event has a job afterwards; a job that was there is left alone. */
  lemma {:induction false} AddAllAdds(jobs: map<EventId, Job>, es: seq<EventId>, e: EventId)
    ensures e in AddAll(jobs, es) <==> e in jobs || e in es
    ensures e in AddAll(jobs, es) ==> AddAll(jobs, es)[e] == if e in jobs then jobs[e] else Job(0, Waiting)
    decreases es
  {
    if es == [] {
    } else {
      AddAllAdds(AddJob(jobs, es[0]), es[1..], e);
      assert e in es <==> e == es[0] || e in es[1..];
    }
  }

  /** Every selected row is locked afterwards, and only those. */
  lemma {:induction false} LockAllLocks(rows: map<EventId, Row>, es: seq<EventId>, now: int, e: EventId)
    ensures e in LockAll(rows, es, now) <==> e in rows
    ensures e in rows ==>
      LockAll(rows, es, now)[e] == if e in es then rows[e].(lockedUntil := Some(now + LOCK_MILLIS)) else rows[e]
    decreases es
  {
    if es == [] {
    } else {
      LockAllLocks(LockRow(rows, es[0], now), es[1..], now, e);
      assert e in es <==> e == es[0] || e in es[1..];
    }
  }

  /** A row without outcome that a poll has locked at `now` qualifies again once more than five minutes have passed. */
  lemma {:induction false} LockLastsFiveMinutes(rows: map<EventId, Row>, es: seq<EventId>, now: int, e: EventId, later: int)
    requires e in es && e in rows && rows[e].processedAt.None? && rows[e].lastError.None?
    ensures e in LockAll(rows, es, now) && (Eligible(LockAll(rows, es, now)[e], later) <==> later - now > 5 * 60 * 1000)
  {
    LockAllLocks(rows, es, now, e);
  }

  function AddsAndLocks(k: nat, n: nat): (steps: seq<Step>) {
    if n == 0 then [] else [Add(k), Lock(k)] + AddsAndLocks(k, n - 1)
  }

  /** The loop of pollOutbox, when nothing comes between its awaits, is this run of the protocol. */
  lemma {:induction false} UninterruptedPoll(s: State, k: nat, now: int, todo: seq<EventId>) returns (t: State)
    requires k in s.sweeps && s.sweeps[k] == Continue(now, todo)
    ensures Run(s, AddsAndLocks(k, |todo|), t)
    ensures t.jobs == AddAll(s.jobs, todo) && t.rows == LockAll(s.rows, todo, now)
    ensures t.clock == s.clock && t.listener == s.listener && t.sweeps == s.sweeps[k := Polled]
    decreases |todo|
  {
    if todo == [] {
      t := s;
      assert s.sweeps == s.sweeps[k := Polled];
    } else {
      var s2 := AddThenLock(s, k, now, todo);
      var rest := AddsAndLocks(k, |todo| - 1);
      t := UninterruptedPoll(s2, k, now, todo[1..]);
      assert s2.sweeps[k := Polled] == s.sweeps[k := Polled];
      RunsCompose(s, [Add(k), Lock(k)], s2, rest, t);
    }
  }

  lemma {:induction false} AddThenLock(s: State, k: nat, now: int, todo: seq<EventId>) returns (t: State)
    requires k in s.sweeps && s.sweeps[k] == Adding(now, todo) && todo != []
    ensures Run(s, [Add(k), Lock(k)], t)
    ensures t.jobs == AddJob(s.jobs, todo[0]) && t.rows == LockRow(s.rows, todo[0], now)
    ensures t.clock == s.clock && t.listener == s.listener && t.dispatched == s.dispatched
    ensures t.created == if todo[0] in s.jobs then s.created else s.created + multiset{todo[0]}
    ensures t.sweeps == s.sweeps[k := Continue(now, todo[1..])]
  {
    var s1 := Apply(s, Add(k));
    t := Apply(s1, Lock(k));
    assert Run(t, [], t);
    RunStep(s1, Lock(k), [], t);
    RunStep(s, Add(k), [Lock(k)], t);
  }

  /**
   A poll that is not interrupted, and not cut off by the limit, leaves no
   event waiting: every row without outcome then has a live job.
   */
  lemma {:induction false} PollReachesEveryEvent(s: State, k: nat, chosen: seq<EventId>) returns (t: State)
    requires Inv(s) && Enabled(s, Select(k, chosen)) && |chosen| < BATCH
    ensures Run(s, [Select(k, chosen)] + AddsAndLocks(k, |chosen|), t)
    ensures forall e :: e in t.rows && !HasOutcome(t.rows[e]) ==> Live(t, e)
  {
    var s1 := Apply(s, Select(k, chosen));
    t := UninterruptedPoll(s1, k, s.sweeps[k].now, chosen);
    RunStep(s, Select(k, chosen), AddsAndLocks(k, |chosen|), t);
    forall e | e in t.rows && !HasOutcome(t.rows[e]) ensures Live(t, e) {
      PolledEventIsLive(s, t, s.sweeps[k].now, chosen, e);
    }
  }

  lemma {:induction false} PolledEventIsLive(s: State, t: State, now: int, chosen: seq<EventId>, e: EventId)
    requires Inv(s) && Snapshot(s.rows, now, chosen) && |chosen| < BATCH
    requires t.jobs == AddAll(s.jobs, chosen) && t.rows == LockAll(s.rows, chosen, now)
    requires e in t.rows && !HasOutcome(t.rows[e])
    ensures Live(t, e)
  {
    AddAllAdds(s.jobs, chosen, e);
    LockAllLocks(s.rows, chosen, now, e);
    assert EventOk(s, e);
    assert !HasOutcome(s.rows[e]);
    if e !in s.jobs {
      assert Eligible(s.rows[e], now);
      assert e in chosen;
    }
  }

  // ---- The bound is reached ----

  const PENDING_ROW := Row(None, None, None)
  const LOCKED_ROW := Row(None, None, Some(LOCK_MILLIS))
  const LATER := LOCK_MILLIS + 1

  function Idle(clock: int, starts: nat, row: Row, jobs: map<EventId, Job>,
                created: multiset<EventId>, dispatched: multiset<EventId>): (s: State)
  {
    State(clock, L.Flags(false, false, false, {}, starts), map[], map[7 := row], jobs, created, dispatched)
  }

  /** The same state with sweep number `starts` in flight. */
  function Sweeping(s: State, p: Sweep): (t: State) {
    s.(listener := L.Flags(true, false, false, {s.listener.starts}, s.listener.starts + 1),
       sweeps := map[s.listener.starts := p])
  }

  lemma {:induction false} TriggerWhenIdle(s: State)
    requires s.listener == L.Flags(false, false, false, {}, s.listener.starts) && s.sweeps == map[]
    ensures Run(s, [Trigger], Sweeping(s, Selecting(s.clock)))
  {
    var t := Apply(s, Trigger);
    assert t.sweeps == map[s.listener.starts := Selecting(s.clock)];
    assert Run(t, [], t);
    RunStep(s, Trigger, [], t);
  }

  lemma {:induction false} ResolveWhenAlone(s: State)
    requires s.listener == L.Flags(false, false, false, {}, s.listener.starts) && s.sweeps == map[]
    ensures Run(Sweeping(s, Polled), [SweepResolves(s.listener.starts)],
                s.(listener := L.Flags(false, false, false, {}, s.listener.starts + 1)))
  {
    var p := Sweeping(s, Polled);
    var t := Apply(p, SweepResolves(s.listener.starts));
    assert t.listener.active == {} && t.sweeps == map[];
    assert Run(t, [], t);
    RunStep(p, SweepResolves(s.listener.starts), [], t);
  }

  const FIRST_POLL := [Select(0, [7])] + [Add(0), Lock(0)]

  lemma {:induction false} FirstPoll()
    ensures Run(Sweeping(Idle(0, 0, PENDING_ROW, map[], multiset{}, multiset{}), Selecting(0)), FIRST_POLL,
                Sweeping(Idle(0, 0, LOCKED_ROW, map[7 := Job(0, Waiting)], multiset{7}, multiset{}), Polled))
  {
    var s := Sweeping(Idle(0, 0, PENDING_ROW, map[], multiset{}, multiset{}), Selecting(0));
    var s1 := Apply(s, Select(0, [7]));
    var t := AddThenLock(s1, 0, 0, [7]);
    assert t.rows == map[7 := LOCKED_ROW] && t.jobs == map[7 := Job(0, Waiting)];
    assert t.sweeps == map[0 := Polled] && t.created == multiset{7};
    assert t == Sweeping(Idle(0, 0, LOCKED_ROW, map[7 := Job(0, Waiting)], multiset{7}, multiset{}), Polled);
    RunStep(s, Select(0, [7]), [Add(0), Lock(0)], t);
  }

  const FIRST_SWEEP := [Trigger] + (FIRST_POLL + [SweepResolves(0)])

  /** One complete sweep over the single row 7. */
  lemma {:induction false} FirstSweep()
    ensures Run(Idle(0, 0, PENDING_ROW, map[], multiset{}, multiset{}), FIRST_SWEEP,
                Idle(0, 1, LOCKED_ROW, map[7 := Job(0, Waiting)], multiset{7}, multiset{}))
  {
    var before := Idle(0, 0, PENDING_ROW, map[], multiset{}, multiset{});
    var locked := Idle(0, 0, LOCKED_ROW, map[7 := Job(0, Waiting)], multiset{7}, multiset{});
    var after := Idle(0, 1, LOCKED_ROW, map[7 := Job(0, Waiting)], multiset{7}, multiset{});
    TriggerWhenIdle(before);
    FirstPoll();
    ResolveWhenAlone(locked);
    RunsCompose(Sweeping(before, Selecting(0)), FIRST_POLL, Sweeping(locked, Polled), [SweepResolves(0)], after);
    RunsCompose(before, [Trigger], Sweeping(before, Selecting(0)), FIRST_POLL + [SweepResolves(0)], after);
  }

  /** n attempts that fail, then one that succeeds. */
  lemma {:induction false} Attempts(s: State, e: EventId, n: nat) returns (steps: seq<Step>, t: State)
    requires e in s.rows && e in s.jobs && s.jobs[e].phase == Waiting && s.jobs[e].attempts + n < MAX_ATTEMPTS
    ensures Run(s, steps, t)
    ensures t.sweeps == s.sweeps && t.listener == s.listener && t.created == s.created
    ensures t.jobs == s.jobs - {e} && t.rows.Keys == s.rows.Keys && t.rows[e].processedAt.Some?
    ensures t.dispatched[e] == s.dispatched[e] + n + 1
    decreases n
  {
    var begun := Apply(s, Begin(e));
    var outcome := if n == 0 then RecordSuccess(e) else RecordFailure(e, "down");
    var recorded := Apply(begun, outcome);
    var settled := Apply(recorded, Settle(e));
    if n == 0 {
      steps, t := [], settled;
    } else {
      steps, t := Attempts(settled, e, n - 1);
    }
    RunStep(recorded, Settle(e), steps, t);
    steps := [Settle(e)] + steps;
    RunStep(begun, outcome, steps, t);
    steps := [outcome] + steps;
    RunStep(s, Begin(e), steps, t);
    steps := [Begin(e)] + steps;
  }

  /**
   Both bounds are reached: the first lock expires while the job still waits, the
   next sweep takes its snapshot, the job succeeds at its fifth attempt before
   that sweep adds, and the second job needs five attempts too.
   */
  lemma {:induction false} BoundsAreReached() returns (steps: seq<Step>, s: State)
    ensures Run(INITIAL, steps, s) && s.created[7] == 2 && s.dispatched[7] == 10
  {
    var s0 := Idle(0, 0, PENDING_ROW, map[], multiset{}, multiset{});
    var s1 := Idle(0, 1, LOCKED_ROW, map[7 := Job(0, Waiting)], multiset{7}, multiset{});
    var s2 := Idle(LATER, 1, LOCKED_ROW, map[7 := Job(0, Waiting)], multiset{7}, multiset{});
    FirstSweep();
    assert Apply(INITIAL, InsertRow(7)) == s0;
    RunStep(INITIAL, InsertRow(7), FIRST_SWEEP, s1);
    assert Run(s2, [], s2);
    RunStep(s1, Tick(LATER), [], s2);
    RunsCompose(INITIAL, [InsertRow(7)] + FIRST_SWEEP, s1, [Tick(LATER)], s2);
    TriggerWhenIdle(s2);
    steps := ([InsertRow(7)] + FIRST_SWEEP) + [Tick(LATER)];
    RunsCompose(INITIAL, steps, s2, [Trigger], Sweeping(s2, Selecting(LATER)));
    var rest := SecondSweep(Sweeping(s2, Selecting(LATER)));
    s := rest.1;
    RunsCompose(INITIAL, steps + [Trigger], Sweeping(s2, Selecting(LATER)), rest.0, s);
    steps := (steps + [Trigger]) + rest.0;
  }

  lemma {:induction false} SecondSweep(s: State) returns (rest: (seq<Step>, State))
    requires s.sweeps == map[1 := Selecting(LATER)] && s.rows == map[7 := LOCKED_ROW]
    requires s.jobs == map[7 := Job(0, Waiting)] && s.created == multiset{7} && s.dispatched == multiset{}
    ensures Run(s, rest.0, rest.1)
    ensures rest.1.created[7] == 2 && rest.1.dispatched[7] == 2 * MAX_ATTEMPTS
  {
    var s1 := Apply(s, Select(1, [7]));
    var xs, s2 := Attempts(s1, 7, 4);
    var s3 := Apply(s2, Add(1));
    var ys, s4 := Attempts(s3, 7, 4);
    RunStep(s2, Add(1), ys, s4);
    RunsCompose(s1, xs, s2, [Add(1)] + ys, s4);
    RunStep(s, Select(1, [7]), xs + ([Add(1)] + ys), s4);
    rest := ([Select(1, [7])] + (xs + ([Add(1)] + ys)), s4);
  }

  // ---- The two operations as the worker runs them ----

  /** How one active webhook answered. */
  datatype Delivery = Answered(webhookId: string, ok: bool, status: int) | Threw(webhookId: string, message: string)

  predicate Delivered(d: Delivery) {
    d.Answered? && d.ok
  }

  function ErrorText(d: Delivery): (r: string)
    requires !Delivered(d)
  {
    match d
    case Answered(id, _, status) => "Webhook " + id + " returned status " + JsonText.IntText(status)
    case Threw(id, message) => "Webhook " + id + " error: " + message
  }

  /** One message per webhook that did not take the event, in order. */
  function Errors(ds: seq<Delivery>): (r: seq<string>)
    ensures r == [] <==> forall d :: d in ds ==> Delivered(d)
  {
    if ds == [] then []
    else
      var last := ds[|ds| - 1];
      assert ds == ds[..|ds| - 1] + [last];
      Errors(ds[..|ds| - 1]) + if Delivered(last) then [] else [ErrorText(last)]
  }

  function Join(parts: seq<string>, separator: string): (r: string) {
    if parts == [] then ""
    else if |parts| == 1 then parts[0]
    else parts[0] + separator + Join(parts[1..], separator)
  }

  function Failing(): (p: Delivery -> bool) {
    (d: Delivery) => !(d.Answered? && d.ok)
  }

  ghost predicate Describes(text: string, d: Delivery) {
    match d
    case Answered(id, _, status) => text == "Webhook " + id + " returned status " + JsonText.IntText(status)
    case Threw(id, message) => text == "Webhook " + id + " error: " + message
  }

  ghost predicate DescribeAll(texts: seq<string>, failing: seq<Delivery>) {
    |texts| == |failing| && forall i :: 0 <= i < |failing| ==> Describes(texts[i], failing[i])
  }

  lemma {:induction false} OneMoreFailure(texts: seq<string>, failing: seq<Delivery>, d: Delivery)
    requires DescribeAll(texts, failing) && !Delivered(d)
    ensures DescribeAll(texts + [ErrorText(d)], failing + [d])
  {
  }

  lemma {:induction false} FailingMore(ds: seq<Delivery>, d: Delivery)
    ensures Q.Filter(Failing(), ds + [d]) == if Delivered(d) then Q.Filter(Failing(), ds) else Q.Filter(Failing(), ds) + [d]
  {
    Q.FilterConcat(Failing(), ds, [d]);
  }

  lemma {:induction false} ErrorsMore(ds: seq<Delivery>, d: Delivery)
    ensures Errors(ds + [d]) == if Delivered(d) then Errors(ds) else Errors(ds) + [ErrorText(d)]
  {
    assert (ds + [d])[..|ds|] == ds;
  }

  lemma {:induction false} DescribeMore(ds: seq<Delivery>, d: Delivery)
    requires DescribeAll(Errors(ds), Q.Filter(Failing(), ds))
    ensures DescribeAll(Errors(ds + [d]), Q.Filter(Failing(), ds + [d]))
  {
    FailingMore(ds, d);
    ErrorsMore(ds, d);
    if !Delivered(d) {
      OneMoreFailure(Errors(ds), Q.Filter(Failing(), ds), d);
    }
  }

  /** There is one message for each webhook that did not take the event, in order. */
  lemma {:induction false} ErrorsDescribeFailures(ds: seq<Delivery>)
    ensures DescribeAll(Errors(ds), Q.Filter(Failing(), ds))
    decreases ds
  {
    if ds == [] {
    } else {
      var init, last := ds[..|ds| - 1], ds[|ds| - 1];
      ErrorsDescribeFailures(init);
      DescribeMore(init, last);
      LastIsAppended(ds, init, last);
    }
  }

  lemma {:induction false} LastIsAppended(ds: seq<Delivery>, init: seq<Delivery>, last: Delivery)
    requires ds != [] && init == ds[..|ds| - 1] && last == ds[|ds| - 1]
    ensures init + [last] == ds
  {
  }

  ghost predicate Holds(text: string, part: string) {
    exists before, after :: text == before + part + after
  }

  /** The text says which webhook failed, and with which status or message. */
  ghost predicate NamesFailure(text: string, d: Delivery) {
    exists part :: Describes(part, d) && Holds(text, part)
  }

  lemma {:induction false} HoldsWithin(before: string, text: string, after: string, part: string)
    requires Holds(text, part)
    ensures Holds(before + text + after, part)
  {
    var x, y :| text == x + part + y;
    assert before + (x + part + y) + after == (before + x) + part + (y + after);
  }

  lemma {:induction false} JoinHolds(parts: seq<string>, separator: string, part: string)
    requires part in parts
    ensures Holds(Join(parts, separator), part)
    decreases parts
  {
    var rest := parts[1..];
    if parts[0] == part {
      var more := if |parts| == 1 then "" else separator + Join(rest, separator);
      assert Join(parts, separator) == "" + part + more;
    } else {
      assert part in rest;
      JoinHolds(rest, separator, part);
      HoldsWithin(parts[0] + separator, Join(rest, separator), "", part);
      assert Join(parts, separator) == parts[0] + separator + Join(rest, separator) + "";
    }
  }

  lemma {:induction false} FailuresAreListed(ds: seq<Delivery>, d: Delivery)
    requires d in ds && !Delivered(d)
    ensures ErrorText(d) in Errors(ds)
    decreases ds
  {
    var init, last := ds[..|ds| - 1], ds[|ds| - 1];
    if d != last {
      assert d in init;
      FailuresAreListed(init, d);
    }
  }

  /** The message that is thrown names every webhook that did not take the event. */
  lemma {:induction false} ThrownNamesFailures(ds: seq<Delivery>, d: Delivery)
    requires d in ds && !(d.Answered? && d.ok)
    ensures NamesFailure("Webhook dispatch failed: " + Join(Errors(ds), "; "), d)
  {
    FailuresAreListed(ds, d);
    JoinHolds(Errors(ds), "; ", ErrorText(d));
    HoldsWithin("Webhook dispatch failed: ", Join(Errors(ds), "; "), "", ErrorText(d));
    assert "Webhook dispatch failed: " + Join(Errors(ds), "; ") + "" == "Webhook dispatch failed: " + Join(Errors(ds), "; ");
  }

  class Relay {
    var rows: map<EventId, Row>
    var jobs: map<EventId, Job>

    /** The loop of pollOutbox over the rows its select returned. */
    method PollOutbox(now: int, pendingEvents: seq<EventId>)
      modifies this
      ensures jobs == AddAll(old(jobs), pendingEvents)
      ensures rows == LockAll(old(rows), pendingEvents, now)
    {
      for i := 0 to |pendingEvents|
        invariant AddAll(jobs, pendingEvents[i..]) == AddAll(old(jobs), pendingEvents)
        invariant LockAll(rows, pendingEvents[i..], now) == LockAll(old(rows), pendingEvents, now)
      {
        var event := pendingEvents[i];
        assert pendingEvents[i..][0] == event && pendingEvents[i..][1..] == pendingEvents[i + 1..];
        if event !in jobs {
          jobs := jobs[event := Job(0, Waiting)];
        }
        var lockTime := now + 5 * 60000;
        if event in rows {
          rows := rows[event := rows[event].(lockedUntil := Some(lockTime))];
        }
      }
    }

    /** The webhook loop of processEvent. */
    method Dispatch(active: seq<Delivery>) returns (errors: seq<string>)
      ensures errors == Errors(active)
    {
      errors := [];
      for i := 0 to |active|
        invariant errors == Errors(active[..i])
      {
        var wh := active[i];
        assert active[..i + 1][..i] == active[..i];
        match wh {
          case Answered(_, ok, _) =>
            if !ok {
              errors := errors + [ErrorText(wh)];
            }
          case Threw(_, _) =>
            errors := errors + [ErrorText(wh)];
        }
      }
      assert active[..|active|] == active;
    }

    /**
     processEvent: the row is marked done when every webhook took the event
     (trivially when there is none), and failed, with every error named,
     otherwise; in the second case the error is rethrown to the queue.
     */
    method ProcessEvent(eventId: EventId, clock: int, webhooks: Result<seq<Delivery>, string>) returns (thrown: Option<string>)
      requires eventId in rows
      modifies this
      ensures jobs == old(jobs)
      ensures thrown.None? <==> webhooks.Ok? && forall d :: d in webhooks.value ==> d.Answered? && d.ok
      ensures eventId in rows && rows == old(rows)[eventId := rows[eventId]]
      ensures rows[eventId].lockedUntil == None
      ensures thrown.None? ==>
        rows[eventId].processedAt == Some(clock) && rows[eventId].lastError == old(rows[eventId].lastError)
      ensures thrown.Some? ==>
        && rows[eventId].processedAt == old(rows[eventId].processedAt)
        && rows[eventId].lastError == Some(if thrown.value == "" then "Unknown processing error" else thrown.value)
      ensures webhooks.Err? ==> thrown == Some(webhooks.error)
      ensures webhooks.Ok? && thrown.Some? ==>
        && rows[eventId].lastError == thrown
        && thrown.value == "Webhook dispatch failed: " + Join(Errors(webhooks.value), "; ")
        && forall d :: d in webhooks.value && !(d.Answered? && d.ok) ==> NamesFailure(thrown.value, d)
      ensures rows[eventId] == if thrown.None? then MarkDone(old(rows[eventId]), clock) else MarkFailed(old(rows[eventId]), thrown.value)
    {
      thrown := None;
      match webhooks {
        case Err(message) =>
          thrown := Some(message);
        case Ok(active) =>
          var errors := Dispatch(active);
          if |errors| > 0 {
            thrown := Some("Webhook dispatch failed: " + Join(errors, "; "));
            forall d | d in active && !(d.Answered? && d.ok) ensures NamesFailure(thrown.value, d) {
              ThrownNamesFailures(active, d);
            }
          }
      }
      if thrown.None? {
        rows := rows[eventId := rows[eventId].(processedAt := Some(clock), lockedUntil := None)];
      } else {
        var message := if thrown.value == "" then "Unknown processing error" else thrown.value;
        rows := rows[eventId := rows[eventId].(lastError := Some(message), lockedUntil := None)];
      }
    }
  }
}
