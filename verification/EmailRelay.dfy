/**
 The email outbox: a single poller picks pending emails whose retry time has
 come, sends them or fails them, and backs off exponentially.

 What is written for one email is one step, except where a read comes between:
 a batch failure that is the last marks the row, then reads who queued the email,
 and only then inserts the events.  Time passes and emails are queued between
 steps.  Dates are milliseconds.
 */
module EmailRelay {
  import opened Wrappers

  type EmailId = nat

  const MINUTE := 60000
  const MAX_RETRIES := 5
  const BATCH := 50

  datatype Status = Pending | Sent | Failed

  datatype Email = Email(status: Status, retries: nat, nextRetryAt: Option<int>, hasEntity: bool)

  /**
   What the poller appends: events of the email itself, events of the entity it
   belongs to, and outbox rows, each for emails sent and for emails given up.
   */
  datatype Log = Log(
    sentEvents: multiset<EmailId>,
    failedEvents: multiset<EmailId>,
    entitySent: multiset<EmailId>,
    entityFailed: multiset<EmailId>,
    outboxSent: multiset<EmailId>,
    outboxFailed: multiset<EmailId>)

  const EMPTY_LOG := Log(multiset{}, multiset{}, multiset{}, multiset{}, multiset{}, multiset{})

  datatype Records = Records(emails: map<EmailId, Email>, log: Log)

  /** A row as the select returned it. */
  datatype Snap = Snap(id: EmailId, retries: nat, hasEntity: bool)

  function Pow2(n: nat): (p: nat)
    ensures p > 0
  {
    if n == 0 then 1 else 2 * Pow2(n - 1)
  }

  function FailedEmail(e: Email, retries: nat, t: int): (r: Email) {
    e.(retries := retries + 1,
       status := if retries + 1 >= MAX_RETRIES then Failed else Pending,
       nextRetryAt := Some(t + Pow2(retries) * MINUTE))
  }

  function AddIf(m: multiset<EmailId>, id: EmailId, b: bool): (r: multiset<EmailId>)
    ensures forall x :: r[x] == m[x] + if b && x == id then 1 else 0
  {
    if b then m + multiset{id} else m
  }

  function LogFailure(log: Log, snap: Snap): (r: Log) {
    var last := snap.retries + 1 >= MAX_RETRIES;
    log.(failedEvents := AddIf(log.failedEvents, snap.id, last),
         entityFailed := AddIf(log.entityFailed, snap.id, last && snap.hasEntity),
         outboxFailed := AddIf(log.outboxFailed, snap.id, last && snap.hasEntity))
  }

  function LogSent(log: Log, snap: Snap): (r: Log) {
    log.(sentEvents := AddIf(log.sentEvents, snap.id, true),
         entitySent := AddIf(log.entitySent, snap.id, snap.hasEntity),
         outboxSent := AddIf(log.outboxSent, snap.id, snap.hasEntity))
  }

  /** The update of the row after a failed attempt at time t. */
  function MarkFailure(r: Records, snap: Snap, t: int): (r': Records) {
    if snap.id !in r.emails then r
    else r.(emails := r.emails[snap.id := FailedEmail(r.emails[snap.id], snap.retries, t)])
  }

  /** A failed attempt with everything it records, when nothing comes between the update and the inserts. */
  function RecordFailure(r: Records, snap: Snap, t: int): (r': Records) {
    if snap.id !in r.emails then r
    else MarkFailure(r, snap, t).(log := LogFailure(r.log, snap))
  }

  function RecordSent(r: Records, snap: Snap): (r': Records) {
    if snap.id !in r.emails then r
    else Records(r.emails[snap.id := r.emails[snap.id].(status := Sent)], LogSent(r.log, snap))
  }

  // ---- The protocol ----

  datatype Poll =
    | Idle
    | Selecting(now: int)
    | Checking(todo: seq<Snap>)      // settings, password and connection are being checked
    | FailingAll(todo: seq<Snap>)
    | Logging(todo: seq<Snap>)       // todo[0] is marked failed; its queued event is being read
    | SendingAll(todo: seq<Snap>)

  /**
   failures and lost are history: the times of the failed attempts of each email,
   and the emails whose last failure was marked by a batch and whose read then threw.
   */
  datatype State = State(clock: int, records: Records, poll: Poll, failures: map<EmailId, seq<int>>, lost: set<EmailId>)

  datatype Step =
    | Tick(millis: nat)
    | Queue(id: EmailId, hasEntity: bool)
    | BeginPoll
    | Select(chosen: seq<Snap>)
    | CheckFails
    | CheckPasses
    | FailNext
    | LogNext
    | SendNext(ok: bool)
    | EndPoll
    | Abandon                        // a read throws, and the poll ends where it is

  const INITIAL := State(0, Records(map[], EMPTY_LOG), Idle, map[], {})

  predicate Due(e: Email, now: int) {
    e.status == Pending && (e.nextRetryAt.None? || e.nextRetryAt.value <= now)
  }

  function Queued(hasEntity: bool): (e: Email) { Email(Pending, 0, None, hasEntity) }

  ghost predicate Distinct(snaps: seq<Snap>) {
    forall i, j :: 0 <= i < j < |snaps| ==> snaps[i].id != snaps[j].id
  }

  /** The snapshot is of the rows as they are. */
  ghost predicate Current(emails: map<EmailId, Email>, snap: Snap) {
    && snap.id in emails
    && emails[snap.id].retries == snap.retries && emails[snap.id].hasEntity == snap.hasEntity
  }

  ghost predicate Chosen(chosen: seq<Snap>, id: EmailId) {
    exists i :: 0 <= i < |chosen| && chosen[i].id == id
  }

  ghost predicate Enabled(s: State, step: Step) {
    match step
    case Tick(_) => true
    case Queue(id, _) => id !in s.records.emails
    case BeginPoll => s.poll.Idle?
    case Select(chosen) =>
      && s.poll.Selecting? && Distinct(chosen) && |chosen| <= BATCH
      && (forall snap :: snap in chosen ==>
           Current(s.records.emails, snap) && Due(s.records.emails[snap.id], s.poll.now))
      && (|chosen| < BATCH ==> forall id :: id in s.records.emails && Due(s.records.emails[id], s.poll.now) ==> Chosen(chosen, id))
    case CheckFails => s.poll.Checking?
    case CheckPasses => s.poll.Checking?
    case FailNext => s.poll.FailingAll? && s.poll.todo != []
    case LogNext => s.poll.Logging? && s.poll.todo != []
    case SendNext(_) => s.poll.SendingAll? && s.poll.todo != []
    case EndPoll => (s.poll.FailingAll? || s.poll.SendingAll? || s.poll.Checking?) && s.poll.todo == []
    case Abandon => !s.poll.Idle?
  }

  function NoteTime(failures: map<EmailId, seq<int>>, id: EmailId, t: int): (r: map<EmailId, seq<int>>) {
    failures[id := (if id in failures then failures[id] else []) + [t]]
  }

  function NoteFailure(s: State, snap: Snap): (t: State) {
    s.(records := RecordFailure(s.records, snap, s.clock), failures := NoteTime(s.failures, snap.id, s.clock))
  }

  predicate IsLast(snap: Snap) {
    snap.retries + 1 >= MAX_RETRIES
  }

  /** The email that is marked and not logged yet. */
  function Marked(p: Poll): (ids: set<EmailId>) {
    if p.Logging? && p.todo != [] then {p.todo[0].id} else {}
  }

  ghost function Apply(s: State, step: Step): (t: State)
    requires Enabled(s, step)
  {
    match step
    case Tick(d) => s.(clock := s.clock + d)
    case Queue(id, hasEntity) =>
      s.(records := s.records.(emails := s.records.emails[id := Queued(hasEntity)]), failures := s.failures[id := []])
    case BeginPoll => s.(poll := Selecting(s.clock))
    case Select(chosen) => s.(poll := Checking(chosen))
    case CheckFails => s.(poll := FailingAll(s.poll.todo))
    case CheckPasses => s.(poll := SendingAll(s.poll.todo))
    case FailNext =>
      var snap := s.poll.todo[0];
      s.(records := MarkFailure(s.records, snap, s.clock), failures := NoteTime(s.failures, snap.id, s.clock),
         poll := if IsLast(snap) then Logging(s.poll.todo) else FailingAll(s.poll.todo[1..]))
    case LogNext =>
      s.(records := s.records.(log := LogFailure(s.records.log, s.poll.todo[0])), poll := FailingAll(s.poll.todo[1..]))
    case SendNext(ok) =>
      (if ok then s.(records := RecordSent(s.records, s.poll.todo[0])) else NoteFailure(s, s.poll.todo[0]))
        .(poll := SendingAll(s.poll.todo[1..]))
    case EndPoll => s.(poll := Idle)
    case Abandon => s.(poll := Idle, lost := s.lost + Marked(s.poll))
  }

  ghost predicate Run(s: State, steps: seq<Step>, t: State)
    decreases |steps|
  {
    if steps == [] then s == t
    else Enabled(s, steps[0]) && Run(Apply(s, steps[0]), steps[1..], t)
  }

  // ---- The invariant ----

  /** Attempts k and k+1 are at least 2^(k-1) minutes apart. */
  ghost predicate Spaced(times: seq<int>) {
    forall i: nat :: i + 1 < |times| ==> times[i + 1] - times[i] >= Pow2(i) * MINUTE
  }

  function Indicator(b: bool): (n: nat) { if b then 1 else 0 }

  ghost predicate EmailOk(e: Email, times: seq<int>) {
    && match e.status {
         case Pending => e.retries < MAX_RETRIES
         case Failed => e.retries == MAX_RETRIES
         case Sent => e.retries < MAX_RETRIES
       }
    && |times| == e.retries && Spaced(times)
    && (e.retries == 0 ==> e.nextRetryAt == None)
    && (e.retries > 0 ==> e.nextRetryAt == Some(times[e.retries - 1] + Pow2(e.retries - 1) * MINUTE))
  }

  /** The log tells how the email ended, unless its failure is not logged. */
  ghost predicate LogOk(log: Log, id: EmailId, e: Email, unlogged: bool) {
    && (unlogged ==> e.status == Failed)
    && log.sentEvents[id] == Indicator(e.status == Sent)
    && log.failedEvents[id] == Indicator(e.status == Failed && !unlogged)
    && log.entitySent[id] == log.outboxSent[id] == Indicator(e.status == Sent && e.hasEntity)
    && log.entityFailed[id] == log.outboxFailed[id] == Indicator(e.status == Failed && !unlogged && e.hasEntity)
  }

  /** Nothing is logged for an id. */
  ghost predicate Unlogged(log: Log, id: EmailId) {
    && log.sentEvents[id] == log.failedEvents[id] == log.entitySent[id] == 0
    && log.outboxSent[id] == log.entityFailed[id] == log.outboxFailed[id] == 0
  }

  ghost predicate RecordOk(r: Records, failures: map<EmailId, seq<int>>, unlogged: set<EmailId>, id: EmailId)
    requires failures.Keys == r.emails.Keys
  {
    if id in r.emails then EmailOk(r.emails[id], failures[id]) && LogOk(r.log, id, r.emails[id], id in unlogged)
    else id !in unlogged && Unlogged(r.log, id)
  }

  ghost predicate RecordsOk(r: Records, failures: map<EmailId, seq<int>>, unlogged: set<EmailId>) {
    && failures.Keys == r.emails.Keys
    && forall id: EmailId :: RecordOk(r, failures, unlogged, id)
  }

  ghost predicate SnapOk(emails: map<EmailId, Email>, snap: Snap, now: int) {
    Current(emails, snap) && Due(emails[snap.id], now)
  }

  ghost predicate TodoOk(emails: map<EmailId, Email>, todo: seq<Snap>, now: int) {
    Distinct(todo) && forall snap :: snap in todo ==> SnapOk(emails, snap, now)
  }

  ghost predicate PollOk(s: State) {
    match s.poll
    case Idle => true
    case Selecting(now) => now <= s.clock
    case Checking(todo) => TodoOk(s.records.emails, todo, s.clock)
    case FailingAll(todo) => TodoOk(s.records.emails, todo, s.clock)
    case Logging(todo) =>
      && todo != [] && Distinct(todo) && IsLast(todo[0]) && todo[0].id !in s.lost
      && Current(s.records.emails, todo[0].(retries := todo[0].retries + 1)) && s.records.emails[todo[0].id].status == Failed
      && TodoOk(s.records.emails, todo[1..], s.clock)
    case SendingAll(todo) => TodoOk(s.records.emails, todo, s.clock)
  }

  ghost predicate Inv(s: State) {
    RecordsOk(s.records, s.failures, s.lost + Marked(s.poll)) && PollOk(s)
  }

  lemma {:induction false} SpacedAppend(times: seq<int>, t: int)
    requires Spaced(times) && (times != [] ==> t - times[|times| - 1] >= Pow2(|times| - 1) * MINUTE)
    ensures Spaced(times + [t])
  {
    var longer := times + [t];
    forall i: nat | i + 1 < |longer| ensures longer[i + 1] - longer[i] >= Pow2(i) * MINUTE {
      if i + 1 < |times| {
        assert longer[i + 1] == times[i + 1] && longer[i] == times[i];
      }
    }
  }

  lemma {:induction false} FailedEmailIsOk(e: Email, times: seq<int>, t: int)
    requires EmailOk(e, times) && Due(e, t)
    ensures EmailOk(FailedEmail(e, e.retries, t), times + [t])
  {
    SpacedAppend(times, t);
  }

  lemma {:induction false} FailureIsLogged(log: Log, snap: Snap, e: Email, t: int)
    requires LogOk(log, snap.id, e, false) && e.status == Pending && e.hasEntity == snap.hasEntity && e.retries == snap.retries
    ensures LogOk(LogFailure(log, snap), snap.id, FailedEmail(e, snap.retries, t), false)
    ensures LogOk(log, snap.id, FailedEmail(e, snap.retries, t), IsLast(snap))
  {
  }

  lemma {:induction false} LateLogIsLogged(log: Log, snap: Snap, e: Email)
    requires LogOk(log, snap.id, e, true) && e.hasEntity == snap.hasEntity && IsLast(snap)
    ensures LogOk(LogFailure(log, snap), snap.id, e, false)
  {
  }

  lemma {:induction false} FailureKeepsRecords(
    r: Records, failures: map<EmailId, seq<int>>, unlogged: set<EmailId>, snap: Snap, t: int)
    requires RecordsOk(r, failures, unlogged) && SnapOk(r.emails, snap, t)
    ensures RecordsOk(RecordFailure(r, snap, t), NoteTime(failures, snap.id, t), unlogged)
    ensures RecordsOk(MarkFailure(r, snap, t), NoteTime(failures, snap.id, t), unlogged + if IsLast(snap) then {snap.id} else {})
    ensures snap.id !in unlogged
  {
    var failures' := NoteTime(failures, snap.id, t);
    var marked := unlogged + if IsLast(snap) then {snap.id} else {};
    assert RecordOk(r, failures, unlogged, snap.id);
    forall id: EmailId
      ensures RecordOk(RecordFailure(r, snap, t), failures', unlogged, id)
      ensures RecordOk(MarkFailure(r, snap, t), failures', marked, id)
    {
      assert RecordOk(r, failures, unlogged, id);
      if id == snap.id {
        FailedEmailIsOk(r.emails[id], failures[id], t);
        FailureIsLogged(r.log, snap, r.emails[id], t);
      }
    }
  }

  lemma {:induction false} LoggingKeepsRecords(r: Records, failures: map<EmailId, seq<int>>, lost: set<EmailId>, snap: Snap)
    requires RecordsOk(r, failures, lost + {snap.id}) && snap.id !in lost && IsLast(snap)
    requires snap.id in r.emails && r.emails[snap.id].hasEntity == snap.hasEntity
    ensures RecordsOk(r.(log := LogFailure(r.log, snap)), failures, lost)
  {
    forall id: EmailId ensures RecordOk(r.(log := LogFailure(r.log, snap)), failures, lost, id) {
      assert RecordOk(r, failures, lost + {snap.id}, id);
      if id == snap.id {
        LateLogIsLogged(r.log, snap, r.emails[id]);
      }
    }
  }

  lemma {:induction false} SendingKeepsRecords(
    r: Records, failures: map<EmailId, seq<int>>, unlogged: set<EmailId>, snap: Snap, t: int)
    requires RecordsOk(r, failures, unlogged) && SnapOk(r.emails, snap, t)
    ensures RecordsOk(RecordSent(r, snap), failures, unlogged)
  {
    forall id: EmailId ensures RecordOk(RecordSent(r, snap), failures, unlogged, id) {
      assert RecordOk(r, failures, unlogged, id);
    }
  }

  /** The rest of the snapshot stays good when only its first email changes. */
  lemma {:induction false} RestStaysOk(emails: map<EmailId, Email>, todo: seq<Snap>, now: int, e: Email)
    requires todo != [] && TodoOk(emails, todo, now)
    ensures TodoOk(emails[todo[0].id := e], todo[1..], now)
  {
    forall snap | snap in todo[1..] ensures SnapOk(emails[todo[0].id := e], snap, now) {
      var i :| 0 <= i < |todo| - 1 && todo[1..][i] == snap;
      assert todo[i + 1] == snap && snap in todo && snap.id != todo[0].id;
      assert SnapOk(emails, snap, now);
    }
    assert forall i :: 0 <= i < |todo| - 1 ==> todo[1..][i] == todo[i + 1];
  }

  lemma {:induction false} SendKeepsInv(s: State, ok: bool)
    requires Inv(s) && Enabled(s, SendNext(ok))
    ensures Inv(Apply(s, SendNext(ok)))
  {
    var snap := s.poll.todo[0];
    assert s.lost + {} == s.lost;
    assert SnapOk(s.records.emails, snap, s.clock);
    FailureKeepsRecords(s.records, s.failures, s.lost, snap, s.clock);
    SendingKeepsRecords(s.records, s.failures, s.lost, snap, s.clock);
    RestStaysOk(s.records.emails, s.poll.todo, s.clock, Apply(s, SendNext(ok)).records.emails[snap.id]);
  }

  lemma {:induction false} FailKeepsInv(s: State)
    requires Inv(s) && Enabled(s, FailNext)
    ensures Inv(Apply(s, FailNext))
  {
    var snap := s.poll.todo[0];
    assert s.lost + {} == s.lost;
    assert SnapOk(s.records.emails, snap, s.clock);
    FailureKeepsRecords(s.records, s.failures, s.lost, snap, s.clock);
    RestStaysOk(s.records.emails, s.poll.todo, s.clock, Apply(s, FailNext).records.emails[snap.id]);
  }

  lemma {:induction false} LogKeepsInv(s: State)
    requires Inv(s) && Enabled(s, LogNext)
    ensures Inv(Apply(s, LogNext))
  {
    assert s.lost + {} == s.lost;
    LoggingKeepsRecords(s.records, s.failures, s.lost, s.poll.todo[0]);
  }

  lemma {:induction false} AbandonKeepsInv(s: State)
    requires Inv(s) && Enabled(s, Abandon)
    ensures Inv(Apply(s, Abandon))
  {
    assert s.lost + Marked(s.poll) + {} == s.lost + Marked(s.poll);
  }

  lemma {:induction false} TodoStaysOk(
    emails: map<EmailId, Email>, more: map<EmailId, Email>, todo: seq<Snap>, now: int, later: int)
    requires TodoOk(emails, todo, now) && now <= later
    requires forall id :: id in emails ==> id in more && more[id] == emails[id]
    ensures TodoOk(more, todo, later)
  {
    forall snap | snap in todo ensures SnapOk(more, snap, later) {
      assert SnapOk(emails, snap, now);
    }
  }

  /** A step outside the poll: emails are only added, and time only passes. */
  lemma {:induction false} OutsideKeepsPollOk(s: State, t: State)
    requires PollOk(s) && t.poll == s.poll && s.clock <= t.clock && t.lost == s.lost
    requires forall id :: id in s.records.emails ==>
      id in t.records.emails && t.records.emails[id] == s.records.emails[id]
    ensures PollOk(t)
  {
    if s.poll.Checking? || s.poll.FailingAll? || s.poll.SendingAll? {
      TodoStaysOk(s.records.emails, t.records.emails, s.poll.todo, s.clock, t.clock);
    }
    if s.poll.Logging? {
      TodoStaysOk(s.records.emails, t.records.emails, s.poll.todo[1..], s.clock, t.clock);
    }
  }

  lemma {:induction false} StepKeepsInv(s: State, step: Step)
    requires Inv(s) && Enabled(s, step)
    ensures Inv(Apply(s, step))
  {
    match step
    case FailNext => FailKeepsInv(s);
    case LogNext => LogKeepsInv(s);
    case SendNext(ok) => SendKeepsInv(s, ok);
    case Abandon => AbandonKeepsInv(s);
    case Tick(_) => OutsideKeepsPollOk(s, Apply(s, step));
    case Queue(id, _) =>
      var t := Apply(s, step);
      OutsideKeepsPollOk(s, t);
      var unlogged := s.lost + Marked(s.poll);
      forall x: EmailId ensures RecordOk(t.records, t.failures, unlogged, x) {
        assert RecordOk(s.records, s.failures, unlogged, x);
      }
    case Select(chosen) =>
      forall snap | snap in chosen ensures SnapOk(s.records.emails, snap, s.clock) {
      }
    case _ => assert Marked(Apply(s, step).poll) == Marked(s.poll);
  }

  lemma {:induction false} RunKeepsInv(s: State, steps: seq<Step>, t: State)
    requires Inv(s) && Run(s, steps, t)
    ensures Inv(t)
    decreases |steps|
  {
    if steps == [] {
    } else {
      StepKeepsInv(s, steps[0]);
      RunKeepsInv(Apply(s, steps[0]), steps[1..], t);
    }
  }

  // ---- Main results ----

  /**
   Over any run: an email that has not failed has at most four retries; a failed
   one exactly five, with one failed event and, if it belongs to an entity, one
   `email.failed` outbox row, unless the events are still to be logged or were lost.
   */
  lemma {:induction false} RetriesAndEvents(steps: seq<Step>, s: State, id: EmailId)
    requires Run(INITIAL, steps, s) && id in s.records.emails
    ensures var e, log := s.records.emails[id], s.records.log;
      var logged := e.status == Failed && id !in s.lost && id !in Marked(s.poll);
      && (e.status == Failed ==> e.retries == 5)
      && (e.status != Failed ==> e.retries <= 4 && id !in s.lost)
      && log.failedEvents[id] == Indicator(logged)
      && log.outboxFailed[id] == Indicator(logged && e.hasEntity)
      && log.sentEvents[id] == Indicator(e.status == Sent)
      && log.outboxSent[id] == Indicator(e.status == Sent && e.hasEntity)
  {
    RunKeepsInv(INITIAL, steps, s);
    assert RecordOk(s.records, s.failures, s.lost + Marked(s.poll), id);
  }

  /** Somewhere in the run a batch had marked the email failed, and the read before its events threw. */
  ghost predicate ReadThrew(s: State, steps: seq<Step>, id: EmailId)
    decreases |steps|
  {
    steps != [] && Enabled(s, steps[0])
    && ((steps[0] == Abandon && id in Marked(s.poll)) || ReadThrew(Apply(s, steps[0]), steps[1..], id))
  }

  lemma {:induction false} LostIsReadThrew(s: State, steps: seq<Step>, t: State, id: EmailId)
    requires Run(s, steps, t)
    ensures id in t.lost <==> id in s.lost || ReadThrew(s, steps, id)
    decreases |steps|
  {
    if steps == [] {
    } else {
      LostIsReadThrew(Apply(s, steps[0]), steps[1..], t, id);
    }
  }

  /** Between polls a failed email lacks its failed event if and only if such a read threw; it never gets it later. */
  lemma {:induction false} MissingEventExactly(steps: seq<Step>, s: State, id: EmailId)
    requires Run(INITIAL, steps, s) && id in s.records.emails && s.records.emails[id].status == Failed && id !in Marked(s.poll)
    ensures s.records.log.failedEvents[id] == 0 <==> ReadThrew(INITIAL, steps, id)
    ensures s.records.log.failedEvents[id] <= 1
  {
    RetriesAndEvents(steps, s, id);
    LostIsReadThrew(INITIAL, steps, s, id);
  }

  /** How many minutes an email waits after its k-th failure. */
  function BackoffMinutes(k: nat): (minutes: nat)
    requires 1 <= k <= 5
  {
    if k == 1 then 1 else if k == 2 then 2 else if k == 3 then 4 else if k == 4 then 8 else 16
  }

  /** An email that has failed is due again exactly that long after its last failure. */
  lemma {:induction false} NextRetryIsBackedOff(steps: seq<Step>, s: State, id: EmailId)
    requires Run(INITIAL, steps, s) && id in s.records.emails && s.records.emails[id].retries > 0
    ensures var e := s.records.emails[id];
      && id in s.failures && |s.failures[id]| == e.retries <= 5
      && e.nextRetryAt == Some(s.failures[id][e.retries - 1] + BackoffMinutes(e.retries) * 60000)
  {
    RunKeepsInv(INITIAL, steps, s);
    assert RecordOk(s.records, s.failures, s.lost + Marked(s.poll), id);
    BackoffIsPow2(s.records.emails[id].retries);
  }

  lemma {:induction false} BackoffIsPow2(k: nat)
    requires 1 <= k <= 5
    ensures Pow2(k - 1) == BackoffMinutes(k)
  {
    assert Pow2(0) == 1 && Pow2(1) == 2 * Pow2(0) && Pow2(2) == 2 * Pow2(1) && Pow2(3) == 2 * Pow2(2) && Pow2(4) == 2 * Pow2(3);
  }

  /** The k-th and the (k+1)-th failed attempt are at least 2^(k-1) minutes apart, counting from k = 1. */
  lemma {:induction false} AttemptsBackOff(steps: seq<Step>, s: State, id: EmailId, k: nat)
    requires Run(INITIAL, steps, s) && id in s.failures && 1 <= k < |s.failures[id]|
    ensures id in s.records.emails && |s.failures[id]| == s.records.emails[id].retries <= 5
    ensures s.failures[id][k] - s.failures[id][k - 1] >= BackoffMinutes(k) * 60000
  {
    RunKeepsInv(INITIAL, steps, s);
    assert RecordOk(s.records, s.failures, s.lost + Marked(s.poll), id);
    BackoffIsPow2(k);
    assert k - 1 + 1 < |s.failures[id]|;
  }

  /** The email a step attempts, if it is an attempt. */
  function Attempted(s: State, step: Step): (id: Option<EmailId>) {
    if (step.FailNext? || step.SendNext?) && (s.poll.FailingAll? || s.poll.SendingAll?) && s.poll.todo != []
    then Some(s.poll.todo[0].id) else None
  }

  /**
   Every attempt is on an email that is pending and due now, and uses it up: it is
   sent, or 5 - retries goes down by one.  No step touches any other email.
   */
  lemma {:induction false} AttemptsMakeProgress(steps: seq<Step>, s: State, step: Step, id: EmailId)
    requires Run(INITIAL, steps, s) && Enabled(s, step) && id in s.records.emails
    ensures var e, e' := s.records.emails[id], Apply(s, step).records.emails[id];
      if Attempted(s, step) == Some(id) then
        && Due(e, s.clock)
        && (e'.status == Sent || e'.retries == e.retries + 1)
      else e' == e
  {
    RunKeepsInv(INITIAL, steps, s);
    if step.FailNext? || step.SendNext? {
      assert SnapOk(s.records.emails, s.poll.todo[0], s.clock);
    }
  }

  // ---- The two failure paths, as they are written ----

  /** One email of a batch failure, and whether the read before its events throws, which ends the poll. */
  function FailOne(r: Records, snap: Snap, t: int, readOk: bool): (result: (Records, bool)) {
    if IsLast(snap) && !readOk then (MarkFailure(r, snap, t), true) else (RecordFailure(r, snap, t), false)
  }

  /** The emails of a batch, in order, up to the first read that throws. */
  function FailAll(r: Records, batch: seq<Snap>, times: seq<int>, readOks: seq<bool>): (result: (Records, bool))
    requires |times| == |readOks| == |batch|
  {
    if batch == [] then (r, false)
    else
      var n := |batch| - 1;
      var before := FailAll(r, batch[..n], times[..n], readOks[..n]);
      if before.1 then before else FailOne(before.0, batch[n], times[n], readOks[n])
  }

  datatype Outcome = Delivered | Refused(time: int)

  function SendAll(r: Records, batch: seq<Snap>, outcomes: seq<Outcome>): (r': Records)
    requires |outcomes| == |batch|
  {
    if batch == [] then r
    else
      var n := |batch| - 1;
      var before := SendAll(r, batch[..n], outcomes[..n]);
      match outcomes[n]
      case Delivered => RecordSent(before, batch[n])
      case Refused(t) => RecordFailure(before, batch[n], t)
  }

  // ---- An uninterrupted poll ----

  lemma {:induction false} FailAllInOrder(r: Records, batch: seq<Snap>, times: seq<int>, readOks: seq<bool>)
    requires batch != [] && |times| == |readOks| == |batch|
    ensures var first := FailOne(r, batch[0], times[0], readOks[0]);
      FailAll(r, batch, times, readOks) == if first.1 then first else FailAll(first.0, batch[1..], times[1..], readOks[1..])
    decreases batch
  {
    var n := |batch| - 1;
    if n == 0 {
      assert FailAll(r, batch[..0], times[..0], readOks[..0]) == (r, false);
    } else {
      FailAllInOrder(r, batch[..n], times[..n], readOks[..n]);
      assert batch[..n][1..] == batch[1..][..n - 1] && times[..n][1..] == times[1..][..n - 1] && readOks[..n][1..] == readOks[1..][..n - 1];
    }
  }

  lemma {:induction false} SendAllInOrder(r: Records, batch: seq<Snap>, outcomes: seq<Outcome>)
    requires batch != [] && |outcomes| == |batch|
    ensures var first := if outcomes[0].Delivered? then RecordSent(r, batch[0]) else RecordFailure(r, batch[0], outcomes[0].time);
      SendAll(r, batch, outcomes) == SendAll(first, batch[1..], outcomes[1..])
    decreases batch
  {
    var n := |batch| - 1;
    if n == 0 {
      assert SendAll(r, batch[..0], outcomes[..0]) == r;
    } else {
      SendAllInOrder(r, batch[..n], outcomes[..n]);
      assert batch[..n][1..] == batch[1..][..n - 1] && outcomes[..n][1..] == outcomes[1..][..n - 1];
    }
  }

  function FailSteps(todo: seq<Snap>, readOks: seq<bool>): (steps: seq<Step>)
    requires |readOks| == |todo|
  {
    if todo == [] then [EndPoll]
    else if !IsLast(todo[0]) then [FailNext] + FailSteps(todo[1..], readOks[1..])
    else if readOks[0] then [FailNext, LogNext] + FailSteps(todo[1..], readOks[1..])
    else [FailNext, Abandon]
  }

  function SendSteps(oks: seq<bool>): (steps: seq<Step>) {
    if oks == [] then [EndPoll] else [SendNext(oks[0])] + SendSteps(oks[1..])
  }

  function Times(n: nat, t: int): (times: seq<int>) {
    seq(n, _ => t)
  }

  function Outcomes(oks: seq<bool>, t: int): (outcomes: seq<Outcome>) {
    seq(|oks|, i requires 0 <= i < |oks| => if oks[i] then Delivered else Refused(t))
  }

  lemma {:induction false} RunOne(s: State, step: Step, steps: seq<Step>, t: State)
    requires Enabled(s, step) && Run(Apply(s, step), steps, t)
    ensures Run(s, [step] + steps, t)
  {
    assert ([step] + steps)[1..] == steps;
  }

  /** Failing one email of the batch, its events included, is one or two steps with the loop body's result. */
  lemma {:induction false} FailingOne(s: State, readOk: bool) returns (t: State)
    requires s.poll.FailingAll? && s.poll.todo != [] && s.poll.todo[0].id in s.records.emails
    ensures var snap, result := s.poll.todo[0], FailOne(s.records, s.poll.todo[0], s.clock, readOk);
      && t.records == result.0 && t.clock == s.clock
      && t.poll == (if result.1 then Idle else FailingAll(s.poll.todo[1..]))
      && t.lost == s.lost + (if result.1 then {snap.id} else {})
    ensures var steps := if !IsLast(s.poll.todo[0]) then [FailNext] else if readOk then [FailNext, LogNext] else [FailNext, Abandon];
      forall more, u :: Run(t, more, u) ==> Run(s, steps + more, u)
  {
    var snap, s1 := s.poll.todo[0], Apply(s, FailNext);
    t := if !IsLast(snap) then s1 else Apply(s1, if readOk then LogNext else Abandon);
    if !IsLast(snap) {
      assert LogFailure(s.records.log, snap) == s.records.log;
    }
    forall more, u | Run(t, more, u)
      ensures Run(s, (if !IsLast(snap) then [FailNext] else if readOk then [FailNext, LogNext] else [FailNext, Abandon]) + more, u)
    {
      if !IsLast(snap) {
        RunOne(s, FailNext, more, u);
      } else {
        var second := if readOk then LogNext else Abandon;
        RunOne(s1, second, more, u);
        RunOne(s, FailNext, [second] + more, u);
        assert [FailNext, second] + more == [FailNext] + ([second] + more);
      }
    }
  }

  /** The failing loop, with nothing else between its awaits, is a run of the protocol with the loop's result, reads that throw included. */
  lemma {:induction false} UninterruptedFailure(s: State, readOks: seq<bool>) returns (t: State)
    requires s.poll.FailingAll? && |readOks| == |s.poll.todo|
    requires forall snap :: snap in s.poll.todo ==> snap.id in s.records.emails
    ensures Run(s, FailSteps(s.poll.todo, readOks), t) && t.poll == Idle
    ensures t.records == FailAll(s.records, s.poll.todo, Times(|s.poll.todo|, s.clock), readOks).0
    decreases |s.poll.todo|
  {
    var todo := s.poll.todo;
    if todo == [] {
      t := Apply(s, EndPoll);
      assert Run(t, [], t);
      RunOne(s, EndPoll, [], t);
    } else {
      var times := Times(|todo|, s.clock);
      var s1 := FailingOne(s, readOks[0]);
      FailAllInOrder(s.records, todo, times, readOks);
      assert times[1..] == Times(|todo| - 1, s.clock);
      if IsLast(todo[0]) && !readOks[0] {
        t := s1;
        assert Run(t, [], t);
        assert [FailNext, Abandon] + [] == [FailNext, Abandon];
      } else {
        t := UninterruptedFailure(s1, readOks[1..]);
      }
    }
  }

  /** The sending loop likewise, for whatever outcomes the emails have. */
  lemma {:induction false} UninterruptedSending(s: State, oks: seq<bool>) returns (t: State)
    requires s.poll.SendingAll? && |oks| == |s.poll.todo|
    ensures Run(s, SendSteps(oks), t)
    ensures t.records == SendAll(s.records, s.poll.todo, Outcomes(oks, s.clock)) && t.poll == Idle
    decreases |s.poll.todo|
  {
    var todo := s.poll.todo;
    if todo == [] {
      t := Apply(s, EndPoll);
      assert Run(t, [], t) && SendSteps(oks)[1..] == [];
    } else {
      t := UninterruptedSending(Apply(s, SendNext(oks[0])), oks[1..]);
      SendAllInOrder(s.records, todo, Outcomes(oks, s.clock));
      assert Outcomes(oks, s.clock)[1..] == Outcomes(oks[1..], s.clock);
      assert SendSteps(oks)[1..] == SendSteps(oks[1..]);
    }
  }

  /** One attempt has been used up on the email. */
  ghost predicate UsedUp(before: Email, after: Email) {
    after.status == Sent || after.retries == before.retries + 1
  }

  function AllOk(n: nat): (readOks: seq<bool>) {
    seq(n, _ => true)
  }

  lemma {:induction false} FailAllAttempts(r: Records, batch: seq<Snap>, times: seq<int>, id: EmailId)
    requires |times| == |batch| && Distinct(batch) && (forall snap :: snap in batch ==> Current(r.emails, snap))
    ensures var result := FailAll(r, batch, times, AllOk(|batch|));
      && !result.1 && result.0.emails.Keys == r.emails.Keys
      && (id in r.emails && Chosen(batch, id) ==> UsedUp(r.emails[id], result.0.emails[id]))
      && (id in r.emails && !Chosen(batch, id) ==> result.0.emails[id] == r.emails[id])
    decreases batch
  {
    if batch == [] {
    } else {
      var n := |batch| - 1;
      assert batch[n] in batch && AllOk(n + 1)[..n] == AllOk(n);
      FailAllAttempts(r, batch[..n], times[..n], id);
      FailAllAttempts(r, batch[..n], times[..n], batch[n].id);
      ChosenLast(batch, id);
      ChosenLast(batch, batch[n].id);
    }
  }

  lemma {:induction false} SendAllAttempts(r: Records, batch: seq<Snap>, outcomes: seq<Outcome>, id: EmailId)
    requires |outcomes| == |batch| && Distinct(batch) && (forall snap :: snap in batch ==> Current(r.emails, snap))
    ensures var r' := SendAll(r, batch, outcomes);
      && r'.emails.Keys == r.emails.Keys
      && (id in r.emails && Chosen(batch, id) ==> UsedUp(r.emails[id], r'.emails[id]))
      && (id in r.emails && !Chosen(batch, id) ==> r'.emails[id] == r.emails[id])
    decreases batch
  {
    if batch == [] {
    } else {
      var n := |batch| - 1;
      assert batch[n] in batch;
      SendAllAttempts(r, batch[..n], outcomes[..n], id);
      SendAllAttempts(r, batch[..n], outcomes[..n], batch[n].id);
      ChosenLast(batch, id);
      ChosenLast(batch, batch[n].id);
    }
  }

  lemma {:induction false} ChosenLast(batch: seq<Snap>, id: EmailId)
    requires batch != []
    ensures Chosen(batch, id) <==> Chosen(batch[..|batch| - 1], id) || batch[|batch| - 1].id == id
    ensures Distinct(batch) ==> !Chosen(batch[..|batch| - 1], batch[|batch| - 1].id)
  {
    var n := |batch| - 1;
    if i :| 0 <= i < |batch| && batch[i].id == id {
      assert i < n ==> batch[..n][i].id == id;
    }
  }

  /** The steps of a whole poll: the checks pass or fail, and every selected email is attempted. */
  function PollSteps(chosen: seq<Snap>, pass: bool, oks: seq<bool>): (steps: seq<Step>) {
    [Select(chosen)] + if pass then [CheckPasses] + SendSteps(oks) else [CheckFails] + FailSteps(chosen, AllOk(|chosen|))
  }

  /**
   A poll that is not interrupted, not cut off by the limit, and whose reads do
   not throw, attempts every email that was due, whether the checks pass or not and whatever each send answers.
   */
  lemma {:induction false} PollAttemptsEveryDueEmail(s: State, chosen: seq<Snap>, pass: bool, oks: seq<bool>) returns (t: State)
    requires Enabled(s, Select(chosen)) && |chosen| < BATCH && |oks| == |chosen|
    ensures Run(s, PollSteps(chosen, pass, oks), t) && t.poll == Idle
    ensures forall id :: id in s.records.emails && Due(s.records.emails[id], s.poll.now) ==>
      id in t.records.emails && UsedUp(s.records.emails[id], t.records.emails[id])
  {
    var s1 := Apply(s, Select(chosen));
    var tail := if pass then [CheckPasses] + SendSteps(oks) else [CheckFails] + FailSteps(chosen, AllOk(|chosen|));
    assert PollSteps(chosen, pass, oks)[1..] == tail;
    if pass {
      t := UninterruptedSending(Apply(s1, CheckPasses), oks);
      assert tail[1..] == SendSteps(oks);
    } else {
      t := UninterruptedFailure(Apply(s1, CheckFails), AllOk(|chosen|));
      assert tail[1..] == FailSteps(chosen, AllOk(|chosen|));
    }
    forall id | id in s.records.emails && Due(s.records.emails[id], s.poll.now)
      ensures id in t.records.emails && UsedUp(s.records.emails[id], t.records.emails[id])
    {
      FailAllAttempts(s.records, chosen, Times(|chosen|, s.clock), id);
      SendAllAttempts(s.records, chosen, Outcomes(oks, s.clock), id);
    }
  }

  // ---- Losing a failed event ----

  /** Email 7 alone, with no poll under way. */
  function Alone(clock: int, e: Email, log: Log, failures: seq<int>): (s: State) {
    State(clock, Records(map[7 := e], log), Idle, map[7 := failures], {})
  }

  /** A poll over one email: selected, failed, and the poll ended or abandoned. */
  lemma {:induction false} PollOfOne(s: State, snap: Snap, last: Step, more: seq<Step>, u: State) returns (steps: seq<Step>)
    requires s.poll == Idle && s.records.emails.Keys == {7} && snap.id == 7
    requires Current(s.records.emails, snap) && Due(s.records.emails[7], s.clock)
    requires last == (if IsLast(snap) then Abandon else EndPoll)
    requires Run(Apply(Apply(s.(poll := FailingAll([snap])), FailNext), last), more, u)
    ensures Run(s, steps, u)
  {
    var selected := s.(poll := FailingAll([snap]));
    RunOne(Apply(selected, FailNext), last, more, u);
    RunOne(selected, FailNext, [last] + more, u);
    steps := SelectingAlone(s, snap, [FailNext] + ([last] + more), u);
  }

  /** A poll whose checks fail, before the last retry, and a pause. */
  lemma {:induction false} FailingPoll(
    clock: int, e: Email, failures: seq<int>, pause: nat, more: seq<Step>, u: State)
    returns (steps: seq<Step>)
    requires e.status == Pending && e.retries + 1 < MAX_RETRIES && Due(e, clock)
    requires Run(Alone(clock + pause, FailedEmail(e, e.retries, clock), EMPTY_LOG, failures + [clock]), more, u)
    ensures Run(Alone(clock, e, EMPTY_LOG, failures), steps, u)
  {
    var snap := Snap(7, e.retries, e.hasEntity);
    var s, failed := Alone(clock, e, EMPTY_LOG, failures), Alone(clock, FailedEmail(e, e.retries, clock), EMPTY_LOG, failures + [clock]);
    assert Apply(Apply(s.(poll := FailingAll([snap])), FailNext), EndPoll) == failed;
    RunOne(failed, Tick(pause), more, u);
    steps := PollOfOne(s, snap, EndPoll, [Tick(pause)] + more, u);
  }

  /** The last failure, marked by a batch whose read then throws. */
  lemma {:induction false} LosingPoll(clock: int, e: Email, failures: seq<int>) returns (steps: seq<Step>, t: State)
    requires e.status == Pending && e.retries + 1 == MAX_RETRIES && Due(e, clock)
    ensures Run(Alone(clock, e, EMPTY_LOG, failures), steps, t)
    ensures t.lost == {7} && t.poll == Idle && t.records == Records(map[7 := FailedEmail(e, e.retries, clock)], EMPTY_LOG)
  {
    var snap := Snap(7, e.retries, e.hasEntity);
    var s := Alone(clock, e, EMPTY_LOG, failures);
    t := Apply(Apply(s.(poll := FailingAll([snap])), FailNext), Abandon);
    assert t.lost == {7} && Run(t, [], t);
    steps := PollOfOne(s, snap, Abandon, [], t);
  }

  /** From any pending email: polls whose checks fail, each when the email is due again, and a read that throws at the last. */
  lemma {:induction false} EventCanBeLost(clock: int, e: Email, failures: seq<int>) returns (steps: seq<Step>, t: State)
    requires e.status == Pending && e.retries < MAX_RETRIES && Due(e, clock)
    ensures Run(Alone(clock, e, EMPTY_LOG, failures), steps, t)
    ensures t.lost == {7} && t.poll == Idle && t.records.emails.Keys == {7} && t.records.emails[7].status == Failed
    ensures t.records.log == EMPTY_LOG
    decreases MAX_RETRIES - e.retries
  {
    if e.retries + 1 == MAX_RETRIES {
      steps, t := LosingPoll(clock, e, failures);
    } else {
      var again, pause := FailedEmail(e, e.retries, clock), Pow2(e.retries) * MINUTE;
      steps, t := EventCanBeLost(clock + pause, again, failures + [clock]);
      steps := FailingPoll(clock, e, failures, pause, steps, t);
    }
  }

  lemma {:induction false} SelectAlone(s: State, snap: Snap) returns (t: State)
    requires s.poll == Idle && s.records.emails.Keys == {7} && snap.id == 7
    requires Current(s.records.emails, snap) && Due(s.records.emails[7], s.clock)
    ensures t == s.(poll := FailingAll([snap]))
    ensures Enabled(s, BeginPoll) && Enabled(Apply(s, BeginPoll), Select([snap]))
    ensures t == Apply(Apply(Apply(s, BeginPoll), Select([snap])), CheckFails)
  {
    assert [snap][0].id == 7;
    assert forall id :: id in s.records.emails ==> Chosen([snap], id);
    t := s.(poll := FailingAll([snap]));
  }

  lemma {:induction false} SelectingAlone(s: State, snap: Snap, more: seq<Step>, u: State) returns (steps: seq<Step>)
    requires s.poll == Idle && s.records.emails.Keys == {7} && snap.id == 7
    requires Current(s.records.emails, snap) && Due(s.records.emails[7], s.clock)
    requires Run(s.(poll := FailingAll([snap])), more, u)
    ensures Run(s, steps, u)
  {
    var t := SelectAlone(s, snap);
    var s1 := Apply(s, BeginPoll);
    var s2 := Apply(s1, Select([snap]));
    RunOne(s2, CheckFails, more, u);
    RunOne(s1, Select([snap]), [CheckFails] + more, u);
    RunOne(s, BeginPoll, [Select([snap])] + ([CheckFails] + more), u);
    steps := [BeginPoll] + ([Select([snap])] + ([CheckFails] + more));
  }

  /** A run from the start that leaves a failed email without its failed event. */
  lemma {:induction false} LostEventIsReachable() returns (steps: seq<Step>, s: State)
    ensures Run(INITIAL, steps, s) && s.poll == Idle && 7 in s.records.emails && s.records.emails[7].status == Failed
    ensures s.records.log.failedEvents[7] == 0
  {
    steps, s := EventCanBeLost(0, Queued(true), []);
    assert Apply(INITIAL, Queue(7, true)) == Alone(0, Queued(true), EMPTY_LOG, []);
    RunOne(INITIAL, Queue(7, true), steps, s);
    steps := [Queue(7, true)] + steps;
  }

  // ---- The operations as the poller runs them ----

  lemma {:induction false} StoppedStays(r: Records, batch: seq<Snap>, times: seq<int>, readOks: seq<bool>, n: nat)
    requires |times| == |readOks| == |batch| && n <= |batch| && FailAll(r, batch[..n], times[..n], readOks[..n]).1
    ensures FailAll(r, batch, times, readOks) == FailAll(r, batch[..n], times[..n], readOks[..n])
    decreases |batch| - n
  {
    if n == |batch| {
      assert batch[..n] == batch && times[..n] == times && readOks[..n] == readOks;
    } else {
      assert batch[..n + 1][..n] == batch[..n] && times[..n + 1][..n] == times[..n] && readOks[..n + 1][..n] == readOks[..n];
      StoppedStays(r, batch, times, readOks, n + 1);
    }
  }

  class Relay {
    var emails: map<EmailId, Email>
    var log: Log

    function View(): (r: Records)
      reads this
    {
      Records(emails, log)
    }

    /** The body of the loop of handleEmailBatchFailure; readOk says whether the read of the queued event succeeds. */
    method FailInBatch(email: Snap, now: int, readOk: bool) returns (threw: bool)
      requires email.id in emails
      modifies this
      ensures (View(), threw) == FailOne(old(View()), email, now, readOk) && emails.Keys == old(emails.Keys)
    {
      var retries := email.retries + 1;
      var status := if retries >= 5 then Failed else Pending;
      var nextRetryAt := now + Pow2(retries - 1) * 60000;
      emails := emails[email.id := emails[email.id].(retries := retries, status := status, nextRetryAt := Some(nextRetryAt))];
      if status == Failed {
        if !readOk {
          return true;
        }
        log := log.(failedEvents := log.failedEvents + multiset{email.id});
        if email.hasEntity {
          log := log.(entityFailed := log.entityFailed + multiset{email.id});
          log := log.(outboxFailed := log.outboxFailed + multiset{email.id});
        }
      }
      threw := false;
    }

    /** handleEmailBatchFailure, the clock being read once per email. */
    method HandleEmailBatchFailure(batch: seq<Snap>, times: seq<int>, readOks: seq<bool>) returns (threw: bool)
      requires |times| == |readOks| == |batch| && forall snap :: snap in batch ==> snap.id in emails
      modifies this
      ensures (View(), threw) == FailAll(old(View()), batch, times, readOks)
    {
      for i := 0 to |batch|
        invariant (View(), false) == FailAll(old(View()), batch[..i], times[..i], readOks[..i])
        invariant emails.Keys == old(emails.Keys)
      {
        assert batch[..i + 1][..i] == batch[..i] && times[..i + 1][..i] == times[..i] && readOks[..i + 1][..i] == readOks[..i];
        threw := FailInBatch(batch[i], times[i], readOks[i]);
        if threw {
          StoppedStays(old(View()), batch, times, readOks, i + 1);
          return;
        }
      }
      assert batch[..|batch|] == batch && times[..|batch|] == times && readOks[..|batch|] == readOks;
      threw := false;
    }

    /** The body of the send loop when sendMail succeeds. */
    method Deliver(email: Snap)
      requires email.id in emails
      modifies this
      ensures View() == RecordSent(old(View()), email) && emails.Keys == old(emails.Keys)
    {
      emails := emails[email.id := emails[email.id].(status := Sent)];
      log := log.(sentEvents := log.sentEvents + multiset{email.id});
      if email.hasEntity {
        log := log.(entitySent := log.entitySent + multiset{email.id});
        log := log.(outboxSent := log.outboxSent + multiset{email.id});
      }
    }

    /** The catch block of the send loop: the same transition as the batch failure. */
    method CatchRefusal(email: Snap, now: int)
      requires email.id in emails
      modifies this
      ensures View() == RecordFailure(old(View()), email, now) && emails.Keys == old(emails.Keys)
    {
      var retries := email.retries + 1;
      var status := if retries >= 5 then Failed else Pending;
      emails := emails[email.id := emails[email.id].(
        retries := retries, status := status, nextRetryAt := Some(now + Pow2(retries - 1) * 60000))];
      if status == Failed {
        log := log.(failedEvents := log.failedEvents + multiset{email.id});
        if email.hasEntity {
          log := log.(entityFailed := log.entityFailed + multiset{email.id}, outboxFailed := log.outboxFailed + multiset{email.id});
        }
      }
    }

    method SendBatch(batch: seq<Snap>, outcomes: seq<Outcome>)
      requires |outcomes| == |batch| && forall snap :: snap in batch ==> snap.id in emails
      modifies this
      ensures View() == SendAll(old(View()), batch, outcomes)
    {
      for i := 0 to |batch|
        invariant View() == SendAll(old(View()), batch[..i], outcomes[..i])
        invariant emails.Keys == old(emails.Keys)
      {
        assert batch[..i + 1][..i] == batch[..i] && outcomes[..i + 1][..i] == outcomes[..i];
        match outcomes[i] {
          case Delivered => Deliver(batch[i]);
          case Refused(time) => CatchRefusal(batch[i], time);
        }
      }
      assert batch[..|batch|] == batch && outcomes[..|batch|] == outcomes;
    }
  }
}
