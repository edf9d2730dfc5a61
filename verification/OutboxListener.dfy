/**
 The sweep scheduler of the outbox worker.  JavaScript runs a handler to its
 next await without interruption, so an execution is a sequence of events:

   Trigger    a call of triggerSweep, run up to its first await
   Resolved   the onSweep promise of one sweep resolves: the loop test runs
   Rejected   it rejects: the catch and finally blocks run
   Start      the first statement of start()
   Stop       the first statement of stop()

 Each call of onSweep is named by the number of sweeps started before it.  The
 model allows any number of sweeps to be in flight at once; that there is never
 more than one is a theorem.
 */
module OutboxListener {

  datatype Flags = Flags(
    isSweeping: bool,
    pendingWakeup: bool,
    isStopped: bool,
    active: set<nat>,   // the sweeps whose promise is still pending
    starts: nat)        // the number of sweeps started so far

  datatype Event = Trigger | Resolved(sweep: nat) | Rejected(sweep: nat) | Start | Stop

  const INITIAL := Flags(false, false, false, {}, 0)

  predicate Enabled(f: Flags, e: Event) {
    match e
    case Resolved(k) => k in f.active
    case Rejected(k) => k in f.active
    case _ => true
  }

  /** `this.pendingWakeup = false; await this.onSweep()` up to the await. */
  function BeginSweep(f: Flags): (g: Flags) {
    f.(pendingWakeup := false, active := f.active + {f.starts}, starts := f.starts + 1)
  }

  function Step(f: Flags, e: Event): (g: Flags) {
    match e
    case Trigger =>
      if f.isStopped then f
      else if f.isSweeping then f.(pendingWakeup := true)
      else BeginSweep(f.(isSweeping := true))
    case Resolved(k) =>
      var ended := f.(active := f.active - {k});
      if f.pendingWakeup && !f.isStopped then BeginSweep(ended)
      else ended.(isSweeping := false)
    case Rejected(k) => f.(active := f.active - {k}, isSweeping := false)
    case Start => f.(isStopped := false)
    case Stop => f.(isStopped := true)
  }

  /** The events es lead from f to g. */
  ghost predicate Run(f: Flags, es: seq<Event>, g: Flags)
    decreases |es|
  {
    if es == [] then f == g
    else Enabled(f, es[0]) && Run(Step(f, es[0]), es[1..], g)
  }

  /** At most one sweep is in flight, and the flag says whether one is. */
  ghost predicate Safe(f: Flags) {
    if f.isSweeping then f.starts > 0 && f.active == {f.starts - 1} else f.active == {}
  }

  lemma {:induction false} StepIsSafe(f: Flags, e: Event)
    requires Safe(f) && Enabled(f, e)
    ensures Safe(Step(f, e))
  {
  }

  lemma {:induction false} RunIsSafe(f: Flags, es: seq<Event>, g: Flags)
    requires Safe(f) && Run(f, es, g)
    ensures Safe(g)
    decreases |es|
  {
    if es == [] {
    } else {
      StepIsSafe(f, es[0]);
      RunIsSafe(Step(f, es[0]), es[1..], g);
    }
  }

  /** Mutual exclusion, in every reachable state. */
  lemma {:induction false} AtMostOneSweep(es: seq<Event>, g: Flags)
    requires Run(INITIAL, es, g)
    ensures |g.active| <= 1
    ensures g.isSweeping <==> |g.active| == 1
  {
    RunIsSafe(INITIAL, es, g);
  }

  // ---- No wakeup is lost ----

  /** Neither a stop nor a throwing sweep among the events. */
  predicate Undisturbed(es: seq<Event>) {
    forall e :: e in es ==> !e.Stop? && !e.Rejected?
  }

  /** A sweep has begun after the state `before`, or the running one will be followed by another. */
  ghost predicate Promised(before: Flags, f: Flags) {
    !f.isStopped && (f.starts > before.starts || (f.isSweeping && f.pendingWakeup))
  }

  lemma {:induction false} PromiseIsKept(before: Flags, f: Flags, es: seq<Event>, g: Flags)
    requires Safe(f) && Promised(before, f) && f.starts >= before.starts
    requires Run(f, es, g) && Undisturbed(es)
    ensures Safe(g) && Promised(before, g) && g.starts >= f.starts
    ensures (exists e :: e in es && e.Resolved?) ==> g.starts > before.starts
    decreases |es|
  {
    if es == [] {
    } else {
      var h := Step(f, es[0]);
      assert es[0] in es && forall e :: e in es[1..] ==> e in es;
      assert forall e :: e in es ==> e == es[0] || e in es[1..];
      StepIsSafe(f, es[0]);
      PromiseIsKept(before, h, es[1..], g);
    }
  }

  /**
   No lost wakeup.  After a trigger accepted in a reachable, unstopped state, as
   long as no stop and no throwing sweep comes between: once the sweep that was
   running has ended, or whenever none is running, a sweep has started since the
   trigger; until then another one is due as soon as the current one resolves.
   */
  lemma {:induction false} NoLostWakeup(f: Flags, es: seq<Event>, g: Flags)
    requires Safe(f) && !f.isStopped
    requires Run(Step(f, Trigger), es, g) && Undisturbed(es)
    ensures (exists e :: e in es && e.Resolved?) || !g.isSweeping ==> g.starts > f.starts
    ensures g.starts > f.starts || (g.isSweeping && g.pendingWakeup && !g.isStopped)
  {
    StepIsSafe(f, Trigger);
    PromiseIsKept(f, Step(f, Trigger), es, g);
  }

  /** Ends the running sweep, or stops the listener. */
  predicate Decides(e: Event) {
    e.Resolved? || e.Rejected? || e.Stop?
  }

  predicate Quiet(es: seq<Event>) {
    forall e :: e in es ==> !e.Trigger? && !e.Start?
  }

  /** After the first event that decides, no trigger and no start comes. */
  predicate QuietAfterDecision(es: seq<Event>) {
    es != [] ==> if Decides(es[0]) then Quiet(es[1..]) else QuietAfterDecision(es[1..])
  }

  /** The first event that decides is that the sweep resolves. */
  predicate ResolvedFirst(es: seq<Event>) {
    es != [] && if Decides(es[0]) then es[0].Resolved? else ResolvedFirst(es[1..])
  }

  lemma {:induction false} StartsOnlyGrow(f: Flags, es: seq<Event>, g: Flags)
    requires Run(f, es, g)
    ensures g.starts >= f.starts
    decreases |es|
  {
    if es == [] {
    } else {
      StartsOnlyGrow(Step(f, es[0]), es[1..], g);
    }
  }

  lemma {:induction false} IdleStartsNothing(f: Flags, es: seq<Event>, g: Flags)
    requires Safe(f) && !f.isSweeping && Run(f, es, g) && Quiet(es)
    ensures g.starts == f.starts
    decreases |es|
  {
    if es == [] {
    } else {
      assert es[0] in es;
      StepIsSafe(f, es[0]);
      IdleStartsNothing(Step(f, es[0]), es[1..], g);
    }
  }

  /**
   A wakeup flagged during a sweep is honoured if and only if that sweep resolves
   before anything else decides: a throwing sweep, or a stop, drops it for good
   unless a new trigger or start comes.
   */
  lemma {:induction false} WakeupIsHonouredExactly(f: Flags, es: seq<Event>, g: Flags)
    requires Safe(f) && f.isSweeping && f.pendingWakeup && !f.isStopped
    requires Run(f, es, g) && QuietAfterDecision(es)
    ensures g.starts > f.starts <==> ResolvedFirst(es)
    decreases |es|
  {
    if es == [] {
    } else {
      var h := Step(f, es[0]);
      StepIsSafe(f, es[0]);
      match es[0] {
        case Trigger => WakeupIsHonouredExactly(h, es[1..], g);
        case Start => WakeupIsHonouredExactly(h, es[1..], g);
        case Resolved(_) => StartsOnlyGrow(h, es[1..], g);
        case Rejected(_) => IdleStartsNothing(h, es[1..], g);
        case Stop => StoppedStartsNothing(h, es[1..], g);
      }
    }
  }

  // ---- Triggers coalesce ----

  function Triggers(k: nat): (es: seq<Event>) {
    seq(k, _ => Trigger)
  }

  lemma {:induction false} TriggersOnlyFlag(f: Flags, k: nat)
    requires f.isSweeping && !f.isStopped
    ensures Run(f, Triggers(k), if k == 0 then f else f.(pendingWakeup := true))
    decreases k
  {
    if k == 0 {
    } else {
      assert Triggers(k)[1..] == Triggers(k - 1);
      TriggersOnlyFlag(f.(pendingWakeup := true), k - 1);
    }
  }

  lemma {:induction false} RunsCompose(f: Flags, xs: seq<Event>, g: Flags, ys: seq<Event>, h: Flags)
    requires Run(f, xs, g) && Run(g, ys, h)
    ensures Run(f, xs + ys, h)
    decreases |xs|
  {
    if xs == [] {
      assert xs + ys == ys;
    } else {
      assert (xs + ys)[1..] == xs[1..] + ys;
      RunsCompose(Step(f, xs[0]), xs[1..], g, ys, h);
    }
  }

  /** k triggers during one sweep, for any k > 0, cause exactly one further sweep. */
  lemma {:induction false} TriggersCoalesce(f: Flags, k: nat) returns (g: Flags)
    requires Safe(f) && f.isSweeping && !f.isStopped && k > 0
    ensures Run(f, Triggers(k) + [Resolved(f.starts - 1), Resolved(f.starts)], g)
    ensures g.starts == f.starts + 1 && !g.isSweeping && g.active == {}
  {
    var flagged := f.(pendingWakeup := true);
    var second := Step(flagged, Resolved(f.starts - 1));
    g := Step(second, Resolved(f.starts));
    var tail := [Resolved(f.starts - 1), Resolved(f.starts)];
    assert tail[1..] == [Resolved(f.starts)] && tail[1..][1..] == [];
    assert Run(g, [], g);
    assert Run(second, [Resolved(f.starts)], g);
    assert Run(flagged, tail, g);
    TriggersOnlyFlag(f, k);
    RunsCompose(f, Triggers(k), flagged, tail, g);
  }

  /** A trigger that was accepted but whose sweep has not begun. */
  function Due(f: Flags): (n: nat) {
    if f.isSweeping && f.pendingWakeup then 1 else 0
  }

  /** No sweep without a cause: every sweep is paid for by a trigger of its own. */
  lemma {:induction false} SweepsAreTriggered(f: Flags, es: seq<Event>, g: Flags)
    requires Safe(f) && Run(f, es, g)
    ensures g.starts + Due(g) <= f.starts + Due(f) + multiset(es)[Trigger]
    decreases |es|
  {
    if es == [] {
    } else {
      assert es == [es[0]] + es[1..];
      StepIsSafe(f, es[0]);
      SweepsAreTriggered(Step(f, es[0]), es[1..], g);
    }
  }

  /** Nothing starts after a stop until the next start. */
  lemma {:induction false} StoppedStartsNothing(f: Flags, es: seq<Event>, g: Flags)
    requires f.isStopped && Run(f, es, g) && Start !in es
    ensures g.isStopped && g.starts == f.starts
    decreases |es|
  {
    if es == [] {
    } else {
      assert es[0] in es;
      StoppedStartsNothing(Step(f, es[0]), es[1..], g);
    }
  }

  /** A start ends a stop, and the next trigger is accepted: it starts a sweep, or flags the one in flight to be followed by another. */
  lemma {:induction false} StartReopens(f: Flags, g: Flags)
    requires Safe(f) && Run(f, [Start, Trigger], g)
    ensures !g.isStopped && g.isSweeping
    ensures if f.isSweeping then g.starts == f.starts && g.pendingWakeup else g.starts == f.starts + 1
  {
    assert [Start, Trigger][1..] == [Trigger] && [Trigger][1..] == [];
    var h := Step(Step(f, Start), Trigger);
    assert Run(Step(f, Start), [Trigger], g) && Run(h, [], g);
  }

  // ---- The class ----

  /** The listener's own fields, with the sweeps in flight as history. */
  class Listener {
    var isSweeping: bool
    var pendingWakeup: bool
    var isStopped: bool
    ghost var active: set<nat>
    ghost var starts: nat

    ghost function View(): (f: Flags)
      reads this
    {
      Flags(isSweeping, pendingWakeup, isStopped, active, starts)
    }

    constructor ()
      ensures View() == INITIAL
    {
      isSweeping, pendingWakeup, isStopped := false, false, false;
      active, starts := {}, 0;
    }

    /** The loop body up to its await; onSweep has been called when it returns. */
    method CallOnSweep()
      modifies this
      ensures View() == BeginSweep(old(View()))
      ensures !pendingWakeup && isSweeping == old(isSweeping) && isStopped == old(isStopped)
    {
      pendingWakeup := false;
      active, starts := active + {starts}, starts + 1;
    }

    method TriggerSweep()
      modifies this
      ensures View() == Step(old(View()), Trigger)
    {
      if isStopped { return; }
      if isSweeping {
        pendingWakeup := true;
        return;
      }
      isSweeping := true;
      CallOnSweep();
    }

    /** The continuation of the await when sweep k succeeds: the loop test, then the body or finally. */
    method SweepResolved(ghost k: nat)
      requires k in active
      modifies this
      ensures View() == Step(old(View()), Resolved(k))
    {
      active := active - {k};
      if pendingWakeup && !isStopped {
        CallOnSweep();
      } else {
        isSweeping := false;
      }
    }

    /** The continuation of the await when sweep k throws: catch, then finally. */
    method SweepRejected(ghost k: nat)
      requires k in active
      modifies this
      ensures View() == Step(old(View()), Rejected(k))
      ensures !isSweeping && pendingWakeup == old(pendingWakeup) && isStopped == old(isStopped) && starts == old(starts)
    {
      active := active - {k};
      isSweeping := false;
    }

    method BeginStart()
      modifies this
      ensures View() == Step(old(View()), Start)
      ensures !isStopped && isSweeping == old(isSweeping) && pendingWakeup == old(pendingWakeup) && starts == old(starts)
    {
      isStopped := false;
    }

    method BeginStop()
      modifies this
      ensures View() == Step(old(View()), Stop)
      ensures isStopped && isSweeping == old(isSweeping) && pendingWakeup == old(pendingWakeup) && starts == old(starts)
    {
      isStopped := true;
    }
  }
}
