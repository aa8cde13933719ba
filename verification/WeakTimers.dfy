/** How long an interaction waits between the end of boosting and its weak requests. */
module WeakTimers {
  import opened Common
  import opened Config
  import opened ArbiterState
  import opened Tasks
  import opened System
  import opened SystemRuns
  import opened Weak

  /** The interaction waits for a delayed task of its own that is due at this time (in microseconds). */
  ghost predicate Armed(s: Sys, i: nat, due: int) {
    && i < |s.inter| && s.inter[i].status.BoostEnd? && s.inter[i].timer.Some?
    && s.inter[i].timer.value in s.q.timers && s.q.timers[s.inter[i].timer.value] == Timer(due, WeakTimer(i))
  }

  /** The turn of another interaction leaves the wait alone: it calls off no timer but its own. */
  lemma OtherTurn(env: Env, s: Sys, j: nat, i: nat, due: int)
    requires AutomatonOk(s) && j < |s.inter| && i != j && Armed(s, i, due)
    ensures Armed(WeakOne(env, s, j), i, due)
  {
    assert TimerOk(s, i) && TimerOk(s, j);
    hide LogOk;
  }

  lemma {:induction false} TurnsAfter(env: Env, s: Sys, j: nat, i: nat, due: int)
    requires AutomatonOk(s) && i < j <= |s.inter| && Armed(s, i, due)
    ensures Armed(WeakFrom(env, s, j), i, due)
    decreases |s.inter| - j
  {
    hide WeakOne, AutomatonOk, Armed;
    if j < |s.inter| {
      OtherTurn(env, s, j, i, due);
      WeakOneOk(env, s, j);
      TurnsAfter(env, WeakOne(env, s, j), j + 1, i, due);
    }
  }

  /** Its own turn sets the timer as boosting ends, and leaves it set while boosting is over. */
  lemma OwnTurn(env: Env, s: Sys, i: nat, due: int)
    requires AutomatonOk(s) && i < |s.inter| && Quiet(s)
    requires if s.inter[i].status.BoostStatus? then due == s.q.now + 1000 * s.inter[i].delay else Armed(s, i, due)
    ensures Armed(WeakOne(env, s, i), i, due)
  {
  }

  lemma TurnKeeps(env: Env, s: Sys, j: nat)
    requires j < |s.inter|
    ensures var t := WeakOne(env, s, j);
      t.q.now == s.q.now && |t.inter| == |s.inter| && Quiet(t) == Quiet(s) && forall i :: 0 <= i < |s.inter| && i != j ==> t.inter[i] == s.inter[i]
  {
  }

  lemma {:induction false} TurnsUpTo(env: Env, s: Sys, j: nat, i: nat, due: int)
    requires AutomatonOk(s) && j <= i < |s.inter| && Quiet(s)
    requires if s.inter[i].status.BoostStatus? then due == s.q.now + 1000 * s.inter[i].delay else Armed(s, i, due)
    ensures Armed(WeakFrom(env, s, j), i, due)
    decreases i - j
  {
    hide WeakOne, AutomatonOk, Armed, Quiet;
    WeakOneOk(env, s, j);
    TurnKeeps(env, s, j);
    if j == i {
      OwnTurn(env, s, i, due);
      TurnsAfter(env, WeakOne(env, s, j), j + 1, i, due);
    } else {
      if !s.inter[i].status.BoostStatus? { OtherTurn(env, s, j, i, due); }
      TurnsUpTo(env, WeakOne(env, s, j), j + 1, i, due);
    }
  }

  /** Once boosting goes on, no interaction is left waiting. */
  lemma {:induction false} TurnsBoost(env: Env, s: Sys, j: nat, i: nat)
    requires AutomatonOk(s) && j <= |s.inter| && i < |s.inter| && !Quiet(s) && (i < j ==> s.inter[i].status.BoostStatus?)
    ensures var t := WeakFrom(env, s, j); i < |t.inter| && t.inter[i].status.BoostStatus?
    decreases |s.inter| - j
  {
    hide WeakOne, AutomatonOk, Quiet;
    if j < |s.inter| {
      WeakOneOk(env, s, j);
      TurnKeeps(env, s, j);
      TurnsBoost(env, WeakOne(env, s, j), j + 1, i);
    }
  }

  /** The wait that follows from a state: none yet, or the one the interaction is in. */
  ghost predicate Awaits(s: Sys, i: nat, due: int) {
    && i < |s.inter|
    && if s.inter[i].status.BoostStatus? then due == s.q.now + 1000 * s.inter[i].delay else Armed(s, i, due)
  }

  lemma RoundWaits(env: Env, s: Sys, i: nat, due: int)
    requires AutomatonOk(s) && Awaits(s, i, due)
    ensures var t := WeakInteraction(env, s); i < |t.inter| && (t.inter[i].status.BoostEnd? ==> Armed(t, i, due)) && !t.inter[i].status.WeakStatus?
  {
    hide AutomatonOk, WeakFrom;
    if Quiet(s) {
      TurnsUpTo(env, s, 0, i, due);
    } else {
      TurnsBoost(env, s, 0, i);
    }
  }

  lemma AwaitsSame(s: Sys, t: Sys, i: nat, due: int)
    requires Awaits(s, i, due) && t.inter == s.inter && t.q.now == s.q.now
    requires forall h :: h in s.q.timers && s.q.timers[h].task == WeakTimer(i) ==> h in t.q.timers && t.q.timers[h] == s.q.timers[h]
    ensures Awaits(t, i, due)
  {
  }

  /** A task that is no weak timer. */
  lemma RunTaskWaits(env: Env, s: Sys, task: Task, order: seq<int>, i: nat, due: int)
    requires WfSys(env, s) && QueuedOk(env.cfg, task, |s.inter|) && Visits(order, env.cfg.nodes.Keys)
    requires AutomatonOk(s) && Awaits(s, i, due) && !task.WeakTimer?
    ensures var t := RunTask(env, s, task, order);
      i < |t.inter| && (t.inter[i].status.BoostEnd? ==> Armed(t, i, due)) && !t.inter[i].status.WeakStatus?
  {
    hide WfSys, TaskOk, AutomatonOk, WeakInteraction, Step, Delta, CurrentReport, DoWeak, Awaits;
    SysParts(env, s);
    match task
    case SetWeak(on) =>
      AutomatonKept(s, s.(weakOn := on));
      AwaitsSame(s, s.(weakOn := on), i, due);
      RoundWaits(env, s.(weakOn := on), i, due);
    case SetPerfMode(on) =>
      AwaitsSame(s, s.(perfMode := on), i, due);
      AwaitsArmed(s.(perfMode := on), i, due);
    case WeakTimer(_) => assert false;
    case _ =>
      var s1 := Send(env, s.(arb := Step(env.cfg, s.arb, Do(task, order))));
      AutomatonKept(s, s1);
      AwaitsSame(s, s1, i, due);
      RoundWaits(env, s1, i, due);
  }

  lemma AwaitsArmed(s: Sys, i: nat, due: int)
    requires Awaits(s, i, due)
    ensures i < |s.inter| && (s.inter[i].status.BoostEnd? ==> Armed(s, i, due)) && !s.inter[i].status.WeakStatus?
  {
  }

  lemma SetOther(s: Sys, j: nat, i: nat, due: int)
    requires Awaits(s, i, due) && j < |s.inter| && j != i
    ensures Awaits(SetInter(s, j, WeakStatus, s.inter[j].timer), i, due)
  {
  }

  lemma DoWeakKeeps(env: Env, s: Sys, j: nat)
    requires j < |s.inter|
    ensures var t := DoWeak(env, s, j, true); t.inter == s.inter && t.q.now == s.q.now && t.q.timers == s.q.timers
  {
  }

  lemma {:induction false} PostExpiriesMore(q: Queue, items: seq<Item>, durations: seq<int>)
    requires forall h :: h in q.timers ==> h < q.nextHandle
    ensures var p := PostExpiries(q, items, durations); p.now == q.now && forall h :: h in q.timers ==> h in p.timers && p.timers[h] == q.timers[h]
    decreases |durations|
  {
    if durations != [] {
      hide WithDuration;
      PostExpiriesMore(SubmitDelayed(q, Expiry(WithDuration(items, durations[0])), durations[0] * MICROS), items, durations[1..]);
    }
  }

  /** An interaction whose boosting ends waits its delay, in milliseconds, and no other event prolongs or cuts short
      the wait: it ends as boosting resumes, or when its time has come with the timer that makes it weak. */
  lemma WaitsItsDelay(env: Env, inter: seq<Inter>, es: seq<SysEvent>, e: SysEvent, i: nat)
    requires Feasible(env, inter, es) && Enabled(env, ReachSys(env, inter, es), e) && i < |ReachSys(env, inter, es).inter|
    ensures var s := ReachSys(env, inter, es);
      var t := SysStep(env, s, e);
      && i < |t.inter|
      && (s.inter[i].status.BoostStatus? && t.inter[i].status.BoostEnd? ==> Armed(t, i, s.q.now + 1000 * s.inter[i].delay))
      && (forall due :: Armed(s, i, due) && t.inter[i].status.BoostEnd? ==> Armed(t, i, due))
      && (!s.inter[i].status.WeakStatus? && t.inter[i].status.WeakStatus? ==> exists due :: Armed(s, i, due) && due <= s.q.now)
  {
    var s := ReachSys(env, inter, es);
    ReachAutomaton(env, inter, es);
    hide Feasible, ReachSys, WfSys, Enabled, SysStep, AutomatonOk, Armed, Awaits;
    if s.inter[i].status.BoostStatus? {
      BoostAwaits(s, i);
      StepWaits(env, s, e, i, s.q.now + 1000 * s.inter[i].delay);
    } else if s.inter[i].status.BoostEnd? {
      var due := EndAwaits(s, i);
      StepWaits(env, s, e, i, due);
    } else {
      StepLength(env, s, e);
      WeakNotArmed(s, i);
    }
  }

  lemma WeakNotArmed(s: Sys, i: nat)
    requires i < |s.inter| && s.inter[i].status.WeakStatus?
    ensures forall due :: !Armed(s, i, due)
  {
  }

  lemma BoostAwaits(s: Sys, i: nat)
    requires i < |s.inter| && s.inter[i].status.BoostStatus?
    ensures Awaits(s, i, s.q.now + 1000 * s.inter[i].delay) && forall due :: !Armed(s, i, due)
  {
  }

  lemma EndAwaits(s: Sys, i: nat) returns (due: int)
    requires AutomatonOk(s) && i < |s.inter| && s.inter[i].status.BoostEnd?
    ensures Awaits(s, i, due) && forall d :: Armed(s, i, d) <==> d == due
  {
    assert TimerOk(s, i);
    due := s.q.timers[s.inter[i].timer.value].due;
  }

  lemma ReachAutomaton(env: Env, inter: seq<Inter>, es: seq<SysEvent>)
    requires Feasible(env, inter, es)
    ensures WfSys(env, ReachSys(env, inter, es)) && AutomatonOk(ReachSys(env, inter, es))
  {
    hide WfSys, Possible, AutomatonOk;
    StartOk(env, inter);
    StartAutomaton(env, inter);
    SysRunAutomaton(env, InitSys(env, inter), es);
  }

  lemma StepLength(env: Env, s: Sys, e: SysEvent)
    requires WfSys(env, s) && Enabled(env, s, e)
    ensures |SysStep(env, s, e).inter| == |s.inter|
  {
    hide RunTask, PostExpiries, CommandsOk, WfConfig;
    match e
    case RunNext(order) => RunTaskOk(env, s.(q := s.q.(ready := s.q.ready[1..])), s.q.ready[0].task, order);
    case Fire(h, order) => RunTaskOk(env, s.(q := Cancel(s.q, h)), s.q.timers[h].task, order);
    case _ =>
  }

  lemma StepWaits(env: Env, s: Sys, e: SysEvent, i: nat, due: int)
    requires WfSys(env, s) && Enabled(env, s, e) && AutomatonOk(s) && Awaits(s, i, due)
    ensures var t := SysStep(env, s, e);
      && i < |t.inter| && (t.inter[i].status.BoostEnd? ==> Armed(t, i, due))
      && (t.inter[i].status.WeakStatus? ==> Armed(s, i, due) && due <= s.q.now)
  {
    hide RunTask, PostExpiries, CommandsOk, WfConfig, LogOk, QueuedOk, Step;
    match e
    case Request(items, durations) => PostExpiriesMore(Submit(s.q, Pack(items)), items, durations);
    case RunNext(order) =>
      var s1 := s.(q := s.q.(ready := s.q.ready[1..]));
      AutomatonSame(s, s1);
      assert WfSys(env, s1) && QueuedOk(env.cfg, s.q.ready[0].task, |s.inter|);
      AwaitsSame(s, s1, i, due);
      assert !s.q.ready[0].task.WeakTimer?;
      hide AutomatonOk, WfSys, Awaits;
      RunTaskWaits(env, s1, s.q.ready[0].task, order, i, due);
    case Fire(h, order) =>
      FireWaits(env, s, h, order, i, due);
    case _ =>
  }

  lemma FireWaits(env: Env, s: Sys, h: nat, order: seq<int>, i: nat, due: int)
    requires WfSys(env, s) && Enabled(env, s, Fire(h, order)) && AutomatonOk(s) && Awaits(s, i, due)
    ensures var t := SysStep(env, s, Fire(h, order));
      && i < |t.inter| && (t.inter[i].status.BoostEnd? ==> Armed(t, i, due))
      && (t.inter[i].status.WeakStatus? ==> Armed(s, i, due) && due <= s.q.now)
  {
    hide RunTask, CommandsOk, WfConfig, LogOk, QueuedOk, Step;
    var s1, task := s.(q := Cancel(s.q, h)), s.q.timers[h].task;
    assert WfSys(env, s1) && QueuedOk(env.cfg, task, |s.inter|);
    assert HandleOk(s, h);
    SysParts(env, s1);
    if task == WeakTimer(i) {
      FiredWeak(env, s1, i, order);
    } else if task.WeakTimer? {
      AwaitsSame(s, s1, i, due);
      OtherFired(env, s1, task.index, order, i, due);
    } else {
      CancelOk(s, h);
      AwaitsSame(s, s1, i, due);
      hide AutomatonOk, WfSys, Awaits;
      RunTaskWaits(env, s1, task, order, i, due);
    }
  }

  lemma FiredWeak(env: Env, s: Sys, i: nat, order: seq<int>)
    requires WfConfig(env.cfg) && Ready(env.cfg, s.arb) && i < |s.inter| && QueuedOk(env.cfg, WeakTimer(i), |s.inter|) && Visits(order, env.cfg.nodes.Keys)
    ensures var t := RunTask(env, s, WeakTimer(i), order); i < |t.inter| && t.inter[i].status.WeakStatus?
  {
  }

  lemma OtherFired(env: Env, s: Sys, j: nat, order: seq<int>, i: nat, due: int)
    requires WfConfig(env.cfg) && Ready(env.cfg, s.arb) && QueuedOk(env.cfg, WeakTimer(j), |s.inter|) && Visits(order, env.cfg.nodes.Keys)
    requires Awaits(s, i, due) && j != i
    ensures var t := RunTask(env, s, WeakTimer(j), order);
      i < |t.inter| && (t.inter[i].status.BoostEnd? ==> Armed(t, i, due)) && !t.inter[i].status.WeakStatus?
  {
    hide DoWeak, Awaits;
    var s1 := SetInter(s, j, WeakStatus, s.inter[j].timer);
    SetOther(s, j, i, due);
    DoWeakKeeps(env, s1, j);
    AwaitsSame(s1, DoWeak(env, s1, j, true), i, due);
    AwaitsArmed(DoWeak(env, s1, j, true), i, due);
  }
}
