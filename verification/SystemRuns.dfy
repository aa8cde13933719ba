/** Runs of the whole service thread are well formed and project onto runs of the arbiter. */
module SystemRuns {
  import opened Common
  import opened Config
  import opened ArbiterState
  import opened Tasks
  import opened System

  // ---- well-formedness is kept ---------------------------------------------------------------------

  /** Everything but the arbiter, the queue, the automaton's records and the log of weak packs. */
  ghost predicate SameRest(s: Sys, t: Sys) {
    t.arb == s.arb && t.weakOn == s.weakOn && t.perfMode == s.perfMode && t.sent == s.sent && t.perfSo == s.perfSo && t.rssExe == s.rssExe
  }

  ghost predicate SameInter(s: Sys, t: Sys) {
    && |t.inter| == |s.inter|
    && forall i :: 0 <= i < |s.inter| ==>
      t.inter[i] == s.inter[i].(status := t.inter[i].status, timer := t.inter[i].timer)
  }

  /** A weak command's pairs make valid requests. */
  lemma WeakPackOk(env: Env, s: Sys, i: nat, on: bool, cmdId: int)
    requires CommandsOk(env) && i < |s.inter| && PERF <= s.inter[i].actionType <= PERFLVL && cmdId in env.commands
    ensures TaskOk(env.cfg, Pack(WeakItems(AllPairs(env.cfg, env.commands[cmdId].actionList), env.commands[cmdId].id, on, s.inter[i].actionType, s.nextId)))
  {
    assert PairsOk(AllPairs(env.cfg, env.commands[cmdId].actionList));
    hide AllPairs;
  }

  lemma SubmittedOk(cfg: Config, q: Queue, task: Task, n: nat)
    requires QueueOk(cfg, q, n) && QueuedOk(cfg, task, n)
    ensures QueueOk(cfg, Submit(q, task), n)
  {
    hide QueuedOk;
  }

  lemma DoWeakFrame(env: Env, s: Sys, i: nat, on: bool)
    requires WfSys(env, s) && i < |s.inter|
    ensures var t := DoWeak(env, s, i, on);
      WfSys(env, t) && SameRest(s, t) && t.inter == s.inter && t.weakLog == s.weakLog + [(i, on)]
  {
    hide AllPairs, WeakItems, CommandsOk, QueueOk, WfConfig, TaskOk;
    var cmdId := ModeCmdId(s, s.inter[i].cmdId);
    if cmdId in env.commands {
      var c := env.commands[cmdId];
      WeakPackOk(env, s, i, on, cmdId);
      SubmittedOk(env.cfg, s.q, Pack(WeakItems(AllPairs(env.cfg, c.actionList), c.id, on, s.inter[i].actionType, s.nextId)), |s.inter|);
    }
  }

  lemma WeakOneFrame(env: Env, s: Sys, i: nat)
    requires WfSys(env, s) && i < |s.inter|
    ensures var t := WeakOne(env, s, i); WfSys(env, t) && SameRest(s, t) && SameInter(s, t)
  {
    hide WfConfig, CommandsOk, QueueOk, DoWeak;
    match s.inter[i].status
    case BoostStatus => DelayedOk(env.cfg, s.q, WeakTimer(i), s.inter[i].delay * MICROS, |s.inter|);
    case WeakStatus =>
      if !Quiet(s) {
        DoWeakFrame(env, SetInter(s, i, BoostStatus, s.inter[i].timer), i, false);
      }
    case BoostEnd =>
      if s.inter[i].timer.Some? {
        CancelledOk(env.cfg, s.q, s.inter[i].timer.value, |s.inter|);
      }
  }

  lemma DelayedOk(cfg: Config, q: Queue, task: Task, delay: int, n: nat)
    requires QueueOk(cfg, q, n) && QueuedOk(cfg, task, n)
    ensures QueueOk(cfg, SubmitDelayed(q, task, delay), n)
  {
    hide QueuedOk;
  }

  lemma CancelledOk(cfg: Config, q: Queue, h: nat, n: nat)
    requires QueueOk(cfg, q, n)
    ensures QueueOk(cfg, Cancel(q, h), n)
  {
    hide QueuedOk;
  }

  lemma {:induction false} WeakFromFrame(env: Env, s: Sys, i: nat)
    requires WfSys(env, s) && i <= |s.inter|
    ensures var t := WeakFrom(env, s, i); WfSys(env, t) && SameRest(s, t) && SameInter(s, t)
    decreases |s.inter| - i
  {
    hide WeakOne, QueueOk, CommandsOk, WfConfig;
    if i < |s.inter| {
      WeakOneFrame(env, s, i);
      WeakFromFrame(env, WeakOne(env, s, i), i + 1);
    }
  }

  /** What the sinks have been told when a task is over. */
  ghost predicate Reported(env: Env, s: Sys, t: Sys, sends: bool) {
    var u := if sends then Send(env, s.(arb := t.arb)) else s;
    t.sent == u.sent && t.perfSo == u.perfSo && t.rssExe == u.rssExe && (!sends ==> t.arb == s.arb)
  }

  lemma RunTaskOk(env: Env, s: Sys, task: Task, order: seq<int>)
    requires WfSys(env, s) && QueuedOk(env.cfg, task, |s.inter|) && Visits(order, env.cfg.nodes.Keys)
    ensures var t := RunTask(env, s, task, order);
      && WfSys(env, t) && SameInter(s, t)
      && t.arb == Step(env.cfg, s.arb, Do(task, order))
      && Reported(env, s, t, Sends(task))
  {
    hide QueueOk, CommandsOk, WfConfig, WeakFrom, DoWeak, Step, Delta, CurrentReport, TaskOk;
    if Sends(task) {
      RunTaskSends(env, s, task, order);
      hide RunTask;
      var acted := s.(arb := Step(env.cfg, s.arb, Do(task, order)));
      SendWf(env, acted);
      WeakFromFrame(env, Send(env, acted), 0);
    } else {
      NoStep(env.cfg, s.arb, task, order);
      match task
      case SetWeak(on) => WeakFromFrame(env, s.(weakOn := on), 0);
      case SetPerfMode(on) =>
      case WeakTimer(i) => DoWeakFrame(env, SetInter(s, i, WeakStatus, s.inter[i].timer), i, true);
    }
  }

  lemma SysParts(env: Env, s: Sys)
    requires WfSys(env, s)
    ensures WfConfig(env.cfg) && Ready(env.cfg, s.arb)
  {
  }

  lemma SendWf(env: Env, s: Sys)
    requires WfSys(env, s)
    ensures WfSys(env, Send(env, s))
  {
    hide QueueOk, CommandsOk, WfConfig, Delta;
  }

  lemma RunTaskSends(env: Env, s: Sys, task: Task, order: seq<int>)
    requires WfConfig(env.cfg) && Ready(env.cfg, s.arb) && QueuedOk(env.cfg, task, |s.inter|) && Visits(order, env.cfg.nodes.Keys) && Sends(task)
    ensures RunTask(env, s, task, order) == WeakInteraction(env, Send(env, s.(arb := Step(env.cfg, s.arb, Do(task, order)))))
  {
    hide WeakInteraction, Send, Step;
  }

  lemma {:induction false} WithDurationOk(env: Env, items: seq<Item>, duration: int)
    requires TaskOk(env.cfg, Expiry(items))
    ensures TaskOk(env.cfg, Expiry(WithDuration(items, duration)))
  {
    if items != [] {
      WithDurationOk(env, items[1..], duration);
    }
  }

  lemma {:induction false} PostExpiriesOk(env: Env, q: Queue, items: seq<Item>, durations: seq<int>, n: nat)
    requires QueueOk(env.cfg, q, n) && TaskOk(env.cfg, Expiry(items))
    ensures QueueOk(env.cfg, PostExpiries(q, items, durations), n)
    decreases |durations|
  {
    if durations != [] {
      WithDurationOk(env, items, durations[0]);
      var task := Expiry(WithDuration(items, durations[0]));
      hide WithDuration, TaskOk;
      PostExpiriesOk(env, SubmitDelayed(q, task, durations[0] * MICROS), items, durations[1..], n);
    }
  }

  predicate HasTask(s: Sys, e: SysEvent) {
    (e.RunNext? && s.q.ready != []) || (e.Fire? && e.handle in s.q.timers)
  }

  /** The task that an event runs, and the queue without it. */
  function TaskOf(s: Sys, e: SysEvent): Task
    requires HasTask(s, e)
  {
    if e.RunNext? then s.q.ready[0].task else s.q.timers[e.handle].task
  }

  function WithoutTask(s: Sys, e: SysEvent): Queue
    requires HasTask(s, e)
  {
    if e.RunNext? then s.q.(ready := s.q.ready[1..]) else Cancel(s.q, e.handle)
  }

  lemma EventRuns(env: Env, s: Sys, e: SysEvent)
    requires WfSys(env, s) && Enabled(env, s, e) && (e.RunNext? || e.Fire?)
    ensures HasTask(s, e)
    ensures QueuedOk(env.cfg, TaskOf(s, e), |s.inter|) && Visits(e.order, env.cfg.nodes.Keys) && WfSys(env, s.(q := WithoutTask(s, e)))
    ensures SysStep(env, s, e) == RunTask(env, s.(q := WithoutTask(s, e)), TaskOf(s, e), e.order)
  {
    hide RunTask, QueuedOk;
    assert e.RunNext? ==> s.q.ready[0] in s.q.ready;
  }

  lemma SysStepOk(env: Env, s: Sys, e: SysEvent)
    requires WfSys(env, s) && Enabled(env, s, e)
    ensures WfSys(env, SysStep(env, s, e))
  {
    match e
    case Request(items, durations) =>
      assert TaskOk(env.cfg, Expiry(items)) && TaskOk(env.cfg, Pack(items));
      PostExpiriesOk(env, Submit(s.q, Pack(items)), items, durations, |s.inter|);
    case Post(task) =>
    case SetThermal(level) =>
    case Tick(to) =>
    case RunNext(order) =>
      hide RunTask;
      assert s.q.ready[0] in s.q.ready;
      RunTaskOk(env, s.(q := s.q.(ready := s.q.ready[1..])), s.q.ready[0].task, order);
    case Fire(h, order) =>
      hide RunTask;
      RunTaskOk(env, s.(q := Cancel(s.q, h)), s.q.timers[h].task, order);
  }

  // ---- runs ---------------------------------------------------------------------------------------------

  /** Each event is possible when its turn comes. */
  ghost predicate Possible(env: Env, s: Sys, es: seq<SysEvent>)
    requires WfSys(env, s)
    decreases |es|
  {
    es != [] ==>
      && Enabled(env, s, es[0])
      && (SysStepOk(env, s, es[0]); Possible(env, SysStep(env, s, es[0]), es[1..]))
  }

  ghost function SysRun(env: Env, s: Sys, es: seq<SysEvent>): (t: Sys)
    requires WfSys(env, s) && Possible(env, s, es)
    ensures WfSys(env, t)
    decreases |es|
  {
    if es == [] then s
    else
      SysStepOk(env, s, es[0]);
      SysRun(env, SysStep(env, s, es[0]), es[1..])
  }

  lemma {:induction false} SysRunAppend(env: Env, s: Sys, a: seq<SysEvent>, b: seq<SysEvent>)
    requires WfSys(env, s) && Possible(env, s, a) && Possible(env, SysRun(env, s, a), b)
    ensures Possible(env, s, a + b) && SysRun(env, s, a + b) == SysRun(env, SysRun(env, s, a), b)
    decreases |a|
  {
    hide SysStep, Enabled, WfSys;
    if a == [] {
      assert a + b == b;
    } else {
      assert (a + b)[1..] == a[1..] + b && (a + b)[0] == a[0];
      SysStepOk(env, s, a[0]);
      SysRunAppend(env, SysStep(env, s, a[0]), a[1..], b);
    }
  }

  /** Start-up: everything is at its default and every interaction is boosting. */
  ghost predicate Start(env: Env, inter: seq<Inter>) {
    && WfConfig(env.cfg) && CommandsOk(env)
    && forall i :: 0 <= i < |inter| ==> PERF <= inter[i].actionType <= PERFLVL && inter[i].status == BoostStatus && inter[i].timer == None
  }

  lemma StartOk(env: Env, inter: seq<Inter>)
    requires Start(env, inter)
    ensures WfSys(env, InitSys(env, inter))
  {
  }

  /** `es` is a possible run of the service from start-up. */
  ghost predicate Feasible(env: Env, inter: seq<Inter>, es: seq<SysEvent>) {
    Start(env, inter) && (StartOk(env, inter); Possible(env, InitSys(env, inter), es))
  }

  /** The state of the service after a run from start-up. */
  ghost function ReachSys(env: Env, inter: seq<Inter>, es: seq<SysEvent>): (s: Sys)
    requires Feasible(env, inter, es)
    ensures WfSys(env, s)
  {
    StartOk(env, inter);
    SysRun(env, InitSys(env, inter), es)
  }

  // ---- projection -------------------------------------------------------------------------------------------

  /** What an event of the service does to the arbiter. */
  ghost function ArbEvents(env: Env, s: Sys, e: SysEvent): seq<Event>
    requires WfSys(env, s) && Enabled(env, s, e)
  {
    match e
    case SetThermal(level) => [SetLevel(level)]
    case RunNext(order) => [Do(s.q.ready[0].task, order)]
    case Fire(h, order) => [Do(s.q.timers[h].task, order)]
    case _ => []
  }

  lemma StepProjects(env: Env, s: Sys, e: SysEvent)
    requires WfSys(env, s) && Enabled(env, s, e)
    ensures EventsOk(env.cfg, ArbEvents(env, s, e))
    ensures SysStep(env, s, e).arb == Run(env.cfg, s.arb, ArbEvents(env, s, e))
  {
    hide Apply, Ops, OpOk, RunTask;
    match e
    case SetThermal(level) => LevelStep(env.cfg, s.arb, level);
    case RunNext(order) =>
      RunTaskOk(env, s.(q := s.q.(ready := s.q.ready[1..])), s.q.ready[0].task, order);
    case Fire(h, order) =>
      RunTaskOk(env, s.(q := Cancel(s.q, h)), s.q.timers[h].task, order);
    case _ =>
  }

  ghost function Projection(env: Env, s: Sys, es: seq<SysEvent>): (events: seq<Event>)
    requires WfSys(env, s) && Possible(env, s, es)
    ensures EventsOk(env.cfg, events)
    decreases |es|
  {
    if es == [] then []
    else
      SysStepOk(env, s, es[0]);
      StepProjects(env, s, es[0]);
      ArbEvents(env, s, es[0]) + Projection(env, SysStep(env, s, es[0]), es[1..])
  }

  /** Every run of the service is, for the arbiter, a run of tasks from start-up: the theorems about
      Reach hold of every state of the service. */
  lemma {:induction false} SysRunProjects(env: Env, s: Sys, es: seq<SysEvent>)
    requires WfSys(env, s) && Possible(env, s, es)
    ensures SysRun(env, s, es).arb == Run(env.cfg, s.arb, Projection(env, s, es))
    decreases |es|
  {
    hide SysStep, ArbEvents, EventOk, Enabled;
    if es != [] {
      SysStepOk(env, s, es[0]);
      StepProjects(env, s, es[0]);
      SysRunProjects(env, SysStep(env, s, es[0]), es[1..]);
      RunAppend(env.cfg, s.arb, ArbEvents(env, s, es[0]), Projection(env, SysStep(env, s, es[0]), es[1..]));
    }
  }

  lemma ReachSysProjects(env: Env, inter: seq<Inter>, es: seq<SysEvent>) returns (events: seq<Event>)
    requires Feasible(env, inter, es)
    ensures EventsOk(env.cfg, events) && ReachSys(env, inter, es).arb == Reach(env.cfg, events)
  {
    hide WfSys, Possible;
    StartOk(env, inter);
    events := Projection(env, InitSys(env, inter), es);
    SysRunProjects(env, InitSys(env, inter), es);
  }
}
