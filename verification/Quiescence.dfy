/** The tasks the service submits to itself always die out. */
module Quiescence {
  import opened Common
  import opened Config
  import opened LiveList
  import opened ArbiterState
  import opened Tasks
  import opened System
  import opened SystemRuns
  import opened RunTheorems
  import opened Weak

  /** A pack that cannot move the boost counter, such as the packs the automaton posts. */
  predicate Silent(task: Task) {
    task.Pack? && forall i :: 0 <= i < |task.items| ==> !task.items[i].action.interaction
  }

  /** A bound on the tasks one task can still lead to, itself included, with `n` interactions. */
  function Cost(task: Task, n: nat): nat {
    if Silent(task) then 1 else if task.WeakTimer? then 2 else 2 * n + 1
  }

  function ReadyCost(ready: seq<Queued>, n: nat): nat {
    if ready == [] then 0 else Cost(ready[0].task, n) + ReadyCost(ready[1..], n)
  }

  function TimerCost(timers: map<nat, Timer>, below: nat, n: nat): nat {
    if below == 0 then 0
    else TimerCost(timers, below - 1, n) + if below - 1 in timers then Cost(timers[below - 1].task, n) else 0
  }

  /** A bound on the number of tasks that will still run if nothing more is asked of the service. */
  function Potential(s: Sys): nat {
    ReadyCost(s.q.ready, |s.inter|) + TimerCost(s.q.timers, s.q.nextHandle, |s.inter|)
  }

  lemma {:induction false} ReadyCostSnoc(ready: seq<Queued>, x: Queued, n: nat)
    ensures ReadyCost(ready + [x], n) == ReadyCost(ready, n) + Cost(x.task, n)
  {
    if ready == [] {
      assert ready + [x] == [x];
    } else {
      assert (ready + [x])[1..] == ready[1..] + [x];
      ReadyCostSnoc(ready[1..], x, n);
    }
  }

  lemma {:induction false} TimerCostAdd(timers: map<nat, Timer>, h: nat, t: Timer, below: nat, n: nat)
    requires below <= h
    ensures TimerCost(timers[h := t], below, n) == TimerCost(timers, below, n)
  {
    if below != 0 {
      TimerCostAdd(timers, h, t, below - 1, n);
    }
  }

  lemma {:induction false} TimerCostRemove(timers: map<nat, Timer>, h: nat, below: nat, n: nat)
    requires h in timers
    ensures TimerCost(timers - {h}, below, n) == TimerCost(timers, below, n) - if h < below then Cost(timers[h].task, n) else 0
  {
    if below != 0 {
      TimerCostRemove(timers, h, below - 1, n);
    }
  }

  lemma DoWeakCost(env: Env, s: Sys, i: nat, on: bool)
    requires i < |s.inter|
    ensures Potential(DoWeak(env, s, i, on)) <= Potential(s) + 1
  {
    var t := DoWeak(env, s, i, on);
    if t.q != s.q {
      var x := t.q.ready[|s.q.ready|];
      assert t.q.ready == s.q.ready + [x];
      assert Silent(x.task);
      ReadyCostSnoc(s.q.ready, x, |s.inter|);
    }
  }

  lemma WeakOneCost(env: Env, s: Sys, i: nat)
    requires i < |s.inter|
    ensures Potential(WeakOne(env, s, i)) <= Potential(s) + 2
    ensures (s.inter[i].status.BoostStatus? <==> !Quiet(s)) ==> WeakOne(env, s, i) == s
  {
    match s.inter[i].status
    case BoostStatus =>
      TimerCostAdd(s.q.timers, s.q.nextHandle, Timer(s.q.now + s.inter[i].delay * MICROS, WeakTimer(i)), s.q.nextHandle, |s.inter|);
    case WeakStatus =>
      if !Quiet(s) {
        DoWeakCost(env, SetInter(s, i, BoostStatus, s.inter[i].timer), i, false);
      }
    case BoostEnd =>
      if !Quiet(s) && s.inter[i].timer.Some? {
        var h := s.inter[i].timer.value;
        if h in s.q.timers {
          TimerCostRemove(s.q.timers, h, s.q.nextHandle, |s.inter|);
        } else {
          assert s.q.timers - {h} == s.q.timers;
        }
      }
  }

  /** Calling WeakInteraction adds at most two tasks per interaction, and none when it is settled. */
  lemma {:induction false} WeakFromCost(env: Env, s: Sys, i: nat)
    requires i <= |s.inter|
    ensures Potential(WeakFrom(env, s, i)) <= Potential(s) + 2 * (|s.inter| - i)
    ensures Settled(s) ==> WeakFrom(env, s, i) == s
    decreases |s.inter| - i
  {
    hide WeakOne, Potential, Quiet;
    if i < |s.inter| {
      WeakOneCost(env, s, i);
      WeakFromCost(env, WeakOne(env, s, i), i + 1);
    }
  }

  // ---- silent packs -----------------------------------------------------------------------------------

  lemma {:induction false} SilentOps(cfg: Config, items: seq<Item>)
    requires TaskOk(cfg, Pack(items)) && Silent(Pack(items))
    ensures forall i :: 0 <= i < |PackOps(cfg, items)| ==> SilentOp(PackOps(cfg, items)[i])
  {
    if items != [] {
      assert forall i :: 0 <= i < |items[1..]| ==> items[1..][i] == items[i + 1];
      SilentOps(cfg, items[1..]);
    }
  }

  predicate SilentOp(op: Op) {
    op.Begin? && !op.action.interaction
  }

  lemma {:induction false} SilentBoost(cfg: Config, s: Arb, ops: seq<Op>)
    requires Ready(cfg, s) && OpsOk(cfg, ops) && forall i :: 0 <= i < |ops| ==> SilentOp(ops[i])
    ensures ApplyAll(cfg, s, ops).boost == s.boost
    decreases |ops|
  {
    if ops != [] {
      assert SilentOp(ops[0]) && OpOk(cfg, ops[0]);
      assert Apply(cfg, s, ops[0]) == DoInstant(cfg, s, ops[0].resId, ops[0].action);
      SilentInstant(cfg, s, ops[0].resId, ops[0].action);
      hide Apply, DoInstant, OpOk, SilentOp;
      SilentBoost(cfg, Apply(cfg, s, ops[0]), ops[1..]);
    }
  }

  lemma SilentInstant(cfg: Config, s: Arb, r: int, a: ResAction)
    requires Ready(cfg, s) && r in cfg.nodes && a.Valid() && !a.interaction
    ensures DoInstant(cfg, s, r, a).boost == s.boost
  {
    SetListFrame(cfg, s, r, a.kind, Instant(s.info[r].lists[a.kind], a));
    hide SetList;
  }

  lemma SilentQuiet(cfg: Config, s: Arb, task: Task, order: seq<int>)
    requires WfConfig(cfg) && Ready(cfg, s) && TaskOk(cfg, task) && Visits(order, cfg.nodes.Keys) && Silent(task)
    ensures Step(cfg, s, Do(task, order)).boost == s.boost
  {
    hide Apply, OpOk, SilentOp;
    SilentOps(cfg, task.items);
    SilentBoost(cfg, s, PackOps(cfg, task.items));
  }

  // ---- every task that runs uses up potential --------------------------------------------------------------

  /** What a service that is not settled may still have to post to become so. */
  ghost function Debt(s: Sys): nat {
    if Settled(s) then 0 else 2 * |s.inter|
  }

  lemma RunTaskCost(env: Env, s: Sys, task: Task, order: seq<int>)
    requires WfSys(env, s) && QueuedOk(env.cfg, task, |s.inter|) && Visits(order, env.cfg.nodes.Keys)
    ensures var t := RunTask(env, s, task, order);
      Potential(t) < Potential(s) + Cost(task, |s.inter|) + if task.WeakTimer? || task.SetPerfMode? then 0 else Debt(s)
  {
    hide WeakFrom, Step, QueueOk, CommandsOk, WfConfig, ReadyCost, TimerCost, Delta;
    match task
    case SetWeak(on) => WeakFromCost(env, s.(weakOn := on), 0);
    case SetPerfMode(on) =>
    case WeakTimer(i) => DoWeakCost(env, SetInter(s, i, WeakStatus, s.inter[i].timer), i, true);
    case Pack(items) =>
      var s1 := Send(env, s.(arb := Step(env.cfg, s.arb, Do(task, order))));
      WeakFromCost(env, s1, 0);
      if Silent(task) && Settled(s) {
        SilentQuiet(env.cfg, s.arb, task, order);
        assert Settled(s1);
      }
    case _ => WeakFromCost(env, Send(env, s.(arb := Step(env.cfg, s.arb, Do(task, order)))), 0);
  }

  predicate Runs(e: SysEvent) {
    e.RunNext? || e.Fire?
  }

  /** Potential and debt together only fall, and fall whenever a task runs. */
  lemma SysStepCost(env: Env, s: Sys, e: SysEvent)
    requires WfSys(env, s) && Enabled(env, s, e) && AutomatonOk(s) && (Runs(e) || e.Tick? || e.SetThermal?)
    ensures var t := SysStep(env, s, e); Potential(t) + Debt(t) <= Potential(s) + Debt(s) - if Runs(e) then 1 else 0
  {
    SysStepAutomaton(env, s, e);
    SameInterCount(env, s, e);
    hide RunTask, QueueOk, CommandsOk, WfConfig, Cost, AutomatonOk, Settled;
    match e
    case RunNext(order) =>
      var s1 := s.(q := s.q.(ready := s.q.ready[1..]));
      assert WfSys(env, s1) && QueuedOk(env.cfg, s.q.ready[0].task, |s.inter|) by { RestOk(env, s); }
      NoTimerReady(s);
      QueueOnlySettled(s, s1);
      RunTaskCost(env, s1, s.q.ready[0].task, order);
    case Fire(h, order) =>
      var s1 := s.(q := Cancel(s.q, h));
      assert WfSys(env, s1) && QueuedOk(env.cfg, s.q.timers[h].task, |s.inter|) && h < s.q.nextHandle by { TakenOk(env, s, h); }
      TimerCostRemove(s.q.timers, h, s.q.nextHandle, |s.inter|);
      QueueOnlySettled(s, s1);
      RunTaskCost(env, s1, s.q.timers[h].task, order);
    case _ =>
  }

  lemma QueueOnlySettled(s: Sys, t: Sys)
    requires t == s.(q := t.q)
    ensures Settled(t) == Settled(s)
  {
  }

  lemma NoTimerReady(s: Sys)
    requires AutomatonOk(s) && s.q.ready != []
    ensures !s.q.ready[0].task.WeakTimer?
  {
  }

  lemma SameInterCount(env: Env, s: Sys, e: SysEvent)
    requires WfSys(env, s) && Enabled(env, s, e)
    ensures |SysStep(env, s, e).inter| == |s.inter|
  {
    hide RunTask, PostExpiries, CommandsOk, WfConfig;
    match e
    case RunNext(order) =>
      RestOk(env, s);
      RunTaskOk(env, s.(q := s.q.(ready := s.q.ready[1..])), s.q.ready[0].task, order);
    case Fire(h, order) =>
      TakenOk(env, s, h);
      RunTaskOk(env, s.(q := Cancel(s.q, h)), s.q.timers[h].task, order);
    case _ =>
  }

  lemma RestOk(env: Env, s: Sys)
    requires WfSys(env, s) && s.q.ready != []
    ensures WfSys(env, s.(q := s.q.(ready := s.q.ready[1..]))) && QueuedOk(env.cfg, s.q.ready[0].task, |s.inter|)
  {
  }

  lemma TakenOk(env: Env, s: Sys, h: nat)
    requires WfSys(env, s) && h in s.q.timers
    ensures WfSys(env, s.(q := Cancel(s.q, h))) && QueuedOk(env.cfg, s.q.timers[h].task, |s.inter|) && h < s.q.nextHandle
  {
  }

  function CountRuns(es: seq<SysEvent>): nat {
    if es == [] then 0 else (if Runs(es[0]) then 1 else 0) + CountRuns(es[1..])
  }

  lemma {:induction false} RunsOut(env: Env, s: Sys, es: seq<SysEvent>)
    requires WfSys(env, s) && Possible(env, s, es) && AutomatonOk(s)
    requires forall i :: 0 <= i < |es| ==> Runs(es[i]) || es[i].Tick? || es[i].SetThermal?
    ensures CountRuns(es) <= Potential(s) + Debt(s)
    decreases |es|
  {
    hide SysStep, Enabled, AutomatonOk, Debt, Potential;
    if es != [] {
      SysStepOk(env, s, es[0]);
      SysStepAutomaton(env, s, es[0]);
      SysStepCost(env, s, es[0]);
      RunsOut(env, SysStep(env, s, es[0]), es[1..]);
    }
  }

  /** Left to itself in any reachable state, the service runs at most Potential(s) more tasks, and at most two
      per interaction besides while it is not settled, however they are scheduled. */
  lemma DiesOut(env: Env, inter: seq<Inter>, before: seq<SysEvent>, es: seq<SysEvent>)
    requires Feasible(env, inter, before) && Possible(env, ReachSys(env, inter, before), es)
    requires forall i :: 0 <= i < |es| ==> Runs(es[i]) || es[i].Tick? || es[i].SetThermal?
    ensures var s := ReachSys(env, inter, before);
      CountRuns(es) <= Potential(s) + if Settled(s) then 0 else 2 * |s.inter|
  {
    hide WfSys, Possible, AutomatonOk, Settled, Potential, CountRuns;
    StartOk(env, inter);
    StartAutomaton(env, inter);
    SysRunAutomaton(env, InitSys(env, inter), before);
    RunsOut(env, ReachSys(env, inter, before), es);
  }
}
