/** The switches, modes and the thermal level: what they start as and which events move them; and what a clear does. */
module Settings {
  import opened Common
  import opened Config
  import opened ArbiterState
  import opened Tasks
  import opened System
  import opened SystemRuns
  import opened RunTheorems

  // ---- frames ------------------------------------------------------------------------------------------------

  /** Only a switch operation moves its switch, and only a level operation the level. */
  lemma OpMoves(cfg: Config, s: Arb, op: Op)
    requires WfConfig(cfg) && Ready(cfg, s) && OpOk(cfg, op)
    ensures var t := Apply(cfg, s, op);
      && t.power == (if op.SwitchPower? then op.on else s.power)
      && t.thermal == (if op.SwitchThermal? then op.on else s.thermal)
      && t.level == (if op.Level? then op.level else s.level)
  {
    hide WfConfig, SetList, ArbitrateAll;
    match op
    case Begin(r, a) => InstantFrame(cfg, s, r, a);
    case End(r, a) => ExpireFrame(cfg, s, r, a);
    case ClearPerf(r) => SetListFrame(cfg, s, r, PERF, []);
    case SwitchPower(on, order) => ArbitrateAllFrame(cfg, s.(power := on), order);
    case SwitchThermal(on, order) => ArbitrateAllFrame(cfg, s.(thermal := on), order);
    case Level(level) =>
  }

  predicate MovesNothing(ops: seq<Op>) {
    forall i :: 0 <= i < |ops| ==> !ops[i].SwitchPower? && !ops[i].SwitchThermal? && !ops[i].Level?
  }

  lemma {:induction false} OpsMove(cfg: Config, s: Arb, ops: seq<Op>)
    requires WfConfig(cfg) && Ready(cfg, s) && OpsOk(cfg, ops) && MovesNothing(ops)
    ensures var t := ApplyAll(cfg, s, ops); t.power == s.power && t.thermal == s.thermal && t.level == s.level
    decreases |ops|
  {
    hide Apply, OpOk, WfConfig;
    if ops != [] {
      OpMoves(cfg, s, ops[0]);
      OpsMove(cfg, Apply(cfg, s, ops[0]), ops[1..]);
    }
  }

  lemma {:induction false} PackMovesNothing(cfg: Config, items: seq<Item>)
    requires TaskOk(cfg, Pack(items))
    ensures MovesNothing(PackOps(cfg, items))
  {
    if items != [] {
      PackMovesNothing(cfg, items[1..]);
    }
  }

  lemma TaskMoves(cfg: Config, s: Arb, task: Task, order: seq<int>)
    requires WfConfig(cfg) && Ready(cfg, s) && EventOk(cfg, Do(task, order))
    ensures var t := Step(cfg, s, Do(task, order));
      && t.power == (if task.PowerSwitch? then task.on else s.power)
      && t.thermal == (if task.ThermalSwitch? then task.on else s.thermal)
      && t.level == s.level
  {
    hide WfConfig, Visits, TaskOk, Apply;
    var ops := Ops(cfg, Do(task, order));
    if task.PowerSwitch? || task.ThermalSwitch? {
      assert ApplyAll(cfg, s, ops) == Apply(cfg, s, ops[0]);
      OpMoves(cfg, s, ops[0]);
    } else {
      if task.Pack? { PackMovesNothing(cfg, task.items); }
      hide PackOps, LimitTarget;
      OpsMove(cfg, s, ops);
    }
  }

  // ---- the settings ------------------------------------------------------------------------------------------

  function Ran(s: Sys, e: SysEvent): Option<Task> {
    if HasTask(s, e) then Some(TaskOf(s, e)) else None
  }

  /** Each setting is moved by running its own task, or by setting the level, and by nothing else. */
  lemma SettingsMove(env: Env, s: Sys, e: SysEvent)
    requires WfSys(env, s) && Enabled(env, s, e)
    ensures var t, task := SysStep(env, s, e), Ran(s, e);
      && t.arb.power == (if task.Some? && task.value.PowerSwitch? then task.value.on else s.arb.power)
      && t.arb.thermal == (if task.Some? && task.value.ThermalSwitch? then task.value.on else s.arb.thermal)
      && t.weakOn == (if task.Some? && task.value.SetWeak? then task.value.on else s.weakOn)
      && t.perfMode == (if task.Some? && task.value.SetPerfMode? then task.value.on else s.perfMode)
      && t.arb.level == (if e.SetThermal? then e.level else s.arb.level)
  {
    hide RunTask, PostExpiries, WfConfig, CommandsOk, QueuedOk, Step;
    if e.RunNext? || e.Fire? {
      EventRuns(env, s, e);
      RunMoves(env, s.(q := WithoutTask(s, e)), TaskOf(s, e), e.order);
    }
  }

  lemma RunMoves(env: Env, s: Sys, task: Task, order: seq<int>)
    requires WfSys(env, s) && QueuedOk(env.cfg, task, |s.inter|) && Visits(order, env.cfg.nodes.Keys)
    ensures var t := RunTask(env, s, task, order);
      && t.arb.power == (if task.PowerSwitch? then task.on else s.arb.power)
      && t.arb.thermal == (if task.ThermalSwitch? then task.on else s.arb.thermal)
      && t.weakOn == (if task.SetWeak? then task.on else s.weakOn)
      && t.perfMode == (if task.SetPerfMode? then task.on else s.perfMode)
      && t.arb.level == s.arb.level
  {
    hide WfConfig, CommandsOk, QueueOk, TaskOk, Step, WeakFrom, DoWeak, Delta, CurrentReport;
    RunTaskOk(env, s, task, order);
    TaskMoves(env.cfg, s.arb, task, order);
    match task
    case SetWeak(on) => WeakFromFrame(env, s.(weakOn := on), 0);
    case SetPerfMode(on) =>
    case WeakTimer(i) => DoWeakFrame(env, SetInter(s, i, WeakStatus, s.inter[i].timer), i, true);
    case _ =>
      var acted := s.(arb := Step(env.cfg, s.arb, Do(task, order)));
      SendWf(env, acted);
      WeakFromFrame(env, Send(env, acted), 0);
  }

  /** At start-up both switches are off, the level is zero, weak interaction is allowed and the performance mode is off;
      nothing is requested, applied or queued. */
  lemma StartsSo(env: Env, inter: seq<Inter>, r: int)
    requires Start(env, inter)
    ensures var s := InitSys(env, inter);
      && !s.arb.power && !s.arb.thermal && s.arb.level == 0 && s.arb.boost == 0 && s.weakOn && !s.perfMode && s.inter == inter
      && s.q.ready == [] && s.q.timers == map[]
      && (r in env.cfg.nodes <==> r in s.arb.info)
      && (r in env.cfg.nodes ==> var st := s.arb.info[r];
            && st.currentValue == -1 && st.candidate == -1 && st.currentEndTime == 0x7FFF_FFFF_FFFF_FFFF
            && |st.lists| == 5 && forall k :: 0 <= k < 5 ==> st.lists[k] == [])
  {
  }

  // ---- clearing ----------------------------------------------------------------------------------------------

  lemma {:induction false} ClearAll(cfg: Config, s: Arb, order: seq<int>)
    requires Ready(cfg, s) && OpsOk(cfg, ClearOps(order))
    ensures var t := ApplyAll(cfg, s, ClearOps(order));
      && t.boost == s.boost
      && forall r :: r in cfg.nodes ==> t.info[r].lists == if r in order then s.info[r].lists[PERF := []] else s.info[r].lists
    decreases |order|
  {
    if order != [] {
      ClearHead(cfg, s, order);
      hide *;
      var t, rest := ClearOne(cfg, s, order[0]), order[1..];
      ClearAll(cfg, t, rest);
      var u := ApplyAll(cfg, s, ClearOps(order));
      forall r | r in cfg.nodes ensures u.info[r].lists == if r in order then s.info[r].lists[PERF := []] else s.info[r].lists {
        assert r in order <==> r == order[0] || r in rest;
        assert s.info[r].lists[PERF := []][PERF := []] == s.info[r].lists[PERF := []];
      }
    }
  }

  lemma ClearHead(cfg: Config, s: Arb, order: seq<int>)
    requires Ready(cfg, s) && OpsOk(cfg, ClearOps(order)) && order != []
    ensures order[0] in cfg.nodes && OpsOk(cfg, ClearOps(order[1..]))
    ensures var t := ClearOne(cfg, s, order[0]);
      && ApplyAll(cfg, s, ClearOps(order)) == ApplyAll(cfg, t, ClearOps(order[1..]))
      && Ready(cfg, t) && t.boost == s.boost
      && forall r :: r in cfg.nodes ==> t.info[r].lists == if r == order[0] then s.info[r].lists[PERF := []] else s.info[r].lists
  {
    var r := order[0];
    assert ClearOps(order)[0] == ClearPerf(r) && ClearOps(order)[1..] == ClearOps(order[1..]);
    assert OpOk(cfg, ClearOps(order)[0]);
    SetListFrame(cfg, s, r, PERF, []);
    hide ClearOps, OpOk, SetList;
  }

  /** A clear empties the perf list of every resource, and no other list; the counter stays. */
  lemma ClearEmpties(cfg: Config, s: Arb, order: seq<int>)
    requires WfConfig(cfg) && Ready(cfg, s) && Visits(order, cfg.nodes.Keys)
    ensures var t := Step(cfg, s, Do(Clear, order));
      && t.boost == s.boost
      && forall r, k :: r in cfg.nodes && 0 <= k < 5 ==> t.info[r].lists[k] == if k == 0 then [] else s.info[r].lists[k]
  {
    assert Ops(cfg, Do(Clear, order)) == ClearOps(order);
    hide WfConfig, ApplyAll, ClearOps;
    ClearAll(cfg, s, order);
  }
}
