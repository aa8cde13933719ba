/** The weak-interaction automaton. */
module Weak {
  import opened Common
  import opened Config
  import opened Tasks
  import opened System
  import opened SystemRuns

  /** The packs logged for one interaction: true for ON, false for OFF. */
  function PacksOf(log: seq<(nat, bool)>, i: nat): seq<bool> {
    if log == [] then []
    else PacksOf(log[..|log| - 1], i) + if log[|log| - 1].0 == i then [log[|log| - 1].1] else []
  }

  /** ON and OFF packs alternate, starting with ON. */
  predicate Alternating(packs: seq<bool>) {
    forall k :: 0 <= k < |packs| ==> packs[k] == (k % 2 == 0)
  }

  ghost predicate LogOk(s: Sys, i: nat)
    requires i < |s.inter|
  {
    Alternating(PacksOf(s.weakLog, i)) && (|PacksOf(s.weakLog, i)| % 2 == 1 <==> s.inter[i].status.WeakStatus?)
  }

  /** The interaction's timer is pending exactly while its status is BoostEnd, and its record names it. */
  ghost predicate TimerOk(s: Sys, i: nat)
    requires i < |s.inter|
  {
    s.inter[i].status.BoostEnd? ==>
      s.inter[i].timer.Some? && s.inter[i].timer.value in s.q.timers && s.q.timers[s.inter[i].timer.value].task == WeakTimer(i)
  }

  ghost predicate HandleOk(s: Sys, h: nat)
    requires h in s.q.timers
  {
    s.q.timers[h].task.WeakTimer? ==>
      var i := s.q.timers[h].task.index;
      i < |s.inter| && s.inter[i].status.BoostEnd? && s.inter[i].timer == Some(h)
  }

  ghost predicate AutomatonOk(s: Sys) {
    && (forall i :: 0 <= i < |s.inter| ==> LogOk(s, i) && TimerOk(s, i))
    && (forall h :: h in s.q.timers ==> h < s.q.nextHandle && HandleOk(s, h))
    && (forall k :: 0 <= k < |s.q.ready| ==> !s.q.ready[k].task.WeakTimer?)
  }

  ghost predicate SettledTo(s: Sys, n: nat)
    requires n <= |s.inter|
  {
    forall i :: 0 <= i < n ==> (s.inter[i].status.BoostStatus? <==> !Quiet(s))
  }

  /** Every interaction boosts exactly while weak mode is off or an interactive request is counted. */
  ghost predicate Settled(s: Sys) {
    SettledTo(s, |s.inter|)
  }

  lemma PacksSnoc(log: seq<(nat, bool)>, j: nat, on: bool, i: nat)
    ensures PacksOf(log + [(j, on)], i) == PacksOf(log, i) + if j == i then [on] else []
  {
    assert (log + [(j, on)])[..|log|] == log;
  }

  lemma AlternatingSnoc(packs: seq<bool>, on: bool)
    requires Alternating(packs) && (on <==> |packs| % 2 == 0)
    ensures Alternating(packs + [on])
  {
  }

  /** A logged pack fits the log of its interaction, and is none of the others'. */
  lemma LogSnoc(s: Sys, t: Sys, i: nat, on: bool, j: nat)
    requires i < |s.inter| && j < |s.inter| && |t.inter| == |s.inter| && LogOk(s, j) && t.weakLog == s.weakLog + [(i, on)]
    requires j == i ==> s.inter[i].status.WeakStatus? != on && t.inter[i].status.WeakStatus? == on
    requires j != i ==> t.inter[j] == s.inter[j]
    ensures LogOk(t, j)
  {
    PacksSnoc(s.weakLog, i, on, j);
    if j == i {
      AlternatingSnoc(PacksOf(s.weakLog, j), on);
    }
    hide PacksOf, Alternating;
  }

  /** A pack for interaction `i` that fits its log and status. */
  lemma DoWeakOk(env: Env, s: Sys, i: nat, on: bool, status: InterStatus)
    requires i < |s.inter| && AutomatonOk(s)
    requires on <==> status.WeakStatus?
    requires !status.BoostEnd? && s.inter[i].status.WeakStatus? != on
    requires forall h :: h in s.q.timers ==> s.q.timers[h].task != WeakTimer(i)
    ensures var t := DoWeak(env, SetInter(s, i, status, s.inter[i].timer), i, on);
      AutomatonOk(t) && |t.inter| == |s.inter|
  {
    hide PacksOf, Alternating, AllPairs, WeakItems;
    var t := DoWeak(env, SetInter(s, i, status, s.inter[i].timer), i, on);
    forall j | 0 <= j < |s.inter| ensures LogOk(t, j) && TimerOk(t, j) {
      assert LogOk(s, j) && TimerOk(s, j);
      LogSnoc(s, t, i, on, j);
    }
    assert t.q.timers == s.q.timers && t.q.nextHandle == s.q.nextHandle;
    forall h | h in t.q.timers ensures HandleOk(t, h) {
      assert HandleOk(s, h);
    }
  }

  lemma WeakOneOk(env: Env, s: Sys, i: nat)
    requires i < |s.inter| && AutomatonOk(s)
    ensures var t := WeakOne(env, s, i);
      && AutomatonOk(t) && Quiet(t) == Quiet(s)
      && (t.inter[i].status.BoostStatus? <==> !Quiet(t))
      && (forall j :: 0 <= j < |s.inter| && j != i ==> t.inter[j] == s.inter[j])
  {
    assert LogOk(s, i) && TimerOk(s, i);
    var t := WeakOne(env, s, i);
    hide PacksOf, Alternating;
    if s.inter[i].status.WeakStatus? && !Quiet(s) {
      assert forall h :: h in s.q.timers ==> HandleOk(s, h);
      DoWeakOk(env, s, i, false, BoostStatus);
      hide DoWeak, AutomatonOk;
    } else {
      TimerTurnOk(env, s, i);
      hide AutomatonOk;
    }
  }

  /** A turn that posts no pack: at most the interaction's own timer is set or called off. */
  lemma TimerTurnOk(env: Env, s: Sys, i: nat)
    requires i < |s.inter| && AutomatonOk(s) && !(s.inter[i].status.WeakStatus? && !Quiet(s))
    ensures AutomatonOk(WeakOne(env, s, i))
  {
    hide PacksOf, Alternating, DoWeak;
    var t := WeakOne(env, s, i);
    assert TimerOk(s, i);
    forall j | 0 <= j < |s.inter| ensures LogOk(t, j) && TimerOk(t, j) {
      assert LogOk(s, j) && TimerOk(s, j);
    }
    forall h | h in t.q.timers ensures HandleOk(t, h) {
      assert h in s.q.timers ==> HandleOk(s, h);
    }
  }

  lemma {:induction false} WeakFromOk(env: Env, s: Sys, i: nat)
    requires i <= |s.inter| && AutomatonOk(s) && SettledTo(s, i)
    ensures AutomatonOk(WeakFrom(env, s, i)) && Settled(WeakFrom(env, s, i))
    decreases |s.inter| - i
  {
    hide WeakOne, AutomatonOk;
    if i < |s.inter| {
      WeakOneOk(env, s, i);
      WeakFromOk(env, WeakOne(env, s, i), i + 1);
    }
  }

  lemma RunTaskAutomaton(env: Env, s: Sys, task: Task, order: seq<int>)
    requires WfSys(env, s) && QueuedOk(env.cfg, task, |s.inter|) && Visits(order, env.cfg.nodes.Keys)
    requires AutomatonOk(s) && !task.WeakTimer?
    ensures var t := RunTask(env, s, task, order);
      AutomatonOk(t) && (!task.SetPerfMode? ==> Settled(t))
  {
    hide WeakFrom, Step, QueueOk, CommandsOk, WfConfig;
    match task
    case SetWeak(on) =>
      AutomatonSame(s, s.(weakOn := on));
      WeakFromOk(env, s.(weakOn := on), 0);
    case SetPerfMode(on) => AutomatonSame(s, s.(perfMode := on));
    case WeakTimer(i) =>
    case _ =>
      var s1 := Send(env, s.(arb := Step(env.cfg, s.arb, Do(task, order))));
      AutomatonSame(s, s1);
      WeakFromOk(env, s1, 0);
  }

  lemma AutomatonSame(s: Sys, t: Sys)
    requires AutomatonOk(s) && t.inter == s.inter && t.weakLog == s.weakLog
    requires t.q.timers == s.q.timers && s.q.nextHandle == t.q.nextHandle
    requires forall k :: 0 <= k < |t.q.ready| ==> !t.q.ready[k].task.WeakTimer?
    ensures AutomatonOk(t)
  {
    forall i | 0 <= i < |s.inter| ensures LogOk(t, i) && TimerOk(t, i) {
      assert LogOk(s, i) && TimerOk(s, i);
    }
    forall h | h in t.q.timers ensures HandleOk(t, h) {
      assert HandleOk(s, h);
    }
  }

  lemma AutomatonKept(s: Sys, t: Sys)
    requires AutomatonOk(s) && t.inter == s.inter && t.weakLog == s.weakLog && t.q == s.q
    ensures AutomatonOk(t)
  {
    AutomatonSame(s, t);
  }

  /** A fired weak timer, seen as called off with its interaction back in BOOST. */
  lemma FiredOk(s: Sys, h: nat)
    requires AutomatonOk(s) && h in s.q.timers && s.q.timers[h].task.WeakTimer?
    ensures var i := s.q.timers[h].task.index;
      && i < |s.inter| && s.inter[i].status.BoostEnd?
      && var s1 := SetInter(s, i, BoostStatus, s.inter[i].timer).(q := Cancel(s.q, h));
      AutomatonOk(s1) && forall k :: k in s1.q.timers ==> s1.q.timers[k].task != WeakTimer(i)
  {
    var i := s.q.timers[h].task.index;
    assert HandleOk(s, h) && LogOk(s, i);
    hide PacksOf, Alternating;
    var s1 := SetInter(s, i, BoostStatus, s.inter[i].timer).(q := Cancel(s.q, h));
    forall j | 0 <= j < |s.inter| ensures LogOk(s1, j) && TimerOk(s1, j) {
      assert LogOk(s, j) && TimerOk(s, j);
    }
    forall k | k in s1.q.timers ensures HandleOk(s1, k) && s1.q.timers[k].task != WeakTimer(i) {
      assert HandleOk(s, k);
    }
  }

  /** A weak timer firing is the only step to WeakStatus, and leaves the automaton settled if it was. */
  lemma FireWeakTimer(env: Env, s: Sys, h: nat, order: seq<int>)
    requires WfSys(env, s) && AutomatonOk(s) && h in s.q.timers && s.q.timers[h].task.WeakTimer? && Visits(order, env.cfg.nodes.Keys)
    ensures var t := RunTask(env, s.(q := Cancel(s.q, h)), s.q.timers[h].task, order);
      AutomatonOk(t) && (Settled(s) ==> Settled(t))
  {
    FiredOk(s, h);
    hide WfConfig, CommandsOk, AutomatonOk;
    var i := s.q.timers[h].task.index;
    var s1 := SetInter(s, i, BoostStatus, s.inter[i].timer).(q := Cancel(s.q, h));
    DoWeakOk(env, s1, i, true, WeakStatus);
    var s2 := SetInter(s.(q := Cancel(s.q, h)), i, WeakStatus, s.inter[i].timer);
    assert s2 == SetInter(s1, i, WeakStatus, s1.inter[i].timer);
  }

  lemma CancelOk(s: Sys, h: nat)
    requires AutomatonOk(s) && h in s.q.timers && !s.q.timers[h].task.WeakTimer?
    ensures AutomatonOk(s.(q := Cancel(s.q, h)))
  {
    var t := s.(q := Cancel(s.q, h));
    forall i | 0 <= i < |s.inter| ensures LogOk(t, i) && TimerOk(t, i) {
      assert LogOk(s, i) && TimerOk(s, i);
    }
    forall k | k in t.q.timers ensures HandleOk(t, k) {
      assert HandleOk(s, k);
    }
  }

  lemma {:induction false} PostExpiriesSame(s: Sys, items: seq<Item>, durations: seq<int>)
    requires AutomatonOk(s)
    ensures AutomatonOk(s.(q := PostExpiries(s.q, items, durations)))
    decreases |durations|
  {
    if durations == [] {
      assert s.(q := s.q) == s;
    } else {
      var t := s.(q := SubmitDelayed(s.q, Expiry(WithDuration(items, durations[0])), durations[0] * MICROS));
      forall i | 0 <= i < |s.inter| ensures LogOk(t, i) && TimerOk(t, i) {
        assert LogOk(s, i) && TimerOk(s, i);
      }
      forall k | k in t.q.timers ensures HandleOk(t, k) {
        assert k in s.q.timers ==> HandleOk(s, k);
      }
      hide AutomatonOk, WithDuration;
      PostExpiriesSame(t, items, durations[1..]);
    }
  }

  /** Running any task but SetPerfMode and a weak timer ends in a call of WeakInteraction. */
  predicate Checks(s: Sys, e: SysEvent) {
    match e
    case RunNext(_) => s.q.ready != [] && !s.q.ready[0].task.SetPerfMode?
    case Fire(h, _) => h in s.q.timers && !s.q.timers[h].task.WeakTimer? && !s.q.timers[h].task.SetPerfMode?
    case _ => false
  }

  lemma SysStepAutomaton(env: Env, s: Sys, e: SysEvent)
    requires WfSys(env, s) && Enabled(env, s, e) && AutomatonOk(s)
    ensures AutomatonOk(SysStep(env, s, e))
    ensures Settled(s) || Checks(s, e) ==> Settled(SysStep(env, s, e))
  {
    hide RunTask, PostExpiries, QueueOk, CommandsOk, WfConfig, QueuedOk;
    match e
    case Request(items, durations) =>
      var s1 := s.(q := Submit(s.q, Pack(items)), nextId := s.nextId + |items|);
      AutomatonSame(s, s1);
      PostExpiriesSame(s1, items, durations);
    case Post(task) => AutomatonSame(s, SysStep(env, s, e));
    case SetThermal(level) => AutomatonSame(s, SysStep(env, s, e));
    case Tick(to) => AutomatonSame(s, SysStep(env, s, e));
    case RunNext(order) =>
      RunNextAutomaton(env, s, order);
    case Fire(h, order) =>
      if s.q.timers[h].task.WeakTimer? {
        FireWeakTimer(env, s, h, order);
      } else {
        FireAutomaton(env, s, h, order);
      }
  }

  lemma RunNextAutomaton(env: Env, s: Sys, order: seq<int>)
    requires WfSys(env, s) && Enabled(env, s, RunNext(order)) && AutomatonOk(s)
    ensures var t := SysStep(env, s, RunNext(order)); AutomatonOk(t) && (Settled(s) || !s.q.ready[0].task.SetPerfMode? ==> Settled(t))
  {
    var s1 := s.(q := s.q.(ready := s.q.ready[1..]));
    AutomatonSame(s, s1);
    assert WfSys(env, s1) && QueuedOk(env.cfg, s.q.ready[0].task, |s.inter|);
    RunTaskAutomaton(env, s1, s.q.ready[0].task, order);
    hide AutomatonOk, WeakInteraction, Send, Step, DoWeak, QueueOk;
  }

  lemma FireAutomaton(env: Env, s: Sys, h: nat, order: seq<int>)
    requires WfSys(env, s) && Enabled(env, s, Fire(h, order)) && AutomatonOk(s) && !s.q.timers[h].task.WeakTimer?
    ensures var t := SysStep(env, s, Fire(h, order)); AutomatonOk(t) && (Settled(s) || !s.q.timers[h].task.SetPerfMode? ==> Settled(t))
  {
    var s1 := s.(q := Cancel(s.q, h));
    CancelOk(s, h);
    assert WfSys(env, s1);
    RunTaskAutomaton(env, s1, s.q.timers[h].task, order);
    hide AutomatonOk, WeakInteraction, Send, Step, DoWeak, QueueOk;
  }

  lemma {:induction false} SysRunAutomaton(env: Env, s: Sys, es: seq<SysEvent>)
    requires WfSys(env, s) && Possible(env, s, es) && AutomatonOk(s)
    ensures AutomatonOk(SysRun(env, s, es)) && (Settled(s) ==> Settled(SysRun(env, s, es)))
    decreases |es|
  {
    hide SysStep, Enabled, AutomatonOk, Settled, Checks;
    if es != [] {
      SysStepOk(env, s, es[0]);
      SysStepAutomaton(env, s, es[0]);
      SysRunAutomaton(env, SysStep(env, s, es[0]), es[1..]);
    }
  }

  lemma {:induction false} StartAutomaton(env: Env, inter: seq<Inter>)
    requires Start(env, inter)
    ensures AutomatonOk(InitSys(env, inter))
  {
    assert forall i: nat :: PacksOf([], i) == [];
  }

  /** In every reachable state: a weak timer is pending exactly for the interactions in BoostEnd, and the
      packs of each interaction alternate ON, OFF, the last one being ON exactly in WeakStatus. */
  lemma AutomatonInvariant(env: Env, inter: seq<Inter>, es: seq<SysEvent>, i: nat)
    requires Feasible(env, inter, es) && i < |ReachSys(env, inter, es).inter|
    ensures var s := ReachSys(env, inter, es);
      && (s.inter[i].status.BoostEnd? <==> exists h :: h in s.q.timers && s.q.timers[h].task == WeakTimer(i))
      && (forall h, k :: h in s.q.timers && k in s.q.timers && s.q.timers[h].task == WeakTimer(i) && s.q.timers[k].task == WeakTimer(i) ==> h == k)
      && Alternating(PacksOf(s.weakLog, i))
      && (|PacksOf(s.weakLog, i)| % 2 == 1 <==> s.inter[i].status.WeakStatus?)
  {
    hide WfSys, Possible;
    StartOk(env, inter);
    StartAutomaton(env, inter);
    SysRunAutomaton(env, InitSys(env, inter), es);
    var s := ReachSys(env, inter, es);
    assert LogOk(s, i) && TimerOk(s, i);
    forall h | h in s.q.timers && s.q.timers[h].task == WeakTimer(i)
      ensures s.inter[i].status.BoostEnd? && s.inter[i].timer == Some(h)
    {
      assert HandleOk(s, h);
    }
  }

  /** Some task of the run has ended in a call of WeakInteraction. */
  ghost predicate HasChecked(env: Env, s: Sys, es: seq<SysEvent>)
    requires WfSys(env, s) && Possible(env, s, es)
    decreases |es|
  {
    es != [] && (Checks(s, es[0]) || (SysStepOk(env, s, es[0]); HasChecked(env, SysStep(env, s, es[0]), es[1..])))
  }

  lemma {:induction false} SysRunSettles(env: Env, s: Sys, es: seq<SysEvent>)
    requires WfSys(env, s) && Possible(env, s, es) && AutomatonOk(s) && (Settled(s) || HasChecked(env, s, es))
    ensures Settled(SysRun(env, s, es))
    decreases |es|
  {
    hide SysStep, Enabled, AutomatonOk, Settled, Checks;
    if es != [] {
      SysStepOk(env, s, es[0]);
      SysStepAutomaton(env, s, es[0]);
      SysRunSettles(env, SysStep(env, s, es[0]), es[1..]);
    }
  }

  /** After any run in which one task has run to its end, an interaction is in BoostStatus exactly while weak
      mode is off or the boost counter is not zero. */
  lemma BoostExactly(env: Env, inter: seq<Inter>, es: seq<SysEvent>, i: nat)
    requires Feasible(env, inter, es) && (StartOk(env, inter); HasChecked(env, InitSys(env, inter), es))
    requires i < |ReachSys(env, inter, es).inter|
    ensures var s := ReachSys(env, inter, es); s.inter[i].status.BoostStatus? <==> !s.weakOn || s.arb.boost != 0
  {
    hide WfSys, Possible, AutomatonOk, HasChecked;
    StartOk(env, inter);
    StartAutomaton(env, inter);
    SysRunSettles(env, InitSys(env, inter), es);
  }
}
