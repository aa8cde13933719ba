/** Pending expiry tasks and live timed requests correspond. */
module Timers {
  import opened Common
  import opened Config
  import opened LiveList
  import opened ArbiterState
  import opened Agreement
  import opened Tasks
  import opened Runs
  import opened RunTheorems
  import opened System
  import opened SystemRuns
  import opened Weak

  // ---- which requests are live ----------------------------------------------------------------------

  ghost predicate LiveAt(cfg: Config, s: Arb, r: int, x: ResAction)
    requires Ready(cfg, s)
  {
    r in cfg.nodes && PERF <= x.kind <= PERFLVL && x in s.info[r].lists[x.kind]
  }

  /** Every request live in `t` was live in `s` or is one of the `begun`. */
  ghost predicate Gains(cfg: Config, s: Arb, t: Arb, begun: seq<Item>)
    requires Ready(cfg, s) && Ready(cfg, t)
  {
    forall r, x :: LiveAt(cfg, t, r, x) ==> LiveAt(cfg, s, r, x) || (x.onOff != EventOff && Item(r, x) in begun)
  }

  lemma BeginGains(cfg: Config, s: Arb, r: int, a: ResAction)
    requires Ready(cfg, s) && r in cfg.nodes && a.Valid()
    ensures Gains(cfg, s, DoInstant(cfg, s, r, a), [Item(r, a)])
  {
    InstantFrame(cfg, s, r, a);
    var l := s.info[r].lists[a.kind];
    assert forall x :: x in Instant(l, a) ==> x in l || (x == a && a.onOff != EventOff);
    hide DoInstant, Instant;
    assert Item(r, a) in [Item(r, a)];
  }

  lemma {:induction false} PackGains(cfg: Config, s: Arb, items: seq<Item>)
    requires Ready(cfg, s) && TaskOk(cfg, Pack(items))
    ensures Gains(cfg, s, ApplyAll(cfg, s, PackOps(cfg, items)), items)
    decreases |items|
  {
    if items != [] {
      var rest := items[1..];
      assert TaskOk(cfg, Pack(rest));
      assert items == [items[0]] + rest;
      var s1 := if items[0].resId in cfg.nodes then DoInstant(cfg, s, items[0].resId, items[0].action) else s;
      if items[0].resId in cfg.nodes {
        var op := Begin(items[0].resId, items[0].action);
        assert PackOps(cfg, items) == [op] + PackOps(cfg, rest);
        assert ([op] + PackOps(cfg, rest))[1..] == PackOps(cfg, rest);
        BeginGains(cfg, s, items[0].resId, items[0].action);
      } else {
        assert PackOps(cfg, items) == PackOps(cfg, rest);
      }
      assert ApplyAll(cfg, s, PackOps(cfg, items)) == ApplyAll(cfg, s1, PackOps(cfg, rest));
      hide DoInstant, Apply, PackOps;
      PackGains(cfg, s1, rest);
    }
  }

  lemma EndGains(cfg: Config, s: Arb, r: int, a: ResAction)
    requires Agrees(cfg, s) && r in cfg.nodes && a.Valid()
    ensures var t := DoExpire(cfg, s, r, a); Gains(cfg, s, t, []) && !LiveAt(cfg, t, r, a)
  {
    hide Agrees, DoExpire, WfList;
    AgreesLists(cfg, s, r, a.kind);
    ExpireFrame(cfg, s, r, a);
    var l := s.info[r].lists[a.kind];
    EraseWf(l, Exactly(a), a.kind);
    assert forall x :: x in Expire(l, a) ==> x in l;
    hide Expire;
  }

  /** An expiry task leaves none of its requests live. */
  lemma {:induction false} ExpiryGains(cfg: Config, s: Arb, items: seq<Item>)
    requires Agrees(cfg, s) && TaskOk(cfg, Expiry(items))
    ensures var t := ApplyAll(cfg, s, ExpiryOps(items));
      Gains(cfg, s, t, []) && forall i :: 0 <= i < |items| ==> !LiveAt(cfg, t, items[i].resId, items[i].action)
    decreases |items|
  {
    hide Agrees, DoExpire, LiveAt;
    AgreesReady(cfg, s);
    assert OpsOk(cfg, ExpiryOps(items));
    assert items == [] ==> ExpiryOps(items) == [];
    hide ExpiryOps;
    if items != [] {
      var r, a := items[0].resId, items[0].action;
      EndGains(cfg, s, r, a);
      ExpireAgrees(cfg, s, r, a);
      ExpiryOpsCons(cfg, s, items);
      ExpiryGains(cfg, DoExpire(cfg, s, r, a), items[1..]);
      var t := ApplyAll(cfg, s, ExpiryOps(items));
      forall i | 0 <= i < |items| ensures !LiveAt(cfg, t, items[i].resId, items[i].action) {
        if i > 0 {
          assert items[i] == items[1..][i - 1];
        }
      }
    }
  }

  lemma ClearOneGains(cfg: Config, s: Arb, r: int)
    requires Ready(cfg, s) && r in cfg.nodes
    ensures Gains(cfg, s, ClearOne(cfg, s, r), [])
  {
    hide SetList;
    SetListFrame(cfg, s, r, PERF, []);
  }

  lemma NoGains(cfg: Config, s: Arb, t: Arb, u: Arb)
    requires Ready(cfg, s) && Ready(cfg, t) && Ready(cfg, u)
    ensures Gains(cfg, s, s, []) && (Gains(cfg, s, t, []) && Gains(cfg, t, u, []) ==> Gains(cfg, s, u, []))
  {
    hide LiveAt;
  }

  lemma {:induction false} ClearGains(cfg: Config, s: Arb, order: seq<int>)
    requires Ready(cfg, s) && OpsOk(cfg, ClearOps(order))
    ensures Gains(cfg, s, ApplyAll(cfg, s, ClearOps(order)), [])
    decreases |order|
  {
    hide Gains, ClearOne;
    if order == [] {
      NoGains(cfg, s, s, s);
    } else {
      assert ClearOps(order)[0] == ClearPerf(order[0]) && ClearOps(order)[1..] == ClearOps(order[1..]);
      assert OpOk(cfg, ClearOps(order)[0]);
      hide ClearOps, OpOk;
      var s1 := ClearOne(cfg, s, order[0]);
      ClearOneGains(cfg, s, order[0]);
      ClearGains(cfg, s1, order[1..]);
      NoGains(cfg, s, s1, ApplyAll(cfg, s1, ClearOps(order[1..])));
    }
  }

  lemma SwitchGains(cfg: Config, s: Arb, power: bool, thermal: bool, order: seq<int>)
    requires WfConfig(cfg) && Ready(cfg, s) && Visits(order, cfg.nodes.Keys)
    ensures Gains(cfg, s, ArbitrateAll(cfg, s.(power := power, thermal := thermal), order), [])
  {
    ArbitrateAllFrame(cfg, s.(power := power, thermal := thermal), order);
  }

  lemma LimitGains(cfg: Config, s: Arb, byLevel: bool, resId: int, a: ResAction)
    requires WfConfig(cfg) && Ready(cfg, s) && TaskOk(cfg, Limit(byLevel, resId, a))
    ensures forall r, x :: LiveAt(cfg, ApplyAll(cfg, s, LimitOps(cfg, byLevel, resId, a)), r, x) ==>
      LiveAt(cfg, s, r, x) || (x.onOff != EventOff && x == a.(value := x.value))
  {
    var v := LimitTarget(cfg, byLevel, resId, a);
    if v.Some? {
      var b := a.(value := v.value);
      var r := RealResId(byLevel, resId);
      BeginGains(cfg, s, r, b);
      assert ApplyAll(cfg, s, [Begin(r, b)]) == DoInstant(cfg, s, r, b);
      hide DoInstant, LimitTarget;
    }
  }

  // ---- which requests have a pending expiry ------------------------------------------------------------

  /** The pending delayed task `h` holds the request object `x` for resource `r`. */
  predicate Holds(timers: map<nat, Timer>, h: nat, r: int, x: ResAction) {
    h in timers && timers[h].task.Expiry? && Item(r, x) in timers[h].task.items
  }

  ghost predicate Held(timers: map<nat, Timer>, r: int, x: ResAction, after: int) {
    exists h :: Holds(timers, h, r, x) && after < timers[h].due
  }

  /** A request object is held by at most one task, and objects at new addresses by none. */
  ghost predicate HoldersUnique(timers: map<nat, Timer>, nextId: nat) {
    && (forall h, r, x :: Holds(timers, h, r, x) ==> x.id < nextId)
    && (forall h, r, x, k, q, y :: Holds(timers, h, r, x) && Holds(timers, k, q, y) && x.id == y.id ==> h == k)
  }

  /** A queued pack or limit: every timed request in it is held by a later task, the others are ON or OFF. */
  ghost predicate ReadyOk(timers: map<nat, Timer>, x: Queued) {
    match x.task
    case Pack(items) => forall i :: 0 <= i < |items| ==>
      if items[i].action.duration == 0 then items[i].action.onOff != EventInvalid
      else Held(timers, items[i].resId, items[i].action, x.stamp)
    case Limit(_, _, a) => a.duration == 0 && a.onOff != EventInvalid
    case Expiry(_) => false
    case WeakTimer(_) => false
    case _ => true
  }

  ghost predicate TimedOrOn(timers: map<nat, Timer>, r: int, x: ResAction) {
    if x.duration == 0 then x.onOff == EventOn else exists h :: Holds(timers, h, r, x)
  }

  ghost predicate Stamped(q: Queue) {
    && (forall k :: 0 <= k < |q.ready| ==> q.ready[k].stamp <= q.now)
    && (forall j, k :: 0 <= j < k < |q.ready| ==> q.ready[j].stamp <= q.ready[k].stamp)
    && (forall h :: h in q.timers ==> h < q.nextHandle && (q.timers[h].task.Expiry? || q.timers[h].task.WeakTimer?))
  }

  ghost predicate QueueTimed(q: Queue, nextId: nat) {
    && Stamped(q) && HoldersUnique(q.timers, nextId)
    && forall k :: 0 <= k < |q.ready| ==> ReadyOk(q.timers, q.ready[k])
  }

  ghost predicate TimersOk(env: Env, s: Sys) {
    && Agrees(env.cfg, s.arb) && AutomatonOk(s) && QueueTimed(s.q, s.nextId)
    && forall r, x :: LiveAt(env.cfg, s.arb, r, x) ==> TimedOrOn(s.q.timers, r, x)
  }

  // ---- the automaton never touches an expiry --------------------------------------------------------------

  /** `p` came from `q` by posting untimed packs and adding or cancelling weak timers. */
  ghost predicate WeakQueue(q: Queue, p: Queue) {
    && p.now == q.now && |q.ready| <= |p.ready| && p.ready[..|q.ready|] == q.ready
    && (forall k :: |q.ready| <= k < |p.ready| ==> p.ready[k].stamp == q.now && Untimed(p.ready[k].task))
    && (forall h :: h in q.timers && q.timers[h].task.Expiry? ==> h in p.timers && p.timers[h] == q.timers[h])
    && (forall h :: h in p.timers && p.timers[h].task.Expiry? ==> h in q.timers)
    && (forall h :: h in p.timers ==> h < p.nextHandle && ((h in q.timers && p.timers[h] == q.timers[h]) || p.timers[h].task.WeakTimer?))
  }

  predicate Untimed(task: Task) {
    task.Pack? && forall i :: 0 <= i < |task.items| ==> task.items[i].action.duration == 0 && task.items[i].action.onOff != EventInvalid
  }

  lemma WeakQueueTimed(q: Queue, p: Queue, nextId: nat, newId: nat)
    requires QueueTimed(q, nextId) && WeakQueue(q, p) && nextId <= newId
    ensures QueueTimed(p, newId)
    ensures forall h, r, x :: Holds(p.timers, h, r, x) <==> Holds(q.timers, h, r, x)
  {
    assert forall h, r, x :: Holds(p.timers, h, r, x) <==> Holds(q.timers, h, r, x);
    forall k | 0 <= k < |p.ready| ensures ReadyOk(p.timers, p.ready[k]) && p.ready[k].stamp <= p.now {
      if k < |q.ready| {
        assert p.ready[k] == q.ready[k] && ReadyOk(q.timers, q.ready[k]);
        HeldSame(q.timers, p.timers, q.ready[k]);
      } else {
        assert Untimed(p.ready[k].task);
      }
    }
    forall j, k | 0 <= j < k < |p.ready| ensures p.ready[j].stamp <= p.ready[k].stamp {
      assert j < |q.ready| ==> p.ready[j] == q.ready[j];
      assert k < |q.ready| ==> p.ready[k] == q.ready[k];
    }
  }

  lemma HeldSame(t: map<nat, Timer>, u: map<nat, Timer>, x: Queued)
    requires ReadyOk(t, x)
    requires forall h :: h in t && t[h].task.Expiry? ==> h in u && u[h] == t[h]
    ensures ReadyOk(u, x)
  {
    if x.task.Pack? {
      var items := x.task.items;
      forall i | 0 <= i < |items| && items[i].action.duration != 0 ensures Held(u, items[i].resId, items[i].action, x.stamp) {
        var h :| Holds(t, h, items[i].resId, items[i].action) && x.stamp < t[h].due;
        assert Holds(u, h, items[i].resId, items[i].action);
      }
    }
  }

  lemma DoWeakQueue(env: Env, s: Sys, i: nat, on: bool)
    requires i < |s.inter| && Stamped(s.q)
    ensures WeakQueue(s.q, DoWeak(env, s, i, on).q) && s.nextId <= DoWeak(env, s, i, on).nextId
  {
  }

  lemma WeakOneQueue(env: Env, s: Sys, i: nat)
    requires i < |s.inter| && AutomatonOk(s) && Stamped(s.q)
    ensures var t := WeakOne(env, s, i); WeakQueue(s.q, t.q) && s.nextId <= t.nextId
  {
    assert TimerOk(s, i);
    if s.inter[i].status.WeakStatus? && !Quiet(s) {
      DoWeakQueue(env, SetInter(s, i, BoostStatus, s.inter[i].timer), i, false);
      hide DoWeak;
    }
  }

  /** WeakInteraction keeps every pending expiry and every live request's claim to one. */
  lemma {:induction false} WeakFromTimed(env: Env, s: Sys, i: nat)
    requires i <= |s.inter| && AutomatonOk(s) && QueueTimed(s.q, s.nextId)
    ensures var t := WeakFrom(env, s, i);
      && QueueTimed(t.q, t.nextId)
      && forall h, r, x :: Holds(t.q.timers, h, r, x) <==> Holds(s.q.timers, h, r, x)
    decreases |s.inter| - i
  {
    hide WeakOne, AutomatonOk, ReadyOk, Holds;
    if i < |s.inter| {
      WeakOneOk(env, s, i);
      WeakOneQueue(env, s, i);
      var t := WeakOne(env, s, i);
      WeakQueueTimed(s.q, t.q, s.nextId, t.nextId);
      WeakFromTimed(env, t, i + 1);
    }
  }

  // ---- every step keeps the correspondence ------------------------------------------------------------

  ghost predicate AllTimedOrOn(cfg: Config, s: Arb, timers: map<nat, Timer>)
    requires Ready(cfg, s)
  {
    forall r, x :: LiveAt(cfg, s, r, x) ==> TimedOrOn(timers, r, x)
  }

  /** What a pack began is accounted for by the queue, so it stays accounted for once it is live. */
  lemma LiveKept(cfg: Config, s: Arb, t: Arb, timers: map<nat, Timer>, stamp: int, begun: seq<Item>)
    requires Ready(cfg, s) && Ready(cfg, t) && Gains(cfg, s, t, begun)
    requires AllTimedOrOn(cfg, s, timers) && ReadyOk(timers, Queued(stamp, Pack(begun)))
    ensures AllTimedOrOn(cfg, t, timers)
  {
    forall r, x | LiveAt(cfg, t, r, x) ensures TimedOrOn(timers, r, x) {
      if !LiveAt(cfg, s, r, x) {
        var i :| 0 <= i < |begun| && begun[i] == Item(r, x);
        if x.duration != 0 {
          assert Held(timers, r, x, stamp);
        }
      }
    }
  }

  /** The effect of any queued task but an expiry on the live requests. */
  lemma TaskLive(env: Env, s: Arb, x: Queued, order: seq<int>, timers: map<nat, Timer>)
    requires WfConfig(env.cfg) && Ready(env.cfg, s) && TaskOk(env.cfg, x.task) && Visits(order, env.cfg.nodes.Keys)
    requires AllTimedOrOn(env.cfg, s, timers) && ReadyOk(timers, x)
    ensures AllTimedOrOn(env.cfg, Step(env.cfg, s, Do(x.task, order)), timers)
  {
    assert x.task.Clear? ==> OpsOk(env.cfg, ClearOps(order));
    hide AllTimedOrOn, ReadyOk, Gains, Apply, LiveAt, WfConfig, OpOk, Visits;
    var cfg := env.cfg;
    match x.task
    case Pack(items) =>
      PackGains(cfg, s, items);
      LiveKept(cfg, s, Step(cfg, s, Do(x.task, order)), timers, x.stamp, items);
    case Clear =>
      ClearGains(cfg, s, order);
      NothingBegun(timers);
      LiveKept(cfg, s, Step(cfg, s, Do(x.task, order)), timers, 0, []);
    case PowerSwitch(on) => SwitchLive(cfg, s, x.task, order, timers);
    case ThermalSwitch(on) => SwitchLive(cfg, s, x.task, order, timers);
    case Limit(byLevel, resId, a) => LimitLive(cfg, s, byLevel, resId, a, x.stamp, timers);
    case Expiry(_) => NotReady(timers, x);
    case _ =>
  }

  lemma NotReady(timers: map<nat, Timer>, x: Queued)
    requires ReadyOk(timers, x)
    ensures !x.task.Expiry? && !x.task.WeakTimer?
  {
  }

  lemma NothingBegun(timers: map<nat, Timer>)
    ensures ReadyOk(timers, Queued(0, Pack([])))
  {
  }

  lemma SwitchLive(cfg: Config, s: Arb, flip: Task, order: seq<int>, timers: map<nat, Timer>)
    requires WfConfig(cfg) && Ready(cfg, s) && Visits(order, cfg.nodes.Keys) && AllTimedOrOn(cfg, s, timers)
    requires flip.PowerSwitch? || flip.ThermalSwitch?
    ensures AllTimedOrOn(cfg, Step(cfg, s, Do(flip, order)), timers)
  {
    hide AllTimedOrOn, ReadyOk, Gains, LiveAt, WfConfig, Arbitrate, Visits;
    var op := if flip.PowerSwitch? then SwitchPower(flip.on, order) else SwitchThermal(flip.on, order);
    assert Ops(cfg, Do(flip, order)) == [op];
    assert ApplyAll(cfg, s, [op]) == Apply(cfg, s, op);
    SwitchGains(cfg, s, if flip.PowerSwitch? then flip.on else s.power, if flip.PowerSwitch? then s.thermal else flip.on, order);
    NothingBegun(timers);
    LiveKept(cfg, s, Apply(cfg, s, op), timers, 0, []);
  }

  lemma LimitLive(cfg: Config, s: Arb, byLevel: bool, resId: int, a: ResAction, stamp: int, timers: map<nat, Timer>)
    requires WfConfig(cfg) && Ready(cfg, s) && TaskOk(cfg, Limit(byLevel, resId, a)) && AllTimedOrOn(cfg, s, timers)
    requires ReadyOk(timers, Queued(stamp, Limit(byLevel, resId, a)))
    ensures AllTimedOrOn(cfg, ApplyAll(cfg, s, LimitOps(cfg, byLevel, resId, a)), timers)
  {
    LimitGains(cfg, s, byLevel, resId, a);
    hide LimitOps, Apply, LiveAt, WfConfig, TaskOk;
  }

  lemma StepAgrees(cfg: Config, s: Arb, task: Task, order: seq<int>)
    requires Agrees(cfg, s) && TaskOk(cfg, task) && Visits(order, cfg.nodes.Keys)
    ensures Agrees(cfg, Step(cfg, s, Do(task, order)))
  {
    hide CandOk, DecideOk, CurOk, Apply, Ops, OpOk, Visits, TaskOk;
    assert EventOk(cfg, Do(task, order));
    ApplyAllAgrees(cfg, s, Ops(cfg, Do(task, order)));
  }

  /** The queue after a task that is not a weak timer: the automaton has had its say, no more. */
  lemma RunTaskTimed(env: Env, s: Sys, task: Task, order: seq<int>)
    requires WfSys(env, s) && QueuedOk(env.cfg, task, |s.inter|) && Visits(order, env.cfg.nodes.Keys)
    requires AutomatonOk(s) && QueueTimed(s.q, s.nextId) && !task.WeakTimer?
    ensures var t := RunTask(env, s, task, order);
      && QueueTimed(t.q, t.nextId)
      && forall h, r, x :: Holds(t.q.timers, h, r, x) <==> Holds(s.q.timers, h, r, x)
  {
    hide WeakFrom, Step, QueueOk, CommandsOk, WfConfig, QueueTimed, AutomatonOk, Delta;
    match task
    case SetWeak(on) =>
      AutomatonKept(s, s.(weakOn := on));
      WeakFromTimed(env, s.(weakOn := on), 0);
    case SetPerfMode(on) =>
    case WeakTimer(i) =>
    case _ =>
      var s1 := Send(env, s.(arb := Step(env.cfg, s.arb, Do(task, order))));
      AutomatonKept(s, s1);
      WeakFromTimed(env, s1, 0);
  }

  lemma LiveSameHolders(cfg: Config, s: Arb, t: map<nat, Timer>, u: map<nat, Timer>)
    requires Ready(cfg, s) && AllTimedOrOn(cfg, s, t)
    requires forall h, r, x :: Holds(u, h, r, x) <==> Holds(t, h, r, x)
    ensures AllTimedOrOn(cfg, s, u)
  {
    forall r, x | LiveAt(cfg, s, r, x) ensures TimedOrOn(u, r, x) {
      assert TimedOrOn(t, r, x);
      if x.duration != 0 {
        var h :| Holds(t, h, r, x);
        assert Holds(u, h, r, x);
      }
    }
  }

  lemma RunNextTimed(env: Env, s: Sys, order: seq<int>)
    requires WfSys(env, s) && Enabled(env, s, RunNext(order)) && TimersOk(env, s)
    ensures TimersOk(env, SysStep(env, s, RunNext(order)))
  {
    hide CandOk, DecideOk, CurOk, QueueOk, CommandsOk, WfConfig, RunTask, AutomatonOk, Visits, LiveAt, HoldersUnique, ReadyOk, QueuedOk, Step;
    var s1, task := s.(q := s.q.(ready := s.q.ready[1..])), s.q.ready[0].task;
    TailOk(env, s);
    RunTaskOk(env, s1, task, order);
    StepAgrees(env.cfg, s.arb, task, order);
    SysStepAutomaton(env, s, RunNext(order));
    RunTaskTimed(env, s1, task, order);
    TaskLive(env, s.arb, s.q.ready[0], order, s.q.timers);
    var t := SysStep(env, s, RunNext(order));
    LiveSameHolders(env.cfg, t.arb, s.q.timers, t.q.timers);
  }

  lemma TailOk(env: Env, s: Sys)
    requires WfSys(env, s) && s.q.ready != [] && AutomatonOk(s) && QueueTimed(s.q, s.nextId)
    ensures var s1 := s.(q := s.q.(ready := s.q.ready[1..]));
      WfSys(env, s1) && AutomatonOk(s1) && QueueTimed(s1.q, s1.nextId)
    ensures QueuedOk(env.cfg, s.q.ready[0].task, |s.inter|) && TaskOk(env.cfg, s.q.ready[0].task)
    ensures !s.q.ready[0].task.WeakTimer? && ReadyOk(s.q.timers, s.q.ready[0])
  {
    AutomatonSame(s, s.(q := s.q.(ready := s.q.ready[1..])));
    hide AutomatonOk, CommandsOk, WfConfig, HoldersUnique, ReadyOk, QueuedOk;
    assert QueuedOk(env.cfg, s.q.ready[0].task, |s.inter|) && ReadyOk(s.q.timers, s.q.ready[0]);
    NotReady(s.q.timers, s.q.ready[0]);
    assert TaskOk(env.cfg, s.q.ready[0].task) by { QueuedTask(env.cfg, s.q.ready[0].task, |s.inter|); }
  }

  lemma QueuedTask(cfg: Config, task: Task, n: nat)
    requires QueuedOk(cfg, task, n)
    ensures TaskOk(cfg, task)
  {
  }

  // ---- firing a timer -----------------------------------------------------------------------------------

  /** Taking out the firing timer disturbs nobody else: whatever is still queued is held by later timers. */
  lemma CancelTimed(s: Sys, h: nat)
    requires QueueTimed(s.q, s.nextId) && CanFire(s.q, h)
    ensures QueueTimed(Cancel(s.q, h), s.nextId)
    ensures forall k, r, x :: Holds(Cancel(s.q, h).timers, k, r, x) <==> Holds(s.q.timers, k, r, x) && k != h
  {
    var p := Cancel(s.q, h);
    assert forall k, r, x :: Holds(p.timers, k, r, x) <==> Holds(s.q.timers, k, r, x) && k != h;
    forall k | 0 <= k < |p.ready| ensures ReadyOk(p.timers, p.ready[k]) {
      assert ReadyOk(s.q.timers, s.q.ready[k]);
      assert s.q.timers[h].due <= s.q.ready[k].stamp;
      StillHeld(s.q.timers, h, s.q.ready[k]);
    }
  }

  lemma StillHeld(timers: map<nat, Timer>, h: nat, x: Queued)
    requires h in timers && ReadyOk(timers, x) && timers[h].due <= x.stamp
    ensures ReadyOk(timers - {h}, x)
  {
    if x.task.Pack? {
      var items := x.task.items;
      forall i | 0 <= i < |items| && items[i].action.duration != 0 ensures Held(timers - {h}, items[i].resId, items[i].action, x.stamp) {
        var k :| Holds(timers, k, items[i].resId, items[i].action) && x.stamp < timers[k].due;
        assert Holds(timers - {h}, k, items[i].resId, items[i].action);
      }
    }
  }

  lemma ReleasedLive(cfg: Config, s: Arb, t: Arb, timers: map<nat, Timer>, h: nat, items: seq<Item>)
    requires Ready(cfg, s) && Ready(cfg, t) && Gains(cfg, s, t, []) && AllTimedOrOn(cfg, s, timers)
    requires h in timers && timers[h].task == Expiry(items)
    requires forall i :: 0 <= i < |items| ==> !LiveAt(cfg, t, items[i].resId, items[i].action)
    ensures AllTimedOrOn(cfg, t, timers - {h})
  {
    forall r, x | LiveAt(cfg, t, r, x) ensures TimedOrOn(timers - {h}, r, x) {
      assert LiveAt(cfg, s, r, x) && TimedOrOn(timers, r, x);
      if x.duration != 0 {
        var k :| Holds(timers, k, r, x);
        assert forall i :: 0 <= i < |items| ==> items[i] != Item(r, x);
        assert Holds(timers - {h}, k, r, x);
      }
    }
  }

  /** When an expiry has run, every request still live is held by another timer. */
  lemma ExpiryLive(cfg: Config, s: Arb, timers: map<nat, Timer>, h: nat, items: seq<Item>)
    requires Agrees(cfg, s) && TaskOk(cfg, Expiry(items)) && AllTimedOrOn(cfg, s, timers)
    requires h in timers && timers[h].task == Expiry(items)
    ensures AllTimedOrOn(cfg, ApplyAll(cfg, s, ExpiryOps(items)), timers - {h})
  {
    hide CandOk, DecideOk, CurOk, WfConfig, LiveAt, AllTimedOrOn, Gains, Apply;
    ExpiryGains(cfg, s, items);
    ReleasedLive(cfg, s, ApplyAll(cfg, s, ExpiryOps(items)), timers, h, items);
  }

  lemma FireTimed(env: Env, s: Sys, h: nat, order: seq<int>)
    requires WfSys(env, s) && Enabled(env, s, Fire(h, order)) && TimersOk(env, s) && s.q.timers[h].task.Expiry?
    ensures TimersOk(env, SysStep(env, s, Fire(h, order)))
  {
    hide CandOk, DecideOk, CurOk, CommandsOk, WfConfig, RunTask, AutomatonOk, Visits, LiveAt, HoldersUnique, ReadyOk, ApplyAll, ExpiryOps;
    var s1, task := s.(q := Cancel(s.q, h)), s.q.timers[h].task;
    CancelTimed(s, h);
    CancelOk(s, h);
    RunTaskOk(env, s1, task, order);
    StepAgrees(env.cfg, s.arb, task, order);
    SysStepAutomaton(env, s, Fire(h, order));
    RunTaskTimed(env, s1, task, order);
    ExpiryLive(env.cfg, s.arb, s.q.timers, h, task.items);
    var t := SysStep(env, s, Fire(h, order));
    LiveSameHolders(env.cfg, t.arb, s1.q.timers, t.q.timers);
  }

  lemma FireWeakTimed(env: Env, s: Sys, h: nat, order: seq<int>)
    requires WfSys(env, s) && Enabled(env, s, Fire(h, order)) && TimersOk(env, s) && s.q.timers[h].task.WeakTimer?
    ensures TimersOk(env, SysStep(env, s, Fire(h, order)))
  {
    hide CandOk, DecideOk, CurOk, CommandsOk, WfConfig, AutomatonOk, Visits, LiveAt, HoldersUnique, ReadyOk, WeakQueue, DoWeak;
    var i := s.q.timers[h].task.index;
    CancelTimed(s, h);
    SysStepAutomaton(env, s, Fire(h, order));
    var s1 := SetInter(s.(q := Cancel(s.q, h)), i, WeakStatus, s.inter[i].timer);
    var t := DoWeak(env, s1, i, true);
    DoWeakQueue(env, s1, i, true);
    WeakQueueTimed(s1.q, t.q, s1.nextId, t.nextId);
    DoWeakArb(env, s1, i, true);
    WeakHoldsNothing(s.q.timers, h);
    LiveSameHolders(env.cfg, t.arb, s.q.timers, t.q.timers);
  }

  lemma DoWeakArb(env: Env, s: Sys, i: nat, on: bool)
    requires i < |s.inter|
    ensures DoWeak(env, s, i, on).arb == s.arb
  {
  }

  lemma WeakHoldsNothing(timers: map<nat, Timer>, h: nat)
    requires h in timers && timers[h].task.WeakTimer?
    ensures forall r, x :: !Holds(timers, h, r, x)
  {
  }

  // ---- submitting a request --------------------------------------------------------------------------------

  lemma {:induction false} WithDurationIs(items: seq<Item>, d: int)
    ensures forall x :: x in WithDuration(items, d) <==> x in items && x.action.duration == d
  {
    if items != [] {
      WithDurationIs(items[1..], d);
      assert items == [items[0]] + items[1..];
    }
  }

  /** The delayed tasks of a request: one handle per duration, due that long after now. */
  lemma {:induction false} PostExpiriesShape(q: Queue, items: seq<Item>, durations: seq<int>)
    requires forall h :: h in q.timers ==> h < q.nextHandle
    ensures var p := PostExpiries(q, items, durations);
      && p.ready == q.ready && p.now == q.now && p.nextHandle == q.nextHandle + |durations|
      && (forall h: nat :: h in p.timers <==> h in q.timers || q.nextHandle <= h < p.nextHandle)
      && (forall h :: h in q.timers ==> p.timers[h] == q.timers[h])
      && (forall j :: 0 <= j < |durations| ==>
           p.timers[q.nextHandle + j] == Timer(q.now + durations[j] * MICROS, Expiry(WithDuration(items, durations[j]))))
      && (forall h: nat :: q.nextHandle <= h < p.nextHandle ==> p.timers[h].task.Expiry?)
    decreases |durations|
  {
    if durations != [] {
      hide WithDuration;
      var q1 := SubmitDelayed(q, Expiry(WithDuration(items, durations[0])), durations[0] * MICROS);
      PostExpiriesShape(q1, items, durations[1..]);
      var p := PostExpiries(q, items, durations);
      forall j | 0 <= j < |durations|
        ensures p.timers[q.nextHandle + j] == Timer(q.now + durations[j] * MICROS, Expiry(WithDuration(items, durations[j])))
      {
        if j == 0 {
          assert q.nextHandle in q1.timers;
        } else {
          assert durations[j] == durations[1..][j - 1];
        }
      }
    }
  }

  /** Where the requests of a new pack are held. */
  lemma RequestHolders(env: Env, s: Sys, items: seq<Item>, durations: seq<int>)
    requires ItemsOk(env, s, items) && DurationsOf(items, durations) && Stamped(s.q) && HoldersUnique(s.q.timers, s.nextId)
    ensures var p := PostExpiries(Submit(s.q, Pack(items)), items, durations);
      && HoldersUnique(p.timers, s.nextId + |items|)
      && (forall h, r, x :: Holds(s.q.timers, h, r, x) ==> Holds(p.timers, h, r, x))
      && ReadyOk(p.timers, Queued(s.q.now, Pack(items)))
  {
    var q := Submit(s.q, Pack(items));
    var p := PostExpiries(q, items, durations);
    hide PostExpiries, WithDuration, HoldersUnique;
    PostExpiriesShape(q, items, durations);
    forall h: nat, r, x | Holds(p.timers, h, r, x) && h >= q.nextHandle
      ensures exists i :: 0 <= i < |items| && items[i] == Item(r, x) && x.duration == durations[h - q.nextHandle]
    {
      WithDurationIs(items, durations[h - q.nextHandle]);
    }
    forall i | 0 <= i < |items| && items[i].action.duration != 0
      ensures Held(p.timers, items[i].resId, items[i].action, s.q.now)
    {
      var d := items[i].action.duration;
      var j :| 0 <= j < |durations| && durations[j] == d;
      WithDurationIs(items, d);
      assert Holds(p.timers, q.nextHandle + j, items[i].resId, items[i].action);
    }
    NewHolders(s, p, items, durations);
  }

  lemma NewHolders(s: Sys, p: Queue, items: seq<Item>, durations: seq<int>)
    requires HoldersUnique(s.q.timers, s.nextId)
    requires forall i, j :: 0 <= i < j < |durations| ==> durations[i] != durations[j]
    requires forall i :: 0 <= i < |items| ==> items[i].action.id == s.nextId + i
    requires forall h :: h in p.timers ==> h < s.q.nextHandle + |durations|
    requires forall h: nat, r, x :: Holds(p.timers, h, r, x) && h < s.q.nextHandle ==> Holds(s.q.timers, h, r, x)
    requires forall h: nat, r, x :: Holds(p.timers, h, r, x) && s.q.nextHandle <= h ==>
      exists i :: 0 <= i < |items| && items[i] == Item(r, x) && x.duration == durations[h - s.q.nextHandle]
    ensures HoldersUnique(p.timers, s.nextId + |items|)
  {
  }

  lemma RequestTimed(env: Env, s: Sys, items: seq<Item>, durations: seq<int>)
    requires WfSys(env, s) && Enabled(env, s, Request(items, durations)) && TimersOk(env, s)
    ensures TimersOk(env, SysStep(env, s, Request(items, durations)))
  {
    hide Agrees, CommandsOk, WfConfig, AutomatonOk, LiveAt, HoldersUnique, ReadyOk, PostExpiries, QueueOk, ItemsOk;
    var q := Submit(s.q, Pack(items));
    RequestHolders(env, s, items, durations);
    PostExpiriesShape(q, items, durations);
    SysStepAutomaton(env, s, Request(items, durations));
    var p := SysStep(env, s, Request(items, durations)).q;
    forall k | 0 <= k < |p.ready| ensures ReadyOk(p.timers, p.ready[k]) {
      if k < |s.q.ready| {
        assert p.ready[k] == s.q.ready[k];
        HeldSame(s.q.timers, p.timers, s.q.ready[k]);
      }
    }
    LiveMoreHolders(env.cfg, s.arb, s.q.timers, p.timers);
    PostStamped(s.q, p);
  }

  lemma PostStamped(q: Queue, p: Queue)
    requires Stamped(q) && p.now == q.now && |p.ready| == |q.ready| + 1
    requires forall k :: 0 <= k < |q.ready| ==> p.ready[k] == q.ready[k]
    requires p.ready[|q.ready|].stamp == q.now
    requires forall h :: h in p.timers ==> h < p.nextHandle && (p.timers[h].task.Expiry? || p.timers[h].task.WeakTimer?)
    ensures Stamped(p)
  {
  }

  lemma LiveMoreHolders(cfg: Config, s: Arb, t: map<nat, Timer>, u: map<nat, Timer>)
    requires Ready(cfg, s) && AllTimedOrOn(cfg, s, t)
    requires forall h, r, x :: Holds(t, h, r, x) ==> Holds(u, h, r, x)
    ensures AllTimedOrOn(cfg, s, u)
  {
    forall r, x | LiveAt(cfg, s, r, x) ensures TimedOrOn(u, r, x) {
      assert TimedOrOn(t, r, x);
      if x.duration != 0 {
        var h :| Holds(t, h, r, x);
        assert Holds(u, h, r, x);
      }
    }
  }

  lemma PostTimed(env: Env, s: Sys, task: Task)
    requires WfSys(env, s) && Enabled(env, s, Post(task)) && TimersOk(env, s)
    ensures TimersOk(env, SysStep(env, s, Post(task)))
  {
    hide Agrees, CommandsOk, WfConfig, AutomatonOk, LiveAt, QueueOk;
    SysStepAutomaton(env, s, Post(task));
    hide HoldersUnique;
    var p := SysStep(env, s, Post(task)).q;
    assert ReadyOk(s.q.timers, Queued(s.q.now, task));
    forall k | 0 <= k < |p.ready| ensures ReadyOk(p.timers, p.ready[k]) {
      assert k < |s.q.ready| ==> p.ready[k] == s.q.ready[k];
    }
    MoreIds(s.q.timers, s.nextId, s.nextId + 1);
  }

  lemma MoreIds(timers: map<nat, Timer>, n: nat, m: nat)
    requires HoldersUnique(timers, n) && n <= m
    ensures HoldersUnique(timers, m)
  {
  }

  lemma SysStepTimed(env: Env, s: Sys, e: SysEvent)
    requires WfSys(env, s) && Enabled(env, s, e) && TimersOk(env, s)
    ensures TimersOk(env, SysStep(env, s, e))
  {
    hide Agrees, CommandsOk, WfConfig, AutomatonOk, LiveAt, QueueOk, HoldersUnique, ReadyOk, RunTask, PostExpiries;
    match e
    case Request(items, durations) => RequestTimed(env, s, items, durations);
    case Post(task) => PostTimed(env, s, task);
    case SetThermal(level) =>
      SysStepAutomaton(env, s, e);
      LevelAgrees(env.cfg, s.arb, level);
      SameLive(env.cfg, s.arb, SysStep(env, s, e).arb, s.q.timers);
    case Tick(to) => SysStepAutomaton(env, s, e);
    case RunNext(order) => RunNextTimed(env, s, order);
    case Fire(h, order) =>
      if s.q.timers[h].task.Expiry? {
        FireTimed(env, s, h, order);
      } else {
        FireWeakTimed(env, s, h, order);
      }
  }

  lemma SameLive(cfg: Config, s: Arb, t: Arb, timers: map<nat, Timer>)
    requires Ready(cfg, s) && Ready(cfg, t) && t.info == s.info && AllTimedOrOn(cfg, s, timers)
    ensures AllTimedOrOn(cfg, t, timers)
  {
    assert forall r, x :: LiveAt(cfg, t, r, x) <==> LiveAt(cfg, s, r, x);
  }

  lemma {:induction false} SysRunTimed(env: Env, s: Sys, es: seq<SysEvent>)
    requires WfSys(env, s) && Possible(env, s, es) && TimersOk(env, s)
    ensures TimersOk(env, SysRun(env, s, es))
    decreases |es|
  {
    hide SysStep, Enabled, TimersOk;
    if es != [] {
      SysStepOk(env, s, es[0]);
      SysStepTimed(env, s, es[0]);
      SysRunTimed(env, SysStep(env, s, es[0]), es[1..]);
    }
  }

  lemma StartTimed(env: Env, inter: seq<Inter>)
    requires Start(env, inter)
    ensures TimersOk(env, InitSys(env, inter))
  {
    InitAgrees(env.cfg);
    StartAutomaton(env, inter);
  }

  ghost predicate OnlyHolder(timers: map<nat, Timer>, h: nat, x: ResAction) {
    forall k, q, y :: Holds(timers, k, q, y) && y.id == x.id ==> k == h
  }

  /** In every reachable state each live timed request is held, at its own address, by exactly one pending
      delayed task, and each live request without a duration is an ON request. */
  lemma LiveRequestsAreTimed(env: Env, inter: seq<Inter>, es: seq<SysEvent>, r: int, x: ResAction)
    requires Feasible(env, inter, es) && LiveAt(env.cfg, ReachSys(env, inter, es).arb, r, x)
    ensures var timers := ReachSys(env, inter, es).q.timers;
      if x.duration == 0 then x.onOff == EventOn
      else exists h :: Holds(timers, h, r, x) && OnlyHolder(timers, h, x)
  {
    hide WfSys, Possible, Agrees, AutomatonOk, LiveAt;
    StartOk(env, inter);
    StartTimed(env, inter);
    SysRunTimed(env, InitSys(env, inter), es);
    var s := ReachSys(env, inter, es);
    assert TimedOrOn(s.q.timers, r, x);
    if x.duration != 0 {
      var h :| Holds(s.q.timers, h, r, x);
      assert OnlyHolder(s.q.timers, h, x);
    }
  }

  /** Nothing leaks: with no delayed task pending, no timed request is live. */
  lemma NoTimedLeak(env: Env, inter: seq<Inter>, es: seq<SysEvent>, r: int, x: ResAction)
    requires Feasible(env, inter, es) && LiveAt(env.cfg, ReachSys(env, inter, es).arb, r, x)
    requires ReachSys(env, inter, es).q.timers == map[]
    ensures x.duration == 0 && x.onOff == EventOn
  {
    LiveRequestsAreTimed(env, inter, es, r, x);
  }

  /** The timer of requests that are no longer live, because they were superseded, switched off, cleared or
      were OFF requests, changes nothing. */
  lemma {:induction false} StaleTimer(cfg: Config, s: Arb, items: seq<Item>)
    requires Ready(cfg, s) && TaskOk(cfg, Expiry(items))
    requires forall i :: 0 <= i < |items| ==> !LiveAt(cfg, s, items[i].resId, items[i].action)
    ensures ApplyAll(cfg, s, ExpiryOps(items)) == s
    decreases |items|
  {
    if items != [] {
      ExpiryOpsCons(cfg, s, items);
      assert !LiveAt(cfg, s, items[0].resId, items[0].action);
      assert DoExpire(cfg, s, items[0].resId, items[0].action) == s;
      hide DoExpire, ExpiryOps, LiveAt;
      assert forall i :: 0 <= i < |items[1..]| ==> items[1..][i] == items[i + 1];
      StaleTimer(cfg, s, items[1..]);
    }
  }

  /** In one list, renewing a timed request leaves exactly the new object live; the old object's expiry then
      removes nothing, and that of the new one removes it. `Survival` says what this means for whole runs. */
  lemma RenewalSurvives(l: Live, earlier: ResAction, renewed: ResAction)
    requires WfList(l, renewed.kind) && renewed.Valid() && renewed.onOff != EventOff
    requires earlier in l && renewed.TotalSame(earlier) && renewed != earlier
    ensures var m := Instant(l, renewed);
      && renewed in m && earlier !in m && Expire(m, earlier) == m
      && renewed !in Expire(m, renewed)
  {
    EraseWf(l, Same(renewed), renewed.kind);
    InstantWf(l, renewed);
    var m := Instant(l, renewed);
    EraseMiss(m, Exactly(earlier));
    EraseWf(m, Exactly(renewed), renewed.kind);
  }
}
