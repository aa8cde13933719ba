/** A live request stays live until something ends it, and a timed one until its own timer. */
module Survival {
  import opened Common
  import opened Config
  import opened LiveList
  import opened ArbiterState
  import opened Agreement
  import opened Tasks
  import opened Runs
  import opened RunTheorems
  import opened System
  import opened SystemRuns
  import opened Weak
  import opened Timers

  // ---- one operation ---------------------------------------------------------------------------------------

  /** The comparison an instant request erases by. */
  function Eraser(a: ResAction): Match {
    if a.onOff == EventOff then OnOf(a) else Same(a)
  }

  /** The operation ends the live request `x` of `r`: a renewal or an OFF of its key, its own expiry, or a clear. */
  predicate Ends(op: Op, r: int, x: ResAction) {
    match op
    case Begin(q, a) => q == r && Eraser(a).Hits(x)
    case End(q, a) => q == r && a == x
    case ClearPerf(q) => q == r && x.kind == PERF
    case _ => false
  }

  lemma {:induction false} EraseSpares(l: Live, m: Match, x: ResAction)
    requires x in l && !m.Hits(x)
    ensures x in EraseFirst(l, m)
  {
    if !m.Hits(l[0]) && l[0] != x {
      assert x in l[1..];
      EraseSpares(l[1..], m, x);
    }
  }

  lemma EraseEnds(l: Live, m: Match, x: ResAction, kind: int)
    requires WfList(l, kind) && m.Hits(x) && (m.Same? ==> m.a.kind == kind)
    ensures x !in EraseFirst(l, m)
  {
    EraseWf(l, m, kind);
  }

  /** A list keeps an entry that a match does not hit, and loses one that it does. */
  lemma EraseLive(l: Live, m: Match, x: ResAction, kind: int)
    requires WfList(l, kind) && x in l && m.a.kind == kind
    ensures x in EraseFirst(l, m) <==> !m.Hits(x)
  {
    hide WfList, EraseFirst;
    if m.Hits(x) { EraseEnds(l, m, x, kind); } else { EraseSpares(l, m, x); }
  }

  lemma InstantLive(l: Live, a: ResAction, x: ResAction)
    requires WfList(l, a.kind) && x in l
    ensures !Eraser(a).Hits(x) ==> x in Instant(l, a)
    ensures Eraser(a).Hits(x) && a.id != x.id ==> x !in Instant(l, a)
  {
    EraseLive(l, Eraser(a), x, a.kind);
    hide EraseFirst, WfList;
  }

  lemma BeginLive(cfg: Config, s: Arb, q: int, a: ResAction, r: int, x: ResAction)
    requires Agrees(cfg, s) && OpOk(cfg, Begin(q, a)) && LiveAt(cfg, s, r, x)
    ensures !Ends(Begin(q, a), r, x) ==> LiveAt(cfg, Apply(cfg, s, Begin(q, a)), r, x)
    ensures Ends(Begin(q, a), r, x) && a.id != x.id ==> !LiveAt(cfg, Apply(cfg, s, Begin(q, a)), r, x)
  {
    AgreesReady(cfg, s);
    AgreesLists(cfg, s, r, x.kind);
    hide Agrees, DoInstant, WfList, Instant;
    var l := s.info[r].lists[x.kind];
    ListKind(l, x.kind, x);
    InstantFrame(cfg, s, q, a);
    if q == r && a.kind == x.kind {
      InstantLive(l, a, x);
    }
  }

  lemma EndLive(cfg: Config, s: Arb, q: int, a: ResAction, r: int, x: ResAction)
    requires Agrees(cfg, s) && OpOk(cfg, End(q, a)) && LiveAt(cfg, s, r, x)
    ensures Ends(End(q, a), r, x) <==> !LiveAt(cfg, Apply(cfg, s, End(q, a)), r, x)
  {
    AgreesReady(cfg, s);
    AgreesLists(cfg, s, r, x.kind);
    hide Agrees, DoExpire, WfList, EraseFirst;
    var l := s.info[r].lists[x.kind];
    ListKind(l, x.kind, x);
    ExpireFrame(cfg, s, q, a);
    if q == r && a.kind == x.kind {
      EraseLive(l, Exactly(a), x, x.kind);
    }
  }

  lemma ClearLive(cfg: Config, s: Arb, q: int, r: int, x: ResAction)
    requires Ready(cfg, s) && q in cfg.nodes && LiveAt(cfg, s, r, x)
    ensures Ends(ClearPerf(q), r, x) <==> !LiveAt(cfg, ClearOne(cfg, s, q), r, x)
  {
    hide SetList;
    SetListFrame(cfg, s, q, PERF, []);
  }

  lemma SameInfoLive(cfg: Config, s: Arb, t: Arb, r: int, x: ResAction)
    requires Ready(cfg, s) && Ready(cfg, t) && LiveAt(cfg, s, r, x) && t.info == s.info
    ensures LiveAt(cfg, t, r, x)
  {
  }

  lemma ArbitrateLive(cfg: Config, s: Arb, t: Arb, order: seq<int>, r: int, x: ResAction)
    requires WfConfig(cfg) && Ready(cfg, s) && LiveAt(cfg, s, r, x) && t.info == s.info && forall q :: q in order ==> q in cfg.nodes
    ensures LiveAt(cfg, ArbitrateAll(cfg, t, order), r, x)
  {
    hide ArbitrateAll, WfConfig, CurrentAt;
    ArbitrateAllFrame(cfg, t, order);
  }

  /** An operation that does not end a request leaves it live; one that does makes it dead, unless it starts
      the very object anew. */
  lemma ApplyLive(cfg: Config, s: Arb, op: Op, r: int, x: ResAction)
    requires Agrees(cfg, s) && OpOk(cfg, op) && LiveAt(cfg, s, r, x)
    ensures !Ends(op, r, x) ==> LiveAt(cfg, Apply(cfg, s, op), r, x)
    ensures Ends(op, r, x) && (op.Begin? ==> op.action.id != x.id) ==> !LiveAt(cfg, Apply(cfg, s, op), r, x)
  {
    hide Agrees, LiveAt, DoInstant, DoExpire, ClearOne, ArbitrateAll, WfConfig;
    AgreesReady(cfg, s);
    AgreesConfig(cfg, s);
    match op
    case Begin(q, a) => BeginLive(cfg, s, q, a, r, x);
    case End(q, a) => EndLive(cfg, s, q, a, r, x);
    case ClearPerf(q) => ClearLive(cfg, s, q, r, x);
    case SwitchPower(on, order) => ArbitrateLive(cfg, s, s.(power := on), order, r, x);
    case SwitchThermal(on, order) => ArbitrateLive(cfg, s, s.(thermal := on), order, r, x);
    case Level(level) => SameInfoLive(cfg, s, s.(level := level), r, x);
  }

  lemma AgreesConfig(cfg: Config, s: Arb)
    requires Agrees(cfg, s)
    ensures WfConfig(cfg)
  {
  }

  lemma ListKind(l: Live, kind: int, x: ResAction)
    requires WfList(l, kind) && x in l
    ensures x.Valid() && x.kind == kind && x.onOff != EventOff
  {
  }

  /** What is not live stays so until the object itself is started. */
  lemma ApplyDead(cfg: Config, s: Arb, op: Op, r: int, x: ResAction)
    requires WfConfig(cfg) && Ready(cfg, s) && OpOk(cfg, op) && !LiveAt(cfg, s, r, x) && (op.Begin? ==> op.action.id != x.id)
    ensures !LiveAt(cfg, Apply(cfg, s, op), r, x)
  {
    hide DoInstant, DoExpire;
    match op
    case Begin(q, a) =>
      BeginGains(cfg, s, q, a);
    case End(q, a) =>
      ExpireFrame(cfg, s, q, a);
      if r in cfg.nodes && q == r && a.kind == x.kind && PERF <= x.kind <= PERFLVL {
        assert forall y :: y in Expire(s.info[r].lists[x.kind], a) ==> y in s.info[r].lists[x.kind];
      }
    case ClearPerf(q) => SetListFrame(cfg, s, q, PERF, []);
    case SwitchPower(on, order) => ArbitrateAllFrame(cfg, s.(power := on), order);
    case SwitchThermal(on, order) => ArbitrateAllFrame(cfg, s.(thermal := on), order);
    case Level(_) =>
  }

  // ---- operations in a row ------------------------------------------------------------------------------------

  lemma {:induction false} DeadStays(cfg: Config, s: Arb, ops: seq<Op>, r: int, x: ResAction)
    requires WfConfig(cfg) && Ready(cfg, s) && OpsOk(cfg, ops) && !LiveAt(cfg, s, r, x)
    requires OthersBegun(ops, x)
    ensures !LiveAt(cfg, ApplyAll(cfg, s, ops), r, x)
    decreases |ops|
  {
    hide Apply, OpOk, LiveAt, WfConfig;
    if ops != [] {
      SparedCons(ops, r, x);
      hide OthersBegun;
      ApplyDead(cfg, s, ops[0], r, x);
      DeadStays(cfg, Apply(cfg, s, ops[0]), ops[1..], r, x);
    }
  }

  predicate SparedBy(ops: seq<Op>, r: int, x: ResAction) {
    forall i :: 0 <= i < |ops| ==> !Ends(ops[i], r, x)
  }

  predicate OthersBegun(ops: seq<Op>, x: ResAction) {
    forall i :: 0 <= i < |ops| && ops[i].Begin? ==> ops[i].action.id != x.id
  }

  lemma SparedCons(ops: seq<Op>, r: int, x: ResAction)
    requires ops != []
    ensures SparedBy(ops, r, x) <==> !Ends(ops[0], r, x) && SparedBy(ops[1..], r, x)
    ensures OthersBegun(ops, x) ==> OthersBegun(ops[1..], x) && (ops[0].Begin? ==> ops[0].action.id != x.id)
  {
    hide Ends;
    assert forall i :: 0 < i < |ops| ==> ops[i] == ops[1..][i - 1];
    assert forall i :: 0 <= i < |ops[1..]| ==> ops[1..][i] == ops[i + 1];
  }

  lemma NothingEnds(r: int, x: ResAction)
    ensures SparedBy([], r, x)
  {
  }

  /** A live request is still live after any operations on other objects exactly if none of them ends it. */
  lemma {:induction false} LiveExactlyUntilEnded(cfg: Config, s: Arb, ops: seq<Op>, r: int, x: ResAction)
    requires Agrees(cfg, s) && OpsOk(cfg, ops) && LiveAt(cfg, s, r, x) && OthersBegun(ops, x)
    ensures LiveAt(cfg, ApplyAll(cfg, s, ops), r, x) <==> SparedBy(ops, r, x)
    decreases |ops|
  {
    hide Apply, OpOk, LiveAt, Agrees, Ends, WfConfig, SparedBy, OthersBegun, Ready;
    AgreesReady(cfg, s);
    AgreesConfig(cfg, s);
    if ops == [] {
      NothingEnds(r, x);
    } else {
      SparedCons(ops, r, x);
      ApplyLive(cfg, s, ops[0], r, x);
      ApplyAgrees(cfg, s, ops[0]);
      if Ends(ops[0], r, x) {
        DeadStays(cfg, Apply(cfg, s, ops[0]), ops[1..], r, x);
      } else {
        LiveExactlyUntilEnded(cfg, Apply(cfg, s, ops[0]), ops[1..], r, x);
      }
    }
  }

  /** Whatever is started, a request that nothing ends survives. */
  lemma {:induction false} SurvivesOps(cfg: Config, s: Arb, ops: seq<Op>, r: int, x: ResAction)
    requires Agrees(cfg, s) && OpsOk(cfg, ops) && LiveAt(cfg, s, r, x) && SparedBy(ops, r, x)
    ensures LiveAt(cfg, ApplyAll(cfg, s, ops), r, x)
    decreases |ops|
  {
    hide Apply, OpOk, LiveAt, Agrees, Ends, WfConfig, SparedBy, Ready;
    AgreesReady(cfg, s);
    AgreesConfig(cfg, s);
    if ops != [] {
      SparedCons(ops, r, x);
      ApplyLive(cfg, s, ops[0], r, x);
      ApplyAgrees(cfg, s, ops[0]);
      SurvivesOps(cfg, Apply(cfg, s, ops[0]), ops[1..], r, x);
    }
  }

  // ---- tasks -------------------------------------------------------------------------------------------------

  /** Nothing this task does is a renewal or an OFF of the request's key on `r`, or a clear of its list. */
  ghost predicate TaskSpares(cfg: Config, task: Task, r: int, x: ResAction) {
    match task
    case Pack(items) => forall i :: 0 <= i < |items| && items[i].resId == r ==> !Eraser(items[i].action).Hits(x)
    case Limit(byLevel, resId, a) =>
      var v := LimitTarget(cfg, byLevel, resId, a);
      RealResId(byLevel, resId) == r && v.Some? ==> !Eraser(a.(value := v.value)).Hits(x)
    case Clear => x.kind != PERF
    case _ => true
  }

  lemma {:induction false} PackSpares(cfg: Config, items: seq<Item>, r: int, x: ResAction)
    requires TaskOk(cfg, Pack(items)) && TaskSpares(cfg, Pack(items), r, x)
    ensures SparedBy(PackOps(cfg, items), r, x)
  {
    if items != [] {
      assert forall i :: 0 <= i < |items[1..]| ==> items[1..][i] == items[i + 1];
      PackSpares(cfg, items[1..], r, x);
    }
  }

  lemma TaskOpsSpare(cfg: Config, task: Task, order: seq<int>, r: int, x: ResAction)
    requires WfConfig(cfg) && TaskOk(cfg, task) && Visits(order, cfg.nodes.Keys) && TaskSpares(cfg, task, r, x)
    requires task.Expiry? ==> Item(r, x) !in task.items
    ensures EventOk(cfg, Do(task, order)) && SparedBy(Ops(cfg, Do(task, order)), r, x)
  {
    if task.Pack? {
      PackSpares(cfg, task.items, r, x);
    } else if task.Expiry? {
      assert forall i :: 0 <= i < |task.items| ==> task.items[i] in task.items;
    }
  }

  lemma StepSurvives(cfg: Config, s: Arb, task: Task, order: seq<int>, r: int, x: ResAction)
    requires Agrees(cfg, s) && TaskOk(cfg, task) && Visits(order, cfg.nodes.Keys) && TaskSpares(cfg, task, r, x) && LiveAt(cfg, s, r, x)
    requires task.Expiry? ==> Item(r, x) !in task.items
    ensures LiveAt(cfg, Step(cfg, s, Do(task, order)), r, x)
  {
    AgreesConfig(cfg, s);
    TaskOpsSpare(cfg, task, order, r, x);
    hide Agrees, Ops, LiveAt, Visits, TaskOk, SparedBy, WfConfig;
    SurvivesOps(cfg, s, Ops(cfg, Do(task, order)), r, x);
  }

  // ---- the service --------------------------------------------------------------------------------------------

  /** The event runs nothing that renews, switches off or clears the request, and is not its own timer `h`. */
  ghost predicate EventSpares(env: Env, s: Sys, e: SysEvent, r: int, x: ResAction, h: nat)
    requires Enabled(env, s, e)
  {
    match e
    case RunNext(_) => TaskSpares(env.cfg, s.q.ready[0].task, r, x)
    case Fire(k, _) => k != h && TaskSpares(env.cfg, s.q.timers[k].task, r, x)
    case _ => true
  }

  /** The request is live and `h` is its timer. */
  ghost predicate Timed(env: Env, s: Sys, r: int, x: ResAction, h: nat)
    requires WfSys(env, s)
  {
    LiveAt(env.cfg, s.arb, r, x) && Holds(s.q.timers, h, r, x)
  }

  ghost predicate TimedAfter(env: Env, s: Sys, e: SysEvent, r: int, x: ResAction, h: nat)
    requires WfSys(env, s) && Enabled(env, s, e)
  {
    SysStepOk(env, s, e);
    Timed(env, SysStep(env, s, e), r, x, h)
  }

  lemma NextSurvives(env: Env, s: Sys, order: seq<int>, r: int, x: ResAction, h: nat)
    requires WfSys(env, s) && Enabled(env, s, RunNext(order)) && EventSpares(env, s, RunNext(order), r, x, h)
    requires Timed(env, s, r, x, h) && TimersOk(env, s)
    ensures TimedAfter(env, s, RunNext(order), r, x, h)
  {
    hide Agrees, QueueOk, CommandsOk, RunTask, AutomatonOk, Visits, LiveAt, HoldersUnique, ReadyOk, QueuedOk, Step, TaskSpares, Holds;
    var s1, task := s.(q := s.q.(ready := s.q.ready[1..])), s.q.ready[0].task;
    SysStepOk(env, s, RunNext(order));
    TailOk(env, s);
    RunTaskOk(env, s1, task, order);
    RunTaskTimed(env, s1, task, order);
    HeadNoExpiry(s);
    StepSurvives(env.cfg, s.arb, task, order, r, x);
  }

  lemma HeadNoExpiry(s: Sys)
    requires s.q.ready != [] && QueueTimed(s.q, s.nextId)
    ensures !s.q.ready[0].task.Expiry?
  {
    assert ReadyOk(s.q.timers, s.q.ready[0]);
  }

  lemma OtherTimer(s: Sys, h: nat, k: nat, r: int, x: ResAction)
    requires QueueTimed(s.q, s.nextId) && Holds(s.q.timers, h, r, x) && k in s.q.timers && k != h && s.q.timers[k].task.Expiry?
    ensures Item(r, x) !in s.q.timers[k].task.items
  {
    assert Holds(s.q.timers, k, r, x) <==> Item(r, x) in s.q.timers[k].task.items;
  }

  lemma FireSurvives(env: Env, s: Sys, k: nat, order: seq<int>, r: int, x: ResAction, h: nat)
    requires WfSys(env, s) && Enabled(env, s, Fire(k, order)) && k in s.q.timers && k != h && s.q.timers[k].task.Expiry?
    requires Timed(env, s, r, x, h) && TimersOk(env, s)
    ensures TimedAfter(env, s, Fire(k, order), r, x, h)
  {
    hide Agrees, CommandsOk, RunTask, AutomatonOk, Visits, LiveAt, HoldersUnique, ReadyOk, Step, Holds, QueuedOk;
    var s1, task := s.(q := Cancel(s.q, k)), s.q.timers[k].task;
    SysStepOk(env, s, Fire(k, order));
    OtherTimer(s, h, k, r, x);
    CancelTimed(s, k);
    CancelOk(s, k);
    TimerQueued(env, s, k);
    RunTaskOk(env, s1, task, order);
    RunTaskTimed(env, s1, task, order);
    StepSurvives(env.cfg, s.arb, task, order, r, x);
  }

  lemma TimerQueued(env: Env, s: Sys, k: nat)
    requires WfSys(env, s) && k in s.q.timers
    ensures WfSys(env, s.(q := Cancel(s.q, k))) && QueuedOk(env.cfg, s.q.timers[k].task, |s.inter|) && TaskOk(env.cfg, s.q.timers[k].task)
  {
    QueuedTask(env.cfg, s.q.timers[k].task, |s.inter|);
    hide TaskOk, WfConfig, CommandsOk;
  }

  lemma FireWeakSurvives(env: Env, s: Sys, k: nat, order: seq<int>, r: int, x: ResAction, h: nat)
    requires WfSys(env, s) && Enabled(env, s, Fire(k, order)) && k in s.q.timers && s.q.timers[k].task.WeakTimer?
    requires Timed(env, s, r, x, h) && TimersOk(env, s)
    ensures TimedAfter(env, s, Fire(k, order), r, x, h)
  {
    hide Agrees, CommandsOk, WfConfig, AutomatonOk, Visits, LiveAt, HoldersUnique, ReadyOk, WeakQueue, DoWeak;
    var i := s.q.timers[k].task.index;
    SysStepOk(env, s, Fire(k, order));
    CancelTimed(s, k);
    WeakHoldsNothing(s.q.timers, k);
    var s1 := SetInter(s.(q := Cancel(s.q, k)), i, WeakStatus, s.inter[i].timer);
    DoWeakQueue(env, s1, i, true);
    WeakQueueTimed(s1.q, DoWeak(env, s1, i, true).q, s1.nextId, DoWeak(env, s1, i, true).nextId);
    DoWeakArb(env, s1, i, true);
  }

  lemma SysStepSurvives(env: Env, s: Sys, e: SysEvent, r: int, x: ResAction, h: nat)
    requires WfSys(env, s) && Enabled(env, s, e) && TimersOk(env, s) && Timed(env, s, r, x, h) && EventSpares(env, s, e, r, x, h)
    ensures TimedAfter(env, s, e, r, x, h)
  {
    hide Agrees, CommandsOk, WfConfig, AutomatonOk, QueueOk, HoldersUnique, ReadyOk, RunTask, PostExpiries, TaskSpares;
    SysStepOk(env, s, e);
    match e
    case Request(items, durations) => RequestHolders(env, s, items, durations);
    case Post(task) =>
    case SetThermal(level) =>
    case Tick(to) =>
    case RunNext(order) => NextSurvives(env, s, order, r, x, h);
    case Fire(k, order) =>
      if s.q.timers[k].task.Expiry? {
        FireSurvives(env, s, k, order, r, x, h);
      } else {
        FireWeakSurvives(env, s, k, order, r, x, h);
      }
  }

  /** Every event of the run spares the request. */
  ghost predicate RunSpares(env: Env, s: Sys, es: seq<SysEvent>, r: int, x: ResAction, h: nat)
    requires WfSys(env, s) && Possible(env, s, es)
    decreases |es|
  {
    es != [] ==> EventSpares(env, s, es[0], r, x, h) && (SysStepOk(env, s, es[0]); RunSpares(env, SysStep(env, s, es[0]), es[1..], r, x, h))
  }

  lemma {:induction false} SysRunSurvives(env: Env, s: Sys, es: seq<SysEvent>, r: int, x: ResAction, h: nat)
    requires WfSys(env, s) && Possible(env, s, es) && TimersOk(env, s) && Timed(env, s, r, x, h) && RunSpares(env, s, es, r, x, h)
    ensures Timed(env, SysRun(env, s, es), r, x, h)
    decreases |es|
  {
    hide SysStep, Enabled, TimersOk, Timed, EventSpares;
    if es != [] {
      SysStepOk(env, s, es[0]);
      SysStepTimed(env, s, es[0]);
      SysStepSurvives(env, s, es[0], r, x, h);
      SysRunSurvives(env, SysStep(env, s, es[0]), es[1..], r, x, h);
    }
  }

  lemma ReachTimed(env: Env, inter: seq<Inter>, es: seq<SysEvent>)
    requires Feasible(env, inter, es)
    ensures TimersOk(env, ReachSys(env, inter, es))
  {
    hide WfSys, Possible, TimersOk;
    StartOk(env, inter);
    StartTimed(env, inter);
    SysRunTimed(env, InitSys(env, inter), es);
  }

  /** From any reachable state, a live timed request stays live through every run that neither fires its own
      timer nor runs a renewal, an OFF or a clear of it; and then its timer ends it. */
  lemma LivesUntilItsTimer(env: Env, inter: seq<Inter>, before: seq<SysEvent>, after: seq<SysEvent>, r: int, x: ResAction, h: nat)
    requires Feasible(env, inter, before) && Possible(env, ReachSys(env, inter, before), after)
    requires Timed(env, ReachSys(env, inter, before), r, x, h) && RunSpares(env, ReachSys(env, inter, before), after, r, x, h)
    ensures var s := SysRun(env, ReachSys(env, inter, before), after);
      && Timed(env, s, r, x, h)
      && forall order :: Enabled(env, s, Fire(h, order)) ==> Ready(env.cfg, SysStep(env, s, Fire(h, order)).arb) && !LiveAt(env.cfg, SysStep(env, s, Fire(h, order)).arb, r, x)
  {
    hide WfSys, Possible, TimersOk, Timed, RunSpares, SysStep, Enabled, Feasible;
    ReachTimed(env, inter, before);
    var s0 := ReachSys(env, inter, before);
    SysRunSurvives(env, s0, after, r, x, h);
    SysRunTimed(env, s0, after);
    var s := SysRun(env, s0, after);
    forall order | Enabled(env, s, Fire(h, order))
      ensures Ready(env.cfg, SysStep(env, s, Fire(h, order)).arb) && !LiveAt(env.cfg, SysStep(env, s, Fire(h, order)).arb, r, x)
    {
      OwnTimerEnds(env, s, h, order, r, x);
    }
  }

  lemma OwnTimerEnds(env: Env, s: Sys, h: nat, order: seq<int>, r: int, x: ResAction)
    requires WfSys(env, s) && TimersOk(env, s) && Timed(env, s, r, x, h) && Enabled(env, s, Fire(h, order))
    ensures Ready(env.cfg, SysStep(env, s, Fire(h, order)).arb) && !LiveAt(env.cfg, SysStep(env, s, Fire(h, order)).arb, r, x)
  {
    hide Agrees, CommandsOk, RunTask, AutomatonOk, Visits, LiveAt, HoldersUnique, ReadyOk, QueuedOk, Apply;
    var s1, task := s.(q := Cancel(s.q, h)), s.q.timers[h].task;
    TimerQueued(env, s, h);
    RunTaskOk(env, s1, task, order);
    ExpiryGains(env.cfg, s.arb, task.items);
    var i :| 0 <= i < |task.items| && task.items[i] == Item(r, x);
  }

  // ---- renewal --------------------------------------------------------------------------------------------------

  /** The `i`-th item of a pack is a timed ON or untagged request, and nothing behind it ends it again. */
  ghost predicate Renewed(items: seq<Item>, i: nat, r: int, x: ResAction) {
    && i < |items| && items[i] == Item(r, x) && x.onOff != EventOff && x.duration != 0
    && forall j :: i < j < |items| && items[j].resId == r ==> !Eraser(items[j].action).Hits(x)
  }

  lemma PackTail(cfg: Config, s: Arb, items: seq<Item>)
    requires Agrees(cfg, s) && TaskOk(cfg, Pack(items)) && items != []
    ensures TaskOk(cfg, Pack(items[1..])) && Ready(cfg, s) && items[0].action.Valid()
    ensures var s1 := if items[0].resId in cfg.nodes then DoInstant(cfg, s, items[0].resId, items[0].action) else s;
      Agrees(cfg, s1) && ApplyAll(cfg, s, PackOps(cfg, items)) == ApplyAll(cfg, s1, PackOps(cfg, items[1..]))
  {
    AgreesReady(cfg, s);
    PackOpsCons(cfg, s, items);
    hide Agrees, DoInstant, PackOps;
    if items[0].resId in cfg.nodes {
      InstantAgrees(cfg, s, items[0].resId, items[0].action);
    }
  }

  lemma FirstRenews(cfg: Config, s: Arb, rest: seq<Item>, r: int, x: ResAction)
    requires Agrees(cfg, s) && Ready(cfg, s) && r in cfg.nodes && x.Valid() && x.onOff != EventOff && TaskOk(cfg, Pack(rest))
    requires forall j :: 0 <= j < |rest| && rest[j].resId == r ==> !Eraser(rest[j].action).Hits(x)
    ensures LiveAt(cfg, ApplyAll(cfg, DoInstant(cfg, s, r, x), PackOps(cfg, rest)), r, x)
  {
    hide Agrees, DoInstant, LiveAt;
    StartsLive(cfg, s, r, x);
    InstantAgrees(cfg, s, r, x);
    PackSpares(cfg, rest, r, x);
    hide TaskOk, SparedBy, PackOps;
    SurvivesOps(cfg, DoInstant(cfg, s, r, x), PackOps(cfg, rest), r, x);
  }

  lemma RenewedTail(cfg: Config, items: seq<Item>, i: nat, r: int, x: ResAction)
    requires TaskOk(cfg, Pack(items)) && Renewed(items, i, r, x)
    ensures items != [] && x.Valid() && x.onOff != EventOff
    ensures i > 0 ==> Renewed(items[1..], i - 1, r, x)
    ensures i == 0 ==> items[0] == Item(r, x) && forall j :: 0 <= j < |items[1..]| && items[1..][j].resId == r ==> !Eraser(items[1..][j].action).Hits(x)
  {
    assert forall j :: 0 <= j < |items[1..]| ==> items[1..][j] == items[j + 1];
  }

  /** Whatever was live before, a renewed request is live when its pack has run. */
  lemma {:induction false} PackRenews(cfg: Config, s: Arb, items: seq<Item>, i: nat, r: int, x: ResAction)
    requires Agrees(cfg, s) && Ready(cfg, s) && TaskOk(cfg, Pack(items)) && Renewed(items, i, r, x) && r in cfg.nodes
    ensures LiveAt(cfg, ApplyAll(cfg, s, PackOps(cfg, items)), r, x)
    decreases |items|
  {
    hide Agrees, DoInstant, PackOps, LiveAt, Renewed, TaskOk;
    RenewedTail(cfg, items, i, r, x);
    PackTail(cfg, s, items);
    if i > 0 {
      PackRenews(cfg, if items[0].resId in cfg.nodes then DoInstant(cfg, s, items[0].resId, items[0].action) else s, items[1..], i - 1, r, x);
    } else {
      FirstRenews(cfg, s, items[1..], r, x);
    }
  }

  lemma StartsLive(cfg: Config, s: Arb, r: int, x: ResAction)
    requires Ready(cfg, s) && r in cfg.nodes && x.Valid() && x.onOff != EventOff
    ensures LiveAt(cfg, DoInstant(cfg, s, r, x), r, x)
  {
    InstantFrame(cfg, s, r, x);
    hide DoInstant;
  }

  /** In every reachable state, running a pack with a renewal makes the renewed object live with a timer of its
      own pending; from there LivesUntilItsTimer says how long it lives. */
  lemma RenewalIsTimed(env: Env, inter: seq<Inter>, before: seq<SysEvent>, order: seq<int>, i: nat, r: int, x: ResAction)
    requires Feasible(env, inter, before) && r in env.cfg.nodes
    requires var s := ReachSys(env, inter, before);
      Enabled(env, s, RunNext(order)) && s.q.ready[0].task.Pack? && Renewed(s.q.ready[0].task.items, i, r, x)
    ensures exists h :: TimedAfter(env, ReachSys(env, inter, before), RunNext(order), r, x, h)
  {
    hide WfSys, Possible, TimersOk, Renewed, TimedAfter, SysStep, Feasible, Enabled;
    ReachTimed(env, inter, before);
    var h := RenewsNow(env, ReachSys(env, inter, before), order, i, r, x);
  }

  lemma RenewsNow(env: Env, s: Sys, order: seq<int>, i: nat, r: int, x: ResAction) returns (h: nat)
    requires WfSys(env, s) && Enabled(env, s, RunNext(order)) && r in env.cfg.nodes
    requires s.q.ready[0].task.Pack? && Renewed(s.q.ready[0].task.items, i, r, x)
    requires TimersOk(env, s)
    ensures TimedAfter(env, s, RunNext(order), r, x, h)
  {
    hide Agrees, QueueOk, CommandsOk, RunTask, AutomatonOk, Visits, LiveAt, HoldersUnique, QueuedOk, Apply, PackOps;
    var s1, task := s.(q := s.q.(ready := s.q.ready[1..])), s.q.ready[0].task;
    SysStepOk(env, s, RunNext(order));
    TailOk(env, s);
    RunTaskOk(env, s1, task, order);
    RunTaskTimed(env, s1, task, order);
    PackRenews(env.cfg, s.arb, task.items, i, r, x);
    h := ItsTimer(s, i, r, x);
  }

  lemma ItsTimer(s: Sys, i: nat, r: int, x: ResAction) returns (h: nat)
    requires s.q.ready != [] && s.q.ready[0].task.Pack? && ReadyOk(s.q.timers, s.q.ready[0])
    requires Renewed(s.q.ready[0].task.items, i, r, x)
    ensures Holds(s.q.timers, h, r, x)
  {
    var q := s.q.ready[0];
    assert Held(s.q.timers, q.task.items[i].resId, q.task.items[i].action, q.stamp);
    h :| Holds(s.q.timers, h, r, x) && q.stamp < s.q.timers[h].due;
  }
}
