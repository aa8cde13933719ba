/** A run of the service in which the performance mode is switched while an interaction is weak. */
module ModeWitness {
  import opened Common
  import opened Config
  import opened ArbiterState
  import opened Tasks
  import opened Counter
  import opened System
  import opened SystemRuns
  import opened CommandPairs
  import opened Requests
  import opened Witnesses
  import opened DriftWitness
  import opened WeakLive

  function Asking(value: int): Action {
    Action(INVALID_THERMAL_CMD_ID, -1, 0, [RES_ID, value])
  }

  /** Command 9101 asks for 5, and its replacement for 7. */
  function TwoModes(): Env {
    Env(OneResource(), map[9101 := Actions(9101, [Asking(5)], false), 39101 := Actions(39101, [Asking(7)], false)])
  }

  function Touch(status: InterStatus, timer: Option<nat>): Inter {
    Inter(9101, PERF, 1, status, timer)
  }

  function Wanted(id: nat, value: int, cmdId: int, onOff: EventType): ResAction {
    ResAction(id, value, 0, PERF, onOff, cmdId, MAX_INT_VALUE, false)
  }

  lemma OneListed(value: int)
    ensures AllPairs(OneResource(), [Asking(value)]) == [(RES_ID, value)]
  {
    OneResourceOk();
    OnePair(OneResource(), RES_ID, value);
    assert [Asking(value)][1..] == [];
  }

  lemma TwoModesOk()
    ensures WfConfig(OneResource()) && CommandsOk(TwoModes()) && RES_ID in OneResource().nodes && Visits([RES_ID], OneResource().nodes.Keys)
  {
    OneResourceOk();
    OneListed(5);
    OneListed(7);
  }

  /** What matters of the state: the modes, the interaction, the counter and the tasks that wait. */
  ghost predicate Looks(s: Sys, weakOn: bool, perfMode: bool, it: Inter, waiting: seq<Task>) {
    && WfSys(TwoModes(), s)
    && s.weakOn == weakOn && s.perfMode == perfMode && s.inter == [it] && s.arb.boost == 0
    && |s.q.ready| == |waiting| && forall k :: 0 <= k < |waiting| ==> s.q.ready[k].task == waiting[k]
  }

  /** The pack that the interaction posts in this mode. */
  function ModePack(id: nat, perfMode: bool, onOff: EventType): Task {
    OnePack(if perfMode then Wanted(id, 7, 39101, onOff) else Wanted(id, 5, 9101, onOff))
  }

  lemma Posted(s: Sys, on: bool)
    requires |s.inter| == 1 && s.inter[0].cmdId == 9101 && s.inter[0].actionType == PERF
    ensures DoWeak(TwoModes(), s, 0, on) == s.(weakLog := s.weakLog + [(0, on)],
      q := Submit(s.q, ModePack(s.nextId, s.perfMode, if on then EventOn else EventOff)), nextId := s.nextId + 1)
  {
    OneListed(5);
    OneListed(7);
    hide AllPairs;
    var onOff := if on then EventOn else EventOff;
    assert WeakItems([(RES_ID, 5)], 9101, on, PERF, s.nextId) == [Item(RES_ID, Wanted(s.nextId, 5, 9101, onOff))];
    assert WeakItems([(RES_ID, 7)], 39101, on, PERF, s.nextId) == [Item(RES_ID, Wanted(s.nextId, 7, 39101, onOff))];
  }

  lemma OneRound(s: Sys)
    requires |s.inter| == 1
    ensures WeakInteraction(TwoModes(), s) == WeakOne(TwoModes(), s, 0)
  {
    hide WeakOne;
    assert WeakFrom(TwoModes(), WeakOne(TwoModes(), s, 0), 1) == WeakOne(TwoModes(), s, 0);
  }

  // ---- event by event ------------------------------------------------------------------------------------------

  /** Boosting is over, and the timer starts. */
  lemma Starts(s: Sys)
    requires Looks(s, true, false, Touch(BoostStatus, None), [SetWeak(true)]) && s.q.timers == map[] && s.q.nextHandle == 0 && s.q.now == 0
    ensures Enabled(TwoModes(), s, RunNext([RES_ID]))
    ensures var t := SysStep(TwoModes(), s, RunNext([RES_ID]));
      && Looks(t, true, false, Touch(BoostEnd, Some(0)), []) && t.q.timers == map[0 := Timer(MICROS, WeakTimer(0))] && t.q.now == 0
  {
    TwoModesOk();
    SysStepOk(TwoModes(), s, RunNext([RES_ID]));
    hide WfConfig, CommandsOk, QueueOk;
    var s1 := s.(q := s.q.(ready := s.q.ready[1..]));
    OneRound(s1.(weakOn := true));
  }

  lemma Ticks(s: Sys)
    requires Looks(s, true, false, Touch(BoostEnd, Some(0)), []) && s.q.timers == map[0 := Timer(MICROS, WeakTimer(0))] && s.q.now == 0
    ensures Enabled(TwoModes(), s, Tick(MICROS))
    ensures var t := SysStep(TwoModes(), s, Tick(MICROS));
      Looks(t, true, false, Touch(BoostEnd, Some(0)), []) && t.q.timers == map[0 := Timer(MICROS, WeakTimer(0))] && CanFire(t.q, 0)
  {
    SysStepOk(TwoModes(), s, Tick(MICROS));
    hide WfSys;
  }

  /** The timer fires: the interaction is weak and posts the pack of command 9101. */
  lemma Fires(s: Sys)
    requires Looks(s, true, false, Touch(BoostEnd, Some(0)), []) && s.q.timers == map[0 := Timer(MICROS, WeakTimer(0))] && CanFire(s.q, 0)
    ensures Enabled(TwoModes(), s, Fire(0, [RES_ID]))
    ensures var t := SysStep(TwoModes(), s, Fire(0, [RES_ID]));
      Looks(t, true, false, Touch(WeakStatus, Some(0)), [ModePack(s.nextId, false, EventOn)])
  {
    TwoModesOk();
    SysStepOk(TwoModes(), s, Fire(0, [RES_ID]));
    Posted(SetInter(s.(q := Cancel(s.q, 0)), 0, WeakStatus, Some(0)), true);
    hide WfSys, DoWeak, ModePack;
  }

  /** The service once a waiting pack has acted and been reported. */
  ghost function Acted(s: Sys, a: ResAction): Sys
    requires Ready(OneResource(), s.arb) && RES_ID in OneResource().nodes && a.Valid() && s.q.ready != []
  {
    Send(TwoModes(), s.(q := s.q.(ready := s.q.ready[1..]), arb := DoInstant(OneResource(), s.arb, RES_ID, a)))
  }

  lemma PackActs(s: Sys, a: ResAction)
    requires WfSys(TwoModes(), s) && |s.inter| == 1 && s.q.ready != [] && s.q.ready[0].task == OnePack(a) && a.Valid()
    ensures Enabled(TwoModes(), s, RunNext([RES_ID])) && RES_ID in OneResource().nodes && Ready(OneResource(), s.arb)
    ensures WfSys(TwoModes(), SysStep(TwoModes(), s, RunNext([RES_ID])))
    ensures SysStep(TwoModes(), s, RunNext([RES_ID])) == WeakOne(TwoModes(), Acted(s, a), 0)
  {
    TwoModesOk();
    assert QueuedOk(OneResource(), OnePack(a), 1);
    hide WfConfig, CommandsOk, QueueOk, WeakOne, Send, DoInstant, RunTask, Visits, QueuedOk, Step, WeakInteraction, OnePack;
    SysStepOk(TwoModes(), s, RunNext([RES_ID]));
    PackIsBegin(s.arb, a);
    RunTaskSends(TwoModes(), s.(q := s.q.(ready := s.q.ready[1..])), OnePack(a), [RES_ID]);
    OneRound(Acted(s, a));
  }

  /** Without the flag a pack leaves the counter alone, and a settled interaction stays as it is. */
  lemma ActedStays(s: Sys, a: ResAction)
    requires WfSys(TwoModes(), s) && RES_ID in OneResource().nodes && a.Valid() && s.q.ready != [] && !a.interaction && s.arb.boost == 0
    requires |s.inter| == 1 && s.inter[0].status == if s.weakOn then WeakStatus else BoostStatus
    ensures var t := WeakOne(TwoModes(), Acted(s, a), 0);
      && t.weakOn == s.weakOn && t.perfMode == s.perfMode && t.inter == s.inter && t.arb.boost == 0 && t.q == s.q.(ready := s.q.ready[1..])
  {
    BoostOf(OneResource(), s.arb, RES_ID, a);
    hide WfConfig, CommandsOk, QueueOk, DoInstant, Delta, CurrentReport, DoWeak;
  }

  /** A waiting pack runs. */
  lemma PackRuns(s: Sys, weakOn: bool, perfMode: bool, it: Inter, id: nat, packMode: bool, onOff: EventType)
    requires Looks(s, weakOn, perfMode, it, [ModePack(id, packMode, onOff)]) && onOff != EventInvalid
    requires it.status == if weakOn then WeakStatus else BoostStatus
    ensures Enabled(TwoModes(), s, RunNext([RES_ID])) && Looks(SysStep(TwoModes(), s, RunNext([RES_ID])), weakOn, perfMode, it, [])
  {
    var a := if packMode then Wanted(id, 7, 39101, onOff) else Wanted(id, 5, 9101, onOff);
    assert a.Valid() && !a.interaction && ModePack(id, packMode, onOff) == OnePack(a);
    hide WfSys, Enabled, SysStep, OnePack, ModePack, WeakOne, Acted;
    PackActs(s, a);
    ActedStays(s, a);
  }

  /** Weak mode is switched off: the interaction goes back, with the OFF pack of the command now in force. */
  lemma GoesBack(s: Sys)
    requires Looks(s, true, true, Touch(WeakStatus, Some(0)), [SetWeak(false)])
    ensures Enabled(TwoModes(), s, RunNext([RES_ID]))
    ensures Looks(SysStep(TwoModes(), s, RunNext([RES_ID])), false, true, Touch(BoostStatus, Some(0)), [ModePack(s.nextId, true, EventOff)])
  {
    TwoModesOk();
    SysStepOk(TwoModes(), s, RunNext([RES_ID]));
    var s1 := s.(q := s.q.(ready := s.q.ready[1..]), weakOn := false);
    OneRound(s1);
    Posted(SetInter(s1, 0, BoostStatus, Some(0)), false);
    hide WfSys, DoWeak, ModePack;
  }

  lemma Asks(s: Sys, weakOn: bool, perfMode: bool, it: Inter, on: bool)
    requires Looks(s, weakOn, perfMode, it, [])
    ensures Enabled(TwoModes(), s, Post(SetWeak(on))) && Looks(SysStep(TwoModes(), s, Post(SetWeak(on))), weakOn, perfMode, it, [SetWeak(on)])
  {
    SysStepOk(TwoModes(), s, Post(SetWeak(on)));
    hide WfSys;
  }

  // ---- the run -------------------------------------------------------------------------------------------------

  function UntilWeak(): seq<SysEvent> {
    [Post(SetWeak(true)), RunNext([RES_ID]), Tick(MICROS), Fire(0, [RES_ID]), RunNext([RES_ID])]
  }

  function Switch(): seq<SysEvent> {
    [Post(SetPerfMode(true)), RunNext([RES_ID])]
  }

  function Back(): seq<SysEvent> {
    [Post(SetWeak(false)), RunNext([RES_ID]), RunNext([RES_ID])]
  }

  lemma OneMore(s: Sys, es: seq<SysEvent>, e: SysEvent)
    requires WfSys(TwoModes(), s) && Possible(TwoModes(), s, es) && Enabled(TwoModes(), SysRun(TwoModes(), s, es), e)
    ensures Possible(TwoModes(), s, es + [e]) && SysRun(TwoModes(), s, es + [e]) == SysStep(TwoModes(), SysRun(TwoModes(), s, es), e)
  {
    hide SysStep, Enabled, WfSys;
    OneSysEvent(TwoModes(), SysRun(TwoModes(), s, es), e);
    SysRunAppend(TwoModes(), s, es, [e]);
  }

  lemma NoEvents(s: Sys)
    requires WfSys(TwoModes(), s)
    ensures Possible(TwoModes(), s, []) && SysRun(TwoModes(), s, []) == s
  {
  }

  lemma WeakRun(s: Sys)
    requires Looks(s, true, false, Touch(BoostStatus, None), []) && s.q.timers == map[] && s.q.nextHandle == 0 && s.q.now == 0
    ensures WfSys(TwoModes(), s) && Possible(TwoModes(), s, UntilWeak())
    ensures Looks(SysRun(TwoModes(), s, UntilWeak()), true, false, Touch(WeakStatus, Some(0)), [])
  {
    var a, b, c, d := Post(SetWeak(true)), RunNext([RES_ID]), Tick(MICROS), Fire(0, [RES_ID]);
    assert UntilWeak() == [] + [a] + [b] + [c] + [d] + [b];
    LooksWf(s, true, false, Touch(BoostStatus, None), []);
    Asks(s, true, false, Touch(BoostStatus, None), true);
    PostKeeps(s, true);
    hide *;
    NoEvents(s);
    OneMore(s, [], a);
    var s1 := SysRun(TwoModes(), s, [] + [a]);
    Starts(s1);
    OneMore(s, [] + [a], b);
    var s2 := SysRun(TwoModes(), s, [] + [a] + [b]);
    Ticks(s2);
    OneMore(s, [] + [a] + [b], c);
    var s3 := SysRun(TwoModes(), s, [] + [a] + [b] + [c]);
    Fires(s3);
    OneMore(s, [] + [a] + [b] + [c], d);
    PackRuns(SysRun(TwoModes(), s, [] + [a] + [b] + [c] + [d]), true, false, Touch(WeakStatus, Some(0)), s3.nextId, false, EventOn);
    OneMore(s, [] + [a] + [b] + [c] + [d], b);
  }

  lemma LooksWf(s: Sys, weakOn: bool, perfMode: bool, it: Inter, waiting: seq<Task>)
    requires Looks(s, weakOn, perfMode, it, waiting)
    ensures WfSys(TwoModes(), s) && s.inter == [it] && (waiting == [] ==> s.q.ready == [])
  {
    hide WfSys;
  }

  lemma PostKeeps(s: Sys, on: bool)
    requires WfSys(TwoModes(), s) && Enabled(TwoModes(), s, Post(SetWeak(on)))
    ensures var t := SysStep(TwoModes(), s, Post(SetWeak(on)));
      t.q.timers == s.q.timers && t.q.nextHandle == s.q.nextHandle && t.q.now == s.q.now
  {
  }

  lemma BackRun(s: Sys)
    requires Looks(s, true, true, Touch(WeakStatus, Some(0)), [])
    ensures WfSys(TwoModes(), s) && Possible(TwoModes(), s, Back())
    ensures Looks(SysRun(TwoModes(), s, Back()), false, true, Touch(BoostStatus, Some(0)), [])
  {
    var a, b := Post(SetWeak(false)), RunNext([RES_ID]);
    assert Back() == [] + [a] + [b] + [b];
    LooksWf(s, true, true, Touch(WeakStatus, Some(0)), []);
    hide *;
    NoEvents(s);
    Asks(s, true, true, Touch(WeakStatus, Some(0)), false);
    OneMore(s, [], a);
    var s1 := SysRun(TwoModes(), s, [] + [a]);
    GoesBack(s1);
    OneMore(s, [] + [a], b);
    PackRuns(SysRun(TwoModes(), s, [] + [a] + [b]), false, true, Touch(BoostStatus, Some(0)), s1.nextId, true, EventOff);
    OneMore(s, [] + [a] + [b], b);
  }

  lemma StartsLooking()
    ensures var s, w := InitSys(TwoModes(), [Touch(BoostStatus, None)]), Watch(0, RES_ID, false, None);
      && Looks(s, true, false, Touch(BoostStatus, None), []) && s.q.timers == map[] && s.q.nextHandle == 0 && s.q.now == 0
      && Start(TwoModes(), [Touch(BoostStatus, None)]) && Begins(TwoModes(), s, w)
      && WatchedChannel(TwoModes(), s.inter, w) == Channels.Channel(RES_ID, PERF, 9101)
  {
    var inter, w := [Touch(BoostStatus, None)], Watch(0, RES_ID, false, None);
    TwoModesOk();
    StartOk(TwoModes(), inter);
    hide WfConfig, CommandsOk;
    StartBegins(TwoModes(), inter, w);
    hide WfSys, Begins;
  }

  lemma Leaving(c: Channels.Channel)
    ensures forall k :: 0 <= k < |UntilWeak()| ==> Leaves(c, Touch(BoostStatus, None), UntilWeak()[k])
    ensures forall k :: 0 <= k < |Back()| ==> Leaves(c, Touch(WeakStatus, Some(0)), Back()[k])
  {
  }

  lemma Runs(inter: seq<Inter>, es: seq<SysEvent>)
    requires Start(TwoModes(), inter) && (StartOk(TwoModes(), inter); Possible(TwoModes(), InitSys(TwoModes(), inter), es))
    ensures Feasible(TwoModes(), inter, es) && ReachSys(TwoModes(), inter, es) == (StartOk(TwoModes(), inter); SysRun(TwoModes(), InitSys(TwoModes(), inter), es))
  {
    hide WfSys, Possible, SysRun, InitSys;
  }

  lemma Switches(s: Sys)
    requires Looks(s, true, false, Touch(WeakStatus, Some(0)), [])
    ensures Possible(TwoModes(), s, Switch()) && SysRun(TwoModes(), s, Switch()) == s.(perfMode := true)
    ensures Looks(s.(perfMode := true), true, true, Touch(WeakStatus, Some(0)), [])
  {
    TwoModesOk();
    hide WfSys, Possible, SysRun, Visits;
    FlipRuns(TwoModes(), s, true, [RES_ID]);
  }

  lemma FiveIsListed()
    ensures Lists(OneResource(), TwoModes().commands[9101].actionList, RES_ID, 5)
  {
    OneResourceOk();
    assert ListsAt([Asking(5)][0].variable, 0, RES_ID, 5);
  }

  lemma ListShape(s: Sys)
    requires WfSys(TwoModes(), s)
    ensures RES_ID in s.arb.info && |s.arb.info[RES_ID].lists| == 5
  {
    OneResourceOk();
  }

  /** The performance mode is switched on while the interaction is weak; then weak interaction is switched off. In the
      end the interaction boosts, nothing waits to run, and the value of command 9101 is still live. */
  lemma StrandedByMode()
    ensures var inter, es := [Touch(BoostStatus, None)], UntilWeak() + Switch() + Back();
      && Feasible(TwoModes(), inter, es)
      && var s := ReachSys(TwoModes(), inter, es);
      && s.inter == [Touch(BoostStatus, Some(0))] && s.q.ready == [] && RES_ID in s.arb.info && |s.arb.info[RES_ID].lists| == 5
      && exists x :: x in s.arb.info[RES_ID].lists[PERF] && x.cmdId == 9101 && x.value == 5
  {
    var env, inter, w := TwoModes(), [Touch(BoostStatus, None)], Watch(0, RES_ID, false, None);
    var s0 := InitSys(env, inter);
    TwoModesOk();
    StartsLooking();
    Leaving(Channels.Channel(RES_ID, PERF, 9101));
    FiveIsListed();
    hide WfSys, Feasible, ReachSys, Possible, SysRun, InitSys, Start, UntilWeak, Switch, Back, Leaves, Begins, Visits, WatchedChannel, Lists;
    WeakRun(s0);
    NoEvents(s0);
    Runs(inter, []);
    var s := SysRun(env, s0, UntilWeak());
    Switches(s);
    var t := s.(perfMode := true);
    BackRun(t);
    SysRunAppend(env, s0, UntilWeak(), Switch());
    SysRunAppend(env, s0, UntilWeak() + Switch(), Back());
    Runs(inter, UntilWeak() + Switch() + Back());
    ModeStrands(env, inter, [], UntilWeak(), w, [RES_ID], Back(), 5);
    ListShape(SysRun(env, t, Back()));
  }
}
