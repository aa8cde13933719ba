/** The limit front end records what each client asked for; the queue carries it to the lists. */
module LimitProtocol {
  import opened Common
  import opened Config
  import opened Levels
  import opened LiveList
  import opened Tasks
  import opened System
  import opened SystemRuns
  import opened Channels

  const BATTERY_LIMIT_CMD_ID: int := -2
  const LIMIT_CMD_ID: int := -1

  /** `limits` is limitRequest_: for a client and a resource id or level id, the value it asked for. */
  datatype Front = Front(sys: Sys, limits: map<(int, int), int>)

  function KindOf(client: int): int {
    if client == BATTERY then POWER else client
  }

  function CmdOf(client: int): int {
    if client == BATTERY then BATTERY_LIMIT_CMD_ID else LIMIT_CMD_ID
  }

  function LimitAction(id: nat, client: int, value: int, on: bool): ResAction {
    ResAction(id, value, 0, KindOf(client), if on then EventOn else EventOff, CmdOf(client), MAX_INT_VALUE, false)
  }

  function PostLimit(s: Sys, byLevel: bool, key: int, client: int, value: int, on: bool): Sys {
    s.(q := Submit(s.q, Limit(byLevel, key, LimitAction(s.nextId, client, value, on))), nextId := s.nextId + 1)
  }

  /** SendLimitRequestEventOff: withdraw what the client has recorded under this key. */
  function LimitOff(f: Front, client: int, key: int, byLevel: bool): Front {
    if (client, key) in f.limits && f.limits[(client, key)] != INVALID_VALUE then
      Front(PostLimit(f.sys, byLevel, key, client, f.limits[(client, key)], false), f.limits - {(client, key)})
    else f
  }

  /** SendLimitRequestEventOn: file and record a value, unless it is a reset. */
  function LimitOn(f: Front, client: int, key: int, value: int, byLevel: bool): Front {
    if value != INVALID_VALUE && value != RESET_VALUE then
      Front(PostLimit(f.sys, byLevel, key, client, value, true),
        if (client, key) in f.limits then f.limits else f.limits[(client, key) := value])
    else f
  }

  /** SendLimitRequestEvent: withdraw both forms of the old limit, then file the new one. */
  function SetLimit(cfg: Config, f: Front, client: int, resId: int, value: int): Front {
    var byLevel := resId > RES_ID_ADDITION;
    var realResId := if byLevel then resId - RES_ID_ADDITION else resId;
    if realResId !in cfg.nodes then f
    else
      LimitOn(LimitOff(LimitOff(f, client, realResId, false), client, realResId + RES_ID_ADDITION, true), client, resId, value, byLevel)
  }

  /** LimitRequest past its checks: the limits of a whole request, one tag after another. */
  function SetLimits(cfg: Config, f: Front, client: int, tags: seq<int>, values: seq<int>): Front
    requires |tags| == |values|
    decreases |tags|
  {
    if tags == [] then f
    else SetLimits(cfg, SetLimit(cfg, f, client, tags[0], values[0]), client, tags[1..], values[1..])
  }

  /** A client asks for several limits at once, or anything else happens to the service. */
  datatype FrontEvent = Limits(client: int, tags: seq<int>, values: seq<int>) | Service(e: SysEvent)

  // ---- scope ---------------------------------------------------------------------------------------------

  predicate IsClient(client: int) {
    POWER <= client <= BATTERY
  }

  /** Commands have non-negative ids; the negative ids belong to the limit clients. */
  predicate Alien(task: Task) {
    match task
    case Pack(items) => forall i :: 0 <= i < |items| ==> items[i].action.cmdId >= 0
    case Expiry(items) => forall i :: 0 <= i < |items| ==> items[i].action.cmdId >= 0
    case Limit(_, _, _) => false
    case _ => true
  }

  predicate OwnLimit(task: Task) {
    task.Limit? && task.action.duration == 0 && task.action.onOff != EventInvalid
  }

  ghost predicate CommandIdsOk(env: Env) {
    forall c :: c in env.commands ==> env.commands[c].id >= 0
  }

  /** Values fit int32; a plain limit is a frequency or a reset, a level may be any number. */
  predicate LimitValueOk(resId: int, value: int) {
    && -0x8000_0000 <= value <= 0x7FFF_FFFF
    && (resId <= RES_ID_ADDITION ==> 0 <= value || value == RESET_VALUE || value == INVALID_VALUE)
  }

  predicate LimitValuesOk(tags: seq<int>, values: seq<int>)
    requires |tags| == |values|
  {
    forall i :: 0 <= i < |tags| ==> LimitValueOk(tags[i], values[i])
  }

  ghost predicate FrontEnabled(env: Env, f: Front, e: FrontEvent) {
    match e
    case Limits(client, tags, values) => |tags| == |values| && IsClient(client) ==> LimitValuesOk(tags, values)
    case Service(x) =>
      && Enabled(env, f.sys, x)
      && (x.Request? ==> Alien(Pack(x.items)))
      && (x.Post? ==> Alien(x.task))
  }

  ghost function FrontStep(env: Env, f: Front, e: FrontEvent): Front
    requires WfSys(env, f.sys) && FrontEnabled(env, f, e)
  {
    match e
    case Limits(client, tags, values) =>
      if |tags| == |values| && IsClient(client) then SetLimits(env.cfg, f, client, tags, values) else f
    case Service(x) => f.(sys := SysStep(env, f.sys, x))
  }

  // ---- what the lists should come to -----------------------------------------------------------------------

  /** The limit a client's record stands for: the recorded value, or the recorded level if it resolves. */
  ghost function Recorded(cfg: Config, limits: map<(int, int), int>, client: int, r: int): seq<int>
    requires r in cfg.nodes
  {
    if (client, r) in limits then [limits[(client, r)]]
    else if (client, r + RES_ID_ADDITION) in limits then
      var v := Resolve(cfg.nodes[r].available, limits[(client, r + RES_ID_ADDITION)]);
      if v.Some? then [v.value] else []
    else []
  }

  function ChannelOf(client: int, r: int): Channel {
    Channel(r, KindOf(client), CmdOf(client))
  }

  ghost predicate RecordsOk(cfg: Config, limits: map<(int, int), int>) {
    && (forall c, k :: (c, k) in limits ==> limits[(c, k)] != INVALID_VALUE && (k in cfg.nodes ==> 0 <= limits[(c, k)] <= MAX_INT_VALUE))
    && (forall c, k :: (c, k) in limits && k in cfg.nodes ==> (c, k + RES_ID_ADDITION) !in limits)
  }

  /** What the channel of a client on a resource will hold once the queue has run. */
  ghost function ToCome(env: Env, s: Sys, c: Channel): seq<int>
    requires WfSys(env, s) && ChannelOk(env.cfg, c)
  {
    ReadyTasksOk(env, s);
    Drained(env.cfg, c, s.q.ready, Now(env.cfg, s.arb, c))
  }

  lemma ReadyTasksOk(env: Env, s: Sys)
    requires WfSys(env, s)
    ensures forall k :: 0 <= k < |s.q.ready| ==> TaskOk(env.cfg, s.q.ready[k].task)
  {
    forall k | 0 <= k < |s.q.ready| ensures TaskOk(env.cfg, s.q.ready[k].task) {
      assert QueuedOk(env.cfg, s.q.ready[k].task, |s.inter|);
    }
  }

  /** The queue holds limit tasks of clients and tasks of other commands, and the channel only untimed ON entries. */
  ghost predicate QueueSorted(q: Queue) {
    && (forall k :: 0 <= k < |q.ready| ==> Alien(q.ready[k].task) || OwnLimit(q.ready[k].task))
    && (forall h :: h in q.timers ==> Alien(q.timers[h].task))
  }

  ghost predicate Agreed(env: Env, f: Front, client: int, r: int)
    requires WfSys(env, f.sys) && r in env.cfg.nodes && IsClient(client)
  {
    Tidy(env.cfg, f.sys.arb, ChannelOf(client, r)) && ToCome(env, f.sys, ChannelOf(client, r)) == Recorded(env.cfg, f.limits, client, r)
  }

  ghost predicate FrontOk(env: Env, f: Front) {
    && WfSys(env, f.sys) && CommandIdsOk(env) && RecordsOk(env.cfg, f.limits) && QueueSorted(f.sys.q)
    && forall client, r :: IsClient(client) && r in env.cfg.nodes ==> Agreed(env, f, client, r)
  }

  // ---- service events keep it ---------------------------------------------------------------------------------

  /** Tasks of other commands do not touch the channels of clients. */
  lemma AlienEffect(cfg: Config, c: Channel, task: Task, vs: seq<int>)
    requires WfConfig(cfg) && TaskOk(cfg, task) && Alien(task) && c.cmdId < 0 && c.kind != PERF
    ensures TaskEffect(cfg, c, task, vs) == vs && TaskRespects(cfg, c, task)
  {
    if task.Pack? {
      AlienPack(cfg, c, task.items, vs);
    }
  }

  lemma {:induction false} AlienPack(cfg: Config, c: Channel, items: seq<Item>, vs: seq<int>)
    requires TaskOk(cfg, Pack(items)) && Alien(Pack(items)) && c.cmdId < 0
    ensures OpsEffect(c, PackOps(cfg, items), vs) == vs
    decreases |items|
  {
    if items != [] {
      var rest := items[1..];
      assert forall i :: 0 <= i < |rest| ==> rest[i] == items[i + 1];
      AlienPack(cfg, c, rest, vs);
      if items[0].resId in cfg.nodes {
        var op := Begin(items[0].resId, items[0].action);
        assert PackOps(cfg, items) == [op] + PackOps(cfg, rest);
        assert ([op] + PackOps(cfg, rest))[1..] == PackOps(cfg, rest);
        assert OpEffect(c, op, vs) == vs;
      } else {
        assert PackOps(cfg, items) == PackOps(cfg, rest);
      }
    }
  }

  lemma {:induction false} AlienDrained(cfg: Config, c: Channel, ready: seq<Queued>, vs: seq<int>)
    requires WfConfig(cfg) && c.cmdId < 0 && c.kind != PERF
    requires forall k :: 0 <= k < |ready| ==> TaskOk(cfg, ready[k].task) && Alien(ready[k].task)
    ensures Drained(cfg, c, ready, vs) == vs
    decreases |ready|
  {
    hide TaskOk, Alien, TaskEffect, WfConfig;
    if ready != [] {
      AlienEffect(cfg, c, ready[0].task, vs);
      AlienDrained(cfg, c, ready[1..], vs);
    }
  }

  /** `p` is `q` with alien tasks appended and alien timers added or taken away. */
  ghost predicate AlienMore(q: Queue, p: Queue) {
    && |q.ready| <= |p.ready| && p.ready[..|q.ready|] == q.ready
    && (forall k :: |q.ready| <= k < |p.ready| ==> Alien(p.ready[k].task))
    && (forall h :: h in p.timers ==> (h in q.timers && p.timers[h] == q.timers[h]) || Alien(p.timers[h].task))
  }

  lemma DoWeakAlien(env: Env, s: Sys, i: nat, on: bool)
    requires i < |s.inter| && CommandIdsOk(env)
    ensures AlienMore(s.q, DoWeak(env, s, i, on).q)
  {
  }

  lemma WeakOneAlien(env: Env, s: Sys, i: nat)
    requires i < |s.inter| && CommandIdsOk(env)
    ensures AlienMore(s.q, WeakOne(env, s, i).q)
  {
    if s.inter[i].status.WeakStatus? && !Quiet(s) {
      DoWeakAlien(env, SetInter(s, i, BoostStatus, s.inter[i].timer), i, false);
      hide DoWeak;
    }
  }

  lemma {:induction false} WeakFromAlien(env: Env, s: Sys, i: nat)
    requires i <= |s.inter| && CommandIdsOk(env)
    ensures AlienMore(s.q, WeakFrom(env, s, i).q)
    decreases |s.inter| - i
  {
    hide WeakOne, CommandIdsOk, Alien;
    if i < |s.inter| {
      var t := WeakOne(env, s, i);
      WeakOneAlien(env, s, i);
      WeakFromAlien(env, t, i + 1);
      AlienMoreTrans(s.q, t.q, WeakFrom(env, t, i + 1).q);
    }
  }

  lemma AlienMoreTrans(a: Queue, b: Queue, c: Queue)
    requires AlienMore(a, b) && AlienMore(b, c)
    ensures AlienMore(a, c)
  {
    hide Alien;
    assert c.ready[..|a.ready|] == b.ready[..|a.ready|];
    forall k | |a.ready| <= k < |c.ready| ensures Alien(c.ready[k].task) {
      assert k < |b.ready| ==> c.ready[k] == b.ready[k];
    }
  }

  lemma RunTaskAlien(env: Env, s: Sys, task: Task, order: seq<int>)
    requires WfSys(env, s) && QueuedOk(env.cfg, task, |s.inter|) && Visits(order, env.cfg.nodes.Keys) && CommandIdsOk(env)
    ensures AlienMore(s.q, RunTask(env, s, task, order).q)
  {
    hide WeakFrom, Step, QueueOk, CommandsOk, WfConfig, AlienMore, CommandIdsOk, Delta;
    match task
    case SetWeak(on) => WeakFromAlien(env, s.(weakOn := on), 0);
    case SetPerfMode(on) => AlienNone(s.q);
    case WeakTimer(i) => DoWeakAlien(env, SetInter(s, i, WeakStatus, s.inter[i].timer), i, true);
    case _ => WeakFromAlien(env, Send(env, s.(arb := Step(env.cfg, s.arb, Do(task, order)))), 0);
  }

  lemma AlienNone(q: Queue)
    ensures AlienMore(q, q)
  {
  }

  lemma OwnRespects(cfg: Config, c: Channel, task: Task)
    requires WfConfig(cfg) && TaskOk(cfg, task) && (Alien(task) || OwnLimit(task)) && c.cmdId < 0 && c.kind != PERF
    ensures TaskRespects(cfg, c, task)
  {
    if Alien(task) { AlienEffect(cfg, c, task, []); }
  }

  /** Tasks appended by others leave what is to come unchanged. */
  lemma AppendedAlien(env: Env, c: Channel, ready: seq<Queued>, longer: seq<Queued>, vs: seq<int>)
    requires WfConfig(env.cfg) && c.cmdId < 0 && c.kind != PERF
    requires |ready| <= |longer| && longer[..|ready|] == ready
    requires forall k :: 0 <= k < |longer| ==> TaskOk(env.cfg, longer[k].task)
    requires forall k :: |ready| <= k < |longer| ==> Alien(longer[k].task)
    ensures (forall k :: 0 <= k < |ready| ==> ready[k] == longer[k])
      && Drained(env.cfg, c, longer, vs) == Drained(env.cfg, c, ready, vs)
  {
    hide TaskOk, Alien, WfConfig, Drained;
    var more := longer[|ready|..];
    assert longer == ready + more;
    assert forall k :: 0 <= k < |ready| ==> ready[k] == longer[k];
    assert forall k :: 0 <= k < |more| ==> more[k] == longer[|ready| + k];
    DrainedAppend(env.cfg, c, ready, more, vs);
    AlienDrained(env.cfg, c, more, Drained(env.cfg, c, ready, vs));
  }

  /** Running the first queued task moves its effect from the queue to the list. */
  lemma RunNextToCome(env: Env, s: Sys, order: seq<int>, c: Channel)
    requires WfSys(env, s) && Enabled(env, s, RunNext(order)) && CommandIdsOk(env) && QueueSorted(s.q)
    requires ChannelOk(env.cfg, c) && c.cmdId < 0 && c.kind != PERF && Tidy(env.cfg, s.arb, c)
    ensures var t := SysStep(env, s, RunNext(order));
      WfSys(env, t) && Tidy(env.cfg, t.arb, c) && ToCome(env, t, c) == ToCome(env, s, c)
  {
    hide RunTask, QueueSorted, Tidy, Now, Drained, CommandsOk, Step, TaskEffect;
    var s1, task := s.(q := s.q.(ready := s.q.ready[1..])), s.q.ready[0].task;
    SysStepOk(env, s, RunNext(order));
    var t := SysStep(env, s, RunNext(order));
    HeadFacts(env, s);
    RunTaskOk(env, s1, task, order);
    RunTaskAlien(env, s1, task, order);
    OwnRespects(env.cfg, c, task);
    StepChannel(env.cfg, s.arb, task, order, c);
    ReadyTasksOk(env, t);
    ReadyTasksOk(env, s);
    AppendedAlien(env, c, s1.q.ready, t.q.ready, Now(env.cfg, t.arb, c));
    DrainedHead(env.cfg, c, s.q.ready, Now(env.cfg, s.arb, c));
  }

  lemma DrainedHead(cfg: Config, c: Channel, ready: seq<Queued>, vs: seq<int>)
    requires WfConfig(cfg) && ready != [] && forall k :: 0 <= k < |ready| ==> TaskOk(cfg, ready[k].task)
    ensures Drained(cfg, c, ready, vs) == Drained(cfg, c, ready[1..], TaskEffect(cfg, c, ready[0].task, vs))
  {
  }

  lemma HeadFacts(env: Env, s: Sys)
    requires WfSys(env, s) && s.q.ready != [] && QueueSorted(s.q)
    ensures WfSys(env, s.(q := s.q.(ready := s.q.ready[1..])))
    ensures var task := s.q.ready[0].task; QueuedOk(env.cfg, task, |s.inter|) && TaskOk(env.cfg, task) && (Alien(task) || OwnLimit(task))
  {
    hide Alien, OwnLimit, QueuedOk, CommandsOk, WfConfig;
    assert QueuedOk(env.cfg, s.q.ready[0].task, |s.inter|);
    QueuedIsOk(env.cfg, s.q.ready[0].task, |s.inter|);
  }

  lemma QueuedIsOk(cfg: Config, task: Task, n: nat)
    requires QueuedOk(cfg, task, n)
    ensures TaskOk(cfg, task)
  {
  }

  lemma FireToCome(env: Env, s: Sys, h: nat, order: seq<int>, c: Channel)
    requires WfSys(env, s) && Enabled(env, s, Fire(h, order)) && CommandIdsOk(env) && QueueSorted(s.q)
    requires ChannelOk(env.cfg, c) && c.cmdId < 0 && c.kind != PERF && Tidy(env.cfg, s.arb, c)
    ensures var t := SysStep(env, s, Fire(h, order));
      WfSys(env, t) && Tidy(env.cfg, t.arb, c) && ToCome(env, t, c) == ToCome(env, s, c)
  {
    hide RunTask, QueueSorted, Tidy, Now, Drained, CommandsOk, Step, TaskEffect;
    var s1, task := s.(q := Cancel(s.q, h)), s.q.timers[h].task;
    SysStepOk(env, s, Fire(h, order));
    var t := SysStep(env, s, Fire(h, order));
    TimerFacts(env, s, h);
    RunTaskOk(env, s1, task, order);
    RunTaskAlien(env, s1, task, order);
    OwnRespects(env.cfg, c, task);
    StepChannel(env.cfg, s.arb, task, order, c);
    AlienEffect(env.cfg, c, task, Now(env.cfg, s.arb, c));
    ReadyTasksOk(env, t);
    ReadyTasksOk(env, s);
    AppendedAlien(env, c, s.q.ready, t.q.ready, Now(env.cfg, t.arb, c));
  }

  lemma TimerFacts(env: Env, s: Sys, h: nat)
    requires WfSys(env, s) && h in s.q.timers && QueueSorted(s.q)
    ensures WfSys(env, s.(q := Cancel(s.q, h)))
    ensures var task := s.q.timers[h].task; QueuedOk(env.cfg, task, |s.inter|) && TaskOk(env.cfg, task) && Alien(task)
  {
    hide Alien, OwnLimit, QueuedOk, CommandsOk, WfConfig;
    assert QueuedOk(env.cfg, s.q.timers[h].task, |s.inter|);
    QueuedIsOk(env.cfg, s.q.timers[h].task, |s.inter|);
  }

  lemma {:induction false} PostExpiriesReady(q: Queue, items: seq<Item>, durations: seq<int>)
    requires Alien(Expiry(items)) && forall h :: h in q.timers ==> Alien(q.timers[h].task)
    ensures var p := PostExpiries(q, items, durations); p.ready == q.ready && forall h :: h in p.timers ==> Alien(p.timers[h].task)
    decreases |durations|
  {
    if durations != [] {
      AlienSome(items, durations[0]);
      hide Alien, WithDuration;
      PostExpiriesReady(SubmitDelayed(q, Expiry(WithDuration(items, durations[0])), durations[0] * MICROS), items, durations[1..]);
    }
  }

  lemma {:induction false} AlienSome(items: seq<Item>, d: int)
    requires Alien(Expiry(items))
    ensures Alien(Expiry(WithDuration(items, d)))
  {
    if items != [] {
      assert forall i :: 0 <= i < |items[1..]| ==> items[1..][i] == items[i + 1];
      AlienSome(items[1..], d);
    }
  }

  /** Submitting other work appends alien tasks. */
  lemma SubmitToCome(env: Env, s: Sys, e: SysEvent, c: Channel)
    requires WfSys(env, s) && Enabled(env, s, e) && FrontEnabled(env, Front(s, map[]), Service(e)) && QueueSorted(s.q)
    requires e.Request? || e.Post?
    requires ChannelOk(env.cfg, c) && c.cmdId < 0 && c.kind != PERF && Tidy(env.cfg, s.arb, c)
    ensures var t := SysStep(env, s, e);
      WfSys(env, t) && t.arb == s.arb && Tidy(env.cfg, t.arb, c) && ToCome(env, t, c) == ToCome(env, s, c)
  {
    hide QueueSorted, Tidy, Now, Drained, CommandsOk;
    SysStepOk(env, s, e);
    var t := SysStep(env, s, e);
    if e.Request? {
      SortedTimers(s.q);
      PostExpiriesReady(Submit(s.q, Pack(e.items)), e.items, e.durations);
      hide PostExpiries;
    }
    hide QueueOk, WfConfig;
    ReadyTasksOk(env, t);
    ReadyTasksOk(env, s);
    AppendedAlien(env, c, s.q.ready, t.q.ready, Now(env.cfg, t.arb, c));
  }

  lemma SortedTimers(q: Queue)
    requires QueueSorted(q)
    ensures forall h :: h in q.timers ==> Alien(q.timers[h].task)
  {
  }

  // ---- limit events keep it ----------------------------------------------------------------------------------

  /** The effect of filing or withdrawing one value on any client's channel. */
  lemma PostLimitToCome(env: Env, s: Sys, byLevel: bool, key: int, client: int, value: int, on: bool, other: int, r: int)
    requires WfSys(env, s) && IsClient(client) && IsClient(other) && r in env.cfg.nodes
    requires !byLevel ==> 0 <= value <= MAX_INT_VALUE
    ensures var t := PostLimit(s, byLevel, key, client, value, on);
      && WfSys(env, t) && t.arb == s.arb
      && ToCome(env, t, ChannelOf(other, r)) ==
        var vs := ToCome(env, s, ChannelOf(other, r));
        var v := LimitTarget(env.cfg, byLevel, key, LimitAction(s.nextId, client, value, on));
        if v.None? || RealResId(byLevel, key) != r || client != other then vs
        else if on then LessOne(vs, v.value) + [v.value] else LessOne(vs, v.value)
  {
    var a := LimitAction(s.nextId, client, value, on);
    var task := Limit(byLevel, key, a);
    var t := PostLimit(s, byLevel, key, client, value, on);
    PostLimitWf(env, s, byLevel, key, client, value, on);
    var c := ChannelOf(other, r);
    ReadyTasksOk(env, s);
    ReadyTasksOk(env, t);
    hide WfConfig, CommandsOk, QueueOk, Now, TaskOk;
    var last := [Queued(s.q.now, task)];
    var vs := Drained(env.cfg, c, s.q.ready, Now(env.cfg, s.arb, c));
    assert t.q.ready == s.q.ready + last && last[0] == t.q.ready[|s.q.ready|];
    DrainedAppend(env.cfg, c, s.q.ready, last, Now(env.cfg, s.arb, c));
    assert Drained(env.cfg, c, last, vs) == TaskEffect(env.cfg, c, task, vs);
    LimitEffect(env.cfg, c, byLevel, key, a, vs);
    hide Drained, LimitTarget;
  }

  lemma PostLimitWf(env: Env, s: Sys, byLevel: bool, key: int, client: int, value: int, on: bool)
    requires WfSys(env, s) && IsClient(client)
    requires !byLevel ==> 0 <= value <= MAX_INT_VALUE
    ensures WfSys(env, PostLimit(s, byLevel, key, client, value, on)) && TaskOk(env.cfg, Limit(byLevel, key, LimitAction(s.nextId, client, value, on)))
    ensures QueueSorted(s.q) ==> QueueSorted(PostLimit(s, byLevel, key, client, value, on).q)
  {
    var a := LimitAction(s.nextId, client, value, on);
    assert TaskOk(env.cfg, Limit(byLevel, key, a));
    hide CommandsOk, WfConfig, Alien;
  }

  lemma LimitEffect(cfg: Config, c: Channel, byLevel: bool, key: int, a: ResAction, vs: seq<int>)
    requires WfConfig(cfg) && TaskOk(cfg, Limit(byLevel, key, a))
    ensures TaskEffect(cfg, c, Limit(byLevel, key, a), vs) ==
      var v := LimitTarget(cfg, byLevel, key, a);
      if v.None? then vs else Effect(c, RealResId(byLevel, key), a.(value := v.value), vs)
  {
    var v := LimitTarget(cfg, byLevel, key, a);
    if v.Some? {
      var op := Begin(RealResId(byLevel, key), a.(value := v.value));
      assert OpsEffect(c, [op], vs) == OpEffect(c, op, vs);
    }
  }

  /** The key of a resource in one of its two forms. */
  function KeyOf(r: int, byLevel: bool): int {
    if byLevel then r + RES_ID_ADDITION else r
  }

  /** Withdrawing removes the record and, when the queue has run, the entry it stood for. */
  lemma LimitOffOk(env: Env, f: Front, client: int, r: int, byLevel: bool)
    requires FrontOk(env, f) && IsClient(client) && r in env.cfg.nodes
    ensures var g := LimitOff(f, client, KeyOf(r, byLevel), byLevel);
      && FrontOk(env, g) && (client, KeyOf(r, byLevel)) !in g.limits
      && (forall k :: k in g.limits ==> k in f.limits)
  {
    var key := KeyOf(r, byLevel);
    var g := LimitOff(f, client, key, byLevel);
    if (client, key) in f.limits {
      var value := f.limits[(client, key)];
      PostLimitWf(env, f.sys, byLevel, key, client, value, false);
      RecordsRemove(env.cfg, f.limits, (client, key));
      forall c, q | IsClient(c) && q in env.cfg.nodes ensures Agreed(env, g, c, q) {
        assert Agreed(env, f, c, q);
        PostLimitToCome(env, f.sys, byLevel, key, client, value, false, c, q);
        RecordedWithout(env.cfg, f.limits, client, r, byLevel, c, q);
        hide FrontOk, WfSys, PostLimit, ToCome, Tidy, Recorded, RecordsOk, Resolve;
      }
    }
  }

  lemma RecordsRemove(cfg: Config, limits: map<(int, int), int>, k: (int, int))
    requires RecordsOk(cfg, limits)
    ensures RecordsOk(cfg, limits - {k})
  {
  }

  lemma RecordedWithout(cfg: Config, limits: map<(int, int), int>, client: int, r: int, byLevel: bool, c: int, q: int)
    requires WfConfig(cfg) && RecordsOk(cfg, limits) && r in cfg.nodes && q in cfg.nodes && (client, KeyOf(r, byLevel)) in limits
    ensures var fewer := limits - {(client, KeyOf(r, byLevel))};
      var v := if byLevel then Resolve(cfg.nodes[r].available, limits[(client, KeyOf(r, byLevel))]) else Some(limits[(client, r)]);
      if c == client && q == r then
        Recorded(cfg, fewer, c, q) == [] && Recorded(cfg, limits, c, q) == if v.Some? then [v.value] else []
      else Recorded(cfg, fewer, c, q) == Recorded(cfg, limits, c, q)
  {
  }

  /** A value filed for one client on one resource moves its channel as its record, and no other. */
  lemma LimitOnAgreed(env: Env, f: Front, client: int, r: int, value: int, byLevel: bool, c: int, q: int)
    requires WfSys(env, f.sys) && IsClient(client) && r in env.cfg.nodes && IsClient(c) && q in env.cfg.nodes
    requires LimitValueOk(KeyOf(r, byLevel), value) && value != INVALID_VALUE && value != RESET_VALUE
    requires (client, r) !in f.limits && (client, r + RES_ID_ADDITION) !in f.limits
    requires Agreed(env, f, c, q)
    ensures var g := LimitOn(f, client, KeyOf(r, byLevel), value, byLevel); WfSys(env, g.sys) && Agreed(env, g, c, q)
  {
    PostLimitToCome(env, f.sys, byLevel, KeyOf(r, byLevel), client, value, true, c, q);
    RecordedWith(env.cfg, f.limits, client, r, byLevel, value, c, q);
    hide WfSys, PostLimit, ToCome, Tidy, Recorded, Resolve;
  }

  /** Filing a value where nothing is recorded makes it, or what it resolves to, the one entry to come. */
  lemma LimitOnOk(env: Env, f: Front, client: int, r: int, value: int, byLevel: bool)
    requires FrontOk(env, f) && IsClient(client) && r in env.cfg.nodes && LimitValueOk(KeyOf(r, byLevel), value)
    requires (client, r) !in f.limits && (client, r + RES_ID_ADDITION) !in f.limits
    ensures FrontOk(env, LimitOn(f, client, KeyOf(r, byLevel), value, byLevel))
  {
    var key := KeyOf(r, byLevel);
    var g := LimitOn(f, client, key, value, byLevel);
    if value != INVALID_VALUE && value != RESET_VALUE {
      PostLimitWf(env, f.sys, byLevel, key, client, value, true);
      RecordsAdd(env.cfg, f.limits, client, r, byLevel, value);
      hide WfSys, RecordsOk, PostLimit, QueueSorted, Agreed;
      forall c, q | IsClient(c) && q in env.cfg.nodes ensures Agreed(env, g, c, q) {
        LimitOnAgreed(env, f, client, r, value, byLevel, c, q);
      }
    }
  }

  lemma RecordsAdd(cfg: Config, limits: map<(int, int), int>, client: int, r: int, byLevel: bool, value: int)
    requires WfConfig(cfg) && RecordsOk(cfg, limits) && r in cfg.nodes && value != INVALID_VALUE
    requires !byLevel ==> 0 <= value <= MAX_INT_VALUE
    requires (client, r) !in limits && (client, r + RES_ID_ADDITION) !in limits
    ensures RecordsOk(cfg, limits[(client, KeyOf(r, byLevel)) := value])
  {
  }

  lemma RecordedWith(cfg: Config, limits: map<(int, int), int>, client: int, r: int, byLevel: bool, value: int, c: int, q: int)
    requires WfConfig(cfg) && r in cfg.nodes && q in cfg.nodes
    requires (client, r) !in limits && (client, r + RES_ID_ADDITION) !in limits
    ensures var more := limits[(client, KeyOf(r, byLevel)) := value];
      var v := if byLevel then Resolve(cfg.nodes[r].available, value) else Some(value);
      if c == client && q == r then
        Recorded(cfg, limits, c, q) == [] && Recorded(cfg, more, c, q) == if v.Some? then [v.value] else []
      else Recorded(cfg, more, c, q) == Recorded(cfg, limits, c, q)
  {
  }

  lemma SetLimitOk(env: Env, f: Front, client: int, resId: int, value: int)
    requires FrontOk(env, f) && IsClient(client) && LimitValueOk(resId, value)
    ensures FrontOk(env, SetLimit(env.cfg, f, client, resId, value))
  {
    hide FrontOk, LimitOn, LimitOff, LimitValueOk;
    var byLevel := resId > RES_ID_ADDITION;
    var r := RealResId(byLevel, resId);
    if r in env.cfg.nodes {
      LimitOffOk(env, f, client, r, false);
      var g := LimitOff(f, client, r, false);
      LimitOffOk(env, g, client, r, true);
      LimitOnOk(env, LimitOff(g, client, r + RES_ID_ADDITION, true), client, r, value, byLevel);
    }
  }

  lemma ValuesOkTail(tags: seq<int>, values: seq<int>)
    requires |tags| == |values| && tags != [] && LimitValuesOk(tags, values)
    ensures LimitValueOk(tags[0], values[0]) && LimitValuesOk(tags[1..], values[1..])
  {
    hide LimitValueOk;
    assert forall i :: 0 <= i < |tags[1..]| ==> tags[1..][i] == tags[i + 1] && values[1..][i] == values[i + 1];
  }

  /** So a whole request keeps records and queue agreed. */
  lemma {:induction false} SetLimitsOk(env: Env, f: Front, client: int, tags: seq<int>, values: seq<int>)
    requires FrontOk(env, f) && IsClient(client) && |tags| == |values| && LimitValuesOk(tags, values)
    ensures FrontOk(env, SetLimits(env.cfg, f, client, tags, values))
    decreases |tags|
  {
    hide FrontOk, SetLimit, LimitValueOk, LimitValuesOk;
    if tags != [] {
      ValuesOkTail(tags, values);
      SetLimitOk(env, f, client, tags[0], values[0]);
      SetLimitsOk(env, SetLimit(env.cfg, f, client, tags[0], values[0]), client, tags[1..], values[1..]);
    }
  }

  lemma ServiceOk(env: Env, f: Front, e: SysEvent)
    requires FrontOk(env, f) && FrontEnabled(env, f, Service(e))
    ensures FrontOk(env, f.(sys := SysStep(env, f.sys, e)))
  {
    hide RunTask, RecordsOk, CommandsOk, Recorded, ToCome, Tidy, QueueOk, WfConfig, Alien, OwnLimit, CommandIdsOk, PostExpiries;
    var s, t := f.sys, SysStep(env, f.sys, e);
    SysStepOk(env, s, e);
    SortedKept(env, s, e);
    forall client, r | IsClient(client) && r in env.cfg.nodes ensures Agreed(env, f.(sys := t), client, r) {
      assert Agreed(env, f, client, r);
      var c := ChannelOf(client, r);
      match e
      case RunNext(order) => RunNextToCome(env, s, order, c);
      case Fire(h, order) => FireToCome(env, s, h, order, c);
      case Request(_, _) => SubmitToCome(env, s, e, c);
      case Post(_) => SubmitToCome(env, s, e, c);
      case SetThermal(level) => SameQueueToCome(env, s, t, c);
      case Tick(to) => SameQueueToCome(env, s, t, c);
    }
  }

  lemma SameQueueToCome(env: Env, s: Sys, t: Sys, c: Channel)
    requires WfSys(env, s) && WfSys(env, t) && ChannelOk(env.cfg, c) && t.q.ready == s.q.ready && t.arb.info == s.arb.info
    ensures ToCome(env, t, c) == ToCome(env, s, c) && Tidy(env.cfg, t.arb, c) == Tidy(env.cfg, s.arb, c)
  {
    hide CommandsOk, QueueOk, Drained;
    ReadyTasksOk(env, s);
    ReadyTasksOk(env, t);
  }

  lemma SortedKept(env: Env, s: Sys, e: SysEvent)
    requires WfSys(env, s) && Enabled(env, s, e) && FrontEnabled(env, Front(s, map[]), Service(e)) && QueueSorted(s.q) && CommandIdsOk(env)
    ensures QueueSorted(SysStep(env, s, e).q)
  {
    hide RunTask, CommandsOk, WfConfig, CommandIdsOk, OwnLimit, AlienMore;
    match e
    case Request(items, durations) =>
      PostExpiriesReady(Submit(s.q, Pack(items)), items, durations);
      hide PostExpiries, Alien;
    case RunNext(order) =>
      var s1 := s.(q := s.q.(ready := s.q.ready[1..]));
      HeadFacts(env, s);
      RunTaskAlien(env, s1, s.q.ready[0].task, order);
      SortedMore(s1.q, SysStep(env, s, e).q);
    case Fire(h, order) =>
      var s1 := s.(q := Cancel(s.q, h));
      TimerFacts(env, s, h);
      RunTaskAlien(env, s1, s.q.timers[h].task, order);
      SortedMore(s1.q, SysStep(env, s, e).q);
    case _ =>
  }

  lemma SortedMore(q: Queue, p: Queue)
    requires QueueSorted(q) && AlienMore(q, p)
    ensures QueueSorted(p)
  {
    hide Alien, OwnLimit;
    assert forall k :: 0 <= k < |q.ready| ==> p.ready[k] == q.ready[k];
  }

  // ---- runs ---------------------------------------------------------------------------------------------------

  lemma FrontStepOk(env: Env, f: Front, e: FrontEvent)
    requires FrontOk(env, f) && FrontEnabled(env, f, e)
    ensures FrontOk(env, FrontStep(env, f, e))
  {
    hide FrontOk, SysStep, SetLimits, Enabled, LimitValuesOk;
    match e
    case Limits(client, tags, values) =>
      if |tags| == |values| && IsClient(client) { SetLimitsOk(env, f, client, tags, values); }
    case Service(x) => ServiceOk(env, f, x);
  }

  ghost predicate FrontPossible(env: Env, f: Front, es: seq<FrontEvent>)
    requires FrontOk(env, f)
    decreases |es|
  {
    es != [] ==>
      FrontEnabled(env, f, es[0]) && (FrontStepOk(env, f, es[0]); FrontPossible(env, FrontStep(env, f, es[0]), es[1..]))
  }

  ghost function FrontRun(env: Env, f: Front, es: seq<FrontEvent>): (g: Front)
    requires FrontOk(env, f) && FrontPossible(env, f, es)
    ensures FrontOk(env, g)
    decreases |es|
  {
    if es == [] then f
    else
      FrontStepOk(env, f, es[0]);
      FrontRun(env, FrontStep(env, f, es[0]), es[1..])
  }

  lemma StartFront(env: Env, inter: seq<Inter>)
    requires Start(env, inter) && CommandIdsOk(env)
    ensures FrontOk(env, Front(InitSys(env, inter), map[]))
  {
    StartOk(env, inter);
    var f := Front(InitSys(env, inter), map[]);
    forall client, r | IsClient(client) && r in env.cfg.nodes ensures Agreed(env, f, client, r) {
      var c := ChannelOf(client, r);
      NothingThere(c);
      ReadyTasksOk(env, f.sys);
      assert f.sys.arb.info[r].lists[c.kind] == [];
    }
  }

  ghost predicate FrontFeasible(env: Env, inter: seq<Inter>, es: seq<FrontEvent>) {
    Start(env, inter) && CommandIdsOk(env) && (StartFront(env, inter); FrontPossible(env, Front(InitSys(env, inter), map[]), es))
  }

  ghost function ReachFront(env: Env, inter: seq<Inter>, es: seq<FrontEvent>): (f: Front)
    requires FrontFeasible(env, inter, es)
    ensures FrontOk(env, f)
  {
    StartFront(env, inter);
    FrontRun(env, Front(InitSys(env, inter), map[]), es)
  }

  /** Agreement of the limit protocol: at every point of every run, running the tasks already queued leaves
      on each resource, for each client, exactly one entry if the client has a value or a resolvable level
      recorded there, namely that value, and none otherwise; and a client never has both forms recorded. */
  lemma LimitsAgree(env: Env, inter: seq<Inter>, es: seq<FrontEvent>, client: int, r: int)
    requires FrontFeasible(env, inter, es) && IsClient(client) && r in env.cfg.nodes
    ensures var f := ReachFront(env, inter, es);
      && ToCome(env, f.sys, ChannelOf(client, r)) == Recorded(env.cfg, f.limits, client, r)
      && !((client, r) in f.limits && (client, r + RES_ID_ADDITION) in f.limits)
  {
    var f := ReachFront(env, inter, es);
    assert Agreed(env, f, client, r);
  }

  lemma {:induction false} ValuesMember(l: Live, cmdId: int, v: int)
    ensures v in ValuesOf(l, cmdId) <==> exists x :: x in l && x.cmdId == cmdId && x.value == v
  {
    if l != [] {
      ValuesMember(l[1..], cmdId, v);
      assert l == [l[0]] + l[1..];
    }
  }

  lemma FrontWf(env: Env, f: Front)
    requires FrontOk(env, f)
    ensures WfSys(env, f.sys)
  {
  }
}
