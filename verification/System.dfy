/** The whole service thread: the arbiter, its serial task queue, the weak-interaction automaton and the
    two report sinks, and the events that drive them. */
module System {
  import opened Common
  import opened Config
  import opened ArbiterState
  import opened Tasks

  // ---- configuration of commands ---------------------------------------------------------------

  /** `variable` alternates resource ids and values. */
  datatype Action = Action(thermalCmdId: int, thermalLvl: int, duration: int, variable: seq<int>)

  datatype Actions = Actions(id: int, actionList: seq<Action>, interaction: bool)

  const WEAK_CMD_ID: int := 9101
  const WEAK_PERF_MODE_CMD_ID: int := 39101
  const MICROS: int := 1000

  datatype Env = Env(cfg: Config, commands: map<int, Actions>)

  /** The resource/value pairs of an action that name a known resource, in order. */
  function ValidPairs(cfg: Config, variable: seq<int>): (ps: seq<(int, int)>)
    ensures forall i :: 0 <= i < |ps| ==> ps[i].0 in cfg.nodes
  {
    if |variable| < 2 then []
    else (if variable[0] in cfg.nodes then [(variable[0], variable[1])] else []) + ValidPairs(cfg, variable[2..])
  }

  function AllPairs(cfg: Config, actions: seq<Action>): (ps: seq<(int, int)>)
    ensures forall i :: 0 <= i < |ps| ==> ps[i].0 in cfg.nodes
  {
    if actions == [] then [] else ValidPairs(cfg, actions[0].variable) + AllPairs(cfg, actions[1..])
  }

  // ---- the queue ---------------------------------------------------------------------------------

  datatype Queued = Queued(stamp: int, task: Task)
  datatype Timer = Timer(due: int, task: Task)

  /** Tasks without delay run in the order they were submitted; delayed tasks wait for their due time. */
  datatype Queue = Queue(now: int, ready: seq<Queued>, timers: map<nat, Timer>, nextHandle: nat)

  function Submit(q: Queue, task: Task): Queue {
    q.(ready := q.ready + [Queued(q.now, task)])
  }

  function SubmitDelayed(q: Queue, task: Task, delay: int): Queue {
    q.(timers := q.timers[q.nextHandle := Timer(q.now + delay, task)], nextHandle := q.nextHandle + 1)
  }

  function Cancel(q: Queue, handle: nat): Queue {
    q.(timers := q.timers - {handle})
  }

  /** A delayed task may run once it is due, and not before a task that was submitted earlier than that. */
  predicate CanFire(q: Queue, h: nat) {
    h in q.timers && q.timers[h].due <= q.now && (q.ready == [] || q.timers[h].due <= q.ready[0].stamp)
  }

  // ---- the state -----------------------------------------------------------------------------------

  datatype InterStatus = BoostStatus | BoostEnd | WeakStatus

  datatype Inter = Inter(cmdId: int, actionType: int, delay: int, status: InterStatus, timer: Option<nat>)

  /** A report names resources with their new value and end time. */
  type Report = map<int, (int, int)>

  /** `sent` is previousValue and previousEndTime; `weakLog` records the ON and OFF packs of each interaction;
      `nextId` is the address the next request object will get. */
  datatype Sys = Sys(
    arb: Arb, weakOn: bool, perfMode: bool, inter: seq<Inter>, q: Queue,
    sent: Report, perfSo: seq<Report>, rssExe: seq<map<int, int>>, weakLog: seq<(nat, bool)>, nextId: nat)

  ghost predicate WfSys(env: Env, s: Sys) {
    && WfConfig(env.cfg) && CommandsOk(env)
    && Ready(env.cfg, s.arb) && s.sent.Keys == env.cfg.nodes.Keys
    && (forall i :: 0 <= i < |s.inter| ==> PERF <= s.inter[i].actionType <= PERFLVL)
    && QueueOk(env.cfg, s.q, |s.inter|)
  }

  ghost predicate CommandsOk(env: Env) {
    forall c :: c in env.commands ==> PairsOk(AllPairs(env.cfg, env.commands[c].actionList))
  }

  predicate PairsOk(pairs: seq<(int, int)>) {
    forall i :: 0 <= i < |pairs| ==> 0 <= pairs[i].1 <= MAX_INT_VALUE
  }

  ghost predicate QueueOk(cfg: Config, q: Queue, n: nat) {
    && (forall k :: 0 <= k < |q.ready| ==> QueuedOk(cfg, q.ready[k].task, n))
    && (forall h :: h in q.timers ==> h < q.nextHandle && QueuedOk(cfg, q.timers[h].task, n))
  }

  ghost predicate QueuedOk(cfg: Config, task: Task, n: nat) {
    TaskOk(cfg, task) && (task.WeakTimer? ==> task.index < n)
  }

  // ---- reports ---------------------------------------------------------------------------------------

  function CurrentReport(s: Arb): Report {
    map r | r in s.info :: (s.info[r].currentValue, s.info[r].currentEndTime)
  }

  /** The resources of one sink whose value or end time differs from what was last sent. */
  function Delta(cfg: Config, s: Arb, sent: Report, toPerfSo: bool): Report {
    map r | r in s.info && r in cfg.nodes && r in sent && cfg.nodes[r].toPerfSo == toPerfSo
      && (s.info[r].currentValue, s.info[r].currentEndTime) != sent[r]
      :: (s.info[r].currentValue, s.info[r].currentEndTime)
  }

  function Values(r: Report): map<int, int> {
    map x | x in r :: r[x].0
  }

  /** SendResStatus up to its last line: report what changed, and remember it as sent. */
  function Send(env: Env, s: Sys): Sys {
    var p, e := Delta(env.cfg, s.arb, s.sent, true), Delta(env.cfg, s.arb, s.sent, false);
    s.(sent := CurrentReport(s.arb),
       perfSo := if env.cfg.hasReportFunc && p != map[] then s.perfSo + [p] else s.perfSo,
       rssExe := if e != map[] then s.rssExe + [Values(e)] else s.rssExe)
  }

  // ---- weak interaction --------------------------------------------------------------------------------

  /** Boosting is over: weak mode is on and no interactive request is counted. */
  predicate Quiet(s: Sys) {
    s.weakOn && s.arb.boost == 0
  }

  function ModeCmdId(s: Sys, cmdId: int): int {
    if cmdId == WEAK_CMD_ID && s.perfMode then WEAK_PERF_MODE_CMD_ID else cmdId
  }

  function WeakItems(pairs: seq<(int, int)>, cmdId: int, on: bool, actionType: int, id: nat): (items: seq<Item>)
    ensures |items| == |pairs|
  {
    seq(|pairs|, i requires 0 <= i < |pairs| =>
      Item(pairs[i].0, ResAction(id + i, pairs[i].1, 0, actionType, if on then EventOn else EventOff, cmdId, MAX_INT_VALUE, false)))
  }

  /** DoWeakInteraction: post the command's pack, if the command exists and names any known resource. */
  function DoWeak(env: Env, s: Sys, i: nat, on: bool): Sys
    requires i < |s.inter|
  {
    var s1 := s.(weakLog := s.weakLog + [(i, on)]);
    var cmdId := ModeCmdId(s, s.inter[i].cmdId);
    if cmdId !in env.commands then s1
    else
      var pairs := AllPairs(env.cfg, env.commands[cmdId].actionList);
      if pairs == [] then s1
      else s1.(
        q := Submit(s.q, Pack(WeakItems(pairs, env.commands[cmdId].id, on, s.inter[i].actionType, s.nextId))),
        nextId := s.nextId + |pairs|)
  }

  function SetInter(s: Sys, i: nat, status: InterStatus, timer: Option<nat>): Sys
    requires i < |s.inter|
  {
    s.(inter := s.inter[i := s.inter[i].(status := status, timer := timer)])
  }

  /** One turn of the loop in WeakInteraction. */
  function WeakOne(env: Env, s: Sys, i: nat): (t: Sys)
    requires i < |s.inter|
    ensures |t.inter| == |s.inter|
  {
    match s.inter[i].status
    case BoostStatus =>
      if Quiet(s) then
        SetInter(s, i, BoostEnd, Some(s.q.nextHandle)).(q := SubmitDelayed(s.q, WeakTimer(i), s.inter[i].delay * MICROS))
      else s
    case WeakStatus =>
      if Quiet(s) then s else DoWeak(env, SetInter(s, i, BoostStatus, s.inter[i].timer), i, false)
    case BoostEnd =>
      if Quiet(s) then s
      else if s.inter[i].timer.None? then SetInter(s, i, BoostStatus, None)
      else SetInter(s, i, BoostStatus, None).(q := Cancel(s.q, s.inter[i].timer.value))
  }

  function WeakFrom(env: Env, s: Sys, i: nat): (t: Sys)
    requires i <= |s.inter|
    ensures |t.inter| == |s.inter|
    decreases |s.inter| - i
  {
    if i == |s.inter| then s else WeakFrom(env, WeakOne(env, s, i), i + 1)
  }

  function WeakInteraction(env: Env, s: Sys): Sys {
    WeakFrom(env, s, 0)
  }

  // ---- running a task ------------------------------------------------------------------------------------

  predicate Sends(task: Task) {
    !task.SetWeak? && !task.SetPerfMode? && !task.WeakTimer?
  }

  ghost function RunTask(env: Env, s: Sys, task: Task, order: seq<int>): Sys
    requires WfConfig(env.cfg) && Ready(env.cfg, s.arb) && QueuedOk(env.cfg, task, |s.inter|)
    requires Visits(order, env.cfg.nodes.Keys)
  {
    match task
    case SetWeak(on) => WeakInteraction(env, s.(weakOn := on))
    case SetPerfMode(on) => s.(perfMode := on)
    case WeakTimer(i) => DoWeak(env, SetInter(s, i, WeakStatus, s.inter[i].timer), i, true)
    case _ => WeakInteraction(env, Send(env, s.(arb := Step(env.cfg, s.arb, Do(task, order)))))
  }

  // ---- events ----------------------------------------------------------------------------------------------

  /** A request posts its pack and then one expiry task per distinct duration, in some order of durations.
      `Post` submits any other task; `RunNext` and `Fire` run a task of the queue. */
  datatype SysEvent =
    | Request(items: seq<Item>, durations: seq<int>)
    | Post(task: Task)
    | SetThermal(level: int)
    | Tick(to: int)
    | RunNext(order: seq<int>)
    | Fire(handle: nat, order: seq<int>)

  function WithDuration(items: seq<Item>, duration: int): seq<Item> {
    if items == [] then []
    else (if items[0].action.duration == duration then [items[0]] else []) + WithDuration(items[1..], duration)
  }

  function PostExpiries(q: Queue, items: seq<Item>, durations: seq<int>): Queue
    decreases |durations|
  {
    if durations == [] then q
    else PostExpiries(SubmitDelayed(q, Expiry(WithDuration(items, durations[0])), durations[0] * MICROS), items, durations[1..])
  }

  /** The distinct non-zero durations of a request. */
  ghost predicate DurationsOf(items: seq<Item>, durations: seq<int>) {
    && (forall i :: 0 <= i < |items| && items[i].action.duration != 0 ==> items[i].action.duration in durations)
    && (forall d :: d in durations ==> d != 0 && exists i :: 0 <= i < |items| && items[i].action.duration == d)
    && (forall i, j :: 0 <= i < j < |durations| ==> durations[i] != durations[j])
  }

  /** Requests are valid objects at new addresses for known resources; a request without a duration is an
      ON or an OFF. */
  ghost predicate ItemsOk(env: Env, s: Sys, items: seq<Item>) {
    forall i :: 0 <= i < |items| ==>
      && items[i].resId in env.cfg.nodes && items[i].action.Valid() && items[i].action.id == s.nextId + i
      && (items[i].action.duration == 0 ==> items[i].action.onOff != EventInvalid)
  }

  /** A limit task carries an untimed ON or OFF request; only the automaton posts weak timers. */
  predicate PostOk(s: Sys, task: Task) {
    match task
    case Limit(_, _, a) => a.duration == 0 && a.onOff != EventInvalid && a.id == s.nextId
    case Pack(_) => false
    case Expiry(_) => false
    case WeakTimer(_) => false
    case _ => true
  }

  ghost predicate Enabled(env: Env, s: Sys, e: SysEvent) {
    match e
    case Request(items, durations) => ItemsOk(env, s, items) && items != [] && DurationsOf(items, durations)
    case Post(task) => PostOk(s, task) && TaskOk(env.cfg, task)
    case SetThermal(_) => true
    case Tick(to) => s.q.now <= to
    case RunNext(order) => s.q.ready != [] && Visits(order, env.cfg.nodes.Keys)
    case Fire(h, order) => CanFire(s.q, h) && Visits(order, env.cfg.nodes.Keys)
  }

  function TaskIds(task: Task): nat {
    if task.Limit? then 1 else 0
  }

  ghost function SysStep(env: Env, s: Sys, e: SysEvent): Sys
    requires WfSys(env, s) && Enabled(env, s, e)
  {
    match e
    case Request(items, durations) =>
      s.(q := PostExpiries(Submit(s.q, Pack(items)), items, durations), nextId := s.nextId + |items|)
    case Post(task) => s.(q := Submit(s.q, task), nextId := s.nextId + TaskIds(task))
    case SetThermal(level) => s.(arb := s.arb.(level := level))
    case Tick(to) => s.(q := s.q.(now := to))
    case RunNext(order) => RunTask(env, s.(q := s.q.(ready := s.q.ready[1..])), s.q.ready[0].task, order)
    case Fire(h, order) => RunTask(env, s.(q := Cancel(s.q, h)), s.q.timers[h].task, order)
  }

  /** The first report of a sink: every resource at its default. */
  function Defaults(cfg: Config, toPerfSo: bool): Report {
    map r | r in cfg.nodes && cfg.nodes[r].toPerfSo == toPerfSo :: (NODE_DEFAULT_VALUE, MAX_INT_VALUE)
  }

  function InitSys(env: Env, inter: seq<Inter>): Sys {
    var first := map r | r in env.cfg.nodes :: (NODE_DEFAULT_VALUE, MAX_INT_VALUE);
    var p, e := Defaults(env.cfg, true), Defaults(env.cfg, false);
    Sys(InitArb(env.cfg), true, false, inter, Queue(0, [], map[], 0), first,
      if env.cfg.hasReportFunc && p != map[] then [p] else [],
      if e != map[] then [Values(e)] else [], [], 0)
  }
}
