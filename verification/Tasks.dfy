/** The tasks of the serial queue, their effect on the arbiter, and runs of them.
    A task is a sequence of elementary operations, so an invariant is proved one operation at a time. */
module Tasks {
  import opened Common
  import opened Config
  import opened Levels
  import opened ArbiterState

  /** `Limit` carries a resource id, or with `byLevel` a level id (resource id plus RES_ID_ADDITION). */
  datatype Task =
    | Pack(items: seq<Item>)
    | Expiry(items: seq<Item>)
    | PowerSwitch(on: bool)
    | ThermalSwitch(on: bool)
    | Limit(byLevel: bool, resId: int, action: ResAction)
    | Clear
    | SetWeak(on: bool)
    | SetPerfMode(on: bool)
    | WeakTimer(index: nat)

  /** What happens to the arbiter: a task runs, walking resources in some order where it has to walk
      them, or the thermal level is set (which arbitrates nothing). */
  datatype Event = Do(task: Task, order: seq<int>) | SetLevel(level: int)

  /** The elementary operations on the arbiter. */
  datatype Op =
    | Begin(resId: int, action: ResAction)
    | End(resId: int, action: ResAction)
    | ClearPerf(resId: int)
    | SwitchPower(on: bool, order: seq<int>)
    | SwitchThermal(on: bool, order: seq<int>)
    | Level(level: int)

  // ---- operations ------------------------------------------------------------------------------

  ghost predicate OpOk(cfg: Config, op: Op) {
    match op
    case Begin(r, a) => r in cfg.nodes && a.Valid()
    case End(r, a) => r in cfg.nodes && a.Valid()
    case ClearPerf(r) => r in cfg.nodes
    case SwitchPower(_, order) => Visits(order, cfg.nodes.Keys)
    case SwitchThermal(_, order) => Visits(order, cfg.nodes.Keys)
    case Level(_) => true
  }

  ghost predicate OpsOk(cfg: Config, ops: seq<Op>) {
    forall i :: 0 <= i < |ops| ==> OpOk(cfg, ops[i])
  }

  ghost function ArbitrateAll(cfg: Config, s: Arb, order: seq<int>): (t: Arb)
    requires Ready(cfg, s) && forall r :: r in order ==> r in cfg.nodes
    ensures Ready(cfg, t)
    decreases |order|
  {
    if order == [] then s else ArbitrateAll(cfg, Arbitrate(cfg, s, order[0]), order[1..])
  }

  ghost function Apply(cfg: Config, s: Arb, op: Op): (t: Arb)
    requires Ready(cfg, s) && OpOk(cfg, op)
    ensures Ready(cfg, t)
  {
    match op
    case Begin(r, a) => DoInstant(cfg, s, r, a)
    case End(r, a) => DoExpire(cfg, s, r, a)
    case ClearPerf(r) => ClearOne(cfg, s, r)
    case SwitchPower(on, order) => ArbitrateAll(cfg, s.(power := on), order)
    case SwitchThermal(on, order) => ArbitrateAll(cfg, s.(thermal := on), order)
    case Level(level) => s.(level := level)
  }

  ghost function ApplyAll(cfg: Config, s: Arb, ops: seq<Op>): (t: Arb)
    requires Ready(cfg, s) && OpsOk(cfg, ops)
    ensures Ready(cfg, t)
    decreases |ops|
  {
    if ops == [] then s else ApplyAll(cfg, Apply(cfg, s, ops[0]), ops[1..])
  }

  lemma {:induction false} ApplyAppend(cfg: Config, s: Arb, a: seq<Op>, b: seq<Op>)
    requires Ready(cfg, s) && OpsOk(cfg, a) && OpsOk(cfg, b)
    ensures ApplyAll(cfg, s, a + b) == ApplyAll(cfg, ApplyAll(cfg, s, a), b)
    decreases |a|
  {
    hide Apply;
    if a == [] {
      assert a + b == b;
    } else {
      assert (a + b)[1..] == a[1..] + b;
      ApplyAppend(cfg, Apply(cfg, s, a[0]), a[1..], b);
    }
  }

  // ---- tasks and runs ----------------------------------------------------------------------------

  ghost predicate TaskOk(cfg: Config, task: Task) {
    match task
    case Pack(items) => forall i :: 0 <= i < |items| ==> items[i].action.Valid()
    case Expiry(items) => forall i :: 0 <= i < |items| ==> items[i].action.Valid() && items[i].resId in cfg.nodes
    case Limit(byLevel, _, action) => if byLevel then action.(value := 0).Valid() else action.Valid()
    case _ => true
  }

  ghost predicate EventOk(cfg: Config, e: Event) {
    e.Do? ==> TaskOk(cfg, e.task) && Visits(e.order, cfg.nodes.Keys)
  }

  ghost predicate EventsOk(cfg: Config, es: seq<Event>) {
    forall i :: 0 <= i < |es| ==> EventOk(cfg, es[i])
  }

  /** A pack begins each of its requests in chain order, passing over unknown resources. */
  ghost function PackOps(cfg: Config, items: seq<Item>): (ops: seq<Op>)
    requires TaskOk(cfg, Pack(items))
    ensures OpsOk(cfg, ops)
  {
    if items == [] then []
    else
      (if items[0].resId in cfg.nodes then [Begin(items[0].resId, items[0].action)] else []) + PackOps(cfg, items[1..])
  }

  function ExpiryOps(items: seq<Item>): seq<Op> {
    seq(|items|, i requires 0 <= i < |items| => End(items[i].resId, items[i].action))
  }

  function ClearOps(order: seq<int>): seq<Op> {
    seq(|order|, i requires 0 <= i < |order| => ClearPerf(order[i]))
  }

  lemma PackOpsCons(cfg: Config, s: Arb, items: seq<Item>)
    requires Ready(cfg, s) && TaskOk(cfg, Pack(items)) && items != []
    ensures TaskOk(cfg, Pack(items[1..]))
    ensures ApplyAll(cfg, s, PackOps(cfg, items)) ==
      ApplyAll(cfg, if items[0].resId in cfg.nodes then DoInstant(cfg, s, items[0].resId, items[0].action) else s, PackOps(cfg, items[1..]))
  {
    var rest := PackOps(cfg, items[1..]);
    if items[0].resId in cfg.nodes {
      var op := Begin(items[0].resId, items[0].action);
      assert PackOps(cfg, items) == [op] + rest && ([op] + rest)[1..] == rest;
    } else {
      assert PackOps(cfg, items) == rest;
    }
    hide DoInstant, PackOps;
  }

  lemma ExpiryOpsCons(cfg: Config, s: Arb, items: seq<Item>)
    requires Ready(cfg, s) && TaskOk(cfg, Expiry(items)) && items != []
    ensures TaskOk(cfg, Expiry(items[1..]))
    ensures ApplyAll(cfg, s, ExpiryOps(items)) ==
      ApplyAll(cfg, DoExpire(cfg, s, items[0].resId, items[0].action), ExpiryOps(items[1..]))
  {
    assert ExpiryOps(items)[0] == End(items[0].resId, items[0].action) && ExpiryOps(items)[1..] == ExpiryOps(items[1..]);
    hide DoExpire, ExpiryOps;
  }

  /** The value a limit task asks for, once a level has been resolved; none if it is passed over. */
  ghost function LimitTarget(cfg: Config, byLevel: bool, resId: int, a: ResAction): Option<int> {
    if RealResId(byLevel, resId) !in cfg.nodes then None
    else if byLevel then Resolve(cfg.nodes[RealResId(byLevel, resId)].available, a.value)
    else Some(a.value)
  }

  function RealResId(byLevel: bool, resId: int): int {
    if byLevel then resId - RES_ID_ADDITION else resId
  }

  ghost function LimitOps(cfg: Config, byLevel: bool, resId: int, a: ResAction): (ops: seq<Op>)
    requires WfConfig(cfg) && TaskOk(cfg, Limit(byLevel, resId, a))
    ensures OpsOk(cfg, ops)
  {
    var v := LimitTarget(cfg, byLevel, resId, a);
    if v.None? then [] else [Begin(RealResId(byLevel, resId), a.(value := v.value))]
  }

  ghost function Ops(cfg: Config, e: Event): (ops: seq<Op>)
    requires WfConfig(cfg) && EventOk(cfg, e)
    ensures OpsOk(cfg, ops)
  {
    match e
    case SetLevel(level) => [Level(level)]
    case Do(task, order) =>
      match task
      case Pack(items) => PackOps(cfg, items)
      case Expiry(items) => ExpiryOps(items)
      case PowerSwitch(on) => [SwitchPower(on, order)]
      case ThermalSwitch(on) => [SwitchThermal(on, order)]
      case Limit(byLevel, resId, action) => LimitOps(cfg, byLevel, resId, action)
      case Clear => ClearOps(order)
      case _ => []
  }

  ghost function Step(cfg: Config, s: Arb, e: Event): (t: Arb)
    requires WfConfig(cfg) && Ready(cfg, s) && EventOk(cfg, e)
    ensures Ready(cfg, t)
  {
    ApplyAll(cfg, s, Ops(cfg, e))
  }

  lemma LevelStep(cfg: Config, s: Arb, level: int)
    requires WfConfig(cfg) && Ready(cfg, s)
    ensures Step(cfg, s, SetLevel(level)) == s.(level := level)
  {
    assert Ops(cfg, SetLevel(level)) == [Level(level)];
    assert ApplyAll(cfg, s, [Level(level)]) == Apply(cfg, s, Level(level));
  }

  /** Tasks that only concern the weak-interaction automaton do nothing to the arbiter. */
  lemma NoStep(cfg: Config, s: Arb, task: Task, order: seq<int>)
    requires WfConfig(cfg) && Ready(cfg, s) && Visits(order, cfg.nodes.Keys) && (task.SetWeak? || task.SetPerfMode? || task.WeakTimer?)
    ensures Step(cfg, s, Do(task, order)) == s
  {
    assert Ops(cfg, Do(task, order)) == [];
  }

  ghost function RunOps(cfg: Config, es: seq<Event>): (ops: seq<Op>)
    requires WfConfig(cfg) && EventsOk(cfg, es)
    ensures OpsOk(cfg, ops)
  {
    if es == [] then [] else Ops(cfg, es[0]) + RunOps(cfg, es[1..])
  }

  ghost function Run(cfg: Config, s: Arb, es: seq<Event>): (t: Arb)
    requires WfConfig(cfg) && Ready(cfg, s) && EventsOk(cfg, es)
    ensures Ready(cfg, t)
    decreases |es|
  {
    if es == [] then s else Run(cfg, Step(cfg, s, es[0]), es[1..])
  }

  /** A run of events is the run of their operations. */
  lemma {:induction false} RunIsOps(cfg: Config, s: Arb, es: seq<Event>)
    requires WfConfig(cfg) && Ready(cfg, s) && EventsOk(cfg, es)
    ensures Run(cfg, s, es) == ApplyAll(cfg, s, RunOps(cfg, es))
    decreases |es|
  {
    hide Ops, Apply, OpOk;
    if es != [] {
      RunIsOps(cfg, Step(cfg, s, es[0]), es[1..]);
      ApplyAppend(cfg, s, Ops(cfg, es[0]), RunOps(cfg, es[1..]));
    }
  }

  lemma {:induction false} RunAppend(cfg: Config, s: Arb, a: seq<Event>, b: seq<Event>)
    requires WfConfig(cfg) && Ready(cfg, s) && EventsOk(cfg, a) && EventsOk(cfg, b)
    ensures Run(cfg, s, a + b) == Run(cfg, Run(cfg, s, a), b)
    decreases |a|
  {
    hide Step, EventOk;
    if a == [] {
      assert a + b == b;
    } else {
      assert (a + b)[1..] == a[1..] + b;
      RunAppend(cfg, Step(cfg, s, a[0]), a[1..], b);
    }
  }

  /** The state after any sequence of events from start-up. */
  ghost function Reach(cfg: Config, es: seq<Event>): (t: Arb)
    requires WfConfig(cfg) && EventsOk(cfg, es)
    ensures Ready(cfg, t)
  {
    Run(cfg, InitArb(cfg), es)
  }
}
