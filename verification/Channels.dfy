/** A channel is the part of one request list that belongs to one command: the untimed ON requests of
    one type and command id on one resource. Its contents are determined by the queue alone. */
module Channels {
  import opened Common
  import opened Config
  import opened LiveList
  import opened ArbiterState
  import opened Tasks
  import opened RunTheorems
  import opened System

  datatype Channel = Channel(resId: int, kind: int, cmdId: int)

  /** The values of the entries of command `cmdId`, in list order. */
  function ValuesOf(l: Live, cmdId: int): seq<int> {
    if l == [] then [] else (if l[0].cmdId == cmdId then [l[0].value] else []) + ValuesOf(l[1..], cmdId)
  }

  function LessOne(vs: seq<int>, v: int): seq<int> {
    if vs == [] then [] else if vs[0] == v then vs[1..] else [vs[0]] + LessOne(vs[1..], v)
  }

  /** The entries of the channel's command are untimed ON requests. */
  ghost predicate Disciplined(l: Live, c: Channel) {
    forall x :: x in l && x.cmdId == c.cmdId ==> x.duration == 0 && x.onOff == EventOn && x.kind == c.kind
  }

  predicate Addresses(c: Channel, r: int, a: ResAction) {
    r == c.resId && a.kind == c.kind && a.cmdId == c.cmdId
  }

  /** What a request does to a channel's values. */
  function Effect(c: Channel, r: int, a: ResAction, vs: seq<int>): seq<int> {
    if !Addresses(c, r, a) then vs
    else if a.onOff == EventOff then LessOne(vs, a.value)
    else LessOne(vs, a.value) + [a.value]
  }

  function OpEffect(c: Channel, op: Op, vs: seq<int>): seq<int> {
    match op
    case Begin(r, a) => Effect(c, r, a, vs)
    case ClearPerf(r) => if c.kind == PERF && r == c.resId then [] else vs
    case _ => vs
  }

  function OpsEffect(c: Channel, ops: seq<Op>, vs: seq<int>): seq<int>
    decreases |ops|
  {
    if ops == [] then vs else OpsEffect(c, ops[1..], OpEffect(c, ops[0], vs))
  }

  /** Operations that respect the channel: its own requests are untimed ON and OFF, and what expires is
      not its own. */
  predicate Respects(c: Channel, op: Op) {
    match op
    case Begin(r, a) => Addresses(c, r, a) ==> a.duration == 0 && a.onOff != EventInvalid
    case End(r, a) => Addresses(c, r, a) ==> a.duration != 0
    case _ => true
  }

  // ---- lists -------------------------------------------------------------------------------------

  lemma {:induction false} ValuesAppend(l: Live, a: ResAction, cmdId: int)
    ensures ValuesOf(l + [a], cmdId) == ValuesOf(l, cmdId) + if a.cmdId == cmdId then [a.value] else []
  {
    if l == [] {
      assert l + [a] == [a];
    } else {
      assert (l + [a])[1..] == l[1..] + [a];
      ValuesAppend(l[1..], a, cmdId);
    }
  }

  /** The match hits exactly the channel entries with value `v`, or (not `own`) none of its entries. */
  ghost predicate Picks(l: Live, m: Match, cmdId: int, v: int, own: bool) {
    forall x :: x in l ==>
      if own then m.Hits(x) <==> (x.cmdId == cmdId && x.value == v) else m.Hits(x) ==> x.cmdId != cmdId
  }

  lemma ValuesCons(x: ResAction, rest: Live, cmdId: int)
    ensures ValuesOf([x] + rest, cmdId) == if x.cmdId == cmdId then [x.value] + ValuesOf(rest, cmdId) else ValuesOf(rest, cmdId)
  {
  }

  lemma WithoutCons(v: int, vs: seq<int>, w: int)
    ensures LessOne([v] + vs, w) == if v == w then vs else [v] + LessOne(vs, w)
  {
  }

  lemma {:induction false} ValuesErase(l: Live, m: Match, cmdId: int, v: int, own: bool)
    requires Picks(l, m, cmdId, v, own)
    ensures ValuesOf(EraseFirst(l, m), cmdId) == if own then LessOne(ValuesOf(l, cmdId), v) else ValuesOf(l, cmdId)
  {
    if l != [] {
      var x, rest := l[0], l[1..];
      assert x in l;
      assert forall y :: y in rest ==> y in l;
      var hit := m.Hits(x);
      assert if own then hit <==> (x.cmdId == cmdId && x.value == v) else hit ==> x.cmdId != cmdId;
      ValuesErase(rest, m, cmdId, v, own);
      assert EraseFirst(l, m) == if hit then rest else [x] + EraseFirst(rest, m);
      hide Picks, Values, LessOne, EraseFirst;
      assert l == [x] + rest;
      ValuesCons(x, rest, cmdId);
      WithoutCons(x.value, ValuesOf(rest, cmdId), v);
      if !hit {
        ValuesCons(x, EraseFirst(rest, m), cmdId);
      }
    } else {
      assert ValuesOf(l, cmdId) == [] && EraseFirst(l, m) == [];
    }
  }

  lemma BeginValues(l: Live, c: Channel, a: ResAction)
    requires Disciplined(l, c) && a.kind == c.kind && (a.cmdId == c.cmdId ==> a.duration == 0 && a.onOff != EventInvalid)
    ensures Disciplined(Instant(l, a), c)
    ensures ValuesOf(Instant(l, a), c.cmdId) == Effect(c, c.resId, a, ValuesOf(l, c.cmdId))
  {
    var m := if a.onOff == EventOff then OnOf(a) else Same(a);
    assert forall x :: x in EraseFirst(l, m) ==> x in l;
    assert Picks(l, m, c.cmdId, a.value, a.cmdId == c.cmdId);
    ValuesErase(l, m, c.cmdId, a.value, a.cmdId == c.cmdId);
    if a.onOff != EventOff {
      ValuesAppend(EraseFirst(l, m), a, c.cmdId);
    }
  }

  lemma EndValues(l: Live, c: Channel, a: ResAction)
    requires Disciplined(l, c) && (a.cmdId == c.cmdId ==> a.duration != 0)
    ensures Disciplined(Expire(l, a), c)
    ensures ValuesOf(Expire(l, a), c.cmdId) == ValuesOf(l, c.cmdId)
  {
    assert forall x :: x in Expire(l, a) ==> x in l;
    if a in l {
      ValuesErase(l, Exactly(a), c.cmdId, 0, false);
    } else {
      EraseMiss(l, Exactly(a));
    }
  }

  // ---- the arbiter -------------------------------------------------------------------------------------

  ghost predicate ChannelOk(cfg: Config, c: Channel) {
    c.resId in cfg.nodes && PERF <= c.kind <= PERFLVL
  }

  ghost function Now(cfg: Config, s: Arb, c: Channel): seq<int>
    requires Ready(cfg, s) && ChannelOk(cfg, c)
  {
    ValuesOf(s.info[c.resId].lists[c.kind], c.cmdId)
  }

  ghost predicate Tidy(cfg: Config, s: Arb, c: Channel)
    requires Ready(cfg, s) && ChannelOk(cfg, c)
  {
    Disciplined(s.info[c.resId].lists[c.kind], c)
  }

  lemma ApplyChannel(cfg: Config, s: Arb, op: Op, c: Channel)
    requires WfConfig(cfg) && Ready(cfg, s) && OpOk(cfg, op) && ChannelOk(cfg, c) && Tidy(cfg, s, c) && Respects(c, op)
    ensures var t := Apply(cfg, s, op); Tidy(cfg, t, c) && Now(cfg, t, c) == OpEffect(c, op, Now(cfg, s, c))
  {
    hide Instant, Expire, Disciplined, Values, DoInstant, DoExpire, SetList, Arbitrate, WfConfig;
    var l := s.info[c.resId].lists[c.kind];
    match op
    case Begin(r, a) =>
      InstantFrame(cfg, s, r, a);
      if r == c.resId && a.kind == c.kind { BeginValues(l, c, a); }
    case End(r, a) =>
      ExpireFrame(cfg, s, r, a);
      if r == c.resId && a.kind == c.kind { EndValues(l, c, a); }
    case ClearPerf(r) =>
      SetListFrame(cfg, s, r, PERF, []);
      NothingThere(c);
    case SwitchPower(on, order) => ArbitrateAllFrame(cfg, s.(power := on), order);
    case SwitchThermal(on, order) => ArbitrateAllFrame(cfg, s.(thermal := on), order);
    case Level(_) =>
  }

  lemma NothingThere(c: Channel)
    ensures ValuesOf([], c.cmdId) == [] && Disciplined([], c)
  {
  }

  lemma {:induction false} ApplyAllChannel(cfg: Config, s: Arb, ops: seq<Op>, c: Channel)
    requires WfConfig(cfg) && Ready(cfg, s) && OpsOk(cfg, ops) && ChannelOk(cfg, c) && Tidy(cfg, s, c)
    requires forall i :: 0 <= i < |ops| ==> Respects(c, ops[i])
    ensures var t := ApplyAll(cfg, s, ops); Tidy(cfg, t, c) && Now(cfg, t, c) == OpsEffect(c, ops, Now(cfg, s, c))
    decreases |ops|
  {
    hide Apply, OpOk, Respects, Tidy, Now, OpEffect, WfConfig;
    if ops != [] {
      ApplyChannel(cfg, s, ops[0], c);
      ApplyAllChannel(cfg, Apply(cfg, s, ops[0]), ops[1..], c);
    }
  }

  // ---- the queue ------------------------------------------------------------------------------------------

  /** The effect of a task on a channel does not depend on when it runs. */
  ghost function TaskEffect(cfg: Config, c: Channel, task: Task, vs: seq<int>): seq<int>
    requires WfConfig(cfg) && TaskOk(cfg, task)
  {
    match task
    case Pack(items) => OpsEffect(c, PackOps(cfg, items), vs)
    case Limit(byLevel, resId, a) => OpsEffect(c, LimitOps(cfg, byLevel, resId, a), vs)
    case Clear => if c.kind == PERF then [] else vs
    case _ => vs
  }

  ghost predicate TaskRespects(cfg: Config, c: Channel, task: Task) {
    match task
    case Pack(items) => forall i :: 0 <= i < |items| ==> Respects(c, Begin(items[i].resId, items[i].action))
    case Expiry(items) => forall i :: 0 <= i < |items| ==> Respects(c, End(items[i].resId, items[i].action))
    case Limit(byLevel, resId, a) => RealResId(byLevel, resId) == c.resId && a.kind == c.kind && a.cmdId == c.cmdId ==> a.duration == 0 && a.onOff != EventInvalid
    case _ => true
  }

  lemma {:induction false} PackRespects(cfg: Config, c: Channel, items: seq<Item>)
    requires TaskOk(cfg, Pack(items)) && TaskRespects(cfg, c, Pack(items))
    ensures forall i :: 0 <= i < |PackOps(cfg, items)| ==> Respects(c, PackOps(cfg, items)[i])
  {
    hide Respects;
    if items != [] {
      assert forall i :: 0 <= i < |items[1..]| ==> items[1..][i] == items[i + 1];
      PackRespects(cfg, c, items[1..]);
    }
  }

  lemma {:induction false} ClearEffect(c: Channel, order: seq<int>, vs: seq<int>)
    ensures OpsEffect(c, ClearOps(order), vs) == if c.kind == PERF && c.resId in order then [] else vs
    decreases |order|
  {
    if order != [] {
      assert ClearOps(order)[0] == ClearPerf(order[0]) && ClearOps(order)[1..] == ClearOps(order[1..]);
      assert order == [order[0]] + order[1..];
      hide ClearOps;
      ClearEffect(c, order[1..], OpEffect(c, ClearPerf(order[0]), vs));
    }
  }

  lemma {:induction false} ExpiryEffect(c: Channel, items: seq<Item>, vs: seq<int>)
    ensures OpsEffect(c, ExpiryOps(items), vs) == vs
    decreases |items|
  {
    if items != [] {
      assert ExpiryOps(items)[0] == End(items[0].resId, items[0].action) && ExpiryOps(items)[1..] == ExpiryOps(items[1..]);
      hide ExpiryOps;
      ExpiryEffect(c, items[1..], vs);
    }
  }

  lemma StepChannel(cfg: Config, s: Arb, task: Task, order: seq<int>, c: Channel)
    requires WfConfig(cfg) && Ready(cfg, s) && TaskOk(cfg, task) && Visits(order, cfg.nodes.Keys)
    requires ChannelOk(cfg, c) && Tidy(cfg, s, c) && TaskRespects(cfg, c, task)
    ensures var t := Step(cfg, s, Do(task, order)); Tidy(cfg, t, c) && Now(cfg, t, c) == TaskEffect(cfg, c, task, Now(cfg, s, c))
  {
    var ops := Ops(cfg, Do(task, order));
    OpsRespect(cfg, task, order, c);
    ClearEffect(c, order, Now(cfg, s, c));
    if task.Expiry? { ExpiryEffect(c, task.items, Now(cfg, s, c)); }
    hide Apply, Tidy, Now, Respects, OpEffect, TaskRespects, PackOps, LimitOps, ExpiryOps, ClearOps, OpOk;
    ApplyAllChannel(cfg, s, ops, c);
  }

  lemma OpsRespect(cfg: Config, task: Task, order: seq<int>, c: Channel)
    requires WfConfig(cfg) && TaskOk(cfg, task) && Visits(order, cfg.nodes.Keys) && TaskRespects(cfg, c, task)
    ensures forall i :: 0 <= i < |Ops(cfg, Do(task, order))| ==> Respects(c, Ops(cfg, Do(task, order))[i])
  {
    if task.Pack? {
      PackRespects(cfg, c, task.items);
    }
  }

  /** What the channel will hold once the queued tasks have run. */
  ghost function Drained(cfg: Config, c: Channel, ready: seq<Queued>, vs: seq<int>): seq<int>
    requires WfConfig(cfg) && forall k :: 0 <= k < |ready| ==> TaskOk(cfg, ready[k].task)
    decreases |ready|
  {
    if ready == [] then vs else Drained(cfg, c, ready[1..], TaskEffect(cfg, c, ready[0].task, vs))
  }

  lemma {:induction false} DrainedAppend(cfg: Config, c: Channel, a: seq<Queued>, b: seq<Queued>, vs: seq<int>)
    requires WfConfig(cfg) && forall k :: 0 <= k < |a| ==> TaskOk(cfg, a[k].task)
    requires forall k :: 0 <= k < |b| ==> TaskOk(cfg, b[k].task)
    ensures Drained(cfg, c, a + b, vs) == Drained(cfg, c, b, Drained(cfg, c, a, vs))
    decreases |a|
  {
    hide TaskEffect, TaskOk, WfConfig;
    if a == [] {
      assert a + b == b;
    } else {
      assert (a + b)[1..] == a[1..] + b;
      DrainedAppend(cfg, c, a[1..], b, TaskEffect(cfg, c, a[0].task, vs));
    }
  }
}
