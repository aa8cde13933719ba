/** How the small steps of the arbiter's methods add up to the steps of ArbiterState, Tasks and System. */
module ArbiterFacts {
  import opened Common
  import opened Config
  import opened LiveList
  import opened Arbitration
  import opened ArbiterState
  import opened Agreement
  import opened Tasks
  import opened Runs
  import opened Levels
  import opened System

  /** Every type candidate is either absent or a value. */
  ghost predicate CodesOk(st: Status) {
    Shaped(st) && forall t :: PERF <= t <= PERFLVL ==> st.cand[t] == INVALID_VALUE || 0 <= st.cand[t]
  }

  /** Both members of a pair given new applied values. */
  function SetPair(s: Arb, q: int, x: int, r: int, y: int): Arb
    requires q in s.info && r in s.info
  {
    s.(info := s.info
      [q := s.info[q].(currentValue := x, pairLevel := s.level)]
      [r := s.info[r].(currentValue := y, pairLevel := s.level)])
  }

  /** Coupling sets both members, in either order. */
  lemma CoupleSets(cfg: Config, s: Arb, r: int, p: int)
    requires WfConfig(cfg) && Ready(cfg, s) && r in cfg.nodes && PairOf(cfg, r) == Some(p)
    ensures p in cfg.nodes && p != r
    ensures var own, other := ViewDefault(s.info[r].candidate), ViewDefault(s.info[p].candidate);
      var x := CodeDefault(Coupled(cfg.nodes[r].isMaxValue, own, other, Limited(s, r, p, s.level)));
      var y := CodeDefault(Coupled(!cfg.nodes[r].isMaxValue, other, own, Limited(s, r, p, s.level)));
      Couple(cfg, s, r) == SetPair(s, r, x, p, y) == SetPair(s, p, y, r, x)
  {
    assert WfPair(cfg, r);
  }

  /** No type has a candidate. */
  predicate Idle(st: Status)
    requires Shaped(st)
  {
    var c := Cached(st);
    c.perf.None? && c.power.None? && c.thermal.None? && c.perfLvl.None?
  }

  /** Nothing is requested: the default is decided on. */
  lemma IdleDecides(s: Arb, r: int)
    requires r in s.info && Shaped(s.info[r]) && Idle(s.info[r])
    ensures Decide(s.info[r], s.power, s.thermal, s.level) ==
      s.info[r].(candidate := NODE_DEFAULT_VALUE, currentEndTime := MAX_INT_VALUE, candLevel := s.level)
  {
  }

  /** The status after the switches have been applied, before any perf-level override. */
  function Based(s: Arb, r: int): Arb
    requires r in s.info && Shaped(s.info[r])
  {
    var st := s.info[r];
    var c := Cached(st);
    s.(info := s.info[r := st.(
      candidate := Code(Base(c.perf, c.power, c.thermal, s.power, s.thermal)),
      currentEndTime := Min(Min(st.candEnd[PERF], st.candEnd[POWER]), st.candEnd[THERMAL]),
      candLevel := s.level)])
  }

  function Overridden(s: Arb, r: int): Arb
    requires r in s.info && Shaped(s.info[r])
  {
    s.(info := s.info[r := s.info[r].(candidate := Code(Override(View(s.info[r].candidate), Cached(s.info[r]).perfLvl, s.level)))])
  }

  /** The table on sentinel values, where an absent candidate is below every other. */
  lemma TableCodes(perf: int, power: int, thermal: int, powerOn: bool, thermalOn: bool)
    requires forall v :: v in [perf, power, thermal] ==> v == INVALID_VALUE || 0 <= v
    ensures Code(Base(View(perf), View(power), View(thermal), powerOn, thermalOn)) ==
      var limit := if power == INVALID_VALUE then thermal else if thermal == INVALID_VALUE then power else Min(power, thermal);
      if !powerOn && !thermalOn then if perf != INVALID_VALUE then Max(Max(perf, power), thermal) else limit
      else if !powerOn then if thermal != INVALID_VALUE then thermal else Max(perf, power)
      else if !thermalOn then if power != INVALID_VALUE then power else Max(perf, thermal)
      else if power == INVALID_VALUE && thermal == INVALID_VALUE then perf else limit
  {
    assert perf in [perf, power, thermal] && power in [perf, power, thermal] && thermal in [perf, power, thermal];
  }

  lemma OverrideCodes(s: Arb, r: int)
    requires r in s.info && CodesOk(s.info[r])
    ensures var st := s.info[r];
      Code(Override(View(st.candidate), Cached(st).perfLvl, s.level)) ==
        if st.cand[PERFLVL] == INVALID_VALUE then st.candidate
        else if s.level == 0 && st.candidate != INVALID_VALUE then Min(st.candidate, st.cand[PERFLVL])
        else st.cand[PERFLVL]
  {
  }

  /** Switches first, then the override: together they decide the candidate. */
  lemma DecideByParts(s: Arb, r: int)
    requires r in s.info && CodesOk(s.info[r]) && !Idle(s.info[r])
    ensures var t := Based(s, r);
      && CodesOk(t.info[r])
      && Overridden(t, r) == s.(info := s.info[r := Decide(s.info[r], s.power, s.thermal, s.level)])
      && (Cached(s.info[r]).perfLvl.None? ==> t == s.(info := s.info[r := Decide(s.info[r], s.power, s.thermal, s.level)]))
  {
  }

  /** How the winner and its end time change when one more request is looked at. */
  lemma TopStep(kind: int, seen: Live, x: ResAction)
    requires x.Valid() && seen != []
    ensures var res := TopValue(kind, seen);
      var beats := if PerfFirst(kind) then x.value > res else x.value < res;
      && TopValue(kind, seen + [x]) == (if beats then x.value else res)
      && TopEnd(seen + [x], if beats then x.value else res) ==
           if beats then x.endTime else if x.value == res then Max(TopEnd(seen, res), x.endTime) else TopEnd(seen, res)
  {
    var all := seen + [x];
    assert all[..|all| - 1] == seen && all[|all| - 1] == x;
  }

  lemma TopFirst(kind: int, x: ResAction)
    requires x.Valid()
    ensures TopValue(kind, [x]) == x.value && TopEnd([x], x.value) == x.endTime
  {
  }

  /** What the walk over a list knows after the entries seen so far. */
  ghost predicate Winning(kind: int, seen: Live, res: int, endTime: int) {
    if seen == [] then res == (if PerfFirst(kind) then MIN_INT_VALUE else MAX_INT_VALUE) && endTime == MIN_INT_VALUE
    else res == TopValue(kind, seen) && endTime == TopEnd(seen, res)
  }

  lemma NothingSeen(kind: int, seen: Live, res: int, endTime: int)
    requires seen == [] && res == (if PerfFirst(kind) then MIN_INT_VALUE else MAX_INT_VALUE) && endTime == MIN_INT_VALUE
    ensures Winning(kind, seen, res, endTime)
  {
  }

  lemma AllSeen(kind: int, l: Live, res: int, endTime: int)
    requires l != [] && Winning(kind, l, res, endTime)
    ensures Candidate(kind, l) == Some(res) && CandidateEnd(kind, l) == endTime
  {
  }

  lemma WinningStep(kind: int, seen: Live, x: ResAction, res: int, endTime: int)
    requires x.Valid() && Winning(kind, seen, res, endTime)
    ensures var beats := if PerfFirst(kind) then x.value > res else x.value < res;
      Winning(kind, seen + [x], if beats then x.value else res,
        if beats then x.endTime else if x.value == res then Max(endTime, x.endTime) else endTime)
  {
    if seen == [] {
      assert seen + [x] == [x];
      TopFirst(kind, x);
    } else {
      TopStep(kind, seen, x);
    }
    hide TopValue, TopEnd;
  }

  lemma RecountCodes(st: Status, kind: int)
    requires CodesOk(st) && PERF <= kind <= PERFLVL && forall x :: x in st.lists[kind] ==> x.Valid()
    ensures CodesOk(Recount(st, kind))
  {
    if st.lists[kind] != [] {
      var v := TopValue(kind, st.lists[kind]);
      var x :| x in st.lists[kind] && x.value == v;
    }
  }

  ghost predicate EntriesValid(st: Status)
    requires Shaped(st)
  {
    forall t, x :: PERF <= t <= PERFLVL && x in st.lists[t] ==> x.Valid()
  }

  lemma CandCodes(st: Status)
    requires CandOk(st)
    ensures CodesOk(st) && EntriesValid(st)
  {
    CandidateValid(PERF, st.lists[PERF]);
    CandidateValid(POWER, st.lists[POWER]);
    CandidateValid(THERMAL, st.lists[THERMAL]);
    CandidateValid(PERFLVL, st.lists[PERFLVL]);
    hide Candidate, CandidateEnd;
  }

  lemma {:induction false} ArbitrateAllSnoc(cfg: Config, s: Arb, order: seq<int>, r: int)
    requires Ready(cfg, s) && r in cfg.nodes && forall q :: q in order ==> q in cfg.nodes
    ensures forall q :: q in order + [r] ==> q in cfg.nodes
    ensures ArbitrateAll(cfg, s, order + [r]) == Arbitrate(cfg, ArbitrateAll(cfg, s, order), r)
    decreases |order|
  {
    hide Arbitrate;
    if order == [] {
      assert [] + [r] == [r];
      assert ArbitrateAll(cfg, s, [r]) == ArbitrateAll(cfg, Arbitrate(cfg, s, r), [r][1..]);
    } else {
      assert (order + [r])[1..] == order[1..] + [r];
      ArbitrateAllSnoc(cfg, Arbitrate(cfg, s, order[0]), order[1..], r);
    }
  }

  lemma NoElements()
    ensures Elements([]) == {}
  {
  }

  lemma AllElements(order: seq<int>, keys: set<int>)
    requires (forall r :: r in order ==> r in keys) && (forall r :: r in keys ==> r in order)
    ensures Elements(order) == keys
  {
    assert forall r :: r in Elements(order) <==> r in keys;
  }

  lemma ElementsSnoc(order: seq<int>, r: int)
    ensures Elements(order + [r]) == Elements(order) + {r}
  {
  }

  lemma ClearOpsSnoc(cfg: Config, s: Arb, order: seq<int>, r: int)
    requires Ready(cfg, s) && r in cfg.nodes && OpsOk(cfg, ClearOps(order))
    ensures OpsOk(cfg, ClearOps(order + [r]))
    ensures ApplyAll(cfg, s, ClearOps(order + [r])) == ClearOne(cfg, ApplyAll(cfg, s, ClearOps(order)), r)
  {
    assert ClearOps(order + [r]) == ClearOps(order) + [ClearPerf(r)];
    assert OpsOk(cfg, [ClearPerf(r)]);
    ApplyAppend(cfg, s, ClearOps(order), [ClearPerf(r)]);
    hide ClearOne;
    var t := ApplyAll(cfg, s, ClearOps(order));
    assert ApplyAll(cfg, t, [ClearPerf(r)]) == ApplyAll(cfg, Apply(cfg, t, ClearPerf(r)), [ClearPerf(r)][1..]);
  }

  function Part(r: Report, done: set<int>): Report {
    map x | x in r && x in done :: r[x]
  }

  function Marked(before: Report, after: Report, done: set<int>): Report {
    map x | x in before :: if x in done && x in after then after[x] else before[x]
  }

  lemma PartGrows(r: Report, done: set<int>, x: int)
    requires x !in done
    ensures Part(r, done + {x}) == if x in r then Part(r, done)[x := r[x]] else Part(r, done)
  {
  }

  lemma MarkedGrows(before: Report, after: Report, done: set<int>, x: int)
    requires x in before && x in after && x !in done
    ensures Marked(before, after, done)[x] == before[x]
    ensures Marked(before, after, done + {x}) == Marked(before, after, done)[x := after[x]]
  {
  }

  /** What the deltas and the present report say about each resource. */
  lemma ReportParts(cfg: Config, s: Arb, sent: Report)
    requires Ready(cfg, s) && sent.Keys == cfg.nodes.Keys
    ensures var now := CurrentReport(s);
      && (forall r :: r in sent <==> r in now)
      && now.Keys == cfg.nodes.Keys
      && (forall r :: r in cfg.nodes ==> now[r] == (s.info[r].currentValue, s.info[r].currentEndTime))
      && (forall r :: r in Delta(cfg, s, sent, true) <==> r in cfg.nodes && cfg.nodes[r].toPerfSo && now[r] != sent[r])
      && (forall r :: r in Delta(cfg, s, sent, false) <==> r in cfg.nodes && !cfg.nodes[r].toPerfSo && now[r] != sent[r])
      && (forall r :: r in Delta(cfg, s, sent, true) ==> Delta(cfg, s, sent, true)[r] == now[r])
      && (forall r :: r in Delta(cfg, s, sent, false) ==> Delta(cfg, s, sent, false)[r] == now[r])
    ensures Part(Delta(cfg, s, sent, true), {}) == map[] == Part(Delta(cfg, s, sent, false), {})
    ensures Marked(sent, CurrentReport(s), {}) == sent
  {
  }

  lemma AllDone(p: Report, e: Report, sent: Report, now: Report, done: set<int>)
    requires forall r :: r in sent <==> r in now
    requires (forall r :: r in sent ==> r in done) && (forall r :: r in p ==> r in done) && (forall r :: r in e ==> r in done)
    ensures Part(p, done) == p && Part(e, done) == e && Marked(sent, now, done) == now
  {
    assert forall r :: r in Part(p, done) <==> r in p;
    assert forall r :: r in Part(e, done) <==> r in e;
    assert forall r :: r in Marked(sent, now, done) <==> r in now;
    assert forall r :: r in now ==> Marked(sent, now, done)[r] == now[r];
  }

  lemma DoWeakIs(env: Env, s: Sys, i: nat, on: bool)
    requires i < |s.inter|
    ensures var t := DoWeak(env, s, i, on);
      var cmdId := ModeCmdId(s, s.inter[i].cmdId);
      var pairs := if cmdId in env.commands then AllPairs(env.cfg, env.commands[cmdId].actionList) else [];
      && t.inter == s.inter && t.weakLog == s.weakLog + [(i, on)] && t.nextId == s.nextId + |pairs|
      && t.q == if pairs == [] then s.q
           else Submit(s.q, Pack(WeakItems(pairs, env.commands[cmdId].id, on, s.inter[i].actionType, s.nextId)))
  {
  }

  lemma NextOk(env: Env, s: Sys)
    requires WfSys(env, s) && s.q.ready != []
    ensures QueuedOk(env.cfg, s.q.ready[0].task, |s.inter|)
    ensures forall order :: Visits(order, env.cfg.nodes.Keys) ==>
      SysStep(env, s, RunNext(order)) == RunTask(env, s.(q := s.q.(ready := s.q.ready[1..])), s.q.ready[0].task, order)
  {
    hide WfConfig, CommandsOk, RunTask, QueuedOk;
    assert s.q.ready[0] in s.q.ready;
  }

  lemma TimerTaskOk(env: Env, s: Sys, h: nat)
    requires WfSys(env, s) && h in s.q.timers
    ensures QueuedOk(env.cfg, s.q.timers[h].task, |s.inter|)
    ensures forall order :: CanFire(s.q, h) && Visits(order, env.cfg.nodes.Keys) ==>
      SysStep(env, s, Fire(h, order)) == RunTask(env, s.(q := Cancel(s.q, h)), s.q.timers[h].task, order)
  {
    hide WfConfig, CommandsOk, RunTask, QueuedOk;
  }

  /** A turn with nothing to do. */
  lemma WeakOneIdle(env: Env, s: Sys, i: nat)
    requires i < |s.inter|
    ensures (s.inter[i].status.BoostStatus? <==> !Quiet(s)) ==> WeakOne(env, s, i) == s
  {
  }

  lemma WeakOneRest(env: Env, s: Sys, i: nat)
    requires i < |s.inter|
    ensures var t := WeakOne(env, s, i); t == s.(inter := t.inter, q := t.q, weakLog := t.weakLog, nextId := t.nextId)
  {
  }

  /** Filing a request: what becomes of its list, and what of the counter. */
  lemma Filed(cfg: Config, s: Arb, r: int, a: ResAction)
    requires Ready(cfg, s) && r in cfg.nodes && a.Valid() && a.onOff != EventOff
    ensures var l := s.info[r].lists[a.kind];
      DoInstant(cfg, s, r, a) == SetList(cfg, s, r, a.kind, EraseFirst(l, Same(a)) + [a]).(
        boost := s.boost + (if a.interaction then (if Hit(l, Same(a)) then 0 else 1) else 0))
  {
    hide SetList, Hit, EraseFirst;
    SetListKeepsBoost(cfg, s, r, a.kind, EraseFirst(s.info[r].lists[a.kind], Same(a)) + [a]);
  }

  lemma SetListKeepsBoost(cfg: Config, s: Arb, r: int, kind: int, l: Live)
    requires Ready(cfg, s) && r in cfg.nodes && PERF <= kind <= PERFLVL
    ensures SetList(cfg, s, r, kind, l).boost == s.boost
  {
    hide Decide, Recount, Coupled, Limited;
  }

  lemma OneBegin(cfg: Config, s: Arb, r: int, a: ResAction)
    requires Ready(cfg, s) && r in cfg.nodes && a.Valid()
    ensures OpsOk(cfg, [Begin(r, a)]) && ApplyAll(cfg, s, [Begin(r, a)]) == DoInstant(cfg, s, r, a)
  {
    hide DoInstant;
    assert ApplyAll(cfg, s, [Begin(r, a)]) == ApplyAll(cfg, Apply(cfg, s, Begin(r, a)), [Begin(r, a)][1..]);
  }

  /** What a level resolves to makes a valid request. */
  lemma ResolvedValid(cfg: Config, resId: int, a: ResAction, value: int)
    requires resId - RES_ID_ADDITION in cfg.nodes && Resolve(cfg.nodes[resId - RES_ID_ADDITION].available, a.value) == Option.Some(value)
    requires TaskOk(cfg, Limit(true, resId, a)) && WfConfig(cfg)
    ensures a.(value := value).Valid()
  {
  }

  lemma LevelOps(cfg: Config, s: Arb, resId: int, a: ResAction, value: int)
    requires Ready(cfg, s) && resId - RES_ID_ADDITION in cfg.nodes && a.(value := value).Valid()
    requires TaskOk(cfg, Limit(true, resId, a)) && WfConfig(cfg)
    requires Resolve(cfg.nodes[resId - RES_ID_ADDITION].available, a.value) == Option.Some(value)
    ensures ApplyAll(cfg, s, LimitOps(cfg, true, resId, a)) == DoInstant(cfg, s, resId - RES_ID_ADDITION, a.(value := value))
  {
    assert LimitOps(cfg, true, resId, a) == [Begin(resId - RES_ID_ADDITION, a.(value := value))];
    OneBegin(cfg, s, resId - RES_ID_ADDITION, a.(value := value));
    hide DoInstant, Apply;
  }

  lemma {:induction false} WeakFromArb(env: Env, s: Sys, i: nat)
    requires i <= |s.inter|
    ensures WeakFrom(env, s, i).arb == s.arb
    decreases |s.inter| - i
  {
    hide WeakOne;
    if i < |s.inter| {
      WeakOneRest(env, s, i);
      WeakFromArb(env, WeakOne(env, s, i), i + 1);
    }
  }

  lemma DoWeakRest(env: Env, s: Sys, i: nat, on: bool)
    requires i < |s.inter|
    ensures var t := DoWeak(env, s, i, on); t == s.(q := t.q, weakLog := t.weakLog, nextId := t.nextId)
  {
  }

  lemma {:induction false} SomeOrder(keys: set<int>) returns (order: seq<int>)
    ensures Visits(order, keys)
  {
    if keys == {} {
      order := [];
    } else {
      Inhabited(keys);
      var r :| r in keys;
      var rest := SomeOrder(keys - {r});
      order := [r] + rest;
    }
  }

  lemma SwitchIsStep(cfg: Config, s: Arb, task: Task, order: seq<int>)
    requires WfConfig(cfg) && Ready(cfg, s) && Visits(order, cfg.nodes.Keys) && (task.PowerSwitch? || task.ThermalSwitch?)
    ensures Step(cfg, s, Do(task, order)) ==
      ArbitrateAll(cfg, if task.PowerSwitch? then s.(power := task.on) else s.(thermal := task.on), order)
  {
    var op := if task.PowerSwitch? then SwitchPower(task.on, order) else SwitchThermal(task.on, order);
    assert Ops(cfg, Do(task, order)) == [op];
    assert ApplyAll(cfg, s, [op]) == ApplyAll(cfg, Apply(cfg, s, op), [op][1..]);
    hide ArbitrateAll;
  }

  // ---- start-up and delayed tasks ------------------------------------------------------------------------

  /** Every default has been collected once every resource has been met. */
  lemma DefaultsDone(cfg: Config, done: set<int>)
    requires forall r :: r in cfg.nodes ==> r in done
    ensures Part(Defaults(cfg, true), done) == Defaults(cfg, true) && Part(Defaults(cfg, false), done) == Defaults(cfg, false)
  {
    assert forall r :: r in Part(Defaults(cfg, true), done) <==> r in Defaults(cfg, true);
    assert forall r :: r in Part(Defaults(cfg, false), done) <==> r in Defaults(cfg, false);
  }

  lemma DefaultsBegin(cfg: Config)
    ensures Part(Defaults(cfg, true), {}) == map[] == Part(Defaults(cfg, false), {})
  {
  }

  lemma {:induction false} WithDurationSnoc(items: seq<Item>, item: Item, d: int)
    ensures WithDuration(items + [item], d) == WithDuration(items, d) + if item.action.duration == d then [item] else []
  {
    if items == [] {
      assert [] + [item] == [item] && [item][1..] == [];
    } else {
      WithDurationSnoc(items[1..], item, d);
      var all := items + [item];
      assert all[0] == items[0] && all[1..] == items[1..] + [item];
      var first, rest := if items[0].action.duration == d then [items[0]] else [], WithDuration(items[1..], d);
      var last := if item.action.duration == d then [item] else [];
      assert WithDuration(all, d) == first + WithDuration(all[1..], d);
      assert first + (rest + last) == (first + rest) + last;
    }
  }

  /** The items of a chain by non-zero duration, each group in chain order. */
  ghost predicate Grouped(groups: map<int, seq<Item>>, items: seq<Item>) {
    && (forall i :: 0 <= i < |items| && items[i].action.duration != 0 ==> items[i].action.duration in groups)
    && (forall d :: d in groups ==> d != 0 && (exists i :: 0 <= i < |items| && items[i].action.duration == d))
    && (forall d :: d in groups ==> groups[d] == WithDuration(items, d))
  }

  lemma {:induction false} NoneWithDuration(items: seq<Item>, d: int)
    requires forall i :: 0 <= i < |items| ==> items[i].action.duration != d
    ensures WithDuration(items, d) == []
  {
    if items != [] {
      NoneWithDuration(items[1..], d);
    }
  }

  lemma GroupedStep(groups: map<int, seq<Item>>, items: seq<Item>, item: Item)
    requires Grouped(groups, items)
    ensures var d := item.action.duration;
      Grouped(if d == 0 then groups else groups[d := (if d in groups then groups[d] else []) + [item]], items + [item])
  {
    var d, more := item.action.duration, items + [item];
    var after := if d == 0 then groups else groups[d := (if d in groups then groups[d] else []) + [item]];
    forall e | e in after ensures e != 0 && (exists i :: 0 <= i < |more| && more[i].action.duration == e) && after[e] == WithDuration(more, e) {
      WithDurationSnoc(items, item, e);
      if e in groups {
        var i :| 0 <= i < |items| && items[i].action.duration == e;
        assert more[i].action.duration == e;
      } else {
        assert more[|items|].action.duration == e;
        NoneWithDuration(items, e);
      }
    }
  }

  lemma {:induction false} PostExpiriesSnoc(q: Queue, items: seq<Item>, durations: seq<int>, d: int)
    ensures PostExpiries(q, items, durations + [d]) ==
      SubmitDelayed(PostExpiries(q, items, durations), Expiry(WithDuration(items, d)), d * MICROS)
    decreases |durations|
  {
    hide WithDuration;
    if durations == [] {
      assert [] + [d] == [d] && [d][1..] == [];
    } else {
      assert (durations + [d])[1..] == durations[1..] + [d];
      PostExpiriesSnoc(SubmitDelayed(q, Expiry(WithDuration(items, durations[0])), durations[0] * MICROS), items, durations[1..], d);
    }
  }
}
