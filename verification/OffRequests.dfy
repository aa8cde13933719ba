/** What the OFF request of a command leaves of its ON request. */
module OffRequests {
  import opened Common
  import opened Config
  import opened LiveList
  import opened ArbiterState
  import opened Agreement
  import opened Tasks
  import opened Runs
  import opened RunTheorems
  import opened System
  import opened RequestChain
  import opened Requests
  import opened Survival

  // ---- item by item ------------------------------------------------------------------------------------------

  lemma MatchingParts(a: seq<Item>, b: seq<Item>, x: seq<Item>, y: seq<Item>)
    requires |a| == |b|
    ensures Matching(a + x, b + y) <==> Matching(a, b) && Matching(x, y)
  {
    if Matching(a + x, b + y) {
      assert forall i :: 0 <= i < |a| ==> (a + x)[i] == a[i] && (b + y)[i] == b[i];
      assert forall i :: 0 <= i < |x| ==> (a + x)[|a| + i] == x[i] && (b + y)[|a| + i] == y[i];
    } else if Matching(a, b) && Matching(x, y) {
      MatchingAppend(a, b, x, y);
    }
  }

  /** Drafts from PartSame templates match exactly if they are drafts of the same pairs. */
  lemma MatchingDrafts(p: seq<(int, int)>, q: seq<(int, int)>, t: ResAction, u: ResAction, id: nat, other: nat)
    requires t.duration == u.duration && t.kind == u.kind && t.cmdId == u.cmdId
    ensures Matching(Drafts(p, t, id), Drafts(q, u, other)) <==> p == q
  {
    var a, b := Drafts(p, t, id), Drafts(q, u, other);
    if Matching(a, b) {
      forall i | 0 <= i < |p| ensures p[i] == q[i] {
        assert a[i].resId == b[i].resId && a[i].action.PartSame(b[i].action);
      }
    }
  }

  /** The OFF of an action matches its ON exactly if both levels bring the same thermal pairs, or the chain
      has no item the thermal ones could follow. */
  lemma ActionMatchesExactly(env: Env, minThermalLvl: int, on: Call, off: Call, action: Action, started: bool, id: nat, offId: nat)
    requires on.cmdId == off.cmdId && on.kind == off.kind && on.onOff == EventOn && off.onOff == EventOff
    ensures Matching(ActionItems(env, minThermalLvl, on, action, started, id), ActionItems(env, minThermalLvl, off, action, started, offId)) <==>
      (started || HasItems(env, on, action)) ==> SameThermal(env, minThermalLvl, on, off, action)
  {
    hide ThermalPairs, ValidPairs, Drafts, Matching;
    var own, d := ValidPairs(env.cfg, action.variable), action.duration;
    var mine, theirs := ThermalPairs(env, minThermalLvl, on.level, action), ThermalPairs(env, minThermalLvl, off.level, action);
    MatchingDrafts(own, own, on.Template(d), off.Template(d), id, offId);
    MatchingDrafts(mine, theirs, on.ThermalTemplate(d), off.ThermalTemplate(d), id + |own|, offId + |own|);
    MatchingParts(Drafts(own, on.Template(d), id), Drafts(own, off.Template(d), offId),
      Drafts(mine, on.ThermalTemplate(d), id + |own|), Drafts(theirs, off.ThermalTemplate(d), offId + |own|));
    MatchingNone();
  }

  /** Both levels bring the same thermal pairs. */
  predicate SameThermal(env: Env, minThermalLvl: int, on: Call, off: Call, action: Action) {
    ThermalPairs(env, minThermalLvl, on.level, action) == ThermalPairs(env, minThermalLvl, off.level, action)
  }

  /** The action has a pair that names a known resource, and is not passed over. */
  predicate HasItems(env: Env, c: Call, action: Action) {
    !c.Skips(action) && ValidPairs(env.cfg, action.variable) != []
  }

  lemma MatchingNone()
    ensures Matching([], [])
  {
  }

  // ---- by keys -------------------------------------------------------------------------------------------------

  /** The list has an ON request of the command for this value and duration. */
  ghost predicate LiveKey(l: Live, cmdId: int, value: int, duration: int) {
    exists x :: x in l && x.cmdId == cmdId && x.onOff == EventOn && x.value == value && x.duration == duration
  }

  predicate Keyed(a: ResAction, cmdId: int, value: int, duration: int) {
    a.cmdId == cmdId && a.value == value && a.duration == duration
  }

  lemma OnKey(l: Live, a: ResAction, cmdId: int, value: int, duration: int)
    requires WfList(l, a.kind) && a.onOff == EventOn
    ensures LiveKey(Instant(l, a), cmdId, value, duration) <==> LiveKey(l, cmdId, value, duration) || Keyed(a, cmdId, value, duration)
  {
    var m := Instant(l, a);
    if LiveKey(l, cmdId, value, duration) {
      var x :| x in l && x.cmdId == cmdId && x.onOff == EventOn && x.value == value && x.duration == duration;
      if Same(a).Hits(x) {
        assert a in m;
      } else {
        EraseSpares(l, Same(a), x);
        assert x in m;
      }
    }
    assert a in m;
  }

  lemma OffKey(l: Live, a: ResAction, cmdId: int, value: int, duration: int)
    requires WfList(l, a.kind) && a.onOff == EventOff
    ensures LiveKey(Instant(l, a), cmdId, value, duration) <==> LiveKey(l, cmdId, value, duration) && !Keyed(a, cmdId, value, duration)
  {
    var m := Instant(l, a);
    EraseWf(l, OnOf(a), a.kind);
    if LiveKey(l, cmdId, value, duration) && !Keyed(a, cmdId, value, duration) {
      var x :| x in l && x.cmdId == cmdId && x.onOff == EventOn && x.value == value && x.duration == duration;
      EraseSpares(l, OnOf(a), x);
    }
  }

  /** Some item asks for this value and duration on this list. */
  ghost predicate Asks(items: seq<Item>, r: int, kind: int, value: int, duration: int) {
    exists i :: 0 <= i < |items| && items[i].resId == r && items[i].action.kind == kind
      && items[i].action.value == value && items[i].action.duration == duration
  }

  predicate AllOf(items: seq<Item>, cmdId: int, onOff: EventType) {
    forall i :: 0 <= i < |items| ==> items[i].action.cmdId == cmdId && items[i].action.onOff == onOff
  }

  lemma AsksCons(items: seq<Item>, r: int, kind: int, value: int, duration: int)
    requires items != []
    ensures Asks(items, r, kind, value, duration) <==> Asks([items[0]], r, kind, value, duration) || Asks(items[1..], r, kind, value, duration)
  {
    AsksAppend([items[0]], items[1..], r, kind, value, duration);
    assert items == [items[0]] + items[1..];
  }

  lemma AsksAppend(a: seq<Item>, b: seq<Item>, r: int, kind: int, value: int, duration: int)
    ensures Asks(a + b, r, kind, value, duration) <==> Asks(a, r, kind, value, duration) || Asks(b, r, kind, value, duration)
  {
    if Asks(a, r, kind, value, duration) {
      var i :| 0 <= i < |a| && a[i].resId == r && a[i].action.kind == kind && a[i].action.value == value && a[i].action.duration == duration;
      assert (a + b)[i] == a[i];
    }
    if Asks(b, r, kind, value, duration) {
      var i :| 0 <= i < |b| && b[i].resId == r && b[i].action.kind == kind && b[i].action.value == value && b[i].action.duration == duration;
      assert (a + b)[|a| + i] == b[i];
    }
    if Asks(a + b, r, kind, value, duration) {
      var i :| 0 <= i < |a + b| && (a + b)[i].resId == r && (a + b)[i].action.kind == kind && (a + b)[i].action.value == value && (a + b)[i].action.duration == duration;
      assert (a + b)[i] == if i < |a| then a[i] else b[i - |a|];
    }
  }

  lemma OneItemKeys(cfg: Config, s: Arb, item: Item, r: int, kind: int, value: int, duration: int)
    requires Agrees(cfg, s) && Ready(cfg, s) && item.resId in cfg.nodes && item.action.Valid() && r in cfg.nodes && PERF <= kind <= PERFLVL
    requires item.action.onOff != EventInvalid
    ensures var was := LiveKey(s.info[r].lists[kind], item.action.cmdId, value, duration);
      LiveKey(DoInstant(cfg, s, item.resId, item.action).info[r].lists[kind], item.action.cmdId, value, duration) <==>
        if item.action.onOff == EventOn then was || Asks([item], r, kind, value, duration) else was && !Asks([item], r, kind, value, duration)
  {
    hide Agrees, DoInstant, WfList, Instant;
    var a := item.action;
    InstantFrame(cfg, s, item.resId, a);
    OneAsks(item, r, kind, value, duration);
    if item.resId == r && a.kind == kind {
      AgreesLists(cfg, s, r, kind);
      if a.onOff == EventOn {
        OnKey(s.info[r].lists[kind], a, a.cmdId, value, duration);
      } else {
        OffKey(s.info[r].lists[kind], a, a.cmdId, value, duration);
      }
    }
    hide LiveKey, Asks;
  }

  lemma OneAsks(item: Item, r: int, kind: int, value: int, duration: int)
    ensures Asks([item], r, kind, value, duration) <==>
      item.resId == r && item.action.kind == kind && item.action.value == value && item.action.duration == duration
  {
    assert [item][0] == item;
  }

  /** What packs of one command and one event do to the live keys of any list. */
  lemma {:induction false} PackKeys(cfg: Config, s: Arb, items: seq<Item>, cmdId: int, onOff: EventType, r: int, kind: int, value: int, duration: int)
    requires Agrees(cfg, s) && Ready(cfg, s) && TaskOk(cfg, Pack(items)) && AllOf(items, cmdId, onOff) && onOff != EventInvalid
    requires r in cfg.nodes && PERF <= kind <= PERFLVL
    ensures var was := LiveKey(s.info[r].lists[kind], cmdId, value, duration);
      LiveKey(ApplyAll(cfg, s, PackOps(cfg, items)).info[r].lists[kind], cmdId, value, duration) <==>
        if onOff == EventOn then was || Asks(items, r, kind, value, duration) else was && !Asks(items, r, kind, value, duration)
    decreases |items|
  {
    hide Agrees, DoInstant, PackOps, LiveKey, Asks;
    if items == [] {
      NothingAsked(cfg, s, r, kind, value, duration);
    } else {
      PackTail(cfg, s, items);
      AsksCons(items, r, kind, value, duration);
      OneAsks(items[0], r, kind, value, duration);
      assert items[0].action.cmdId == cmdId && items[0].action.onOff == onOff;
      assert AllOf(items[1..], cmdId, onOff) by { assert forall i :: 0 <= i < |items[1..]| ==> items[1..][i] == items[i + 1]; }
      hide AllOf, TaskOk;
      if items[0].resId in cfg.nodes {
        OneItemKeys(cfg, s, items[0], r, kind, value, duration);
        PackKeys(cfg, DoInstant(cfg, s, items[0].resId, items[0].action), items[1..], cmdId, onOff, r, kind, value, duration);
      } else {
        PackKeys(cfg, s, items[1..], cmdId, onOff, r, kind, value, duration);
      }
    }
  }

  lemma NothingAsked(cfg: Config, s: Arb, r: int, kind: int, value: int, duration: int)
    requires Ready(cfg, s) && TaskOk(cfg, Pack([]))
    ensures !Asks([], r, kind, value, duration) && ApplyAll(cfg, s, PackOps(cfg, [])) == s
  {
  }

  // ---- what a request asks for -----------------------------------------------------------------------------------

  /** By action `k` the request has an item of its own. */
  ghost predicate Begun(env: Env, c: Call, list: seq<Action>, k: int, started: bool) {
    started || exists j :: 0 <= j <= k && j < |list| && HasItems(env, c, list[j])
  }

  /** Action `k` asks for a pair of its own. */
  predicate AsksOwn(env: Env, c: Call, action: Action, r: int, kind: int, value: int, duration: int) {
    !c.Skips(action) && action.duration == duration && kind == c.kind && (r, value) in ValidPairs(env.cfg, action.variable)
  }

  /** Action `k` brings a pair of its thermal action. */
  predicate BringsThermal(env: Env, minThermalLvl: int, c: Call, action: Action, r: int, kind: int, value: int, duration: int) {
    !c.Skips(action) && action.duration == duration && kind == PERFLVL && (r, value) in ThermalPairs(env, minThermalLvl, c.level, action)
  }

  lemma DraftsAsk(pairs: seq<(int, int)>, template: ResAction, id: nat, r: int, kind: int, value: int, duration: int)
    ensures Asks(Drafts(pairs, template, id), r, kind, value, duration) <==>
      template.kind == kind && template.duration == duration && (r, value) in pairs
  {
    var items := Drafts(pairs, template, id);
    if template.kind == kind && template.duration == duration && (r, value) in pairs {
      var i :| 0 <= i < |pairs| && pairs[i] == (r, value);
      assert items[i].resId == r;
    }
  }

  lemma ActionAsks(env: Env, minThermalLvl: int, c: Call, action: Action, started: bool, id: nat, r: int, kind: int, value: int, duration: int)
    ensures var items := ActionItems(env, minThermalLvl, c, action, started, id);
      && (Asks(items, r, kind, value, duration) <==>
           AsksOwn(env, c, action, r, kind, value, duration)
           || ((started || HasItems(env, c, action)) && BringsThermal(env, minThermalLvl, c, action, r, kind, value, duration)))
      && (!started ==> (items != [] <==> HasItems(env, c, action)))
  {
    hide ThermalPairs, ValidPairs, Asks, Drafts;
    var own, d := ValidPairs(env.cfg, action.variable), action.duration;
    DraftsAsk(own, c.Template(d), id, r, kind, value, duration);
    DraftsAsk(ThermalPairs(env, minThermalLvl, c.level, action), c.ThermalTemplate(d), id + |own|, r, kind, value, duration);
    AsksAppend(Drafts(own, c.Template(d), id), Drafts(ThermalPairs(env, minThermalLvl, c.level, action), c.ThermalTemplate(d), id + |own|), r, kind, value, duration);
    NothingInNone(r, kind, value, duration);
  }

  lemma NothingInNone(r: int, kind: int, value: int, duration: int)
    ensures !Asks([], r, kind, value, duration)
  {
  }

  /** The request asks for a value: some action asks for it, or brings it once the request has begun. */
  ghost predicate RequestAsks(env: Env, minThermalLvl: int, c: Call, list: seq<Action>, started: bool, r: int, kind: int, value: int, duration: int) {
    exists k :: 0 <= k < |list| && AskedBy(env, minThermalLvl, c, list, k, started, r, kind, value, duration)
  }

  ghost predicate AskedBy(env: Env, minThermalLvl: int, c: Call, list: seq<Action>, k: nat, started: bool, r: int, kind: int, value: int, duration: int)
    requires k < |list|
  {
    || AsksOwn(env, c, list[k], r, kind, value, duration)
    || (Begun(env, c, list, k, started) && BringsThermal(env, minThermalLvl, c, list[k], r, kind, value, duration))
  }

  lemma BegunCons(env: Env, c: Call, list: seq<Action>, k: nat, started: bool)
    requires k < |list|
    ensures k > 0 ==> (Begun(env, c, list, k, started) <==> Begun(env, c, list[1..], k - 1, started || HasItems(env, c, list[0])))
    ensures k == 0 ==> (Begun(env, c, list, k, started) <==> started || HasItems(env, c, list[0]))
  {
    hide HasItems;
    var rest := list[1..];
    assert forall j :: 0 <= j < |rest| ==> rest[j] == list[j + 1];
    if k > 0 && Begun(env, c, list, k, started) && !started && !HasItems(env, c, list[0]) {
      var j :| 0 <= j <= k && j < |list| && HasItems(env, c, list[j]);
      assert rest[j - 1] == list[j];
    }
    if k > 0 && Begun(env, c, rest, k - 1, started || HasItems(env, c, list[0])) && !started && !HasItems(env, c, list[0]) {
      var j :| 0 <= j <= k - 1 && j < |rest| && HasItems(env, c, rest[j]);
      assert list[j + 1] == rest[j];
    }
  }

  lemma RequestAsksCons(env: Env, minThermalLvl: int, c: Call, list: seq<Action>, started: bool, r: int, kind: int, value: int, duration: int)
    requires list != []
    ensures RequestAsks(env, minThermalLvl, c, list, started, r, kind, value, duration) <==>
      || AskedBy(env, minThermalLvl, c, list, 0, started, r, kind, value, duration)
      || RequestAsks(env, minThermalLvl, c, list[1..], started || HasItems(env, c, list[0]), r, kind, value, duration)
  {
    hide Begun, AsksOwn, BringsThermal, HasItems;
    var rest, begun := list[1..], started || HasItems(env, c, list[0]);
    forall k | 0 < k < |list|
      ensures AskedBy(env, minThermalLvl, c, list, k, started, r, kind, value, duration) <==> AskedBy(env, minThermalLvl, c, rest, k - 1, begun, r, kind, value, duration)
    {
      BegunCons(env, c, list, k, started);
    }
    if RequestAsks(env, minThermalLvl, c, rest, begun, r, kind, value, duration) {
      var k :| 0 <= k < |rest| && AskedBy(env, minThermalLvl, c, rest, k, begun, r, kind, value, duration);
      assert AskedBy(env, minThermalLvl, c, list, k + 1, started, r, kind, value, duration);
    }
  }

  /** The items of a request ask for exactly what its actions ask for and bring. */
  lemma {:induction false} RequestItemsAsk(env: Env, minThermalLvl: int, c: Call, list: seq<Action>, started: bool, id: nat, r: int, kind: int, value: int, duration: int)
    ensures Asks(RequestItems(env, minThermalLvl, c, list, started, id), r, kind, value, duration) <==>
      RequestAsks(env, minThermalLvl, c, list, started, r, kind, value, duration)
    decreases |list|
  {
    hide ActionItems, Asks, HasItems, AsksOwn, BringsThermal, Begun;
    if list == [] {
      NothingInNone(r, kind, value, duration);
    } else {
      var first := ActionItems(env, minThermalLvl, c, list[0], started, id);
      var begun := started || HasItems(env, c, list[0]);
      ActionAsks(env, minThermalLvl, c, list[0], started, id, r, kind, value, duration);
      BegunCons(env, c, list, 0, started);
      RequestAsksCons(env, minThermalLvl, c, list, started, r, kind, value, duration);
      assert begun == (started || first != []);
      hide RequestAsks;
      RequestItemsAsk(env, minThermalLvl, c, list[1..], begun, id + |first|, r, kind, value, duration);
      AsksAppend(first, RequestItems(env, minThermalLvl, c, list[1..], begun, id + |first|), r, kind, value, duration);
    }
  }

  // ---- ON, then OFF ------------------------------------------------------------------------------------------------

  lemma CallItems(env: Env, minThermalLvl: int, c: Call, list: seq<Action>, id: nat)
    requires CommandsOk(env) && c.Valid() && DurationsOk(list) && PairsOk(AllPairs(env.cfg, list))
    ensures var items := RequestItems(env, minThermalLvl, c, list, false, id);
      TaskOk(env.cfg, Pack(items)) && AllOf(items, c.cmdId, c.onOff)
  {
    RequestItemsGood(env, minThermalLvl, c, list, false, id);
  }

  /** The operation is about other commands. Arbitration, switches and level changes are all allowed. */
  predicate Elsewhere(op: Op, cmdId: int) {
    match op
    case Begin(_, a) => a.cmdId != cmdId
    case End(_, a) => a.cmdId != cmdId
    case ClearPerf(_) => false
    case _ => true
  }

  predicate AllElsewhere(ops: seq<Op>, cmdId: int) {
    forall i :: 0 <= i < |ops| ==> Elsewhere(ops[i], cmdId)
  }

  lemma EraseKeeps(l: Live, m: Match, cmdId: int, value: int, duration: int)
    requires m.a.cmdId != cmdId
    ensures LiveKey(EraseFirst(l, m), cmdId, value, duration) <==> LiveKey(l, cmdId, value, duration)
  {
    if LiveKey(l, cmdId, value, duration) {
      var x :| x in l && x.cmdId == cmdId && x.onOff == EventOn && x.value == value && x.duration == duration;
      EraseSpares(l, m, x);
    }
  }

  lemma InstantKeeps(l: Live, a: ResAction, cmdId: int, value: int, duration: int)
    requires a.cmdId != cmdId
    ensures LiveKey(Instant(l, a), cmdId, value, duration) <==> LiveKey(l, cmdId, value, duration)
  {
    EraseKeeps(l, OnOf(a), cmdId, value, duration);
    EraseKeeps(l, Same(a), cmdId, value, duration);
    if a.onOff != EventOff {
      assert forall x :: x in EraseFirst(l, Same(a)) ==> x in Instant(l, a);
      assert forall x :: x in Instant(l, a) ==> x in EraseFirst(l, Same(a)) || x == a;
    }
    hide EraseFirst;
  }

  lemma OpKeepsKey(cfg: Config, s: Arb, op: Op, cmdId: int, r: int, kind: int, value: int, duration: int)
    requires WfConfig(cfg) && Ready(cfg, s) && OpOk(cfg, op) && Elsewhere(op, cmdId) && r in cfg.nodes && PERF <= kind <= PERFLVL
    ensures LiveKey(Apply(cfg, s, op).info[r].lists[kind], cmdId, value, duration) <==> LiveKey(s.info[r].lists[kind], cmdId, value, duration)
  {
    hide DoInstant, DoExpire, ArbitrateAll, Instant, LiveKey, WfConfig, CurrentAt;
    match op
    case Begin(q, a) =>
      InstantFrame(cfg, s, q, a);
      InstantKeeps(s.info[q].lists[a.kind], a, cmdId, value, duration);
    case End(q, e) =>
      ExpireFrame(cfg, s, q, e);
      EraseKeeps(s.info[q].lists[e.kind], Exactly(e), cmdId, value, duration);
    case SwitchPower(on, order) => ArbitrateAllFrame(cfg, s.(power := on), order);
    case SwitchThermal(on, order) => ArbitrateAllFrame(cfg, s.(thermal := on), order);
    case Level(_) =>
  }

  lemma {:induction false} OpsKeepKey(cfg: Config, s: Arb, ops: seq<Op>, cmdId: int, r: int, kind: int, value: int, duration: int)
    requires WfConfig(cfg) && Ready(cfg, s) && OpsOk(cfg, ops) && AllElsewhere(ops, cmdId) && r in cfg.nodes && PERF <= kind <= PERFLVL
    ensures LiveKey(ApplyAll(cfg, s, ops).info[r].lists[kind], cmdId, value, duration) <==> LiveKey(s.info[r].lists[kind], cmdId, value, duration)
    decreases |ops|
  {
    hide Apply, OpOk, Elsewhere, LiveKey, WfConfig;
    if ops != [] {
      OpKeepsKey(cfg, s, ops[0], cmdId, r, kind, value, duration);
      OpsKeepKey(cfg, Apply(cfg, s, ops[0]), ops[1..], cmdId, r, kind, value, duration);
    }
  }

  lemma LevelOnly(cfg: Config, s: Arb, level: int, cmdId: int)
    requires Ready(cfg, s)
    ensures OpsOk(cfg, [Level(level)]) && ApplyAll(cfg, s, [Level(level)]) == s.(level := level) && AllElsewhere([Level(level)], cmdId)
  {
    assert ApplyAll(cfg, s, [Level(level)]) == Apply(cfg, s, Level(level));
  }

  /** The ON pack of a request runs, other operations happen, and the OFF pack runs. */
  ghost function OnThenOff(env: Env, s: Arb, onItems: seq<Item>, mid: seq<Op>, offItems: seq<Item>): (t: Arb)
    requires Ready(env.cfg, s) && TaskOk(env.cfg, Pack(onItems)) && TaskOk(env.cfg, Pack(offItems)) && OpsOk(env.cfg, mid)
    ensures Ready(env.cfg, t)
  {
    ApplyAll(env.cfg, ApplyAll(env.cfg, ApplyAll(env.cfg, s, PackOps(env.cfg, onItems)), mid), PackOps(env.cfg, offItems))
  }

  lemma PackStep(cfg: Config, s: Arb, items: seq<Item>, order: seq<int>)
    requires WfConfig(cfg) && Ready(cfg, s) && TaskOk(cfg, Pack(items)) && Visits(order, cfg.nodes.Keys)
    ensures var es := [Do(Pack(items), order)];
      EventsOk(cfg, es) && Run(cfg, s, es) == ApplyAll(cfg, s, PackOps(cfg, items))
  {
    hide WfConfig, PackOps, Visits, TaskOk, Apply;
    assert [Do(Pack(items), order)][1..] == [];
  }

  /** It is what the tasks do. */
  lemma OnThenOffIsRun(env: Env, s: Arb, onItems: seq<Item>, mid: seq<Event>, offItems: seq<Item>, order: seq<int>)
    requires WfConfig(env.cfg) && Ready(env.cfg, s) && TaskOk(env.cfg, Pack(onItems)) && TaskOk(env.cfg, Pack(offItems)) && Visits(order, env.cfg.nodes.Keys)
    requires EventsOk(env.cfg, mid)
    ensures var es := [Do(Pack(onItems), order)] + (mid + [Do(Pack(offItems), order)]);
      EventsOk(env.cfg, es) && Run(env.cfg, s, es) == OnThenOff(env, s, onItems, RunOps(env.cfg, mid), offItems)
  {
    hide WfConfig, PackOps, Visits, TaskOk, Apply, EventOk, Run, Ops;
    var first, last := [Do(Pack(onItems), order)], [Do(Pack(offItems), order)];
    PackStep(env.cfg, s, onItems, order);
    var asked := Run(env.cfg, s, first);
    RunIsOps(env.cfg, asked, mid);
    PackStep(env.cfg, Run(env.cfg, asked, mid), offItems, order);
    RunAppend(env.cfg, asked, mid, last);
    RunAppend(env.cfg, s, first, mid + last);
  }

  /** What is left: a value of the command is live after ON, anything of other commands, and OFF exactly if it was
      live before or the ON asked for it, and the OFF did not. */
  lemma LeftLive(env: Env, minThermalLvl: int, s: Arb, on: Call, off: Call, list: seq<Action>, id: nat, mid: seq<Op>, offId: nat,
    r: int, kind: int, value: int, duration: int)
    requires Agrees(env.cfg, s) && Ready(env.cfg, s) && CommandsOk(env) && on.Valid() && off.Valid() && DurationsOk(list) && PairsOk(AllPairs(env.cfg, list))
    requires on.cmdId == off.cmdId && on.onOff == EventOn && off.onOff == EventOff && r in env.cfg.nodes && PERF <= kind <= PERFLVL
    requires OpsOk(env.cfg, mid) && AllElsewhere(mid, on.cmdId)
    ensures var onItems, offItems := RequestItems(env, minThermalLvl, on, list, false, id), RequestItems(env, minThermalLvl, off, list, false, offId);
      && TaskOk(env.cfg, Pack(onItems)) && TaskOk(env.cfg, Pack(offItems))
      && (LiveKey(OnThenOff(env, s, onItems, mid, offItems).info[r].lists[kind], on.cmdId, value, duration) <==>
           (LiveKey(s.info[r].lists[kind], on.cmdId, value, duration) || RequestAsks(env, minThermalLvl, on, list, false, r, kind, value, duration))
           && !RequestAsks(env, minThermalLvl, off, list, false, r, kind, value, duration))
  {
    hide Agrees, PackOps, LiveKey, Asks, RequestAsks, RequestItems, CommandsOk, AllOf, TaskOk;
    var onItems, offItems := RequestItems(env, minThermalLvl, on, list, false, id), RequestItems(env, minThermalLvl, off, list, false, offId);
    CallItems(env, minThermalLvl, on, list, id);
    CallItems(env, minThermalLvl, off, list, offId);
    RequestItemsAsk(env, minThermalLvl, on, list, false, id, r, kind, value, duration);
    RequestItemsAsk(env, minThermalLvl, off, list, false, offId, r, kind, value, duration);
    PackKeys(env.cfg, s, onItems, on.cmdId, EventOn, r, kind, value, duration);
    PackAgrees(env.cfg, s, onItems);
    var asked := ApplyAll(env.cfg, s, PackOps(env.cfg, onItems));
    AgreedReady(env.cfg, asked);
    OpsKeepKey(env.cfg, asked, mid, on.cmdId, r, kind, value, duration);
    ApplyAllAgrees(env.cfg, asked, mid);
    PackKeys(env.cfg, ApplyAll(env.cfg, asked, mid), offItems, off.cmdId, EventOff, r, kind, value, duration);
  }

  lemma AgreedReady(cfg: Config, s: Arb)
    requires Agrees(cfg, s)
    ensures WfConfig(cfg) && Ready(cfg, s)
  {
  }

  lemma PackAgrees(cfg: Config, s: Arb, items: seq<Item>)
    requires Agrees(cfg, s) && Ready(cfg, s) && TaskOk(cfg, Pack(items))
    ensures Agrees(cfg, ApplyAll(cfg, s, PackOps(cfg, items)))
  {
    hide Agrees, PackOps, TaskOk;
    ApplyAllAgrees(cfg, s, PackOps(cfg, items));
  }

  // ---- exactly when the OFF takes everything back -------------------------------------------------------------------

  /** At this level the request has some action, by which it has begun, bring this thermal pair. */
  ghost predicate ThermalAsked(env: Env, minThermalLvl: int, c: Call, list: seq<Action>, r: int, value: int, duration: int) {
    exists k :: 0 <= k < |list| && Begun(env, c, list, k, false) && BringsThermal(env, minThermalLvl, c, list[k], r, PERFLVL, value, duration)
  }

  /** No ON request of the command is live anywhere. */
  ghost predicate NothingOf(cfg: Config, s: Arb, cmdId: int)
    requires Ready(cfg, s)
  {
    forall r, kind, value, duration {:trigger LiveKey(s.info[r].lists[kind], cmdId, value, duration)} ::
      r in cfg.nodes && PERF <= kind <= PERFLVL ==> !LiveKey(s.info[r].lists[kind], cmdId, value, duration)
  }

  lemma OwnAskedByBoth(env: Env, minThermalLvl: int, on: Call, off: Call, list: seq<Action>, r: int, kind: int, value: int, duration: int)
    requires on.kind == off.kind == PERF && on.onOff == EventOn && off.onOff == EventOff
    ensures kind != PERFLVL ==> (RequestAsks(env, minThermalLvl, on, list, false, r, kind, value, duration) <==> RequestAsks(env, minThermalLvl, off, list, false, r, kind, value, duration))
  {
    hide ThermalPairs, ValidPairs, Begun;
    forall k | 0 <= k < |list|
      ensures kind != PERFLVL ==>
        (AskedBy(env, minThermalLvl, on, list, k, false, r, kind, value, duration) <==> AskedBy(env, minThermalLvl, off, list, k, false, r, kind, value, duration))
    {
    }
  }

  lemma ThermalIsAsked(env: Env, minThermalLvl: int, c: Call, list: seq<Action>, r: int, value: int, duration: int)
    requires c.kind == PERF
    ensures RequestAsks(env, minThermalLvl, c, list, false, r, PERFLVL, value, duration) <==> ThermalAsked(env, minThermalLvl, c, list, r, value, duration)
  {
    hide ThermalPairs, ValidPairs, Begun, BringsThermal;
    if RequestAsks(env, minThermalLvl, c, list, false, r, PERFLVL, value, duration) {
      var k :| 0 <= k < |list| && AskedBy(env, minThermalLvl, c, list, k, false, r, PERFLVL, value, duration);
      assert Begun(env, c, list, k, false);
    }
    if ThermalAsked(env, minThermalLvl, c, list, r, value, duration) {
      var k :| 0 <= k < |list| && Begun(env, c, list, k, false) && BringsThermal(env, minThermalLvl, c, list[k], r, PERFLVL, value, duration);
      assert AskedBy(env, minThermalLvl, c, list, k, false, r, PERFLVL, value, duration);
    }
  }

  lemma BringsKnown(env: Env, minThermalLvl: int, c: Call, action: Action, r: int, kind: int, value: int, duration: int)
    requires BringsThermal(env, minThermalLvl, c, action, r, kind, value, duration)
    ensures r in env.cfg.nodes
  {
  }

  /** From a state in which nothing of the command is live, its ON, anything of other commands and then its OFF leave
      nothing of it live if and only if every thermal pair the ON brought is brought again by the OFF. */
  lemma TakenBackExactly(env: Env, minThermalLvl: int, s: Arb, on: Call, off: Call, list: seq<Action>, id: nat, mid: seq<Op>, offId: nat)
    requires Agrees(env.cfg, s) && Ready(env.cfg, s) && CommandsOk(env) && on.Valid() && off.Valid() && DurationsOk(list) && PairsOk(AllPairs(env.cfg, list))
    requires on.cmdId == off.cmdId && on.kind == off.kind == PERF && on.onOff == EventOn && off.onOff == EventOff
    requires NothingOf(env.cfg, s, on.cmdId) && OpsOk(env.cfg, mid) && AllElsewhere(mid, on.cmdId)
    ensures var onItems, offItems := RequestItems(env, minThermalLvl, on, list, false, id), RequestItems(env, minThermalLvl, off, list, false, offId);
      && TaskOk(env.cfg, Pack(onItems)) && TaskOk(env.cfg, Pack(offItems))
      && (NothingOf(env.cfg, OnThenOff(env, s, onItems, mid, offItems), on.cmdId) <==>
           forall r, value, duration :: ThermalAsked(env, minThermalLvl, on, list, r, value, duration) ==> ThermalAsked(env, minThermalLvl, off, list, r, value, duration))
  {
    var onItems, offItems := RequestItems(env, minThermalLvl, on, list, false, id), RequestItems(env, minThermalLvl, off, list, false, offId);
    CallItems(env, minThermalLvl, on, list, id);
    CallItems(env, minThermalLvl, off, list, offId);
    hide Agrees, CommandsOk, RequestItems, OnThenOff, LiveKey, RequestAsks, TaskOk, AllOf, AllElsewhere, OpsOk;
    var t := OnThenOff(env, s, onItems, mid, offItems);
    forall r, kind, value, duration | r in env.cfg.nodes && PERF <= kind <= PERFLVL
      ensures LiveKey(t.info[r].lists[kind], on.cmdId, value, duration) <==>
        kind == PERFLVL && ThermalAsked(env, minThermalLvl, on, list, r, value, duration) && !ThermalAsked(env, minThermalLvl, off, list, r, value, duration)
    {
      LeftLive(env, minThermalLvl, s, on, off, list, id, mid, offId, r, kind, value, duration);
      OwnAskedByBoth(env, minThermalLvl, on, off, list, r, kind, value, duration);
      ThermalIsAsked(env, minThermalLvl, on, list, r, value, duration);
      ThermalIsAsked(env, minThermalLvl, off, list, r, value, duration);
      assert !LiveKey(s.info[r].lists[kind], on.cmdId, value, duration);
    }
    forall r, value, duration | ThermalAsked(env, minThermalLvl, on, list, r, value, duration) ensures r in env.cfg.nodes {
      var k :| 0 <= k < |list| && Begun(env, on, list, k, false) && BringsThermal(env, minThermalLvl, on, list[k], r, PERFLVL, value, duration);
      BringsKnown(env, minThermalLvl, on, list[k], r, PERFLVL, value, duration);
    }
    hide ThermalAsked;
    if forall r, value, duration :: ThermalAsked(env, minThermalLvl, on, list, r, value, duration) ==> ThermalAsked(env, minThermalLvl, off, list, r, value, duration) {
      assert NothingOf(env.cfg, t, on.cmdId);
    } else {
      var r, value, duration :| ThermalAsked(env, minThermalLvl, on, list, r, value, duration) && !ThermalAsked(env, minThermalLvl, off, list, r, value, duration);
      assert LiveKey(t.info[r].lists[PERFLVL], on.cmdId, value, duration);
    }
  }

  // ---- requests with one thermal action --------------------------------------------------------------------------------

  lemma PlainActionMatches(env: Env, minThermalLvl: int, on: Call, off: Call, action: Action, started: bool, id: nat, offId: nat)
    requires on.cmdId == off.cmdId && on.kind == off.kind && on.onOff == EventOn && off.onOff == EventOff
    requires action.thermalCmdId == INVALID_THERMAL_CMD_ID
    ensures SameThermal(env, minThermalLvl, on, off, action)
    ensures Matching(ActionItems(env, minThermalLvl, on, action, started, id), ActionItems(env, minThermalLvl, off, action, started, offId))
  {
    ActionItemsMatch(env, minThermalLvl, on, off, action, started, id, offId);
    hide ActionItems;
  }

  /** Both chains have begun together. */
  lemma BothBegin(env: Env, minThermalLvl: int, on: Call, off: Call, action: Action, started: bool, id: nat, offId: nat)
    requires on.onOff == EventOn && off.onOff == EventOff
    ensures var a, b := ActionItems(env, minThermalLvl, on, action, started, id), ActionItems(env, minThermalLvl, off, action, started, offId);
      && (started || a != [] <==> started || HasItems(env, on, action))
      && (started || b != [] <==> started || HasItems(env, on, action))
  {
    ActionAsks(env, minThermalLvl, on, action, started, id, 0, 0, 0, 0);
    ActionAsks(env, minThermalLvl, off, action, started, offId, 0, 0, 0, 0);
    hide ActionItems, Asks, BringsThermal, ValidPairs;
  }

  /** If at most action `k` carries a thermal command, the OFF request matches the ON request item by item
      if and only if the request has not begun by then or both levels bring the same thermal pairs. */
  lemma {:induction false} OneThermalMatchesExactly(env: Env, minThermalLvl: int, on: Call, off: Call, list: seq<Action>, k: nat, started: bool, id: nat, offId: nat)
    requires on.cmdId == off.cmdId && on.kind == off.kind && on.onOff == EventOn && off.onOff == EventOff && k < |list|
    requires forall j :: 0 <= j < |list| && j != k ==> list[j].thermalCmdId == INVALID_THERMAL_CMD_ID
    ensures Matching(RequestItems(env, minThermalLvl, on, list, started, id), RequestItems(env, minThermalLvl, off, list, started, offId)) <==>
      Begun(env, on, list, k, started) ==> SameThermal(env, minThermalLvl, on, off, list[k])
    decreases |list|
  {
    hide ActionItems, Begun, HasItems, ThermalPairs, Matching, SameThermal;
    var rest, begun := list[1..], started || HasItems(env, on, list[0]);
    var a, b := ActionItems(env, minThermalLvl, on, list[0], started, id), ActionItems(env, minThermalLvl, off, list[0], started, offId);
    var x := RequestItems(env, minThermalLvl, on, rest, begun, id + |a|);
    var y := RequestItems(env, minThermalLvl, off, rest, begun, offId + |b|);
    BothBegin(env, minThermalLvl, on, off, list[0], started, id, offId);
    BegunCons(env, on, list, k, started);
    assert RequestItems(env, minThermalLvl, on, list, started, id) == a + x;
    assert RequestItems(env, minThermalLvl, off, list, started, offId) == b + y;
    hide RequestItems;
    assert forall j :: 0 <= j < |rest| ==> rest[j] == list[j + 1];
    if k > 0 {
      PlainActionMatches(env, minThermalLvl, on, off, list[0], started, id, offId);
      OneThermalMatchesExactly(env, minThermalLvl, on, off, rest, k - 1, begun, id + |a|, offId + |b|);
      MatchingLength(a, b);
      MatchingParts(a, b, x, y);
    } else {
      ActionMatchesExactly(env, minThermalLvl, on, off, list[0], started, id, offId);
      RestMatches(env, minThermalLvl, on, off, rest, begun, id + |a|, offId + |b|);
      SplitMatching(a, b, x, y);
    }
  }

  lemma SplitMatching(a: seq<Item>, b: seq<Item>, x: seq<Item>, y: seq<Item>)
    requires Matching(x, y)
    ensures Matching(a + x, b + y) <==> Matching(a, b)
  {
    if |a| == |b| { MatchingParts(a, b, x, y); }
  }

  lemma RestMatches(env: Env, minThermalLvl: int, on: Call, off: Call, rest: seq<Action>, begun: bool, id: nat, offId: nat)
    requires on.cmdId == off.cmdId && on.kind == off.kind && on.onOff == EventOn && off.onOff == EventOff
    requires forall j :: 0 <= j < |rest| ==> rest[j].thermalCmdId == INVALID_THERMAL_CMD_ID
    ensures Matching(RequestItems(env, minThermalLvl, on, rest, begun, id), RequestItems(env, minThermalLvl, off, rest, begun, offId))
  {
    OffMatchesOn(env, minThermalLvl, on, off, rest, begun, id, offId);
  }
}
