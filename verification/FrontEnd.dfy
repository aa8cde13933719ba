/** The request front end: it builds chains for performance requests, records what limit clients asked for,
    and throttles repeated requests. */
module FrontEnd {
  import opened Common
  import opened Config
  import opened Tasks
  import opened System
  import opened LimitProtocol
  import opened RequestChain
  import opened Requests
  import opened Throttle
  import opened Arbiter

  /** A request with no items changes nothing; any other is a possible event of the service, and happens. */
  ghost predicate Asked(env: Env, s: Sys, t: Sys, items: seq<Item>, durations: seq<int>)
    requires WfSys(env, s)
  {
    if items == [] then t == s else Enabled(env, s, Request(items, durations)) && t == SysStep(env, s, Request(items, durations))
  }

  lemma InDurations(durations: seq<int>, i: nat)
    requires i < |durations|
    ensures durations[i] in durations
  {
  }

  lemma NoDurations(items: seq<Item>, durations: seq<int>)
    requires items == [] && DurationsOf(items, durations)
    ensures durations == []
  {
    if |durations| > 0 {
      InDurations(durations, 0);
      assert false;
    }
  }

  /** A chain posted, with its expiries. */
  function WithChain(s: Sys, items: seq<Item>, durations: seq<int>, next: nat): Sys {
    s.(nextId := next, q := PostExpiries(if items == [] then s.q else Submit(s.q, Pack(items)), items, durations))
  }

  lemma AskedIs(env: Env, s: Sys, c: Call, items: seq<Item>, durations: seq<int>)
    requires WfSys(env, s) && GoodItems(env, c, s.nextId, items) && DurationsOf(items, durations)
    ensures Asked(env, s, WithChain(s, items, durations, s.nextId + |items|), items, durations)
  {
    hide WfSys;
    if items == [] {
      NoDurations(items, durations);
    }
  }

  lemma CommandsOfSys(env: Env, s: Sys)
    requires WfSys(env, s)
    ensures CommandsOk(env)
  {
    hide CommandsOk;
  }

  lemma RequestAsked(env: Env, s: Sys, minThermalLvl: int, c: Call, list: seq<Action>)
    requires WfSys(env, s) && c.Valid() && DurationsOk(list) && PairsOk(AllPairs(env.cfg, list))
    ensures forall durations :: var items := RequestItems(env, minThermalLvl, c, list, false, s.nextId);
      DurationsOf(items, durations) ==> Asked(env, s, WithChain(s, items, durations, s.nextId + |items|), items, durations)
  {
    hide WfSys, CommandsOk, GoodItems, RequestItems, Asked, DurationsOf, WithChain, Call.Valid, DurationsOk, PairsOk, AllPairs;
    CommandsOfSys(env, s);
    RequestItemsGood(env, minThermalLvl, c, list, false, s.nextId);
    var items := RequestItems(env, minThermalLvl, c, list, false, s.nextId);
    forall durations | DurationsOf(items, durations)
      ensures Asked(env, s, WithChain(s, items, durations, s.nextId + |items|), items, durations)
    {
      AskedIs(env, s, c, items, durations);
    }
  }

  class SocPerf {
    const wrap: SocPerfThreadWrap
    const minThermalLvl: int
    var thermalLvl: int
    var limitRequest: map<(int, int), int>
    var boostTime: map<int, int>

    constructor (wrap: SocPerfThreadWrap, minThermalLvl: int)
      ensures this.wrap == wrap && this.minThermalLvl == minThermalLvl
      ensures thermalLvl == 0 && limitRequest == map[] && boostTime == map[]
    {
      this.wrap, this.minThermalLvl := wrap, minThermalLvl;
      thermalLvl, limitRequest, boostTime := 0, map[], map[];
    }

    // ---- throttling ---------------------------------------------------------------------------------------

    method CheckTimeInterval(onOff: bool, cmdId: int, curMs: int) returns (ok: bool)
      modifies this`boostTime
      ensures ok == Passes(old(boostTime), Ask(onOff, cmdId, curMs))
      ensures boostTime == After(old(boostTime), Ask(onOff, cmdId, curMs))
    {
      var cancelCmdId := cmdId + CANCEL_CMDID_PREFIX;
      var recordCmdId := cmdId;
      if onOff {
        boostTime := boostTime[cancelCmdId := 0];
      }
      if !onOff {
        recordCmdId := cancelCmdId;
      }
      if recordCmdId !in boostTime {
        boostTime := boostTime[recordCmdId := curMs];
        return true;
      }
      if Elapsed(boostTime[recordCmdId], curMs) > TIME_INTERVAL {
        boostTime := boostTime[recordCmdId := curMs];
        return true;
      }
      return false;
    }

    // ---- performance requests -----------------------------------------------------------------------------

    /** The action with the greatest level not above the present one, the last of them on ties. */
    method FindNearest(list: seq<Action>) returns (best: Option<nat>)
      ensures best == Nearest(list, thermalLvl)
    {
      best := Option.None;
      var k := 0;
      while k < |list|
        invariant k <= |list| && best == Nearest(list[..k], thermalLvl)
      {
        assert list[..k + 1][..k] == list[..k] && list[..k + 1][k] == list[k];
        if list[k].thermalLvl <= thermalLvl {
          if best.None? || list[best.value].thermalLvl <= list[k].thermalLvl {
            best := Option.Some(k);
          }
        }
        k := k + 1;
      }
      assert list[..k] == list;
    }

    /** Hang the items of the nearest thermal action on a chain that has at least one item. */
    method DoPerfRequestThremalLvl(c: Call, originAction: Action, header: ResActionItem?, curItem: ResActionItem?,
      ghost nodes: seq<ResActionItem>, ghost items: seq<Item>, id: nat)
      returns (first: ResActionItem?, last: ResActionItem?, ghost longer: seq<ResActionItem>, next: nat)
      requires IsChain(header, nodes, items) && curItem == LastOf(nodes) && c.level == thermalLvl
      modifies curItem
      ensures last == LastOf(longer) && (last == curItem || fresh(last))
      ensures var more := if items == [] then [] else
          Drafts(NearestPairs(wrap.Environment(), originAction.thermalCmdId, c.level), c.ThermalTemplate(originAction.duration), id);
        IsChain(first, longer, items + more) && next == id + |more|
    {
      first, last, longer, next := header, curItem, nodes, id;
      if curItem == null {
        return;
      }
      if originAction.thermalCmdId !in wrap.commands {
        assert items + [] == items;
        return;
      }
      var list := wrap.commands[originAction.thermalCmdId].actionList;
      var best := FindNearest(list);
      if best.None? {
        assert items + [] == items;
        return;
      }
      first, last, longer, next := ChainPairs(wrap.config, header, curItem, nodes, items, list[best.value].variable, c.ThermalTemplate(originAction.duration), id);
    }

    /** Hang the items of one action on the chain. */
    method ChainAction(c: Call, action: Action, header: ResActionItem?, curItem: ResActionItem?,
      ghost nodes: seq<ResActionItem>, ghost items: seq<Item>, id: nat)
      returns (first: ResActionItem?, last: ResActionItem?, ghost longer: seq<ResActionItem>, next: nat)
      requires IsChain(header, nodes, items) && curItem == LastOf(nodes) && c.level == thermalLvl
      modifies curItem
      ensures last == LastOf(longer) && (last == curItem || fresh(last))
      ensures var more := ActionItems(wrap.Environment(), minThermalLvl, c, action, items != [], id);
        IsChain(first, longer, items + more) && next == id + |more|
    {
      hide IsChain, Drafts, ValidPairs, NearestPairs;
      first, last, longer, next := header, curItem, nodes, id;
      if action.duration == 0 && c.onOff == EventInvalid {
        assert ActionItems(wrap.Environment(), minThermalLvl, c, action, items != [], id) == [];
        assert items + [] == items;
        return;
      }
      ActionItemsIs(wrap.Environment(), minThermalLvl, c, action, items, id);
      hide ActionItems;
      ghost var own := Drafts(ValidPairs(wrap.config, action.variable), c.Template(action.duration), id);
      first, last, longer, next := ChainPairs(wrap.config, first, last, longer, items, action.variable, c.Template(action.duration), id);
      if action.thermalCmdId != INVALID_THERMAL_CMD_ID && thermalLvl >= minThermalLvl {
        first, last, longer, next := DoPerfRequestThremalLvl(c, action, first, last, longer, items + own, next);
      }
    }

    /** The chain of a performance request. */
    method BuildChain(c: Call, list: seq<Action>, id: nat) returns (header: ResActionItem?, ghost nodes: seq<ResActionItem>, next: nat)
      requires c.level == thermalLvl
      ensures IsChain(header, nodes, RequestItems(wrap.Environment(), minThermalLvl, c, list, false, id))
      ensures next == id + |RequestItems(wrap.Environment(), minThermalLvl, c, list, false, id)|
    {
      hide *;
      EmptyChain();
      ghost var env, said := wrap.Environment(), [];
      ghost var all := RequestItems(env, minThermalLvl, c, list, false, id);
      var curItem: ResActionItem?;
      header, curItem, nodes, next := null, null, [], id;
      ToGoFirst(env, minThermalLvl, c, list, id);
      var k := 0;
      while k < |list|
        invariant k <= |list| && IsChain(header, nodes, said) && curItem == LastOf(nodes)
        invariant curItem == null || fresh(curItem)
        invariant ToGo(env, minThermalLvl, c, list, k, said, next, all) && next == id + |said|
      {
        ToGoStep(env, minThermalLvl, c, list, k, said, next, all);
        ghost var more := ActionItems(env, minThermalLvl, c, list[k], said != [], next);
        header, curItem, nodes, next := ChainAction(c, list[k], header, curItem, nodes, said, next);
        said := said + more;
        k := k + 1;
      }
      ToGoLast(env, minThermalLvl, c, list, said, next, all);
    }

    /** What a request asks for at this moment. */
    function CallFor(actions: Actions, onOff: EventType, kind: int, curMs: int): Call
      reads this
    {
      Call(actions.id, actions.interaction, onOff, kind, thermalLvl, curMs)
    }

    /** Post a chain, and the expiry of its timed items. */
    method PostChain(header: ResActionItem?, ghost nodes: seq<ResActionItem>, ghost items: seq<Item>, next: nat)
      returns (ghost durations: seq<int>)
      requires wrap.Valid() && IsChain(header, nodes, items)
      modifies wrap.socperfQueue
      ensures wrap.Valid() && DurationsOf(items, durations)
      ensures wrap.Whole() == WithChain(old(wrap.Whole()), items, durations, next)
    {
      hide PostExpiries, DurationsOf, SocPerfThreadWrap.Valid, IsChain, Submit, SocPerfThreadWrap.State, SocPerfThreadWrap.Sent, SocPerfThreadWrap.Environment;
      wrap.DoFreqActionPack(header, nodes, items);
      durations := wrap.PostDelayTask(header, nodes, items);
      wrap.socperfQueue.nextId := next;
      wrap.QueueOnly();
    }

    /** A performance request: build its chain, post it, and post the expiry of its timed items. */
    method DoFreqActions(actions: Actions, onOff: EventType, kind: int, curMs: int)
      returns (ghost items: seq<Item>, ghost durations: seq<int>)
      requires wrap.Valid() && WfSys(wrap.Environment(), wrap.Whole())
      requires CallFor(actions, onOff, kind, curMs).Valid() && DurationsOk(actions.actionList) && PairsOk(AllPairs(wrap.config, actions.actionList))
      modifies wrap.socperfQueue
      ensures wrap.Valid()
      ensures items == RequestItems(wrap.Environment(), minThermalLvl, Call(actions.id, actions.interaction, onOff, kind, thermalLvl, curMs),
        actions.actionList, false, old(wrap.Whole()).nextId)
      ensures Asked(wrap.Environment(), old(wrap.Whole()), wrap.Whole(), items, durations)
    {
      hide PostExpiries, DurationsOf, WfSys, RequestItems, Call.Valid, DurationsOk, PairsOk, AllPairs, IsChain, WithChain, Asked, SocPerfThreadWrap.Valid;
      ghost var s := wrap.Whole();
      var c := CallFor(actions, onOff, kind, curMs);
      RequestAsked(wrap.Environment(), s, minThermalLvl, c, actions.actionList);
      var header, nodes, next := BuildChain(c, actions.actionList, wrap.socperfQueue.nextId);
      items := RequestItems(wrap.Environment(), minThermalLvl, c, actions.actionList, false, s.nextId);
      durations := PostChain(header, nodes, items, next);
    }

    // ---- limit requests -----------------------------------------------------------------------------------

    ghost function Front(): Front
      requires wrap.Valid()
      reads this, wrap, wrap.statuses, wrap.interAction, wrap.socperfQueue, wrap.sinks
    {
      LimitProtocol.Front(wrap.Whole(), limitRequest)
    }

    /** Hand a limit to the queue. */
    method UpdateLimitStatus(byLevel: bool, key: int, clientId: int, value: int, on: bool)
      requires wrap.Valid()
      modifies wrap.socperfQueue
      ensures wrap.Valid() && wrap.Whole() == PostLimit(old(wrap.Whole()), byLevel, key, clientId, value, on)
    {
      hide WfConfig;
      var kind := if clientId == BATTERY then POWER else clientId;
      var cmdId := if clientId == BATTERY then BATTERY_LIMIT_CMD_ID else LIMIT_CMD_ID;
      var resAction := ResAction(wrap.socperfQueue.nextId, value, 0, kind, if on then EventOn else EventOff, cmdId, MAX_INT_VALUE, false);
      wrap.socperfQueue.SubmitTask(Limit(byLevel, key, resAction));
      wrap.socperfQueue.nextId := wrap.socperfQueue.nextId + 1;
      wrap.CoreKept();
    }

    method SendLimitRequestEventOff(clientId: int, resId: int, byLevel: bool)
      requires wrap.Valid()
      modifies this`limitRequest, wrap.socperfQueue
      ensures wrap.Valid() && Front() == LimitOff(old(Front()), clientId, resId, byLevel)
    {
      hide PostLimit, SocPerfThreadWrap.Valid, SocPerfThreadWrap.Whole;
      if (clientId, resId) in limitRequest && limitRequest[(clientId, resId)] != INVALID_VALUE {
        UpdateLimitStatus(byLevel, resId, clientId, limitRequest[(clientId, resId)], false);
        limitRequest := limitRequest - {(clientId, resId)};
      }
    }

    method SendLimitRequestEventOn(clientId: int, resId: int, resValue: int, byLevel: bool)
      requires wrap.Valid()
      modifies this`limitRequest, wrap.socperfQueue
      ensures wrap.Valid() && Front() == LimitOn(old(Front()), clientId, resId, resValue, byLevel)
    {
      hide PostLimit, SocPerfThreadWrap.Valid, SocPerfThreadWrap.Whole;
      if resValue != INVALID_VALUE && resValue != RESET_VALUE {
        UpdateLimitStatus(byLevel, resId, clientId, resValue, true);
        if (clientId, resId) !in limitRequest {
          limitRequest := limitRequest[(clientId, resId) := resValue];
        }
      }
    }

    /** Withdraw both forms of the client's old limit on a resource, then file the new one. */
    method SendLimitRequestEvent(clientId: int, resId: int, resValue: int)
      requires wrap.Valid()
      modifies this`limitRequest, wrap.socperfQueue
      ensures wrap.Valid() && Front() == SetLimit(wrap.config, old(Front()), clientId, resId, resValue)
    {
      hide LimitOff, LimitOn, SocPerfThreadWrap.Valid, SocPerfThreadWrap.Whole, SocPerf.Front;
      var byLevel := resId > RES_ID_ADDITION;
      var realResId := if byLevel then resId - RES_ID_ADDITION else resId;
      var levelResId := if byLevel then resId else resId + RES_ID_ADDITION;
      if realResId !in wrap.config.nodes {
        return;
      }
      SendLimitRequestEventOff(clientId, realResId, false);
      SendLimitRequestEventOff(clientId, levelResId, true);
      SendLimitRequestEventOn(clientId, resId, resValue, byLevel);
    }

    /** A client asks for several limits at once. A malformed request, or one from no known client, changes
        nothing. */
    method LimitRequest(clientId: int, tags: seq<int>, configs: seq<int>)
      requires wrap.Valid()
      modifies this`limitRequest, wrap.socperfQueue
      ensures wrap.Valid()
      ensures Front() == if |tags| == |configs| && IsClient(clientId)
        then SetLimits(wrap.config, old(Front()), clientId, tags, configs) else old(Front())
    {
      if |tags| != |configs| {
        return;
      }
      if clientId <= PERF || clientId >= ACTION_TYPE_MAX {
        return;
      }
      hide SetLimit, SocPerfThreadWrap.Valid, SocPerfThreadWrap.Whole, SocPerf.Front;
      ghost var f := Front();
      var i := 0;
      assert tags[0..] == tags && configs[0..] == configs;
      while i < |tags|
        invariant i <= |tags| && wrap.Valid()
        invariant SetLimits(wrap.config, Front(), clientId, tags[i..], configs[i..]) == SetLimits(wrap.config, f, clientId, tags, configs)
      {
        assert tags[i..][0] == tags[i] && configs[i..][0] == configs[i];
        assert tags[i..][1..] == tags[i + 1..] && configs[i..][1..] == configs[i + 1..];
        SendLimitRequestEvent(clientId, tags[i], configs[i]);
        i := i + 1;
      }
    }

    // ---- thermal level ------------------------------------------------------------------------------------

    /** Both copies of the thermal level are stored at once. */
    method SetThermalLevel(level: int)
      requires wrap.InOrder() && WfSys(wrap.Environment(), wrap.Whole())
      modifies this`thermalLvl, wrap`thermalLvl
      ensures wrap.InOrder() && thermalLvl == wrap.thermalLvl == level
      ensures wrap.Whole() == SysStep(wrap.Environment(), old(wrap.Whole()), SetThermal(level))
    {
      hide SocPerfThreadWrap.InOrder, SocPerfThreadWrap.Whole, WfSys, SysStep;
      thermalLvl := level;
      wrap.SetThermalLevel(level);
    }
  }
}
