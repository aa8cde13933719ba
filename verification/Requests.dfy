/** What a performance request asks for: the list of items its chain must hold. */
module Requests {
  import opened Common
  import opened Config
  import opened System
  import opened RequestChain

  const INVALID_THERMAL_CMD_ID: int := -1
  const MAX_INT32_VALUE: int := 0x7FFF_FFFF

  /** One performance request: the command's id and interaction flag, the kind of event, the list it is filed
      on, the thermal level and the time (in milliseconds) at which it is made. */
  datatype Call = Call(cmdId: int, interaction: bool, onOff: EventType, kind: int, level: int, curMs: int) {
    predicate Valid() {
      PERF <= kind <= PERFLVL && 0 <= curMs <= MAX_INT_VALUE - MAX_INT32_VALUE
    }

    /** The time at which a request made now for `duration` is over. */
    function EndTime(duration: int): int {
      if duration == 0 then MAX_INT_VALUE else curMs + duration
    }

    function Template(duration: int): ResAction {
      ResAction(0, 0, duration, kind, onOff, cmdId, EndTime(duration), interaction && kind == PERF)
    }

    function ThermalTemplate(duration: int): ResAction {
      ResAction(0, 0, duration, PERFLVL, onOff, cmdId, EndTime(duration), false)
    }

    /** A request that is neither ON nor OFF makes nothing of an action without a duration. */
    predicate Skips(action: Action) {
      action.duration == 0 && onOff == EventInvalid
    }
  }

  // ---- the thermal action ----------------------------------------------------------------------------------

  /** The index of the action with the greatest level not above `level`, the last of them on ties. */
  function Nearest(list: seq<Action>, level: int): (best: Option<nat>)
    ensures best.None? ==> forall j :: 0 <= j < |list| ==> list[j].thermalLvl > level
    ensures best.Some? ==> best.value < |list| && list[best.value].thermalLvl <= level
    ensures best.Some? ==> forall j :: 0 <= j < |list| && list[j].thermalLvl <= level ==>
      list[j].thermalLvl < list[best.value].thermalLvl || (list[j].thermalLvl == list[best.value].thermalLvl && j <= best.value)
  {
    if list == [] then None
    else
      var m := |list| - 1;
      var best := Nearest(list[..m], level);
      if list[m].thermalLvl <= level && (best.None? || list[best.value].thermalLvl <= list[m].thermalLvl) then Some(m) else best
  }

  /** The valid pairs of the nearest action of a thermal command, if the command and such an action exist. */
  function NearestPairs(env: Env, thermalCmdId: int, level: int): seq<(int, int)> {
    if thermalCmdId !in env.commands then []
    else
      var list := env.commands[thermalCmdId].actionList;
      var best := Nearest(list, level);
      if best.None? then [] else ValidPairs(env.cfg, list[best.value].variable)
  }

  /** The pairs of the thermal action that goes with an action at this level, if one does. */
  function ThermalPairs(env: Env, minThermalLvl: int, level: int, action: Action): seq<(int, int)> {
    if action.thermalCmdId == INVALID_THERMAL_CMD_ID || level < minThermalLvl then []
    else NearestPairs(env, action.thermalCmdId, level)
  }

  // ---- the items -------------------------------------------------------------------------------------------

  /** The items of one action: its own pairs, then, once the chain has an item, those of its thermal action. */
  function ActionItems(env: Env, minThermalLvl: int, c: Call, action: Action, started: bool, id: nat): seq<Item> {
    if c.Skips(action) then []
    else
      var own := Drafts(ValidPairs(env.cfg, action.variable), c.Template(action.duration), id);
      if !started && own == [] then own
      else own + Drafts(ThermalPairs(env, minThermalLvl, c.level, action), c.ThermalTemplate(action.duration), id + |own|)
  }

  function RequestItems(env: Env, minThermalLvl: int, c: Call, list: seq<Action>, started: bool, id: nat): seq<Item> {
    if list == [] then []
    else
      var first := ActionItems(env, minThermalLvl, c, list[0], started, id);
      first + RequestItems(env, minThermalLvl, c, list[1..], started || first != [], id + |first|)
  }

  /** The items of one action as the chain gains them. */
  lemma ActionItemsIs(env: Env, minThermalLvl: int, c: Call, action: Action, said: seq<Item>, id: nat)
    requires !c.Skips(action)
    ensures var own := Drafts(ValidPairs(env.cfg, action.variable), c.Template(action.duration), id);
      said + ActionItems(env, minThermalLvl, c, action, said != [], id) ==
        if action.thermalCmdId == INVALID_THERMAL_CMD_ID || c.level < minThermalLvl || said + own == [] then said + own
        else (said + own) + Drafts(NearestPairs(env, action.thermalCmdId, c.level), c.ThermalTemplate(action.duration), id + |own|)
  {
    hide NearestPairs, ValidPairs;
    var own := Drafts(ValidPairs(env.cfg, action.variable), c.Template(action.duration), id);
    assert said + own == [] <==> said == [] && own == [];
    assert Drafts([], c.ThermalTemplate(action.duration), id + |own|) == [];
  }

  /** What is still to be said of a request after `k` actions, appended to what has been said, gives it all. */
  ghost predicate ToGo(env: Env, minThermalLvl: int, c: Call, list: seq<Action>, k: nat, said: seq<Item>, id: nat, all: seq<Item>) {
    k <= |list| && said + RequestItems(env, minThermalLvl, c, list[k..], said != [], id) == all
  }

  lemma ToGoFirst(env: Env, minThermalLvl: int, c: Call, list: seq<Action>, id: nat)
    ensures ToGo(env, minThermalLvl, c, list, 0, [], id, RequestItems(env, minThermalLvl, c, list, false, id))
  {
    assert list[0..] == list;
  }

  lemma ToGoStep(env: Env, minThermalLvl: int, c: Call, list: seq<Action>, k: nat, said: seq<Item>, id: nat, all: seq<Item>)
    requires k < |list| && ToGo(env, minThermalLvl, c, list, k, said, id, all)
    ensures var first := ActionItems(env, minThermalLvl, c, list[k], said != [], id);
      ToGo(env, minThermalLvl, c, list, k + 1, said + first, id + |first|, all)
  {
    hide ActionItems;
    assert list[k..][0] == list[k] && list[k..][1..] == list[k + 1..];
    var first := ActionItems(env, minThermalLvl, c, list[k], said != [], id);
    var rest := RequestItems(env, minThermalLvl, c, list[k + 1..], said + first != [], id + |first|);
    assert said + (first + rest) == (said + first) + rest;
  }

  lemma ToGoLast(env: Env, minThermalLvl: int, c: Call, list: seq<Action>, said: seq<Item>, id: nat, all: seq<Item>)
    requires ToGo(env, minThermalLvl, c, list, |list|, said, id, all)
    ensures said == all
  {
    assert list[|list|..] == [];
  }

  // ---- what a request is made of ----------------------------------------------------------------------------

  /** A service's configuration gives actions durations that fit int32. */
  predicate DurationsOk(list: seq<Action>) {
    forall i :: 0 <= i < |list| ==> 0 <= list[i].duration <= MAX_INT32_VALUE
  }

  /** The items a request may be made of, numbered from `id`. */
  ghost predicate GoodItems(env: Env, c: Call, id: nat, items: seq<Item>) {
    forall i :: 0 <= i < |items| ==>
      && items[i].resId in env.cfg.nodes && items[i].action.Valid() && items[i].action.id == id + i
      && (items[i].action.duration == 0 ==> c.onOff != EventInvalid)
      && items[i].action.onOff == c.onOff && items[i].action.cmdId == c.cmdId
      && (items[i].action.kind == c.kind || items[i].action.kind == PERFLVL)
  }

  lemma DraftsGood(env: Env, c: Call, pairs: seq<(int, int)>, template: ResAction, id: nat)
    requires PairsOk(pairs) && forall i :: 0 <= i < |pairs| ==> pairs[i].0 in env.cfg.nodes
    requires template.(value := 0).Valid() && template.onOff == c.onOff && template.cmdId == c.cmdId
    requires template.duration == 0 ==> c.onOff != EventInvalid
    requires template.kind == c.kind || template.kind == PERFLVL
    ensures GoodItems(env, c, id, Drafts(pairs, template, id))
  {
  }

  lemma GoodAppend(env: Env, c: Call, id: nat, a: seq<Item>, b: seq<Item>)
    requires GoodItems(env, c, id, a) && GoodItems(env, c, id + |a|, b)
    ensures GoodItems(env, c, id, a + b)
  {
    forall i | 0 <= i < |a + b| ensures (a + b)[i] == if i < |a| then a[i] else b[i - |a|] {
    }
  }

  /** The pairs of one action of a list are among those of the whole list. */
  lemma {:induction false} SomePairs(cfg: Config, list: seq<Action>, k: nat)
    requires k < |list| && PairsOk(AllPairs(cfg, list))
    ensures PairsOk(ValidPairs(cfg, list[k].variable))
  {
    hide ValidPairs;
    var own, rest := ValidPairs(cfg, list[0].variable), AllPairs(cfg, list[1..]);
    assert AllPairs(cfg, list) == own + rest;
    PairsOkParts(own, rest);
    hide AllPairs, PairsOk;
    if k > 0 {
      SomePairs(cfg, list[1..], k - 1);
    }
  }

  lemma ThermalPairsOk(env: Env, minThermalLvl: int, level: int, action: Action)
    requires CommandsOk(env)
    ensures var pairs := ThermalPairs(env, minThermalLvl, level, action);
      PairsOk(pairs) && forall i :: 0 <= i < |pairs| ==> pairs[i].0 in env.cfg.nodes
  {
    if action.thermalCmdId in env.commands {
      var list := env.commands[action.thermalCmdId].actionList;
      if Nearest(list, level).Some? {
        SomePairs(env.cfg, list, Nearest(list, level).value);
      }
    }
  }

  lemma ActionItemsGood(env: Env, minThermalLvl: int, c: Call, action: Action, started: bool, id: nat)
    requires CommandsOk(env) && c.Valid() && 0 <= action.duration <= MAX_INT32_VALUE && PairsOk(ValidPairs(env.cfg, action.variable))
    ensures GoodItems(env, c, id, ActionItems(env, minThermalLvl, c, action, started, id))
  {
    if !c.Skips(action) {
      var own := Drafts(ValidPairs(env.cfg, action.variable), c.Template(action.duration), id);
      var pairs := ThermalPairs(env, minThermalLvl, c.level, action);
      DraftsGood(env, c, ValidPairs(env.cfg, action.variable), c.Template(action.duration), id);
      ThermalPairsOk(env, minThermalLvl, c.level, action);
      DraftsGood(env, c, pairs, c.ThermalTemplate(action.duration), id + |own|);
      GoodAppend(env, c, id, own, Drafts(pairs, c.ThermalTemplate(action.duration), id + |own|));
    }
  }

  lemma TailPairs(cfg: Config, list: seq<Action>)
    requires list != [] && DurationsOk(list) && PairsOk(AllPairs(cfg, list))
    ensures DurationsOk(list[1..]) && PairsOk(AllPairs(cfg, list[1..])) && 0 <= list[0].duration <= MAX_INT32_VALUE
    ensures PairsOk(ValidPairs(cfg, list[0].variable))
  {
    hide ValidPairs;
    var own, rest := ValidPairs(cfg, list[0].variable), AllPairs(cfg, list[1..]);
    assert AllPairs(cfg, list) == own + rest;
    hide AllPairs;
    PairsOkParts(own, rest);
  }

  lemma PairsOkParts(a: seq<(int, int)>, b: seq<(int, int)>)
    requires PairsOk(a + b)
    ensures PairsOk(a) && PairsOk(b)
  {
    assert forall i :: 0 <= i < |a| ==> a[i] == (a + b)[i];
    assert forall i :: 0 <= i < |b| ==> b[i] == (a + b)[|a| + i];
  }

  lemma NoItemsGood(env: Env, c: Call, id: nat)
    ensures GoodItems(env, c, id, [])
  {
  }

  /** Every item of a request names a known resource with a valid request for it at a fresh address, all of
      one event and command. */
  lemma {:induction false} RequestItemsGood(env: Env, minThermalLvl: int, c: Call, list: seq<Action>, started: bool, id: nat)
    requires CommandsOk(env) && c.Valid() && DurationsOk(list) && PairsOk(AllPairs(env.cfg, list))
    ensures GoodItems(env, c, id, RequestItems(env, minThermalLvl, c, list, started, id))
  {
    hide ActionItems, GoodItems, CommandsOk, Call.Valid, AllPairs, DurationsOk, PairsOk;
    if list == [] {
      NoItemsGood(env, c, id);
    } else {
      var first := ActionItems(env, minThermalLvl, c, list[0], started, id);
      TailPairs(env.cfg, list);
      ActionItemsGood(env, minThermalLvl, c, list[0], started, id);
      RequestItemsGood(env, minThermalLvl, c, list[1..], started || first != [], id + |first|);
      GoodAppend(env, c, id, first, RequestItems(env, minThermalLvl, c, list[1..], started || first != [], id + |first|));
    }
  }

  /** A request never starts with a thermal item: its first item is of the request's own kind. */
  lemma {:induction false} FirstIsOwn(env: Env, minThermalLvl: int, c: Call, list: seq<Action>, id: nat)
    ensures var items := RequestItems(env, minThermalLvl, c, list, false, id);
      items != [] ==> items[0].action.kind == c.kind
  {
    if list != [] && ActionItems(env, minThermalLvl, c, list[0], false, id) == [] {
      FirstIsOwn(env, minThermalLvl, c, list[1..], id);
    }
  }

  // ---- ON and OFF requests of one command ------------------------------------------------------------------

  /** Item by item, the same resource and a request that is PartSame. */
  predicate Matching(a: seq<Item>, b: seq<Item>) {
    |a| == |b| && forall i :: 0 <= i < |a| ==> a[i].resId == b[i].resId && a[i].action.PartSame(b[i].action)
  }

  lemma MatchingLength(a: seq<Item>, b: seq<Item>)
    requires Matching(a, b)
    ensures |a| == |b|
  {
  }

  lemma MatchingAppend(a: seq<Item>, b: seq<Item>, x: seq<Item>, y: seq<Item>)
    requires Matching(a, b) && Matching(x, y)
    ensures Matching(a + x, b + y)
  {
  }

  lemma ActionItemsMatch(env: Env, minThermalLvl: int, on: Call, off: Call, action: Action, started: bool, id: nat, offId: nat)
    requires on.cmdId == off.cmdId && on.kind == off.kind && on.onOff == EventOn && off.onOff == EventOff
    requires ThermalPairs(env, minThermalLvl, on.level, action) == ThermalPairs(env, minThermalLvl, off.level, action)
    ensures Matching(ActionItems(env, minThermalLvl, on, action, started, id), ActionItems(env, minThermalLvl, off, action, started, offId))
  {
    hide ThermalPairs, ValidPairs;
    var own, mine := ValidPairs(env.cfg, action.variable), ThermalPairs(env, minThermalLvl, on.level, action);
    var t, u, d := on.Template(action.duration), off.Template(action.duration), action.duration;
    assert Matching(Drafts(own, t, id), Drafts(own, u, offId));
    assert Matching(Drafts(mine, on.ThermalTemplate(d), id + |own|), Drafts(mine, off.ThermalTemplate(d), offId + |own|));
    MatchingAppend(Drafts(own, t, id), Drafts(own, u, offId),
      Drafts(mine, on.ThermalTemplate(d), id + |own|), Drafts(mine, off.ThermalTemplate(d), offId + |own|));
  }

  lemma RequestItemsMatch(env: Env, minThermalLvl: int, on: Call, off: Call, list: seq<Action>, started: bool, id: nat, offId: nat)
    requires list != []
    requires var a := ActionItems(env, minThermalLvl, on, list[0], started, id);
      var b := ActionItems(env, minThermalLvl, off, list[0], started, offId);
      && Matching(a, b)
      && Matching(RequestItems(env, minThermalLvl, on, list[1..], started || a != [], id + |a|),
           RequestItems(env, minThermalLvl, off, list[1..], started || b != [], offId + |b|))
    ensures Matching(RequestItems(env, minThermalLvl, on, list, started, id), RequestItems(env, minThermalLvl, off, list, started, offId))
  {
    hide ActionItems, Matching;
    var a := ActionItems(env, minThermalLvl, on, list[0], started, id);
    var b := ActionItems(env, minThermalLvl, off, list[0], started, offId);
    MatchingAppend(a, b,
      RequestItems(env, minThermalLvl, on, list[1..], started || a != [], id + |a|),
      RequestItems(env, minThermalLvl, off, list[1..], started || b != [], offId + |b|));
  }

  /** The OFF request of a command matches its ON request item by item, however far apart in time they are
      made, if at both thermal levels every action brings the same thermal pairs. */
  lemma {:induction false} OffMatchesOn(env: Env, minThermalLvl: int, on: Call, off: Call, list: seq<Action>, started: bool, id: nat, offId: nat)
    requires on.cmdId == off.cmdId && on.kind == off.kind && on.onOff == EventOn && off.onOff == EventOff
    requires forall k :: 0 <= k < |list| ==>
      ThermalPairs(env, minThermalLvl, on.level, list[k]) == ThermalPairs(env, minThermalLvl, off.level, list[k])
    ensures Matching(RequestItems(env, minThermalLvl, on, list, started, id), RequestItems(env, minThermalLvl, off, list, started, offId))
  {
    hide ActionItems, ThermalPairs;
    if list == [] {
    } else {
      hide *;
      var a := ActionItems(env, minThermalLvl, on, list[0], started, id);
      var b := ActionItems(env, minThermalLvl, off, list[0], started, offId);
      ActionItemsMatch(env, minThermalLvl, on, off, list[0], started, id, offId);
      MatchingLength(a, b);
      OffMatchesOn(env, minThermalLvl, on, off, list[1..], started || a != [], id + |a|, offId + |b|);
      RequestItemsMatch(env, minThermalLvl, on, off, list, started, id, offId);
    }
  }
}
