/** What a performance request comes to, item by item: what is asked for, until when, and by which timer it ends. */
module RequestMeaning {
  import opened Common
  import opened Config
  import opened Tasks
  import opened System
  import opened CommandPairs
  import opened Requests
  import opened OffRequests
  import opened Timers

  // ---- what for ----------------------------------------------------------------------------------------------

  /** A request that is neither ON nor OFF makes nothing of an action without a duration. */
  predicate Counts(c: Call, action: Action) {
    action.duration != 0 || c.onOff != EventInvalid
  }

  /** The action lists this value for a known resource. */
  ghost predicate Own(cfg: Config, action: Action, r: int, v: int) {
    r in cfg.nodes && exists i :: ListsAt(action.variable, i, r, v)
  }

  /** Of the actions of a thermal command, the one whose level is the greatest not above the present one, and the last
      of them. */
  ghost predicate InForce(list: seq<Action>, n: int, level: int) {
    && 0 <= n < |list| && list[n].thermalLvl <= level
    && forall j :: 0 <= j < |list| && list[j].thermalLvl <= level ==> list[j].thermalLvl <= list[n].thermalLvl && (list[j].thermalLvl == list[n].thermalLvl ==> j <= n)
  }

  /** The action refers to a thermal command, the device is hot enough, and the thermal action in force lists the value. */
  ghost predicate Thermal(env: Env, minThermalLvl: int, level: int, action: Action, r: int, v: int) {
    && action.thermalCmdId != -1 && minThermalLvl <= level && action.thermalCmdId in env.commands
    && var list := env.commands[action.thermalCmdId].actionList;
    exists n :: InForce(list, n, level) && Own(env.cfg, list[n], r, v)
  }

  /** Some action up to `k` lists a value of its own. */
  ghost predicate OneBefore(env: Env, c: Call, list: seq<Action>, k: int) {
    exists j, r, v :: 0 <= j <= k && j < |list| && Counts(c, list[j]) && Own(env.cfg, list[j], r, v)
  }

  /** A request asks for a value on a list of a resource, for a duration, exactly if an action of that duration lists
      it, for the request's own list, or brings it with its thermal action, for the perf-level list, once the request
      has a value of its own. */
  lemma RequestAsksFor(env: Env, minThermalLvl: int, c: Call, list: seq<Action>, id: nat, r: int, kind: int, value: int, duration: int)
    ensures var items := RequestItems(env, minThermalLvl, c, list, false, id);
      (exists x :: x in items && x.resId == r && x.action.kind == kind && x.action.value == value && x.action.duration == duration)
      <==>
      exists k :: 0 <= k < |list| && list[k].duration == duration && Counts(c, list[k]) && ForAction(env, minThermalLvl, c, list, k, r, kind, value)
  {
    hide RequestItems;
    RequestItemsAsk(env, minThermalLvl, c, list, false, id, r, kind, value, duration);
    AsksMembers(RequestItems(env, minThermalLvl, c, list, false, id), r, kind, value, duration);
    hide RequestAsks, AskedBy, ForAction, Asks;
    forall k | 0 <= k < |list|
      ensures AskedBy(env, minThermalLvl, c, list, k, false, r, kind, value, duration) <==>
        list[k].duration == duration && Counts(c, list[k]) && ForAction(env, minThermalLvl, c, list, k, r, kind, value)
    {
      ActionAsksFor(env, minThermalLvl, c, list, k, r, kind, value, duration);
    }
    AskedBySome(env, minThermalLvl, c, list, r, kind, value, duration);
  }

  ghost predicate ForAction(env: Env, minThermalLvl: int, c: Call, list: seq<Action>, k: int, r: int, kind: int, value: int)
    requires 0 <= k < |list|
  {
    || (kind == c.kind && Own(env.cfg, list[k], r, value))
    || (kind == PERFLVL && OneBefore(env, c, list, k) && Thermal(env, minThermalLvl, c.level, list[k], r, value))
  }

  lemma AskedBySome(env: Env, minThermalLvl: int, c: Call, list: seq<Action>, r: int, kind: int, value: int, duration: int)
    ensures RequestAsks(env, minThermalLvl, c, list, false, r, kind, value, duration) <==>
      exists k :: 0 <= k < |list| && AskedBy(env, minThermalLvl, c, list, k, false, r, kind, value, duration)
  {
    hide AskedBy;
  }

  lemma AsksMembers(items: seq<Item>, r: int, kind: int, value: int, duration: int)
    ensures Asks(items, r, kind, value, duration) <==>
      exists x :: x in items && x.resId == r && x.action.kind == kind && x.action.value == value && x.action.duration == duration
  {
    if x :| x in items && x.resId == r && x.action.kind == kind && x.action.value == value && x.action.duration == duration {
      var i :| 0 <= i < |items| && items[i] == x;
      assert Asks(items, r, kind, value, duration);
    }
  }

  lemma ActionAsksFor(env: Env, minThermalLvl: int, c: Call, list: seq<Action>, k: nat, r: int, kind: int, value: int, duration: int)
    requires k < |list|
    ensures AskedBy(env, minThermalLvl, c, list, k, false, r, kind, value, duration) <==>
      list[k].duration == duration && Counts(c, list[k]) && ForAction(env, minThermalLvl, c, list, k, r, kind, value)
  {
    hide ValidPairs, ThermalPairs, Own, Thermal, HasItems, OneBefore;
    PairListed(env.cfg, list[k].variable, r, value);
    OwnMeans(env.cfg, list[k], r, value);
    ThermalMeans(env, minThermalLvl, c.level, list[k], r, value);
    BegunMeans(env, c, list, k);
    hide Begun;
  }

  lemma OwnMeans(cfg: Config, action: Action, r: int, v: int)
    ensures Own(cfg, action, r, v) <==> (r, v) in ValidPairs(cfg, action.variable)
  {
    PairListed(cfg, action.variable, r, v);
  }

  lemma BegunMeans(env: Env, c: Call, list: seq<Action>, k: nat)
    requires k < |list|
    ensures Begun(env, c, list, k, false) <==> OneBefore(env, c, list, k)
  {
    hide Own, ValidPairs;
    forall j | 0 <= j < |list| ensures HasItems(env, c, list[j]) <==> Counts(c, list[j]) && exists r, v :: Own(env.cfg, list[j], r, v) {
      HasOwn(env.cfg, list[j]);
    }
  }

  lemma HasOwn(cfg: Config, action: Action)
    ensures ValidPairs(cfg, action.variable) != [] <==> exists r, v :: Own(cfg, action, r, v)
  {
    hide Own, ValidPairs;
    forall r, v ensures Own(cfg, action, r, v) <==> (r, v) in ValidPairs(cfg, action.variable) {
      OwnMeans(cfg, action, r, v);
    }
    if ValidPairs(cfg, action.variable) != [] {
      var p := ValidPairs(cfg, action.variable)[0];
      assert (p.0, p.1) in ValidPairs(cfg, action.variable);
      assert Own(cfg, action, p.0, p.1);
    }
  }

  lemma ThermalMeans(env: Env, minThermalLvl: int, level: int, action: Action, r: int, v: int)
    ensures Thermal(env, minThermalLvl, level, action, r, v) <==> (r, v) in ThermalPairs(env, minThermalLvl, level, action)
  {
    hide Own, ValidPairs;
    if action.thermalCmdId in env.commands {
      var list := env.commands[action.thermalCmdId].actionList;
      var best := Nearest(list, level);
      assert forall n :: InForce(list, n, level) <==> best == Some(n);
      if best.Some? { OwnMeans(env.cfg, list[best.value], r, v); }
    }
  }

  // ---- until when --------------------------------------------------------------------------------------------

  /** An item numbered `id`: it lasts for its duration from the time of the call, or for ever. */
  predicate Lasts(c: Call, id: nat, a: ResAction) {
    && a.endTime == (if a.duration == 0 then 0x7FFF_FFFF_FFFF_FFFF else c.curMs + a.duration)
    && a.id == id && a.onOff == c.onOff && a.cmdId == c.cmdId && (a.interaction <==> c.interaction && a.kind == 0)
  }

  predicate AllLast(c: Call, id: nat, items: seq<Item>) {
    forall k :: 0 <= k < |items| ==> Lasts(c, id + k, items[k].action)
  }

  lemma LastAppend(c: Call, id: nat, a: seq<Item>, b: seq<Item>)
    requires AllLast(c, id, a) && AllLast(c, id + |a|, b)
    ensures AllLast(c, id, a + b)
  {
    hide Lasts;
    forall k | 0 <= k < |a + b| ensures Lasts(c, id + k, (a + b)[k].action) {
      assert k >= |a| ==> (a + b)[k] == b[k - |a|] && id + k == id + |a| + (k - |a|);
    }
  }

  lemma ActionLasts(env: Env, minThermalLvl: int, c: Call, action: Action, started: bool, id: nat)
    ensures AllLast(c, id, ActionItems(env, minThermalLvl, c, action, started, id))
  {
    hide ValidPairs, ThermalPairs;
    if !c.Skips(action) {
      var own := RequestChain.Drafts(ValidPairs(env.cfg, action.variable), c.Template(action.duration), id);
      LastAppend(c, id, own, RequestChain.Drafts(ThermalPairs(env, minThermalLvl, c.level, action), c.ThermalTemplate(action.duration), id + |own|));
    }
  }

  /** Every item of a request, thermal items included, ends its own duration after the call, or never; it carries the
      call's event and command, a fresh address, and the command's interaction flag if it is a perf item. */
  lemma {:induction false} ItemsLast(env: Env, minThermalLvl: int, c: Call, list: seq<Action>, started: bool, id: nat)
    ensures AllLast(c, id, RequestItems(env, minThermalLvl, c, list, started, id))
    decreases |list|
  {
    hide ActionItems, Lasts;
    if list != [] {
      var first := ActionItems(env, minThermalLvl, c, list[0], started, id);
      var rest := RequestItems(env, minThermalLvl, c, list[1..], started || first != [], id + |first|);
      ActionLasts(env, minThermalLvl, c, list[0], started, id);
      ItemsLast(env, minThermalLvl, c, list[1..], started || first != [], id + |first|);
      LastAppend(c, id, first, rest);
    }
  }

  /** A new delayed task that holds the item. */
  ghost predicate HeldBy(was: map<nat, Timer>, now: map<nat, Timer>, h: nat, item: Item) {
    h !in was && h in now && now[h].task.Expiry? && item in now[h].task.items
  }

  /** A request posted: its pack, and for each timed item one delayed task that holds it, due 1000 times its duration
      later. The delayed tasks that were pending stay as they are. */
  lemma RequestTimers(env: Env, s: Sys, items: seq<Item>, durations: seq<int>)
    requires WfSys(env, s) && Enabled(env, s, Request(items, durations))
    ensures var t := SysStep(env, s, Request(items, durations));
      && t.q.ready == s.q.ready + [Queued(s.q.now, Pack(items))]
      && (forall h :: h in s.q.timers ==> h in t.q.timers && t.q.timers[h] == s.q.timers[h])
      && (forall x :: x in items && x.action.duration != 0 ==> exists h :: HeldBy(s.q.timers, t.q.timers, h, x))
      && (forall h, x :: HeldBy(s.q.timers, t.q.timers, h, x) ==>
            x in items && x.action.duration != 0 && t.q.timers[h].due == s.q.now + 1000 * x.action.duration)
      && (forall h, g, x :: HeldBy(s.q.timers, t.q.timers, h, x) && HeldBy(s.q.timers, t.q.timers, g, x) ==> h == g)
      && (forall h :: h in t.q.timers && h !in s.q.timers ==> exists x :: HeldBy(s.q.timers, t.q.timers, h, x))
  {
    TimersBelow(env, s);
    DistinctDurations(env, s, items, durations);
    hide WfSys, Enabled, PostExpiries;
    NewTimers(Submit(s.q, Pack(items)), items, durations);
  }

  lemma TimersBelow(env: Env, s: Sys)
    requires WfSys(env, s)
    ensures forall h :: h in s.q.timers ==> h < s.q.nextHandle
  {
    hide QueuedOk;
  }

  lemma DistinctDurations(env: Env, s: Sys, items: seq<Item>, durations: seq<int>)
    requires Enabled(env, s, Request(items, durations))
    ensures DurationsOf(items, durations)
  {
  }

  lemma NewTimers(q: Queue, items: seq<Item>, durations: seq<int>)
    requires (forall h :: h in q.timers ==> h < q.nextHandle) && DurationsOf(items, durations)
    ensures var p := PostExpiries(q, items, durations);
      && p.ready == q.ready
      && (forall h :: h in q.timers ==> h in p.timers && p.timers[h] == q.timers[h])
      && (forall x :: x in items && x.action.duration != 0 ==> exists h :: HeldBy(q.timers, p.timers, h, x))
      && (forall h, x :: HeldBy(q.timers, p.timers, h, x) ==> x in items && x.action.duration != 0 && p.timers[h].due == q.now + 1000 * x.action.duration)
      && (forall h, g, x :: HeldBy(q.timers, p.timers, h, x) && HeldBy(q.timers, p.timers, g, x) ==> h == g)
      && (forall h :: h in p.timers && h !in q.timers ==> exists x :: HeldBy(q.timers, p.timers, h, x))
  {
    hide PostExpiries, WithDuration;
    PostExpiriesShape(q, items, durations);
    var p := PostExpiries(q, items, durations);
    forall x | x in items && x.action.duration != 0 ensures exists h :: HeldBy(q.timers, p.timers, h, x) {
      var j :| 0 <= j < |durations| && durations[j] == x.action.duration;
      WithDurationIs(items, durations[j]);
      assert HeldBy(q.timers, p.timers, q.nextHandle + j, x);
    }
    forall h: nat | h in p.timers && h !in q.timers ensures exists x :: HeldBy(q.timers, p.timers, h, x) {
      var j := h - q.nextHandle;
      assert p.timers[q.nextHandle + j] == p.timers[h] && durations[j] in durations;
      WithDurationIs(items, durations[j]);
      var i :| 0 <= i < |items| && items[i].action.duration == durations[j];
      assert HeldBy(q.timers, p.timers, h, items[i]);
    }
    forall h: nat, x | HeldBy(q.timers, p.timers, h, x)
      ensures x in items && x.action.duration != 0 && p.timers[h].due == q.now + 1000 * x.action.duration
      ensures 0 <= h - q.nextHandle < |durations| && durations[h - q.nextHandle] == x.action.duration
    {
      assert q.nextHandle <= h;
      var j := h - q.nextHandle;
      assert p.timers[q.nextHandle + j] == p.timers[h];
      WithDurationIs(items, durations[j]);
      assert durations[j] in durations;
    }
  }
}
