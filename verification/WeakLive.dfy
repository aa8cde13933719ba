/** The requests of a weak interaction are live exactly while it is weak, once the queue has run. */
module WeakLive {
  import opened Common
  import opened Config
  import opened LiveList
  import opened ArbiterState
  import opened Tasks
  import opened System
  import opened SystemRuns
  import opened Channels
  import opened CommandPairs
  import opened LimitProtocol
  import opened Weak

  // ---- what the packs of a weak command do to a channel ------------------------------------------------------

  /** The values on a channel after an ON pack of these pairs, and after an OFF pack of them. */
  function Raised(vs: seq<int>, pairs: seq<(int, int)>, r: int): seq<int>
    decreases |pairs|
  {
    if pairs == [] then vs
    else Raised(if pairs[0].0 == r then LessOne(vs, pairs[0].1) + [pairs[0].1] else vs, pairs[1..], r)
  }

  function Lowered(vs: seq<int>, pairs: seq<(int, int)>, r: int): seq<int>
    decreases |pairs|
  {
    if pairs == [] then vs
    else Lowered(if pairs[0].0 == r then LessOne(vs, pairs[0].1) else vs, pairs[1..], r)
  }

  predicate Once(vs: seq<int>) {
    forall i, j :: 0 <= i < j < |vs| ==> vs[i] != vs[j]
  }

  lemma OnceCons(x: int, vs: seq<int>)
    requires Once(vs) && x !in vs
    ensures Once([x] + vs)
  {
  }

  lemma OnceSnoc(vs: seq<int>, x: int)
    requires Once(vs) && x !in vs
    ensures Once(vs + [x])
  {
  }

  lemma {:induction false} WithoutOnce(vs: seq<int>, v: int)
    requires Once(vs)
    ensures Once(LessOne(vs, v)) && forall x :: x in LessOne(vs, v) <==> x in vs && x != v
  {
    if vs != [] {
      var rest := vs[1..];
      assert vs == [vs[0]] + rest;
      assert Once(rest) && vs[0] !in rest;
      WithoutOnce(rest, v);
      OnceCons(vs[0], LessOne(rest, v));
    }
  }

  /** An ON pack leaves each of its values exactly once. */
  lemma {:induction false} RaisedOnce(vs: seq<int>, pairs: seq<(int, int)>, r: int)
    requires Once(vs)
    ensures Once(Raised(vs, pairs, r)) && forall x :: x in Raised(vs, pairs, r) <==> x in vs || (r, x) in pairs
    decreases |pairs|
  {
    if pairs != [] {
      var p := pairs[0];
      assert pairs == [p] + pairs[1..];
      WithoutOnce(vs, p.1);
      OnceSnoc(LessOne(vs, p.1), p.1);
      RaisedOnce(if p.0 == r then LessOne(vs, p.1) + [p.1] else vs, pairs[1..], r);
    }
  }

  /** An OFF pack takes exactly its own values away. */
  lemma {:induction false} LoweredOnce(vs: seq<int>, pairs: seq<(int, int)>, r: int)
    requires Once(vs)
    ensures forall x :: x in Lowered(vs, pairs, r) <==> x in vs && (r, x) !in pairs
    decreases |pairs|
  {
    if pairs != [] {
      var p := pairs[0];
      assert pairs == [p] + pairs[1..];
      WithoutOnce(vs, p.1);
      LoweredOnce(if p.0 == r then LessOne(vs, p.1) else vs, pairs[1..], r);
    }
  }

  /** So the OFF pack of a command undoes its ON pack. */
  lemma OffEmpties(pairs: seq<(int, int)>, r: int)
    ensures Lowered(Raised([], pairs, r), pairs, r) == []
  {
    RaisedOnce([], pairs, r);
    LoweredOnce(Raised([], pairs, r), pairs, r);
    var left := Lowered(Raised([], pairs, r), pairs, r);
    assert forall x :: x !in left;
    Member(left);
  }

  lemma Member(vs: seq<int>)
    ensures vs != [] ==> exists x :: x in vs
  {
    if vs != [] {
      var v := vs[0];
      assert v in vs;
    }
  }

  lemma {:induction false} WeakPackEffect(cfg: Config, c: Channel, pairs: seq<(int, int)>, on: bool, id: nat, vs: seq<int>)
    requires PairsOk(pairs) && PERF <= c.kind <= PERFLVL && forall k :: 0 <= k < |pairs| ==> pairs[k].0 in cfg.nodes
    ensures TaskOk(cfg, Pack(WeakItems(pairs, c.cmdId, on, c.kind, id)))
    ensures OpsEffect(c, PackOps(cfg, WeakItems(pairs, c.cmdId, on, c.kind, id)), vs) ==
      if on then Raised(vs, pairs, c.resId) else Lowered(vs, pairs, c.resId)
    decreases |pairs|
  {
    var items := WeakItems(pairs, c.cmdId, on, c.kind, id);
    if pairs != [] {
      var rest := WeakItems(pairs[1..], c.cmdId, on, c.kind, id + 1);
      assert items[1..] == rest;
      var op := Begin(items[0].resId, items[0].action);
      assert PackOps(cfg, items) == [op] + PackOps(cfg, rest);
      assert ([op] + PackOps(cfg, rest))[1..] == PackOps(cfg, rest);
      WeakPackEffect(cfg, c, pairs[1..], on, id + 1, OpEffect(c, op, vs));
    }
  }

  // ---- scope -------------------------------------------------------------------------------------------------

  function ModeId(perfMode: bool, cmdId: int): int {
    if cmdId == WEAK_CMD_ID && perfMode then WEAK_PERF_MODE_CMD_ID else cmdId
  }

  /** Interaction `index` watched on one resource, for its command with the performance mode on or off. `left` is
      what the queued packs come to if the mode is not that one: nothing adds to it and nothing takes it away. */
  datatype Watch = Watch(index: nat, resId: int, perf: bool, left: Option<seq<int>>)

  /** The commands an interaction may be replaced by: in each of the two performance modes. */
  ghost predicate MayUse(env: Env, it: Inter, key: int) {
    key in env.commands && (key == ModeId(false, it.cmdId) || key == ModeId(true, it.cmdId))
  }

  /** The watched interaction has a command, and no other interaction shares its type and command id. */
  ghost predicate Alone(env: Env, inter: seq<Inter>, w: Watch) {
    && w.index < |inter| && w.resId in env.cfg.nodes && ModeId(w.perf, inter[w.index].cmdId) in env.commands
    && forall j, key :: 0 <= j < |inter| && j != w.index && MayUse(env, inter[j], key) ==>
      inter[j].actionType != inter[w.index].actionType || env.commands[key].id != WatchedActions(env, inter, w).id
  }

  function WatchedActions(env: Env, inter: seq<Inter>, w: Watch): Actions
    requires w.index < |inter| && ModeId(w.perf, inter[w.index].cmdId) in env.commands
  {
    env.commands[ModeId(w.perf, inter[w.index].cmdId)]
  }

  function WatchedPairs(env: Env, inter: seq<Inter>, w: Watch): seq<(int, int)>
    requires w.index < |inter| && ModeId(w.perf, inter[w.index].cmdId) in env.commands
  {
    AllPairs(env.cfg, WatchedActions(env, inter, w).actionList)
  }

  function WatchedChannel(env: Env, inter: seq<Inter>, w: Watch): Channel
    requires w.index < |inter| && ModeId(w.perf, inter[w.index].cmdId) in env.commands
  {
    Channel(w.resId, inter[w.index].actionType, WatchedActions(env, inter, w).id)
  }

  /** Work that leaves the channel alone: requests of another type or command, and no clear of its list. */
  predicate Avoids(c: Channel, task: Task) {
    match task
    case Pack(items) => forall k :: 0 <= k < |items| ==> items[k].action.kind != c.kind || items[k].action.cmdId != c.cmdId
    case Expiry(items) => forall k :: 0 <= k < |items| ==> items[k].action.kind != c.kind || items[k].action.cmdId != c.cmdId
    case Limit(_, _, a) => a.kind != c.kind || a.cmdId != c.cmdId
    case Clear => c.kind != PERF
    case _ => true
  }

  /** The performance mode matters only to the one command that has a replacement. */
  predicate KeepsMode(it: Inter, task: Task) {
    task.SetPerfMode? ==> it.cmdId != WEAK_CMD_ID
  }

  /** A pack of the watched interaction's own. */
  ghost predicate OwnPack(c: Channel, pairs: seq<(int, int)>, task: Task) {
    task.Pack? && exists on, id :: task.items == WeakItems(pairs, c.cmdId, on, c.kind, id)
  }

  ghost predicate Fit(c: Channel, pairs: seq<(int, int)>, it: Inter, q: Queue) {
    && (forall k :: 0 <= k < |q.ready| ==> (Avoids(c, q.ready[k].task) || OwnPack(c, pairs, q.ready[k].task)) && KeepsMode(it, q.ready[k].task))
    && (forall h :: h in q.timers ==> Avoids(c, q.timers[h].task) && KeepsMode(it, q.timers[h].task))
  }

  /** The values the channel ought to hold when the queue has run. */
  function Due(pairs: seq<(int, int)>, w: Watch, it: Inter): seq<int> {
    if w.left.Some? then w.left.value else if it.status.WeakStatus? then Raised([], pairs, w.resId) else []
  }

  /** The mode is the watched one, or it does not matter; or it is the other one, which has a command of its own. */
  ghost predicate InMode(env: Env, perfMode: bool, it: Inter, w: Watch, c: Channel) {
    if w.left.None? then it.cmdId == WEAK_CMD_ID ==> perfMode == w.perf
    else
      && it.cmdId == WEAK_CMD_ID && perfMode != w.perf
      && (ModeId(perfMode, it.cmdId) in env.commands ==> env.commands[ModeId(perfMode, it.cmdId)].id != c.cmdId)
  }

  /** The invariant, for a service whose watched interaction uses this channel and these pairs. */
  ghost predicate LiveOk(env: Env, s: Sys, w: Watch, c: Channel, pairs: seq<(int, int)>) {
    && WfSys(env, s) && Alone(env, s.inter, w)
    && c == WatchedChannel(env, s.inter, w) && pairs == WatchedPairs(env, s.inter, w)
    && InMode(env, s.perfMode, s.inter[w.index], w, c)
    && ChannelOk(env.cfg, c) && Tidy(env.cfg, s.arb, c) && Fit(c, pairs, s.inter[w.index], s.q)
    && ToCome(env, s, c) == Due(pairs, w, s.inter[w.index])
  }

  // ---- tasks and the channel ------------------------------------------------------------------------------------

  lemma {:induction false} AvoidingPack(cfg: Config, c: Channel, items: seq<Item>, vs: seq<int>)
    requires TaskOk(cfg, Pack(items)) && Avoids(c, Pack(items))
    ensures OpsEffect(c, PackOps(cfg, items), vs) == vs
    decreases |items|
  {
    if items != [] {
      var rest := items[1..];
      assert forall i :: 0 <= i < |rest| ==> rest[i] == items[i + 1];
      AvoidingPack(cfg, c, rest, vs);
      if items[0].resId in cfg.nodes {
        var op := Begin(items[0].resId, items[0].action);
        assert PackOps(cfg, items) == [op] + PackOps(cfg, rest);
        assert ([op] + PackOps(cfg, rest))[1..] == PackOps(cfg, rest);
        assert OpEffect(c, op, vs) == vs;
      } else {
        assert PackOps(cfg, items) == PackOps(cfg, rest);
      }
    }
  }

  lemma AvoidingEffect(cfg: Config, c: Channel, task: Task, vs: seq<int>)
    requires WfConfig(cfg) && TaskOk(cfg, task) && Avoids(c, task)
    ensures TaskEffect(cfg, c, task, vs) == vs && TaskRespects(cfg, c, task)
  {
    if task.Pack? {
      AvoidingPack(cfg, c, task.items, vs);
    } else if task.Limit? {
      LimitEffect(cfg, c, task.byLevel, task.resId, task.action, vs);
      hide LimitOps;
    }
  }

  lemma FitRespects(cfg: Config, c: Channel, pairs: seq<(int, int)>, task: Task)
    requires WfConfig(cfg) && TaskOk(cfg, task) && (Avoids(c, task) || OwnPack(c, pairs, task))
    ensures TaskRespects(cfg, c, task)
  {
    if Avoids(c, task) { AvoidingEffect(cfg, c, task, []); }
  }

  /** One more task in the queue acts on what was to come. */
  lemma TaskToCome(env: Env, s: Sys, t: Sys, c: Channel, task: Task)
    requires WfSys(env, s) && WfSys(env, t) && ChannelOk(env.cfg, c) && t.arb == s.arb
    requires t.q.ready == s.q.ready + [Queued(s.q.now, task)] && TaskOk(env.cfg, task)
    ensures ToCome(env, t, c) == TaskEffect(env.cfg, c, task, ToCome(env, s, c))
  {
    ReadyTasksOk(env, s);
    ReadyTasksOk(env, t);
    hide WfConfig, CommandsOk, QueueOk, Now, TaskOk, PackOps, TaskEffect;
    var last := [Queued(s.q.now, task)];
    var vs := Drained(env.cfg, c, s.q.ready, Now(env.cfg, s.arb, c));
    DrainedAppend(env.cfg, c, s.q.ready, last, Now(env.cfg, s.arb, c));
    assert Drained(env.cfg, c, last, vs) == TaskEffect(env.cfg, c, task, vs);
  }

  lemma FitMore(c: Channel, pairs: seq<(int, int)>, it: Inter, q: Queue, p: Queue, task: Task)
    requires Fit(c, pairs, it, q) && (Avoids(c, task) || OwnPack(c, pairs, task)) && KeepsMode(it, task)
    requires p.ready == q.ready + [Queued(q.now, task)] && p.timers == q.timers
    ensures Fit(c, pairs, it, p)
  {
    hide Avoids, OwnPack, KeepsMode;
  }

  /** The part of an interaction that never changes. */
  predicate SameIdentity(a: Inter, b: Inter) {
    a.cmdId == b.cmdId && a.actionType == b.actionType
  }

  lemma FitSame(c: Channel, pairs: seq<(int, int)>, a: Inter, b: Inter, q: Queue)
    requires Fit(c, pairs, a, q) && SameIdentity(a, b)
    ensures Fit(c, pairs, b, q)
  {
    hide Avoids, OwnPack;
  }

  lemma AloneSame(env: Env, a: seq<Inter>, b: seq<Inter>, w: Watch)
    requires Alone(env, a, w) && |a| == |b| && forall k :: 0 <= k < |a| ==> SameIdentity(a[k], b[k])
    ensures Alone(env, b, w) && WatchedChannel(env, b, w) == WatchedChannel(env, a, w) && WatchedPairs(env, b, w) == WatchedPairs(env, a, w)
  {
    assert SameIdentity(a[w.index], b[w.index]);
    forall j, key | 0 <= j < |b| && j != w.index && MayUse(env, b[j], key)
      ensures b[j].actionType != b[w.index].actionType || env.commands[key].id != WatchedActions(env, b, w).id
    {
      assert SameIdentity(a[j], b[j]) && MayUse(env, a[j], key);
    }
  }

  /** The watched interaction's weak pack is posted, ON from not weak or OFF from weak. */
  lemma OwnDoWeak(env: Env, s: Sys, w: Watch, c: Channel, pairs: seq<(int, int)>, on: bool, status: InterStatus)
    requires LiveOk(env, s, w, c, pairs) && w.left.None? && s.inter[w.index].status.WeakStatus? != on && status.WeakStatus? == on
    ensures LiveOk(env, DoWeak(env, SetInter(s, w.index, status, s.inter[w.index].timer), w.index, on), w, c, pairs)
  {
    var s1 := SetInter(s, w.index, status, s.inter[w.index].timer);
    var t := DoWeak(env, s1, w.index, on);
    DoWeakFrame(env, s1, w.index, on);
    OwnDoWeakQueue(env, s, w, c, pairs, on, status);
    AloneSame(env, s.inter, t.inter, w);
    OwnToCome(env, s, t, w, c, pairs, on);
    SameTidy(env, s, t, c);
    hide WfSys, Alone, Tidy, ToCome, WatchedPairs, WatchedChannel, DoWeak, Avoids, WeakItems, OwnPack, Raised;
    if pairs != [] {
      var pack := Pack(WeakItems(pairs, c.cmdId, on, c.kind, s.nextId));
      OwnFits(c, pairs, on, s.nextId);
      FitMore(c, pairs, s.inter[w.index], s.q, t.q, pack);
    }
    FitSame(c, pairs, s.inter[w.index], t.inter[w.index], t.q);
  }

  lemma OwnFits(c: Channel, pairs: seq<(int, int)>, on: bool, id: nat)
    ensures OwnPack(c, pairs, Pack(WeakItems(pairs, c.cmdId, on, c.kind, id)))
  {
    hide WeakItems;
  }

  /** Its pack makes what is to come what is due in the new status. */
  lemma OwnToCome(env: Env, s: Sys, t: Sys, w: Watch, c: Channel, pairs: seq<(int, int)>, on: bool)
    requires LiveOk(env, s, w, c, pairs) && w.left.None? && WfSys(env, t) && t.arb == s.arb && s.inter[w.index].status.WeakStatus? != on
    requires t.q == if pairs == [] then s.q else Submit(s.q, Pack(WeakItems(pairs, c.cmdId, on, c.kind, s.nextId)))
    ensures ToCome(env, t, c) == if on then Raised([], pairs, w.resId) else []
  {
    PairsOfCommand(env, s, w);
    WeakPackEffect(env.cfg, c, pairs, on, s.nextId, ToCome(env, s, c));
    OffEmpties(pairs, w.resId);
    NoPairsRaised(w.resId);
    assert c.resId == w.resId;
    hide WfSys, Alone, Tidy, ToCome, Fit, Raised, Lowered, PackOps, OpsEffect, TaskOk, WatchedPairs, WatchedChannel, AllPairs, WeakItems;
    if pairs == [] {
      SameQueueToCome(env, s, t, c);
    } else {
      TaskToCome(env, s, t, c, Pack(WeakItems(pairs, c.cmdId, on, c.kind, s.nextId)));
    }
  }

  lemma NoPairsRaised(r: int)
    ensures Raised([], [], r) == []
  {
  }

  lemma SameTidy(env: Env, s: Sys, t: Sys, c: Channel)
    requires WfSys(env, s) && WfSys(env, t) && ChannelOk(env.cfg, c) && t.arb == s.arb && Tidy(env.cfg, s.arb, c)
    ensures Tidy(env.cfg, t.arb, c)
  {
  }

  lemma PairsOfCommand(env: Env, s: Sys, w: Watch)
    requires WfSys(env, s) && Alone(env, s.inter, w)
    ensures PairsOk(WatchedPairs(env, s.inter, w)) && PERF <= s.inter[w.index].actionType <= PERFLVL
    ensures forall k :: 0 <= k < |WatchedPairs(env, s.inter, w)| ==> WatchedPairs(env, s.inter, w)[k].0 in env.cfg.nodes
  {
  }

  lemma OwnDoWeakQueue(env: Env, s: Sys, w: Watch, c: Channel, pairs: seq<(int, int)>, on: bool, status: InterStatus)
    requires w.index < |s.inter| && ModeId(w.perf, s.inter[w.index].cmdId) in env.commands && (s.inter[w.index].cmdId == WEAK_CMD_ID ==> s.perfMode == w.perf)
    requires c == WatchedChannel(env, s.inter, w) && pairs == WatchedPairs(env, s.inter, w)
    ensures var t := DoWeak(env, SetInter(s, w.index, status, s.inter[w.index].timer), w.index, on);
      && t.arb == s.arb && t.perfMode == s.perfMode && t.inter == s.inter[w.index := s.inter[w.index].(status := status)]
      && t.q == if pairs == [] then s.q else Submit(s.q, Pack(WeakItems(pairs, c.cmdId, on, c.kind, s.nextId)))
  {
  }

  // ---- the automaton ----------------------------------------------------------------------------------------------

  /** Nothing the channel depends on has changed. */
  lemma LiveSame(env: Env, s: Sys, t: Sys, w: Watch, c: Channel, pairs: seq<(int, int)>)
    requires LiveOk(env, s, w, c, pairs) && WfSys(env, t) && t.arb.info == s.arb.info && t.q.ready == s.q.ready
    requires s.inter[w.index].cmdId == WEAK_CMD_ID ==> t.perfMode == s.perfMode
    requires |t.inter| == |s.inter| && forall k :: 0 <= k < |s.inter| ==> SameIdentity(s.inter[k], t.inter[k])
    requires w.left.Some? || t.inter[w.index].status.WeakStatus? == s.inter[w.index].status.WeakStatus?
    requires forall h :: h in t.q.timers ==>
      (h in s.q.timers && t.q.timers[h] == s.q.timers[h]) || (Avoids(c, t.q.timers[h].task) && KeepsMode(s.inter[w.index], t.q.timers[h].task))
    ensures LiveOk(env, t, w, c, pairs)
  {
    assert SameIdentity(s.inter[w.index], t.inter[w.index]);
    AloneSame(env, s.inter, t.inter, w);
    SameQueueToCome(env, s, t, c);
    hide WfSys, Alone, ToCome, Raised, Avoids, OwnPack, WatchedPairs, WatchedChannel;
  }

  /** A foreign task is submitted. */
  lemma SubmitLive(env: Env, s: Sys, t: Sys, w: Watch, c: Channel, pairs: seq<(int, int)>, task: Task)
    requires LiveOk(env, s, w, c, pairs) && WfSys(env, t) && t.arb == s.arb && t.q == Submit(s.q, task)
    requires t.perfMode == s.perfMode && |t.inter| == |s.inter| && forall k :: 0 <= k < |s.inter| ==> SameIdentity(s.inter[k], t.inter[k])
    requires w.left.Some? || t.inter[w.index].status.WeakStatus? == s.inter[w.index].status.WeakStatus?
    requires Avoids(c, task) && KeepsMode(s.inter[w.index], task)
    ensures LiveOk(env, t, w, c, pairs)
  {
    assert SameIdentity(s.inter[w.index], t.inter[w.index]);
    AloneSame(env, s.inter, t.inter, w);
    LastTaskOk(env, s, t, task);
    AvoidingEffect(env.cfg, c, task, ToCome(env, s, c));
    TaskToCome(env, s, t, c, task);
    SameTidy(env, s, t, c);
    FitMore(c, pairs, s.inter[w.index], s.q, t.q, task);
    hide WfSys, Alone, Tidy, ToCome, Raised, Avoids, TaskEffect, WatchedPairs, WatchedChannel;
    FitSame(c, pairs, s.inter[w.index], t.inter[w.index], t.q);
  }

  lemma LastTaskOk(env: Env, s: Sys, t: Sys, task: Task)
    requires WfSys(env, t) && t.q == Submit(s.q, task)
    ensures TaskOk(env.cfg, task)
  {
    ReadyTasksOk(env, t);
    assert t.q.ready[|s.q.ready|].task == task;
  }

  /** A weak pack is posted by another interaction, or in the other mode. */
  lemma OtherDoWeak(env: Env, s: Sys, w: Watch, c: Channel, pairs: seq<(int, int)>, j: nat, on: bool, status: InterStatus)
    requires LiveOk(env, s, w, c, pairs) && j < |s.inter| && (j != w.index || w.left.Some?)
    ensures LiveOk(env, DoWeak(env, SetInter(s, j, status, s.inter[j].timer), j, on), w, c, pairs)
  {
    var s1 := SetInter(s, j, status, s.inter[j].timer);
    var t := DoWeak(env, s1, j, on);
    DoWeakFrame(env, s1, j, on);
    OtherQueue(env, s, w, c, pairs, j, on, status);
    hide LiveOk, DoWeak, WfSys, Avoids;
    if t.q == s.q {
      LiveSame(env, s, t, w, c, pairs);
    } else {
      SubmitLive(env, s, t, w, c, pairs, t.q.ready[|s.q.ready|].task);
    }
  }

  lemma OtherQueue(env: Env, s: Sys, w: Watch, c: Channel, pairs: seq<(int, int)>, j: nat, on: bool, status: InterStatus)
    requires LiveOk(env, s, w, c, pairs) && j < |s.inter| && (j != w.index || w.left.Some?)
    ensures w.index < |s.inter|
    ensures var t := DoWeak(env, SetInter(s, j, status, s.inter[j].timer), j, on);
      && t.arb == s.arb && t.perfMode == s.perfMode && t.inter == s.inter[j := s.inter[j].(status := status)]
      && (t.q == s.q || (|t.q.ready| == |s.q.ready| + 1 && var task := t.q.ready[|s.q.ready|].task; t.q == Submit(s.q, task) && Avoids(c, task) && task.Pack?))
  {
    hide WfSys, Tidy, ToCome, Raised, Fit, WatchedPairs;
    var key := ModeCmdId(s, s.inter[j].cmdId);
    if key in env.commands {
      assert MayUse(env, s.inter[j], key);
    }
  }

  lemma WeakTimerFits(c: Channel, it: Inter, j: nat)
    ensures Avoids(c, WeakTimer(j)) && KeepsMode(it, WeakTimer(j))
  {
  }

  lemma WeakOneLive(env: Env, s: Sys, w: Watch, c: Channel, pairs: seq<(int, int)>, j: nat)
    requires LiveOk(env, s, w, c, pairs) && j < |s.inter|
    ensures LiveOk(env, WeakOne(env, s, j), w, c, pairs) && SameInter(s, WeakOne(env, s, j))
  {
    LiveFacts(env, s, w, c, pairs);
    WeakOneFrame(env, s, j);
    hide WfSys, LiveOk, DoWeak;
    if !s.inter[j].status.WeakStatus? || Quiet(s) {
      TimerTurnLive(env, s, w, c, pairs, j);
    } else if j == w.index && w.left.None? {
      OwnDoWeak(env, s, w, c, pairs, false, BoostStatus);
    } else {
      OtherDoWeak(env, s, w, c, pairs, j, false, BoostStatus);
    }
  }

  /** A turn that posts no pack: at most a timer is set or called off. */
  lemma TimerTurnIs(env: Env, s: Sys, j: nat)
    requires j < |s.inter| && (!s.inter[j].status.WeakStatus? || Quiet(s))
    ensures var t := WeakOne(env, s, j);
      && t.arb == s.arb && t.perfMode == s.perfMode && t.q.ready == s.q.ready && |t.inter| == |s.inter|
      && (forall k :: 0 <= k < |s.inter| ==> SameIdentity(s.inter[k], t.inter[k]) && t.inter[k].status.WeakStatus? == s.inter[k].status.WeakStatus?)
      && (forall h :: h in t.q.timers ==> (h in s.q.timers && t.q.timers[h] == s.q.timers[h]) || t.q.timers[h].task == WeakTimer(j))
  {
    hide DoWeak;
  }

  lemma TimerTurnLive(env: Env, s: Sys, w: Watch, c: Channel, pairs: seq<(int, int)>, j: nat)
    requires LiveOk(env, s, w, c, pairs) && j < |s.inter| && (!s.inter[j].status.WeakStatus? || Quiet(s))
    ensures LiveOk(env, WeakOne(env, s, j), w, c, pairs)
  {
    LiveFacts(env, s, w, c, pairs);
    WeakOneFrame(env, s, j);
    TimerTurnIs(env, s, j);
    WeakTimerFits(c, s.inter[w.index], j);
    hide WfSys, LiveOk, WeakOne, Avoids, KeepsMode, SameIdentity;
    LiveSame(env, s, WeakOne(env, s, j), w, c, pairs);
  }

  lemma {:induction false} WeakFromLive(env: Env, s: Sys, w: Watch, c: Channel, pairs: seq<(int, int)>, j: nat)
    requires LiveOk(env, s, w, c, pairs) && j <= |s.inter|
    ensures LiveOk(env, WeakFrom(env, s, j), w, c, pairs)
    decreases |s.inter| - j
  {
    hide LiveOk, WeakOne;
    if j < |s.inter| {
      WeakOneLive(env, s, w, c, pairs, j);
      WeakFromLive(env, WeakOne(env, s, j), w, c, pairs, j + 1);
    }
  }

  // ---- events -----------------------------------------------------------------------------------------------------

  lemma FitAfter(c: Channel, pairs: seq<(int, int)>, it: Inter, q: Queue, q1: Queue, task: Task)
    requires Fit(c, pairs, it, q)
    requires (q.ready != [] && task == q.ready[0].task && q1 == q.(ready := q.ready[1..]))
      || (Avoids(c, task) && q1.ready == q.ready && forall h :: h in q1.timers ==> h in q.timers && q1.timers[h] == q.timers[h])
    ensures Fit(c, pairs, it, q1) && (Avoids(c, task) || OwnPack(c, pairs, task))
  {
    hide Avoids, OwnPack, KeepsMode;
  }

  /** Running a task moves its effect from the queue to the channel, or it has none. */
  lemma ActedToCome(env: Env, s: Sys, t: Sys, c: Channel, task: Task)
    requires WfSys(env, s) && WfSys(env, t) && ChannelOk(env.cfg, c) && TaskOk(env.cfg, task)
    requires Now(env.cfg, t.arb, c) == TaskEffect(env.cfg, c, task, Now(env.cfg, s.arb, c))
    requires (s.q.ready != [] && task == s.q.ready[0].task && t.q.ready == s.q.ready[1..]) || (Avoids(c, task) && t.q.ready == s.q.ready)
    ensures ToCome(env, t, c) == ToCome(env, s, c)
  {
    ReadyTasksOk(env, s);
    if t.q.ready == s.q.ready && Avoids(c, task) {
      hide TaskOk, CommandsOk, QueueOk, Drained;
      AvoidingEffect(env.cfg, c, task, Now(env.cfg, s.arb, c));
    } else {
      hide TaskOk, CommandsOk, QueueOk, Avoids;
      DrainedHead(env.cfg, c, s.q.ready, Now(env.cfg, s.arb, c));
    }
  }

  /** A task has acted on the arbiter. */
  lemma ActedLive(env: Env, s: Sys, s1: Sys, w: Watch, c: Channel, pairs: seq<(int, int)>, task: Task, order: seq<int>)
    requires LiveOk(env, s, w, c, pairs) && QueuedOk(env.cfg, task, |s.inter|) && Visits(order, env.cfg.nodes.Keys)
    requires s1 == s.(q := s1.q) && WfSys(env, s1)
    requires (s.q.ready != [] && task == s.q.ready[0].task && s1.q == s.q.(ready := s.q.ready[1..]))
      || (Avoids(c, task) && s1.q.ready == s.q.ready && forall h :: h in s1.q.timers ==> h in s.q.timers && s1.q.timers[h] == s.q.timers[h])
    ensures var t := s1.(arb := Step(env.cfg, s.arb, Do(task, order))); LiveOk(env, t, w, c, pairs)
  {
    var t := s1.(arb := Step(env.cfg, s.arb, Do(task, order)));
    hide Step, Alone, Avoids, OwnPack, TaskEffect, WatchedPairs, WatchedChannel, Raised, CommandsOk, QueueOk, TaskRespects, WfConfig, Tidy, Now, TaskOk, Fit, ToCome;
    FitAfter(c, pairs, s.inter[w.index], s.q, s1.q, task);
    FitRespects(env.cfg, c, pairs, task);
    StepChannel(env.cfg, s.arb, task, order, c);
    ActedToCome(env, s, t, c, task);
  }

  lemma RunTaskLive(env: Env, s: Sys, s1: Sys, w: Watch, c: Channel, pairs: seq<(int, int)>, task: Task, order: seq<int>)
    requires LiveOk(env, s, w, c, pairs) && QueuedOk(env.cfg, task, |s.inter|) && Visits(order, env.cfg.nodes.Keys)
    requires s1 == s.(q := s1.q) && WfSys(env, s1) && !task.WeakTimer? && KeepsMode(s.inter[w.index], task)
    requires (s.q.ready != [] && task == s.q.ready[0].task && s1.q == s.q.(ready := s.q.ready[1..]))
      || (Avoids(c, task) && s1.q.ready == s.q.ready && forall h :: h in s1.q.timers ==> h in s.q.timers && s1.q.timers[h] == s.q.timers[h])
    ensures LiveOk(env, RunTask(env, s1, task, order), w, c, pairs)
  {
    ActedLive(env, s, s1, w, c, pairs, task, order);
    hide LiveOk, Step, WfSys, WeakFrom, Send, Avoids;
    AfterwardsLive(env, s1.(arb := Step(env.cfg, s.arb, Do(task, order))), s1, w, c, pairs, task, order);
  }

  /** What a task goes on to do once it has acted on the arbiter. */
  lemma AfterwardsLive(env: Env, acted: Sys, s1: Sys, w: Watch, c: Channel, pairs: seq<(int, int)>, task: Task, order: seq<int>)
    requires WfSys(env, s1) && QueuedOk(env.cfg, task, |s1.inter|) && Visits(order, env.cfg.nodes.Keys) && !task.WeakTimer?
    requires LiveOk(env, acted, w, c, pairs) && KeepsMode(acted.inter[w.index], task)
    requires acted == s1.(arb := Step(env.cfg, s1.arb, Do(task, order)))
    ensures LiveOk(env, RunTask(env, s1, task, order), w, c, pairs)
  {
    hide LiveOk, Step, WfSys, WeakFrom, Delta, CurrentReport;
    LiveFacts(env, acted, w, c, pairs);
    SysParts(env, s1);
    match task
    case SetWeak(on) =>
      NoStep(env.cfg, s1.arb, task, order);
      SettingOk(env, s1, on, s1.perfMode);
      LiveSame(env, acted, s1.(weakOn := on), w, c, pairs);
      WeakFromLive(env, s1.(weakOn := on), w, c, pairs, 0);
    case SetPerfMode(on) =>
      NoStep(env.cfg, s1.arb, task, order);
      SettingOk(env, s1, s1.weakOn, on);
      LiveSame(env, acted, s1.(perfMode := on), w, c, pairs);
    case WeakTimer(_) => assert false;
    case _ => SendLive(env, acted, w, c, pairs);
  }

  lemma SendLive(env: Env, s: Sys, w: Watch, c: Channel, pairs: seq<(int, int)>)
    requires LiveOk(env, s, w, c, pairs)
    ensures LiveOk(env, WeakInteraction(env, Send(env, s)), w, c, pairs)
  {
    LiveFacts(env, s, w, c, pairs);
    SendWf(env, s);
    hide LiveOk, WfSys, WeakFrom, Delta, CurrentReport;
    LiveSame(env, s, Send(env, s), w, c, pairs);
    WeakFromLive(env, Send(env, s), w, c, pairs, 0);
  }

  lemma LiveFacts(env: Env, s: Sys, w: Watch, c: Channel, pairs: seq<(int, int)>)
    requires LiveOk(env, s, w, c, pairs)
    ensures WfSys(env, s) && w.index < |s.inter|
  {
  }

  lemma SettingOk(env: Env, s: Sys, weakOn: bool, perfMode: bool)
    requires WfSys(env, s)
    ensures WfSys(env, s.(weakOn := weakOn)) && WfSys(env, s.(perfMode := perfMode))
  {
  }

  /** What may be asked of the service while the interaction is watched. */
  predicate Leaves(c: Channel, it: Inter, e: SysEvent) {
    match e
    case Request(items, _) => Avoids(c, Pack(items))
    case Post(task) => Avoids(c, task) && KeepsMode(it, task)
    case _ => true
  }

  lemma {:induction false} AvoidingSome(c: Channel, items: seq<Item>, d: int)
    requires Avoids(c, Expiry(items))
    ensures Avoids(c, Expiry(WithDuration(items, d)))
  {
    if items != [] {
      assert forall k :: 0 <= k < |items[1..]| ==> items[1..][k] == items[k + 1];
      AvoidingSome(c, items[1..], d);
    }
  }

  lemma {:induction false} PostExpiriesForeign(q: Queue, items: seq<Item>, durations: seq<int>, c: Channel)
    requires Avoids(c, Expiry(items)) && forall h :: h in q.timers ==> h < q.nextHandle
    ensures var p := PostExpiries(q, items, durations);
      && p.ready == q.ready
      && forall h :: h in p.timers ==> (h in q.timers && p.timers[h] == q.timers[h]) || (Avoids(c, p.timers[h].task) && p.timers[h].task.Expiry?)
    decreases |durations|
  {
    if durations != [] {
      AvoidingSome(c, items, durations[0]);
      hide Avoids, WithDuration;
      PostExpiriesForeign(SubmitDelayed(q, Expiry(WithDuration(items, durations[0])), durations[0] * MICROS), items, durations[1..], c);
    }
  }

  lemma RequestLive(env: Env, s: Sys, w: Watch, c: Channel, pairs: seq<(int, int)>, items: seq<Item>, durations: seq<int>)
    requires LiveOk(env, s, w, c, pairs) && Enabled(env, s, Request(items, durations)) && Avoids(c, Pack(items))
    ensures LiveOk(env, SysStep(env, s, Request(items, durations)), w, c, pairs)
  {
    var t := SysStep(env, s, Request(items, durations));
    SysStepOk(env, s, Request(items, durations));
    var s1 := s.(q := Submit(s.q, Pack(items)));
    assert WfSys(env, s1);
    assert Avoids(c, Expiry(items)) && forall h :: h in s1.q.timers ==> h < s1.q.nextHandle;
    PostExpiriesForeign(s1.q, items, durations, c);
    SubmitLive(env, s, s1, w, c, pairs, Pack(items));
    hide LiveOk, WfSys, Avoids, PostExpiries;
    LiveSame(env, s1, t, w, c, pairs);
  }

  lemma FireWeakIs(env: Env, s: Sys, i: nat, order: seq<int>)
    requires WfConfig(env.cfg) && Ready(env.cfg, s.arb) && Visits(order, env.cfg.nodes.Keys) && i < |s.inter|
    ensures RunTask(env, s, WeakTimer(i), order) == DoWeak(env, SetInter(s, i, WeakStatus, s.inter[i].timer), i, true)
  {
    hide DoWeak;
  }

  lemma TimerMeans(s: Sys, h: nat)
    requires AutomatonOk(s) && h in s.q.timers && s.q.timers[h].task.WeakTimer?
    ensures var i := s.q.timers[h].task.index; i < |s.inter| && s.inter[i].status.BoostEnd?
  {
    assert HandleOk(s, h);
  }

  lemma FireWeakLive(env: Env, s: Sys, w: Watch, c: Channel, pairs: seq<(int, int)>, h: nat, order: seq<int>)
    requires LiveOk(env, s, w, c, pairs) && AutomatonOk(s) && h in s.q.timers && s.q.timers[h].task.WeakTimer? && Visits(order, env.cfg.nodes.Keys)
    requires WfSys(env, s.(q := Cancel(s.q, h))) && QueuedOk(env.cfg, s.q.timers[h].task, |s.inter|)
    ensures LiveOk(env, RunTask(env, s.(q := Cancel(s.q, h)), s.q.timers[h].task, order), w, c, pairs)
  {
    var i := s.q.timers[h].task.index;
    LiveFacts(env, s, w, c, pairs);
    TimerMeans(s, h);
    var s1 := s.(q := Cancel(s.q, h));
    FireWeakIs(env, s1, i, order);
    hide LiveOk, WfSys, AutomatonOk, DoWeak, Avoids, RunTask;
    LiveSame(env, s, s1, w, c, pairs);
    if i == w.index && w.left.None? {
      OwnDoWeak(env, s1, w, c, pairs, true, WeakStatus);
    } else {
      OtherDoWeak(env, s1, w, c, pairs, i, true, WeakStatus);
    }
  }

  lemma RunNextLive(env: Env, s: Sys, w: Watch, c: Channel, pairs: seq<(int, int)>, order: seq<int>)
    requires LiveOk(env, s, w, c, pairs) && AutomatonOk(s) && Enabled(env, s, RunNext(order))
    ensures LiveOk(env, SysStep(env, s, RunNext(order)), w, c, pairs)
  {
    var s1, task := s.(q := s.q.(ready := s.q.ready[1..])), s.q.ready[0].task;
    assert WfSys(env, s1) && QueuedOk(env.cfg, task, |s.inter|);
    assert KeepsMode(s.inter[w.index], task) && !task.WeakTimer?;
    hide LiveOk, WfSys, QueuedOk, AutomatonOk, RunTask, Avoids;
    RunTaskLive(env, s, s1, w, c, pairs, task, order);
  }

  lemma FireLive(env: Env, s: Sys, w: Watch, c: Channel, pairs: seq<(int, int)>, h: nat, order: seq<int>)
    requires LiveOk(env, s, w, c, pairs) && AutomatonOk(s) && Enabled(env, s, Fire(h, order))
    ensures LiveOk(env, SysStep(env, s, Fire(h, order)), w, c, pairs)
  {
    var s1, task := s.(q := Cancel(s.q, h)), s.q.timers[h].task;
    assert WfSys(env, s1) && QueuedOk(env.cfg, task, |s.inter|);
    assert KeepsMode(s.inter[w.index], task) && Avoids(c, task);
    hide LiveOk, WfSys, QueuedOk, AutomatonOk, RunTask, Avoids;
    if task.WeakTimer? {
      FireWeakLive(env, s, w, c, pairs, h, order);
    } else {
      RunTaskLive(env, s, s1, w, c, pairs, task, order);
    }
  }

  lemma SysStepLive(env: Env, s: Sys, w: Watch, c: Channel, pairs: seq<(int, int)>, e: SysEvent)
    requires LiveOk(env, s, w, c, pairs) && AutomatonOk(s) && Enabled(env, s, e) && Leaves(c, s.inter[w.index], e)
    ensures LiveOk(env, SysStep(env, s, e), w, c, pairs) && SameInter(s, SysStep(env, s, e))
  {
    var t := SysStep(env, s, e);
    LiveFacts(env, s, w, c, pairs);
    SysStepOk(env, s, e);
    InterKept(env, s, e);
    hide LiveOk, WfSys, RunTask, PostExpiries, Avoids, AutomatonOk;
    match e
    case Request(items, durations) => RequestLive(env, s, w, c, pairs, items, durations);
    case Post(task) => SubmitLive(env, s, t, w, c, pairs, task);
    case SetThermal(level) => LiveSame(env, s, t, w, c, pairs);
    case Tick(to) => LiveSame(env, s, t, w, c, pairs);
    case RunNext(order) => RunNextLive(env, s, w, c, pairs, order);
    case Fire(h, order) => FireLive(env, s, w, c, pairs, h, order);
  }

  lemma InterKept(env: Env, s: Sys, e: SysEvent)
    requires WfSys(env, s) && Enabled(env, s, e)
    ensures SameInter(s, SysStep(env, s, e))
  {
    hide RunTask, PostExpiries, CommandsOk, WfConfig;
    match e
    case RunNext(order) => RunTaskOk(env, s.(q := s.q.(ready := s.q.ready[1..])), s.q.ready[0].task, order);
    case Fire(h, order) => RunTaskOk(env, s.(q := Cancel(s.q, h)), s.q.timers[h].task, order);
    case _ =>
  }

  // ---- runs -------------------------------------------------------------------------------------------------------

  lemma {:induction false} SysRunLive(env: Env, s: Sys, w: Watch, c: Channel, pairs: seq<(int, int)>, es: seq<SysEvent>)
    requires LiveOk(env, s, w, c, pairs) && AutomatonOk(s) && Possible(env, s, es)
    requires forall k :: 0 <= k < |es| ==> Leaves(c, s.inter[w.index], es[k])
    ensures LiveOk(env, SysRun(env, s, es), w, c, pairs)
    decreases |es|
  {
    hide LiveOk, WfSys, SysStep, Enabled, AutomatonOk, Avoids;
    LiveFacts(env, s, w, c, pairs);
    if es != [] {
      var t := SysStep(env, s, es[0]);
      SysStepOk(env, s, es[0]);
      SysStepAutomaton(env, s, es[0]);
      SysStepLive(env, s, w, c, pairs, es[0]);
      forall k | 0 <= k < |es[1..]| ensures Leaves(c, t.inter[w.index], es[1..][k]) {
        assert Leaves(c, s.inter[w.index], es[k + 1]);
      }
      SysRunLive(env, t, w, c, pairs, es[1..]);
    }
  }

  /** A moment at which the interaction may begin to be watched: it is not weak, the mode is the watched one,
      nothing of its command is live on the resource, and nothing submitted so far is of its type and command. */
  ghost predicate Begins(env: Env, s: Sys, w: Watch) {
    && Alone(env, s.inter, w) && w.left.None? && !s.inter[w.index].status.WeakStatus?
    && (s.inter[w.index].cmdId == 9101 ==> s.perfMode == w.perf)
    && var c := WatchedChannel(env, s.inter, w);
    && c.resId in s.arb.info && 0 <= c.kind < |s.arb.info[c.resId].lists|
    && (forall x :: x in s.arb.info[c.resId].lists[c.kind] ==> x.cmdId != c.cmdId)
    && (forall k :: 0 <= k < |s.q.ready| ==> Avoids(c, s.q.ready[k].task) && KeepsMode(s.inter[w.index], s.q.ready[k].task))
    && (forall h :: h in s.q.timers ==> Avoids(c, s.q.timers[h].task) && KeepsMode(s.inter[w.index], s.q.timers[h].task))
  }

  lemma {:induction false} NoValues(l: Live, cmdId: int)
    requires forall x :: x in l ==> x.cmdId != cmdId
    ensures ValuesOf(l, cmdId) == []
  {
    if l != [] {
      assert l[0] in l && forall x :: x in l[1..] ==> x in l;
      NoValues(l[1..], cmdId);
    }
  }

  lemma {:induction false} AvoidingDrained(cfg: Config, c: Channel, ready: seq<Queued>, vs: seq<int>)
    requires WfConfig(cfg) && forall k :: 0 <= k < |ready| ==> TaskOk(cfg, ready[k].task) && Avoids(c, ready[k].task)
    ensures Drained(cfg, c, ready, vs) == vs
    decreases |ready|
  {
    hide TaskOk, Avoids, TaskEffect, WfConfig;
    if ready != [] {
      AvoidingEffect(cfg, c, ready[0].task, vs);
      AvoidingDrained(cfg, c, ready[1..], vs);
    }
  }

  lemma BeginsLive(env: Env, s: Sys, w: Watch)
    requires WfSys(env, s) && Begins(env, s, w)
    ensures LiveOk(env, s, w, WatchedChannel(env, s.inter, w), WatchedPairs(env, s.inter, w))
  {
    var c := WatchedChannel(env, s.inter, w);
    ReadyTasksOk(env, s);
    NoValues(s.arb.info[c.resId].lists[c.kind], c.cmdId);
    AvoidingDrained(env.cfg, c, s.q.ready, []);
    hide Avoids, WfConfig, CommandsOk, QueueOk, Drained, Alone;
  }

  /** At start-up every interaction may begin to be watched in the normal mode. */
  lemma StartBegins(env: Env, inter: seq<Inter>, w: Watch)
    requires Start(env, inter) && Alone(env, inter, w) && !w.perf && w.left.None?
    ensures WfSys(env, InitSys(env, inter)) && Begins(env, InitSys(env, inter), w)
  {
    StartOk(env, inter);
  }

  /** With nothing waiting to run, a mode task that is posted runs next and does nothing else. */
  lemma FlipRuns(env: Env, s: Sys, on: bool, order: seq<int>)
    requires WfSys(env, s) && s.q.ready == [] && Visits(order, env.cfg.nodes.Keys)
    ensures var es := [Post(SetPerfMode(on)), RunNext(order)];
      WfSys(env, s.(perfMode := on)) && Possible(env, s, es) && SysRun(env, s, es) == s.(perfMode := on)
  {
    var es := [Post(SetPerfMode(on)), RunNext(order)];
    SysStepOk(env, s, es[0]);
    var s1 := SysStep(env, s, es[0]);
    assert s1.q.ready[1..] == [] && s1.q.ready[0].task == SetPerfMode(on);
    SysStepOk(env, s1, es[1]);
    var s2 := SysStep(env, s1, es[1]);
    assert s2 == s.(perfMode := on);
    hide WfSys, SysStep, Enabled;
    assert es[1..] == [es[1]] && es[1..][1..] == [];
    assert Possible(env, s2, []) && SysRun(env, s2, []) == s2;
    assert Possible(env, s1, [es[1]]) && SysRun(env, s1, [es[1]]) == s2;
    assert Possible(env, s, es) && SysRun(env, s, es) == SysRun(env, s1, [es[1]]);
  }

  /** And in the performance mode once it has been switched on. */
  lemma ModeBegins(env: Env, inter: seq<Inter>, w: Watch, order: seq<int>)
    requires Start(env, inter) && Alone(env, inter, w) && w.perf && w.left.None? && Visits(order, env.cfg.nodes.Keys)
    ensures var es := [Post(SetPerfMode(true)), RunNext(order)];
      Feasible(env, inter, es) && ReachSys(env, inter, es).perfMode && Begins(env, ReachSys(env, inter, es), w)
  {
    StartOk(env, inter);
    FlipRuns(env, InitSys(env, inter), true, order);
    hide Possible, SysRun;
  }

  /** From such a moment on, in every run that leaves the interaction's type and command to it and does not change
      its performance mode: once the queued packs have run, a value is live for its command on the resource exactly
      while the interaction is weak and the command in force lists that value, and then exactly once. */
  lemma LiveExactlyWhenWeak(env: Env, inter: seq<Inter>, before: seq<SysEvent>, es: seq<SysEvent>, w: Watch)
    requires Feasible(env, inter, before) && Begins(env, ReachSys(env, inter, before), w) && Possible(env, ReachSys(env, inter, before), es)
    requires var s := ReachSys(env, inter, before);
      forall k :: 0 <= k < |es| ==> Leaves(WatchedChannel(env, s.inter, w), s.inter[w.index], es[k])
    ensures var s := SysRun(env, ReachSys(env, inter, before), es);
      && w.index < |s.inter| && CommandInForce(s.inter[w.index].cmdId, w.perf) in env.commands
      && var command := env.commands[CommandInForce(s.inter[w.index].cmdId, w.perf)];
      var c := Channel(w.resId, s.inter[w.index].actionType, command.id);
      && ChannelOk(env.cfg, c) && Once(ToCome(env, s, c))
      && forall v :: v in ToCome(env, s, c) <==> s.inter[w.index].status.WeakStatus? && Lists(env.cfg, command.actionList, w.resId, v)
  {
    var mid := ReachSys(env, inter, before);
    var c, pairs := WatchedChannel(env, mid.inter, w), WatchedPairs(env, mid.inter, w);
    ReachLive(env, inter, before, es, w);
    hide Feasible, ReachSys, WfSys, Possible, Alone, Begins, Lists;
    RaisedOnce([], pairs, w.resId);
    WatchedLists(env, SysRun(env, mid, es), w, c, pairs);
  }

  lemma WatchedLists(env: Env, s: Sys, w: Watch, c: Channel, pairs: seq<(int, int)>)
    requires LiveOk(env, s, w, c, pairs)
    ensures CommandInForce(s.inter[w.index].cmdId, w.perf) in env.commands
    ensures var command := env.commands[CommandInForce(s.inter[w.index].cmdId, w.perf)];
      && c == Channel(w.resId, s.inter[w.index].actionType, command.id)
      && forall v :: (w.resId, v) in pairs <==> Lists(env.cfg, command.actionList, w.resId, v)
  {
    hide WfSys, ToCome, Tidy, Fit, Lists;
    forall v ensures (w.resId, v) in pairs <==> Lists(env.cfg, WatchedActions(env, s.inter, w).actionList, w.resId, v) {
      PairsListed(env.cfg, WatchedActions(env, s.inter, w).actionList, w.resId, v);
    }
  }

  /** In particular, whenever no task is waiting to run: the list has a request of the command in force for a value
      exactly while the interaction is weak and the command lists it. */
  lemma LiveWhenDrained(env: Env, inter: seq<Inter>, before: seq<SysEvent>, es: seq<SysEvent>, w: Watch, v: int)
    requires Feasible(env, inter, before) && Begins(env, ReachSys(env, inter, before), w) && Possible(env, ReachSys(env, inter, before), es)
    requires var s := ReachSys(env, inter, before);
      forall k :: 0 <= k < |es| ==> Leaves(WatchedChannel(env, s.inter, w), s.inter[w.index], es[k])
    requires SysRun(env, ReachSys(env, inter, before), es).q.ready == []
    ensures var s := SysRun(env, ReachSys(env, inter, before), es);
      && w.index < |s.inter| && w.resId in env.cfg.nodes && CommandInForce(s.inter[w.index].cmdId, w.perf) in env.commands
      && var it, command := s.inter[w.index], env.commands[CommandInForce(s.inter[w.index].cmdId, w.perf)];
      && ((exists x :: x in s.arb.info[w.resId].lists[it.actionType] && x.cmdId == command.id && x.value == v)
          <==> it.status.WeakStatus? && Lists(env.cfg, command.actionList, w.resId, v))
  {
    LiveExactlyWhenWeak(env, inter, before, es, w);
    hide Feasible, Leaves, WfSys, WatchedPairs, Alone, Begins, Possible, Lists;
    var s := SysRun(env, ReachSys(env, inter, before), es);
    var it, command := s.inter[w.index], env.commands[CommandInForce(s.inter[w.index].cmdId, w.perf)];
    NothingQueued(env, s, Channel(w.resId, it.actionType, command.id));
    ValuesMember(s.arb.info[w.resId].lists[it.actionType], command.id, v);
  }

  // ---- a mode that changes while the interaction is weak --------------------------------------------------------

  lemma Flipped(env: Env, s: Sys, w: Watch, c: Channel, pairs: seq<(int, int)>)
    requires LiveOk(env, s, w, c, pairs) && w.left.None? && s.q.ready == [] && s.inter[w.index].cmdId == 9101
    requires var other := CommandInForce(9101, !w.perf); other in env.commands ==> env.commands[other].id != c.cmdId
    ensures LiveOk(env, s.(perfMode := !w.perf), w.(left := Some(ToCome(env, s, c))), c, pairs)
  {
    var t, x := s.(perfMode := !w.perf), w.(left := Some(ToCome(env, s, c)));
    SettingOk(env, s, s.weakOn, !w.perf);
    SameQueueToCome(env, s, t, c);
    assert Alone(env, t.inter, x) && WatchedChannel(env, t.inter, x) == c && WatchedPairs(env, t.inter, x) == pairs;
    hide WfSys, Alone, ToCome, Tidy, Raised, Avoids, OwnPack, WatchedPairs, WatchedChannel;
  }

  /** After such a stretch, with nothing waiting to run, the performance mode is switched. From then on, for as long as
      the mode stays, the values of the command that was in force are live exactly if the interaction was weak at the
      switch, whatever it does afterwards: its packs are now those of the other command and take none of them back. */
  lemma ModeStrands(env: Env, inter: seq<Inter>, before: seq<SysEvent>, es: seq<SysEvent>, w: Watch, order: seq<int>, after: seq<SysEvent>, v: int)
    requires Feasible(env, inter, before) && Begins(env, ReachSys(env, inter, before), w) && Possible(env, ReachSys(env, inter, before), es)
    requires var s := ReachSys(env, inter, before);
      forall k :: 0 <= k < |es| ==> Leaves(WatchedChannel(env, s.inter, w), s.inter[w.index], es[k])
    requires var s := SysRun(env, ReachSys(env, inter, before), es);
      && s.q.ready == [] && Visits(order, env.cfg.nodes.Keys) && w.index < |s.inter| && s.inter[w.index].cmdId == 9101
      && CommandInForce(9101, w.perf) in env.commands
      && (CommandInForce(9101, !w.perf) in env.commands ==>
            env.commands[CommandInForce(9101, !w.perf)].id != env.commands[CommandInForce(9101, w.perf)].id)
      && (SettingOk(env, s, s.weakOn, !w.perf); Possible(env, s.(perfMode := !w.perf), after))
      && forall k :: 0 <= k < |after| ==>
           Leaves(Channel(w.resId, s.inter[w.index].actionType, env.commands[CommandInForce(9101, w.perf)].id), s.inter[w.index], after[k])
    ensures var s := SysRun(env, ReachSys(env, inter, before), es);
      var flip, t := [Post(SetPerfMode(!w.perf)), RunNext(order)], s.(perfMode := !w.perf);
      && Possible(env, s, flip) && WfSys(env, t) && SysRun(env, s, flip) == t
      && var command, kind, u := env.commands[CommandInForce(9101, w.perf)], s.inter[w.index].actionType, SysRun(env, t, after);
      && w.resId in u.arb.info && 0 <= kind < |u.arb.info[w.resId].lists|
      && (u.q.ready == [] ==>
            ((exists x :: x in u.arb.info[w.resId].lists[kind] && x.cmdId == command.id && x.value == v)
             <==> s.inter[w.index].status.WeakStatus? && Lists(env.cfg, command.actionList, w.resId, v)))
  {
    var mid := ReachSys(env, inter, before);
    var c, pairs := WatchedChannel(env, mid.inter, w), WatchedPairs(env, mid.inter, w);
    var s := SysRun(env, mid, es);
    ReachLive(env, inter, before, es, w);
    hide Feasible, ReachSys, Begins;
    FlipRuns(env, s, !w.perf, order);
    WatchedLists(env, s, w, c, pairs);
    Flipped(env, s, w, c, pairs);
    var t, x := s.(perfMode := !w.perf), w.(left := Some(ToCome(env, s, c)));
    hide WfSys, Possible, AutomatonOk, Leaves, Lists, LiveOk;
    AutomatonKept(s, t);
    SysRunLive(env, t, x, c, pairs, after);
    Stranded(env, s, SysRun(env, t, after), w, x, c, pairs, v);
  }

  lemma ReachLive(env: Env, inter: seq<Inter>, before: seq<SysEvent>, es: seq<SysEvent>, w: Watch)
    requires Feasible(env, inter, before) && Begins(env, ReachSys(env, inter, before), w) && Possible(env, ReachSys(env, inter, before), es)
    requires var s := ReachSys(env, inter, before);
      forall k :: 0 <= k < |es| ==> Leaves(WatchedChannel(env, s.inter, w), s.inter[w.index], es[k])
    ensures var mid := ReachSys(env, inter, before);
      var s := SysRun(env, mid, es);
      && w.left.None? && AutomatonOk(s) && LiveOk(env, s, w, WatchedChannel(env, mid.inter, w), WatchedPairs(env, mid.inter, w))
  {
    var mid := ReachSys(env, inter, before);
    var c, pairs := WatchedChannel(env, mid.inter, w), WatchedPairs(env, mid.inter, w);
    StartOk(env, inter);
    StartAutomaton(env, inter);
    SysRunAutomaton(env, InitSys(env, inter), before);
    BeginsLive(env, mid, w);
    hide WfSys, Possible, AutomatonOk, Alone, Avoids, Begins;
    SysRunLive(env, mid, w, c, pairs, es);
    SysRunAutomaton(env, mid, es);
  }

  /** What was due at the switch is what the list has now. */
  lemma Stranded(env: Env, s: Sys, u: Sys, w: Watch, x: Watch, c: Channel, pairs: seq<(int, int)>, v: int)
    requires LiveOk(env, s, w, c, pairs) && w.left.None? && LiveOk(env, u, x, c, pairs) && x.left == Some(ToCome(env, s, c))
    ensures c.resId in u.arb.info && 0 <= c.kind < |u.arb.info[c.resId].lists|
    ensures u.q.ready == [] ==>
      ((exists y :: y in u.arb.info[c.resId].lists[c.kind] && y.cmdId == c.cmdId && y.value == v)
       <==> s.inter[w.index].status.WeakStatus? && (w.resId, v) in pairs)
  {
    RaisedOnce([], pairs, w.resId);
    hide WfConfig, CommandsOk, QueueOk, Alone, Tidy, Fit, WatchedChannel, WatchedPairs, Raised, ToCome;
    if u.q.ready == [] {
      NothingQueued(env, u, c);
      ValuesMember(u.arb.info[c.resId].lists[c.kind], c.cmdId, v);
    }
  }

  lemma NothingQueued(env: Env, s: Sys, c: Channel)
    requires WfSys(env, s) && ChannelOk(env.cfg, c) && s.q.ready == []
    ensures ToCome(env, s, c) == ValuesOf(s.arb.info[c.resId].lists[c.kind], c.cmdId)
  {
    ReadyTasksOk(env, s);
  }
}
