/** What clients' limit requests come to: the records, the lists they are filed on and the values applied. */
module LimitRequests {
  import opened Common
  import opened Config
  import opened Levels
  import opened LiveList
  import opened Arbitration
  import opened ArbiterState
  import opened Tasks
  import opened System
  import opened SystemRuns
  import opened Channels
  import opened RunTheorems
  import opened LimitProtocol

  // ---- the records -------------------------------------------------------------------------------------------

  /** A tag names a resource by its id, or by its level id. */
  predicate Names(tag: int, r: int) {
    tag == r || tag == r + 10000
  }

  /** One tag: the record it leaves of its resource, and those it leaves alone. */
  lemma TagRecorded(env: Env, f: Front, client: int, tag: int, value: int, r: int)
    requires FrontOk(env, f) && IsClient(client) && LimitValueOk(tag, value) && r in env.cfg.nodes && Names(tag, r)
    ensures var g := SetLimit(env.cfg, f, client, tag, value);
      var other := if tag == r then r + 10000 else r;
      && ((client, tag) in g.limits <==> value != -1 && value != -0x8000_0000)
      && ((client, tag) in g.limits ==> g.limits[(client, tag)] == value) && (client, other) !in g.limits
  {
    hide *;
    FrontParts(env, f);
    NamesMeans(env.cfg, tag, r);
    SetLimitMeans(env.cfg, f, client, tag, value, r);
    var g := LimitOff(f, client, r, false);
    Withdrawn(env.cfg, f, client, r, false);
    Withdrawn(env.cfg, g, client, r + 10000, true);
    Filed(LimitOff(g, client, r + 10000, true), client, tag, value, tag > 10000);
  }

  lemma NamesMeans(cfg: Config, tag: int, r: int)
    requires WfConfig(cfg) && r in cfg.nodes && Names(tag, r)
    ensures 0 < r < 10000 && (tag == r || tag == r + 10000)
  {
    KnownIds(cfg, r);
  }

  lemma SetLimitMeans(cfg: Config, f: Front, client: int, tag: int, value: int, r: int)
    requires r in cfg.nodes && r < 10000 && (tag == r || tag == r + 10000)
    requires RecordsOk(cfg, f.limits) && WfConfig(cfg)
    ensures SetLimit(cfg, f, client, tag, value) ==
      LimitOn(LimitOff(LimitOff(f, client, r, false), client, r + 10000, true), client, tag, value, tag > 10000)
  {
    hide LimitOff, LimitOn, RecordsOk, WfPair;
    KnownIds(cfg, r);
  }

  lemma KnownIds(cfg: Config, r: int)
    requires WfConfig(cfg) && r in cfg.nodes
    ensures 1000 <= r <= 5999
  {
  }

  lemma Withdrawn(cfg: Config, f: Front, client: int, key: int, byLevel: bool)
    requires RecordsOk(cfg, f.limits)
    ensures LimitOff(f, client, key, byLevel).limits == f.limits - {(client, key)} && RecordsOk(cfg, LimitOff(f, client, key, byLevel).limits)
  {
    RecordsRemove(cfg, f.limits, (client, key));
    hide PostLimit;
  }

  lemma Filed(f: Front, client: int, key: int, value: int, byLevel: bool)
    requires (client, key) !in f.limits
    ensures LimitOn(f, client, key, value, byLevel).limits ==
      if value != -1 && value != -0x8000_0000 then f.limits[(client, key) := value] else f.limits
  {
    hide PostLimit;
  }

  lemma TagSpares(env: Env, f: Front, client: int, tag: int, value: int, c: int, key: int)
    requires FrontOk(env, f) && (c != client || forall r :: Names(tag, r) && r in env.cfg.nodes ==> !Names(key, r))
    ensures var g := SetLimit(env.cfg, f, client, tag, value);
      && ((c, key) in g.limits <==> (c, key) in f.limits) && ((c, key) in g.limits ==> g.limits[(c, key)] == f.limits[(c, key)])
  {
    assert Names(tag, tag) && Names(tag, tag - 10000);
    FrontParts(env, f);
    hide FrontOk, PostLimit;
  }

  lemma FrontParts(env: Env, f: Front)
    requires FrontOk(env, f)
    ensures WfConfig(env.cfg) && RecordsOk(env.cfg, f.limits)
  {
  }

  lemma NamedApart(cfg: Config, tag: int, r: int, q: int)
    requires WfConfig(cfg) && r in cfg.nodes && q in cfg.nodes && Names(tag, q) && !Names(tag, r)
    ensures !Names(r, q) && !Names(r + 10000, q)
  {
  }

  /** A limit task: untimed, without end, filed on the client's list under the client's command id. */
  predicate IsLimit(task: Task, byLevel: bool, key: int, client: int, value: int, onOff: EventType) {
    && task.Limit? && task.byLevel == byLevel && task.resId == key
    && task.action.value == value && task.action.onOff == onOff
    && task.action.duration == 0 && task.action.endTime == 0x7FFF_FFFF_FFFF_FFFF && !task.action.interaction
    && task.action.kind == (if client == BATTERY then POWER else client) && task.action.cmdId == (if client == BATTERY then -2 else -1)
  }

  /** One tag: the tasks it posts. Whatever is on record under the resource's id or its level id is withdrawn, and
      then the new limit is filed unless it is a reset. */
  lemma TagPosts(env: Env, f: Front, client: int, tag: int, value: int, r: int)
    requires FrontOk(env, f) && IsClient(client) && LimitValueOk(tag, value) && r in env.cfg.nodes && Names(tag, r)
    ensures var p, q := f.sys.q.ready, SetLimit(env.cfg, f, client, tag, value).sys.q.ready;
      var plain, level := (client, r) in f.limits, (client, r + 10000) in f.limits;
      var a, b := if plain then 1 else 0, if level then 1 else 0;
      var c := if value != -1 && value != -0x8000_0000 then 1 else 0;
      && |q| == |p| + a + b + c && q[..|p|] == p
      && (plain ==> IsLimit(q[|p|].task, false, r, client, f.limits[(client, r)], EventOff))
      && (level ==> IsLimit(q[|p| + a].task, true, r + 10000, client, f.limits[(client, r + 10000)], EventOff))
      && (c == 1 ==> IsLimit(q[|p| + a + b].task, tag == r + 10000, tag, client, value, EventOn))
  {
    hide *;
    FrontParts(env, f);
    NamesMeans(env.cfg, tag, r);
    SetLimitMeans(env.cfg, f, client, tag, value, r);
    var g := LimitOff(f, client, r, false);
    var h := LimitOff(g, client, r + 10000, true);
    Withdrawn(env.cfg, f, client, r, false);
    Withdrawn(env.cfg, g, client, r + 10000, true);
    OffPosts(env.cfg, f, client, r, false);
    OffPosts(env.cfg, g, client, r + 10000, true);
    OnPosts(h, client, tag, value, tag > 10000);
    var p, pg, ph, q := f.sys.q.ready, g.sys.q.ready, h.sys.q.ready, LimitOn(h, client, tag, value, tag > 10000).sys.q.ready;
    assert q[..|p|] == ph[..|p|] == pg[..|p|] == p;
    assert forall i :: 0 <= i < |pg| ==> pg[i] == ph[i];
    assert forall i :: 0 <= i < |ph| ==> ph[i] == q[i];
    assert (client, r + 10000) in g.limits <==> (client, r + 10000) in f.limits;
  }

  lemma OffPosts(cfg: Config, f: Front, client: int, key: int, byLevel: bool)
    requires RecordsOk(cfg, f.limits)
    ensures var p, q := f.sys.q.ready, LimitOff(f, client, key, byLevel).sys.q.ready;
      if (client, key) in f.limits
      then |q| == |p| + 1 && q[..|p|] == p && IsLimit(q[|p|].task, byLevel, key, client, f.limits[(client, key)], EventOff) else q == p
  {
  }

  lemma OnPosts(f: Front, client: int, key: int, value: int, byLevel: bool)
    ensures var p, q := f.sys.q.ready, LimitOn(f, client, key, value, byLevel).sys.q.ready;
      if value != -1 && value != -0x8000_0000
      then |q| == |p| + 1 && q[..|p|] == p && IsLimit(q[|p|].task, byLevel, key, client, value, EventOn) else q == p
  {
  }

  /** Tag `k` is the last of the request to name `r`. */
  predicate LastNamed(tags: seq<int>, k: nat, r: int) {
    k < |tags| && Names(tags[k], r) && forall j :: k < j < |tags| ==> !Names(tags[j], r)
  }

  /** After a request the record of a known resource is what the last tag that names it asks for, in the form in
      which that tag asks for it, and none if it asks for a reset. */
  lemma {:induction false} RequestRecorded(env: Env, f: Front, client: int, tags: seq<int>, values: seq<int>, k: nat, r: int)
    requires FrontOk(env, f) && IsClient(client) && |tags| == |values| && LimitValuesOk(tags, values)
    requires r in env.cfg.nodes && LastNamed(tags, k, r)
    ensures var after := SetLimits(env.cfg, f, client, tags, values).limits;
      var other := if tags[k] == r then r + 10000 else r;
      && ((client, tags[k]) in after <==> values[k] != -1 && values[k] != -0x8000_0000)
      && ((client, tags[k]) in after ==> after[(client, tags[k])] == values[k]) && (client, other) !in after
    decreases |tags|
  {
    hide FrontOk, SetLimit, LimitValueOk, LimitValuesOk;
    ValuesOkTail(tags, values);
    SetLimitOk(env, f, client, tags[0], values[0]);
    var g := SetLimit(env.cfg, f, client, tags[0], values[0]);
    if k == 0 {
      TagRecorded(env, f, client, tags[0], values[0], r);
      FrontParts(env, f);
      forall i, q | 0 <= i < |tags[1..]| && Names(tags[1..][i], q) && q in env.cfg.nodes ensures !Names(r, q) && !Names(r + 10000, q) {
        assert tags[1..][i] == tags[i + 1];
        NamedApart(env.cfg, tags[i + 1], r, q);
      }
      RequestSpares(env, g, client, tags[1..], values[1..], client, r);
      RequestSpares(env, g, client, tags[1..], values[1..], client, r + 10000);
    } else {
      assert tags[1..][k - 1] == tags[k] && forall j :: k - 1 < j < |tags[1..]| ==> tags[1..][j] == tags[j + 1];
      RequestRecorded(env, g, client, tags[1..], values[1..], k - 1, r);
    }
  }

  /** The record of another client, or under a key of a resource that no tag names, stays as it was. */
  lemma {:induction false} RequestSpares(env: Env, f: Front, client: int, tags: seq<int>, values: seq<int>, c: int, key: int)
    requires FrontOk(env, f) && IsClient(client) && |tags| == |values| && LimitValuesOk(tags, values)
    requires c != client || forall i, r :: 0 <= i < |tags| && Names(tags[i], r) && r in env.cfg.nodes ==> !Names(key, r)
    ensures var after := SetLimits(env.cfg, f, client, tags, values).limits;
      && ((c, key) in after <==> (c, key) in f.limits) && ((c, key) in after ==> after[(c, key)] == f.limits[(c, key)])
    decreases |tags|
  {
    hide FrontOk, SetLimit, LimitValueOk, LimitValuesOk, Names;
    if tags != [] {
      ValuesOkTail(tags, values);
      TagSpares(env, f, client, tags[0], values[0], c, key);
      SetLimitOk(env, f, client, tags[0], values[0]);
      assert forall j :: 0 <= j < |tags[1..]| ==> tags[1..][j] == tags[j + 1];
      RequestSpares(env, SetLimit(env.cfg, f, client, tags[0], values[0]), client, tags[1..], values[1..], c, key);
    }
  }

  // ---- the lists ---------------------------------------------------------------------------------------------

  /** `client` has `v` on record for the resource: as a value, or as a level that stands for it. */
  ghost predicate Asks(cfg: Config, limits: map<(int, int), int>, client: int, r: int, v: int)
    requires r in cfg.nodes
  {
    || ((client, r) in limits && limits[(client, r)] == v)
    || ((client, r) !in limits && (client, r + 10000) in limits && Resolve(cfg.nodes[r].available, limits[(client, r + 10000)]) == Some(v))
  }

  predicate Holds(l: Live, cmdId: int, v: int) {
    exists x :: x in l && x.cmdId == cmdId && x.value == v
  }

  /** When the queue is empty each list holds just what its clients have on record. Power and battery limits
      stand side by side on the power list, with command ids of their own. */
  lemma RecordedIsLive(env: Env, inter: seq<Inter>, es: seq<FrontEvent>, r: int, v: int)
    requires FrontFeasible(env, inter, es) && r in env.cfg.nodes && ReachFront(env, inter, es).sys.q.ready == []
    ensures var f := ReachFront(env, inter, es);
      var l := f.sys.arb.info[r].lists;
      && (Holds(l[POWER], -1, v) <==> Asks(env.cfg, f.limits, POWER, r, v))
      && (Holds(l[POWER], -2, v) <==> Asks(env.cfg, f.limits, BATTERY, r, v))
      && (Holds(l[THERMAL], -1, v) <==> Asks(env.cfg, f.limits, THERMAL, r, v))
      && (Holds(l[PERFLVL], -1, v) <==> Asks(env.cfg, f.limits, PERFLVL, r, v))
  {
    hide FrontFeasible, FrontOk, ReachFront;
    var f := ReachFront(env, inter, es);
    FrontWf(env, f);
    forall client | IsClient(client)
      ensures Holds(f.sys.arb.info[r].lists[KindOf(client)], CmdOf(client), v) <==> Asks(env.cfg, f.limits, client, r, v)
    {
      ClientsList(env, inter, es, client, r, v);
    }
    hide WfSys, Asks, Holds;
    assert IsClient(POWER) && IsClient(BATTERY) && IsClient(THERMAL) && IsClient(PERFLVL);
  }

  lemma ClientsList(env: Env, inter: seq<Inter>, es: seq<FrontEvent>, client: int, r: int, v: int)
    requires FrontFeasible(env, inter, es) && IsClient(client) && r in env.cfg.nodes && ReachFront(env, inter, es).sys.q.ready == []
    ensures var f := ReachFront(env, inter, es);
      Holds(f.sys.arb.info[r].lists[KindOf(client)], CmdOf(client), v) <==> Asks(env.cfg, f.limits, client, r, v)
  {
    hide FrontFeasible, FrontOk, ReachFront;
    LimitsAgree(env, inter, es, client, r);
    var f := ReachFront(env, inter, es);
    FrontWf(env, f);
    var l := f.sys.arb.info[r].lists[KindOf(client)];
    ReadyTasksOk(env, f.sys);
    assert ValuesOf(l, CmdOf(client)) == Recorded(env.cfg, f.limits, client, r);
    ValuesMember(l, CmdOf(client), v);
    assert v in Recorded(env.cfg, f.limits, client, r) <==> Asks(env.cfg, f.limits, client, r, v);
  }

  // ---- front runs are service runs ---------------------------------------------------------------------------

  lemma PostLimitProjects(env: Env, s: Sys, byLevel: bool, key: int, client: int, value: int, on: bool) returns (xs: seq<SysEvent>)
    requires WfSys(env, s) && IsClient(client) && (!byLevel ==> 0 <= value <= MAX_INT_VALUE)
    ensures Possible(env, s, xs) && SysRun(env, s, xs) == PostLimit(s, byLevel, key, client, value, on)
  {
    hide WfSys;
    PostLimitWf(env, s, byLevel, key, client, value, on);
    var e := Post(Limit(byLevel, key, LimitAction(s.nextId, client, value, on)));
    xs := [e];
    SysStepOk(env, s, e);
    assert xs[1..] == [];
  }

  lemma LimitOffProjects(env: Env, f: Front, client: int, r: int, byLevel: bool) returns (xs: seq<SysEvent>)
    requires FrontOk(env, f) && IsClient(client) && r in env.cfg.nodes
    ensures WfSys(env, f.sys) && Possible(env, f.sys, xs) && SysRun(env, f.sys, xs) == LimitOff(f, client, KeyOf(r, byLevel), byLevel).sys
  {
    FrontWf(env, f);
    FrontParts(env, f);
    hide FrontOk, WfSys, WfConfig, PostLimit;
    var key := KeyOf(r, byLevel);
    if (client, key) in f.limits && f.limits[(client, key)] != INVALID_VALUE {
      xs := PostLimitProjects(env, f.sys, byLevel, key, client, f.limits[(client, key)], false);
    } else {
      xs := [];
    }
  }

  lemma LimitOnProjects(env: Env, f: Front, client: int, r: int, byLevel: bool, value: int) returns (xs: seq<SysEvent>)
    requires FrontOk(env, f) && IsClient(client) && r in env.cfg.nodes && LimitValueOk(KeyOf(r, byLevel), value)
    ensures WfSys(env, f.sys) && Possible(env, f.sys, xs) && SysRun(env, f.sys, xs) == LimitOn(f, client, KeyOf(r, byLevel), value, byLevel).sys
  {
    FrontWf(env, f);
    FrontParts(env, f);
    assert !byLevel ==> r <= RES_ID_ADDITION;
    hide FrontOk, WfSys, WfConfig, PostLimit;
    if value != INVALID_VALUE && value != RESET_VALUE {
      xs := PostLimitProjects(env, f.sys, byLevel, KeyOf(r, byLevel), client, value, true);
    } else {
      xs := [];
    }
  }

  lemma EmptyRun(env: Env, s: Sys)
    requires WfSys(env, s)
    ensures Possible(env, s, []) && SysRun(env, s, []) == s
  {
  }

  lemma SetLimitProjects(env: Env, f: Front, client: int, resId: int, value: int) returns (xs: seq<SysEvent>)
    requires FrontOk(env, f) && IsClient(client) && LimitValueOk(resId, value)
    ensures WfSys(env, f.sys) && Possible(env, f.sys, xs) && SysRun(env, f.sys, xs) == SetLimit(env.cfg, f, client, resId, value).sys
  {
    hide FrontOk, LimitOn, LimitOff, LimitValueOk, WfSys, Possible, SysRun;
    FrontWf(env, f);
    var byLevel := resId > RES_ID_ADDITION;
    var r := RealResId(byLevel, resId);
    if r in env.cfg.nodes {
      LimitOffOk(env, f, client, r, false);
      var g := LimitOff(f, client, r, false);
      LimitOffOk(env, g, client, r, true);
      var h := LimitOff(g, client, r + RES_ID_ADDITION, true);
      var a := LimitOffProjects(env, f, client, r, false);
      var b := LimitOffProjects(env, g, client, r, true);
      var c := LimitOnProjects(env, h, client, r, byLevel, value);
      SysRunAppend(env, f.sys, a, b);
      SysRunAppend(env, f.sys, a + b, c);
      xs := a + b + c;
    } else {
      xs := [];
      EmptyRun(env, f.sys);
    }
  }

  lemma {:induction false} SetLimitsProject(env: Env, f: Front, client: int, tags: seq<int>, values: seq<int>) returns (xs: seq<SysEvent>)
    requires FrontOk(env, f) && IsClient(client) && |tags| == |values| && LimitValuesOk(tags, values)
    ensures WfSys(env, f.sys) && Possible(env, f.sys, xs) && SysRun(env, f.sys, xs) == SetLimits(env.cfg, f, client, tags, values).sys
    decreases |tags|
  {
    hide FrontOk, SetLimit, LimitValueOk, LimitValuesOk, WfSys;
    FrontWf(env, f);
    if tags == [] {
      xs := [];
    } else {
      ValuesOkTail(tags, values);
      SetLimitOk(env, f, client, tags[0], values[0]);
      var a := SetLimitProjects(env, f, client, tags[0], values[0]);
      var b := SetLimitsProject(env, SetLimit(env.cfg, f, client, tags[0], values[0]), client, tags[1..], values[1..]);
      SysRunAppend(env, f.sys, a, b);
      xs := a + b;
    }
  }

  lemma FrontStepProjects(env: Env, f: Front, e: FrontEvent) returns (xs: seq<SysEvent>)
    requires FrontOk(env, f) && FrontEnabled(env, f, e)
    ensures WfSys(env, f.sys) && Possible(env, f.sys, xs) && SysRun(env, f.sys, xs) == FrontStep(env, f, e).sys
  {
    hide FrontOk, SetLimits, LimitValuesOk, WfSys, SysStep, Enabled;
    FrontWf(env, f);
    match e
    case Limits(client, tags, values) =>
      if |tags| == |values| && IsClient(client) {
        xs := SetLimitsProject(env, f, client, tags, values);
      } else {
        xs := [];
      }
    case Service(x) =>
      xs := [x];
      SysStepOk(env, f.sys, x);
      assert xs[1..] == [];
  }

  lemma {:induction false} FrontRunProjects(env: Env, f: Front, es: seq<FrontEvent>) returns (xs: seq<SysEvent>)
    requires FrontOk(env, f) && FrontPossible(env, f, es)
    ensures WfSys(env, f.sys) && Possible(env, f.sys, xs) && SysRun(env, f.sys, xs) == FrontRun(env, f, es).sys
    decreases |es|
  {
    hide FrontOk, FrontStep, FrontEnabled, WfSys;
    FrontWf(env, f);
    if es == [] {
      xs := [];
    } else {
      FrontStepOk(env, f, es[0]);
      var a := FrontStepProjects(env, f, es[0]);
      var b := FrontRunProjects(env, FrontStep(env, f, es[0]), es[1..]);
      SysRunAppend(env, f.sys, a, b);
      xs := a + b;
    }
  }

  /** Every run of the front end is, for the service, a run of its own: the theorems about service runs hold of it. */
  lemma FrontIsService(env: Env, inter: seq<Inter>, es: seq<FrontEvent>) returns (xs: seq<SysEvent>)
    requires FrontFeasible(env, inter, es)
    ensures Feasible(env, inter, xs) && ReachSys(env, inter, xs) == ReachFront(env, inter, es).sys
  {
    hide FrontOk, FrontPossible, WfSys, Possible;
    StartFront(env, inter);
    xs := FrontRunProjects(env, Front(InitSys(env, inter), map[]), es);
  }

  // ---- the values applied ------------------------------------------------------------------------------------

  /** A recorded limit is honoured: with its switch on, the queue empty and no performance level live, a resource
      that does not follow a max member gets no more than any client of that switch has on record. */
  lemma RecordedIsHonoured(env: Env, inter: seq<Inter>, es: seq<FrontEvent>, r: int, v: int)
    requires FrontFeasible(env, inter, es) && r in env.cfg.nodes && ReachFront(env, inter, es).sys.q.ready == []
    requires env.cfg.nodes[r].isGov || env.cfg.nodes[r].pair == INVALID_VALUE || env.cfg.nodes[r].isMaxValue
    requires ReachFront(env, inter, es).sys.arb.info[r].lists[PERFLVL] == []
    ensures var f := ReachFront(env, inter, es);
      && (f.sys.arb.power && (Asks(env.cfg, f.limits, POWER, r, v) || Asks(env.cfg, f.limits, BATTERY, r, v)) ==>
            f.sys.arb.info[r].currentValue <= v)
      && (f.sys.arb.thermal && Asks(env.cfg, f.limits, THERMAL, r, v) ==> f.sys.arb.info[r].currentValue <= v)
  {
    RecordedIsLive(env, inter, es, r, v);
    var xs := FrontIsService(env, inter, es);
    hide FrontFeasible, FrontOk, ReachFront, Asks, Feasible, ReachSys;
    var events := ReachSysProjects(env, inter, xs);
    var s := Reach(env.cfg, events);
    var l := s.info[r].lists;
    FeasibleConfig(env, inter, xs);
    if (s.power && (Holds(l[POWER], -1, v) || Holds(l[POWER], -2, v))) || (s.thermal && Holds(l[THERMAL], -1, v)) {
      var w := LimitStands(env.cfg, s, r, v);
      LimitGuarantee(env.cfg, events, r, w);
    }
  }

  lemma FeasibleConfig(env: Env, inter: seq<Inter>, xs: seq<SysEvent>)
    requires Feasible(env, inter, xs)
    ensures WfConfig(env.cfg)
  {
  }

  /** Where a limit of a switched-on kind stands there is a least one, and it is no greater. */
  lemma LimitStands(cfg: Config, s: Arb, r: int, v: int) returns (w: int)
    requires Ready(cfg, s) && r in cfg.nodes
    requires var l := s.info[r].lists;
      (s.power && exists x :: x in l[POWER] && x.value == v) || (s.thermal && exists x :: x in l[THERMAL] && x.value == v)
    ensures LimitInForce(s, r, w) && w <= v
  {
    var l := s.info[r].lists;
    var a: Live, b: Live := if s.power then l[POWER] else [], if s.thermal then l[THERMAL] else [];
    if a == [] {
      w := TopValue(THERMAL, b);
    } else if b == [] {
      w := TopValue(POWER, a);
    } else {
      w := Min(TopValue(POWER, a), TopValue(THERMAL, b));
    }
    assert LeastOf(w, a, b);
  }
}
