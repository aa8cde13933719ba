/** What agreement buys: the thermal-level caveat, pair order, the limit guarantee and order independence. */
module RunTheorems {
  import opened Common
  import opened Config
  import opened LiveList
  import opened Arbitration
  import opened ArbiterState
  import opened Agreement
  import opened Tasks
  import opened Runs

  // ---- frames: which lists a step changes ----------------------------------------------------

  lemma SetListFrame(cfg: Config, s: Arb, r: int, kind: int, l: Live)
    requires Ready(cfg, s) && r in cfg.nodes && PERF <= kind <= PERFLVL
    ensures var t := SetList(cfg, s, r, kind, l);
      && t.power == s.power && t.thermal == s.thermal && t.level == s.level && t.boost == s.boost && t.dropped == s.dropped
      && t.info[r].lists == s.info[r].lists[kind := l]
      && (forall q :: q in cfg.nodes && q != r ==> t.info[q].lists == s.info[q].lists)
  {
    hide Coupled, Limited, Wanted, Cached, Candidate, CandidateEnd, Code, CodeDefault, ViewDefault;
  }

  /** An instant request changes the one list it addresses, and in it what Instant says. */
  lemma InstantFrame(cfg: Config, s: Arb, r: int, a: ResAction)
    requires Ready(cfg, s) && r in cfg.nodes && a.Valid()
    ensures var t := DoInstant(cfg, s, r, a);
      && t.power == s.power && t.thermal == s.thermal && t.level == s.level && t.dropped == s.dropped
      && t.info[r].lists == s.info[r].lists[a.kind := Instant(s.info[r].lists[a.kind], a)]
      && (forall q :: q in cfg.nodes && q != r ==> t.info[q].lists == s.info[q].lists)
  {
    hide SetList;
    var l := s.info[r].lists[a.kind];
    SetListFrame(cfg, s, r, a.kind, Instant(l, a));
    if a.onOff == EventOff && !Hit(l, OnOf(a)) {
      EraseMiss(l, OnOf(a));
      assert s.info[r].lists == s.info[r].lists[a.kind := l];
    }
  }

  lemma ExpireFrame(cfg: Config, s: Arb, r: int, a: ResAction)
    requires Ready(cfg, s) && r in cfg.nodes && a.Valid()
    ensures var t := DoExpire(cfg, s, r, a);
      && t.power == s.power && t.thermal == s.thermal && t.level == s.level && t.dropped == s.dropped
      && t.info[r].lists == s.info[r].lists[a.kind := Expire(s.info[r].lists[a.kind], a)]
      && (forall q :: q in cfg.nodes && q != r ==> t.info[q].lists == s.info[q].lists)
  {
    hide SetList;
    var l := s.info[r].lists[a.kind];
    SetListFrame(cfg, s, r, a.kind, Expire(l, a));
    if !Hit(l, Exactly(a)) {
      EraseMiss(l, Exactly(a));
      assert s.info[r].lists == s.info[r].lists[a.kind := l];
    }
  }

  // ---- the thermal level -----------------------------------------------------------------------

  /** Arbitration only asks whether the thermal level is zero. A status is current when its values
      were computed on the same side of zero as the present level. */
  ghost predicate CurrentAt(st: Status, level: int) {
    (st.candLevel == 0 <==> level == 0) && (st.pairLevel == 0 <==> level == 0)
  }

  ghost predicate Current(cfg: Config, s: Arb) {
    Ready(cfg, s) && forall r :: r in cfg.nodes ==> CurrentAt(s.info[r], s.level)
  }

  /** The source's own fields of a status. */
  function Plain(st: Status): Status {
    st.(candLevel := 0, pairLevel := 0)
  }

  lemma SetListCurrent(cfg: Config, s: Arb, r: int, kind: int, l: Live)
    requires Current(cfg, s) && r in cfg.nodes && PERF <= kind <= PERFLVL
    ensures Current(cfg, SetList(cfg, s, r, kind, l))
  {
    hide Arbitrate;
    SetListCases(cfg, s, r, kind, l);
    hide SetList, Recount;
    var st := Recount(s.info[r].(lists := s.info[r].lists[kind := l]), kind);
    RecountLevels(s.info[r].(lists := s.info[r].lists[kind := l]), kind);
    ArbitrateLevels(cfg, s.(info := s.info[r := st]), r);
  }

  lemma RecountLevels(st: Status, kind: int)
    requires Shaped(st) && PERF <= kind <= PERFLVL
    ensures Recount(st, kind).candLevel == st.candLevel && Recount(st, kind).pairLevel == st.pairLevel
  {
  }

  lemma ArbitrateLevels(cfg: Config, s: Arb, r: int)
    requires Ready(cfg, s) && r in cfg.nodes
    ensures var t := Arbitrate(cfg, s, r);
      t.level == s.level && forall q :: q in cfg.nodes && CurrentAt(s.info[q], s.level) ==> CurrentAt(t.info[q], s.level)
  {
    hide Wanted, Coupled, Limited, Cached;
  }

  lemma {:induction false} ArbitrateAllFrame(cfg: Config, s: Arb, order: seq<int>)
    requires WfConfig(cfg) && Ready(cfg, s) && forall r :: r in order ==> r in cfg.nodes
    ensures var t := ArbitrateAll(cfg, s, order);
      && t.power == s.power && t.thermal == s.thermal && t.level == s.level && t.boost == s.boost && t.dropped == s.dropped
      && (forall q :: q in cfg.nodes ==> t.info[q].lists == s.info[q].lists)
      && (forall q :: q in cfg.nodes && (q in order || CurrentAt(s.info[q], s.level)) ==> CurrentAt(t.info[q], s.level))
    decreases |order|
  {
    if order != [] {
      var s1 := Arbitrate(cfg, s, order[0]);
      ArbitrateFrame(cfg, s, order[0]);
      hide Arbitrate, CurrentAt;
      assert order == [order[0]] + order[1..];
      ArbitrateAllFrame(cfg, s1, order[1..]);
    }
  }

  lemma ArbitrateFrame(cfg: Config, s: Arb, r: int)
    requires WfConfig(cfg) && Ready(cfg, s) && r in cfg.nodes
    ensures var t := Arbitrate(cfg, s, r);
      && t.power == s.power && t.thermal == s.thermal && t.level == s.level && t.boost == s.boost && t.dropped == s.dropped
      && (forall q :: q in cfg.nodes ==> t.info[q].lists == s.info[q].lists)
      && (forall q :: q in cfg.nodes && (q == r || CurrentAt(s.info[q], s.level)) ==> CurrentAt(t.info[q], s.level))
  {
    hide Wanted, Coupled, Limited, Cached, CodeDefault, ViewDefault;
    assert WfPair(cfg, r);
    hide WfConfig;
  }

  /** The level may be set without crossing zero, and the switches may be flipped at any time. */
  ghost predicate KeepsCurrent(cfg: Config, s: Arb, op: Op) {
    match op
    case Level(level) => Current(cfg, s) && (level == 0 <==> s.level == 0)
    case SwitchPower(_, _) => true
    case SwitchThermal(_, _) => true
    case _ => Current(cfg, s)
  }

  lemma ApplyCurrent(cfg: Config, s: Arb, op: Op)
    requires WfConfig(cfg) && Ready(cfg, s) && OpOk(cfg, op) && KeepsCurrent(cfg, s, op)
    ensures Current(cfg, Apply(cfg, s, op))
    ensures Apply(cfg, s, op).level == if op.Level? then op.level else s.level
  {
    match op
    case Begin(r, a) =>
      SetListCurrent(cfg, s, r, a.kind, Instant(s.info[r].lists[a.kind], a));
      InstantFrame(cfg, s, r, a);
    case End(r, a) =>
      SetListCurrent(cfg, s, r, a.kind, Expire(s.info[r].lists[a.kind], a));
      ExpireFrame(cfg, s, r, a);
    case ClearPerf(r) =>
      SetListCurrent(cfg, s, r, PERF, []);
      SetListFrame(cfg, s, r, PERF, []);
    case SwitchPower(on, order) => ArbitrateAllFrame(cfg, s.(power := on), order);
    case SwitchThermal(on, order) => ArbitrateAllFrame(cfg, s.(thermal := on), order);
    case Level(level) =>
  }

  /** No operation moves the level across zero. */
  ghost predicate SameSide(ops: seq<Op>, level: int) {
    forall i :: 0 <= i < |ops| && ops[i].Level? ==> (ops[i].level == 0 <==> level == 0)
  }

  lemma {:induction false} ApplyAllCurrent(cfg: Config, s: Arb, ops: seq<Op>)
    requires WfConfig(cfg) && Current(cfg, s) && OpsOk(cfg, ops) && SameSide(ops, s.level)
    ensures Current(cfg, ApplyAll(cfg, s, ops)) && (ApplyAll(cfg, s, ops).level == 0 <==> s.level == 0)
    decreases |ops|
  {
    hide Apply, OpOk, CurrentAt;
    if ops != [] {
      assert KeepsCurrent(cfg, s, ops[0]);
      ApplyCurrent(cfg, s, ops[0]);
      ApplyAllCurrent(cfg, Apply(cfg, s, ops[0]), ops[1..]);
    }
  }

  /** The from-scratch status, with the present level in force everywhere. */
  ghost function RebuiltNow(cfg: Config, s: Arb, r: int): Status
    requires WfConfig(cfg) && Ready(cfg, s) && r in cfg.nodes
  {
    var now := s.(info := map q | q in s.info :: s.info[q].(candLevel := s.level, pairLevel := s.level));
    Plain(Rebuilt(cfg, now, r))
  }

  lemma CurrentRebuilt(cfg: Config, s: Arb, r: int)
    requires WfConfig(cfg) && Current(cfg, s) && r in cfg.nodes
    ensures Plain(Rebuilt(cfg, s, r)) == RebuiltNow(cfg, s, r)
  {
    assert WfPair(cfg, r);
    assert CurrentAt(s.info[r], s.level);
    if PairOf(cfg, r).Some? {
      assert CurrentAt(s.info[PairOf(cfg, r).value], s.level);
    }
  }

  lemma SameListsRebuilt(cfg: Config, s: Arb, t: Arb, r: int)
    requires WfConfig(cfg) && Ready(cfg, s) && Ready(cfg, t) && r in cfg.nodes
    requires s.power == t.power && s.thermal == t.thermal && s.level == t.level
    requires forall q :: q in cfg.nodes ==> s.info[q].lists == t.info[q].lists
    ensures RebuiltNow(cfg, s, r) == RebuiltNow(cfg, t, r)
  {
    assert WfPair(cfg, r);
  }

  lemma AgreesNow(cfg: Config, s: Arb, r: int)
    requires Agrees(cfg, s) && Current(cfg, s) && r in cfg.nodes
    ensures Plain(s.info[r]) == RebuiltNow(cfg, s, r)
  {
    hide CandOk, DecideOk, CurOk, Rebuilt, RebuiltNow, CurrentAt;
    AgreesMeans(cfg, s, r);
    CurrentRebuilt(cfg, s, r);
  }

  /** States that agree and are current have equal caches once their lists, switches and level are
      equal: nothing of the history survives in them. */
  lemma SameListsSameCaches(cfg: Config, s: Arb, t: Arb)
    requires Agrees(cfg, s) && Agrees(cfg, t) && Current(cfg, s) && Current(cfg, t)
    requires s.power == t.power && s.thermal == t.thermal && s.level == t.level
    requires forall r :: r in cfg.nodes ==> s.info[r].lists == t.info[r].lists
    ensures forall r :: r in cfg.nodes ==> Plain(s.info[r]) == Plain(t.info[r])
  {
    hide CandOk, DecideOk, CurOk, RebuiltNow, CurrentAt;
    forall r | r in cfg.nodes ensures Plain(s.info[r]) == Plain(t.info[r]) {
      AgreesNow(cfg, s, r);
      AgreesNow(cfg, t, r);
      SameListsRebuilt(cfg, s, t, r);
    }
  }

  // ---- theorems about runs -------------------------------------------------------------------

  /** The two members of a pair are coupled from the same candidates under the same rule. */
  lemma PairApplied(cfg: Config, s: Arb, lo: int, hi: int) returns (rules: bool)
    requires Agrees(cfg, s)
    requires hi in cfg.nodes && lo in cfg.nodes && cfg.nodes[hi].isMaxValue && PairOf(cfg, hi) == Some(lo)
    ensures s.info[lo].currentValue == CodeDefault(Coupled(false, WantedOf(s, lo), WantedOf(s, hi), rules))
    ensures s.info[hi].currentValue == CodeDefault(Coupled(true, WantedOf(s, hi), WantedOf(s, lo), rules))
    ensures rules <==> MaxRules(s, hi, lo, s.info[hi].pairLevel)
  {
    assert WfPair(cfg, hi) && CurOk(cfg, s, hi);
    AgreesMeans(cfg, s, lo);
    AgreesMeans(cfg, s, hi);
    rules := MaxRules(s, hi, lo, s.info[hi].pairLevel);
  }

  /** Min never above max: the applied values of a pair are ordered after every run, whatever happened
      to the thermal level, unless one of them is the default. */
  lemma PairOrder(cfg: Config, es: seq<Event>, lo: int, hi: int)
    requires WfConfig(cfg) && EventsOk(cfg, es)
    requires hi in cfg.nodes && lo in cfg.nodes && cfg.nodes[hi].isMaxValue && PairOf(cfg, hi) == Some(lo)
    ensures var s := Reach(cfg, es);
      || s.info[lo].currentValue <= s.info[hi].currentValue
      || s.info[lo].currentValue == NODE_DEFAULT_VALUE
      || s.info[hi].currentValue == NODE_DEFAULT_VALUE
  {
    hide CandOk, DecideOk, CurOk, WfConfig, Wanted, Reach;
    ReachAgrees(cfg, es);
    var rules := PairApplied(cfg, Reach(cfg, es), lo, hi);
  }

  lemma WantedIdle(cfg: Config, s: Arb, r: int)
    requires Agrees(cfg, s) && r in cfg.nodes
    ensures WantedOf(s, r).Some? ==> 0 <= WantedOf(s, r).value
    ensures WantedOf(s, r).None? <==> forall t :: PERF <= t <= PERFLVL ==> s.info[r].lists[t] == []
  {
    CachedMeans(s.info[r]);
    hide Cached, WfConfig, WfList;
  }

  lemma IdleApplied(cfg: Config, s: Arb, r: int)
    requires Agrees(cfg, s) && r in cfg.nodes
    ensures s.info[r].currentValue == NODE_DEFAULT_VALUE <==> forall t :: PERF <= t <= PERFLVL ==> s.info[r].lists[t] == []
  {
    assert WfPair(cfg, r);
    hide WfConfig, CandOk, DecideOk, CurOk, WantedOf, CandidatesOf, CandidateCodes, CandidateEnds, MaxRules;
    AgreesMeans(cfg, s, r);
    WantedIdle(cfg, s, r);
    if PairOf(cfg, r).Some? {
      WantedIdle(cfg, s, PairOf(cfg, r).value);
    }
  }

  /** Nothing is applied exactly when nothing is requested. */
  lemma DefaultMeansIdle(cfg: Config, es: seq<Event>, r: int)
    requires WfConfig(cfg) && EventsOk(cfg, es) && r in cfg.nodes
    ensures var st := Reach(cfg, es).info[r];
      st.currentValue == NODE_DEFAULT_VALUE <==> forall t :: PERF <= t <= PERFLVL ==> st.lists[t] == []
  {
    ReachAgrees(cfg, es);
    IdleApplied(cfg, Reach(cfg, es), r);
    hide WfConfig, Reach, CandOk, DecideOk, CurOk;
  }

  // ---- setting the thermal level -------------------------------------------------------------------

  /** The level in force stays on the side of zero that `level` is on. */
  ghost predicate NoCrossing(es: seq<Event>, level: int) {
    forall i :: 0 <= i < |es| && es[i].SetLevel? ==> (es[i].level == 0 <==> level == 0)
  }

  lemma {:induction false} RunCurrent(cfg: Config, s: Arb, es: seq<Event>)
    requires WfConfig(cfg) && Current(cfg, s) && EventsOk(cfg, es) && NoCrossing(es, s.level)
    ensures Current(cfg, Run(cfg, s, es)) && (Run(cfg, s, es).level == 0 <==> s.level == 0)
    decreases |es|
  {
    hide Apply, OpOk, CurrentAt, Step;
    if es != [] {
      StepCurrent(cfg, s, es[0]);
      RunCurrent(cfg, Step(cfg, s, es[0]), es[1..]);
    }
  }

  lemma StepCurrent(cfg: Config, s: Arb, e: Event)
    requires WfConfig(cfg) && Current(cfg, s) && EventOk(cfg, e) && NoCrossing([e], s.level)
    ensures Current(cfg, Step(cfg, s, e)) && (Step(cfg, s, e).level == 0 <==> s.level == 0)
  {
    hide Apply, OpOk, CurrentAt, Visits;
    assert [e][0] == e;
    OpsSameSide(cfg, e, s.level);
    ApplyAllCurrent(cfg, s, Ops(cfg, e));
  }

  lemma {:induction false} PackOpsBegin(cfg: Config, items: seq<Item>)
    requires TaskOk(cfg, Pack(items))
    ensures forall i :: 0 <= i < |PackOps(cfg, items)| ==> PackOps(cfg, items)[i].Begin?
  {
    if items != [] {
      PackOpsBegin(cfg, items[1..]);
    }
  }

  lemma OpsSameSide(cfg: Config, e: Event, level: int)
    requires WfConfig(cfg) && EventOk(cfg, e) && (e.SetLevel? ==> (e.level == 0 <==> level == 0))
    ensures SameSide(Ops(cfg, e), level)
  {
    if e.Do? && e.task.Pack? {
      PackOpsBegin(cfg, e.task.items);
    }
  }

  lemma {:induction false} RunSameSide(cfg: Config, es: seq<Event>, level: int)
    requires WfConfig(cfg) && EventsOk(cfg, es) && NoCrossing(es, level)
    ensures SameSide(RunOps(cfg, es), level)
    decreases |es|
  {
    hide Ops, OpOk, EventOk;
    if es != [] {
      OpsSameSide(cfg, es[0], level);
      RunSameSide(cfg, es[1..], level);
    }
  }

  /** While the level does not cross zero after a switch was last flipped, every value is the
      from-scratch value at the present level. */
  lemma SwitchHealsLevel(cfg: Config, before: seq<Event>, flip: Task, order: seq<int>, since: seq<Event>, r: int)
    requires WfConfig(cfg) && EventsOk(cfg, before) && EventsOk(cfg, since) && r in cfg.nodes
    requires (flip.PowerSwitch? || flip.ThermalSwitch?) && Visits(order, cfg.nodes.Keys)
    requires NoCrossing(since, Reach(cfg, before).level)
    ensures var s := Run(cfg, Step(cfg, Reach(cfg, before), Do(flip, order)), since);
      Plain(s.info[r]) == RebuiltNow(cfg, s, r)
  {
    hide CandOk, DecideOk, CurOk, Reach, CurrentAt, Visits, WfPair, Step;
    ReachAgrees(cfg, before);
    SwitchOutcome(cfg, Reach(cfg, before), flip, order);
    var s := Step(cfg, Reach(cfg, before), Do(flip, order));
    RunCurrent(cfg, s, since);
    RunIsOps(cfg, s, since);
    ApplyAllAgrees(cfg, s, RunOps(cfg, since));
    AgreesNow(cfg, Run(cfg, s, since), r);
  }

  /** The same from start-up, where the level is zero. */
  lemma ColdRunsAreCurrent(cfg: Config, es: seq<Event>, r: int)
    requires WfConfig(cfg) && EventsOk(cfg, es) && NoCrossing(es, 0) && r in cfg.nodes
    ensures Plain(Reach(cfg, es).info[r]) == RebuiltNow(cfg, Reach(cfg, es), r)
  {
    hide CandOk, DecideOk, CurOk, WfPair, Step;
    ReachAgrees(cfg, es);
    RunCurrent(cfg, InitArb(cfg), es);
    AgreesNow(cfg, Reach(cfg, es), r);
  }

  /** A perf-level request lifts the wanted value when the device turns hot exactly when it asks for
      more than the other requests get. */
  predicate LiftedWhenHot(c: Candidates, powerOn: bool, thermalOn: bool) {
    var base := Base(c.perf, c.power, c.thermal, powerOn, thermalOn);
    c.perfLvl.Some? && base.Some? && base.value < c.perfLvl.value
  }

  lemma WantedAcross(c: Candidates, powerOn: bool, thermalOn: bool, level: int)
    requires c.Valid() && level != 0
    ensures (CodeDefault(Wanted(c, powerOn, thermalOn, 0)) == CodeDefault(Wanted(c, powerOn, thermalOn, level)))
      <==> !LiftedWhenHot(c, powerOn, thermalOn)
  {
    assert c.perfLvl.Some? ==> c.perfLvl in [c.perf, c.power, c.thermal, c.perfLvl];
  }

  lemma RebuiltCandidate(cfg: Config, s: Arb, r: int)
    requires WfConfig(cfg) && Ready(cfg, s) && r in cfg.nodes
    ensures RebuiltNow(cfg, s, r).candidate == CodeDefault(Wanted(CandidatesOf(s.info[r].lists), s.power, s.thermal, s.level))
  {
  }

  lemma ReachLevel(cfg: Config, es: seq<Event>)
    requires WfConfig(cfg) && EventsOk(cfg, es) && NoCrossing(es, 0)
    ensures Current(cfg, Reach(cfg, es)) && Reach(cfg, es).level == 0
  {
    RunCurrent(cfg, InitArb(cfg), es);
  }

  // ---- the limit guarantee -------------------------------------------------------------------------

  /** The least value among the requests of one or two limit lists. */
  ghost predicate LeastOf(v: int, a: Live, b: Live) {
    && (exists x :: (x in a || x in b) && x.value == v)
    && (forall x :: x in a || x in b ==> v <= x.value)
  }

  /** The limit in force on a resource: the least live limit of the switched-on kinds. */
  ghost predicate LimitInForce(s: Arb, r: int, v: int)
    requires r in s.info && Shaped(s.info[r])
  {
    var l := s.info[r].lists;
    LeastOf(v, if s.power then l[POWER] else [], if s.thermal then l[THERMAL] else [])
  }

  /** Not the min member of a pair, which follows its max member. */
  predicate NotMin(cfg: Config, r: int)
    requires r in cfg.nodes
  {
    PairOf(cfg, r).None? || cfg.nodes[r].isMaxValue
  }

  /** With a switch on, the max member of a pair and an unpaired resource get their own candidate,
      whatever is asked of the partner. */
  lemma SwitchedOnOwn(cfg: Config, s: Arb, r: int)
    requires Agrees(cfg, s) && r in cfg.nodes && NotMin(cfg, r) && (s.power || s.thermal)
    ensures s.info[r].currentValue == CodeDefault(WantedOf(s, r))
  {
    AgreesMeans(cfg, s, r);
  }

  /** The base value is the limit in force whenever there is one. */
  lemma BaseIsLimit(s: Arb, r: int, v: int)
    requires r in s.info && Shaped(s.info[r]) && LimitInForce(s, r, v)
    ensures var c := CandidatesOf(s.info[r].lists); Base(c.perf, c.power, c.thermal, s.power, s.thermal) == Some(v)
  {
  }

  /** Every live limit of a switched-on kind is honoured exactly, independent of every boost on the
      resource and of everything on its partner, as long as no perf-level request is live on it. */
  lemma LimitGuarantee(cfg: Config, es: seq<Event>, r: int, v: int)
    requires WfConfig(cfg) && EventsOk(cfg, es) && r in cfg.nodes && NotMin(cfg, r)
    requires LimitInForce(Reach(cfg, es), r, v) && Reach(cfg, es).info[r].lists[PERFLVL] == []
    ensures Reach(cfg, es).info[r].currentValue == v
  {
    hide CandOk, DecideOk, CurOk, WfConfig, Reach;
    ReachAgrees(cfg, es);
    SwitchedOnOwn(cfg, Reach(cfg, es), r);
    BaseIsLimit(Reach(cfg, es), r, v);
  }

  /** With a perf-level request live, the limit is exceeded exactly when the level was not zero at the
      last arbitration and the perf-level candidate is above the limit. */
  lemma LimitExceeded(cfg: Config, es: seq<Event>, r: int, v: int)
    requires WfConfig(cfg) && EventsOk(cfg, es) && r in cfg.nodes && NotMin(cfg, r)
    requires LimitInForce(Reach(cfg, es), r, v)
    ensures var st := Reach(cfg, es).info[r];
      st.currentValue > v <==>
        st.lists[PERFLVL] != [] && st.candLevel != 0 && (exists x :: x in st.lists[PERFLVL] && x.value > v)
  {
    hide CandOk, DecideOk, CurOk, WfConfig, Reach;
    ReachAgrees(cfg, es);
    SwitchedOnOwn(cfg, Reach(cfg, es), r);
    BaseIsLimit(Reach(cfg, es), r, v);
  }

  // ---- order independence ----------------------------------------------------------------------------

  /** Flipping a switch walks the resources in hash order and overwrites both members of a pair on each
      visit; the outcome is the same for every order. */
  lemma SwitchOrderFree(cfg: Config, es: seq<Event>, flip: Task, a: seq<int>, b: seq<int>, r: int)
    requires WfConfig(cfg) && EventsOk(cfg, es) && r in cfg.nodes
    requires flip.PowerSwitch? || flip.ThermalSwitch?
    requires Visits(a, cfg.nodes.Keys) && Visits(b, cfg.nodes.Keys)
    ensures Plain(Step(cfg, Reach(cfg, es), Do(flip, a)).info[r]) == Plain(Step(cfg, Reach(cfg, es), Do(flip, b)).info[r])
  {
    hide CandOk, DecideOk, CurOk, Reach, Arbitrate, CurrentAt, Visits, WfPair;
    var s := Reach(cfg, es);
    ReachAgrees(cfg, es);
    SwitchOutcome(cfg, s, flip, a);
    SwitchOutcome(cfg, s, flip, b);
    SameListsSameCaches(cfg, Step(cfg, s, Do(flip, a)), Step(cfg, s, Do(flip, b)));
  }

  lemma SwitchOutcome(cfg: Config, s: Arb, flip: Task, order: seq<int>)
    requires Agrees(cfg, s) && Visits(order, cfg.nodes.Keys) && (flip.PowerSwitch? || flip.ThermalSwitch?)
    ensures var t := Step(cfg, s, Do(flip, order));
      && Agrees(cfg, t) && Current(cfg, t) && t.level == s.level
      && t.power == (if flip.PowerSwitch? then flip.on else s.power)
      && t.thermal == (if flip.ThermalSwitch? then flip.on else s.thermal)
      && (forall q :: q in cfg.nodes ==> t.info[q].lists == s.info[q].lists)
  {
    hide CandOk, DecideOk, CurOk, Arbitrate, CurrentAt, WfPair;
    var op := if flip.PowerSwitch? then SwitchPower(flip.on, order) else SwitchThermal(flip.on, order);
    assert Ops(cfg, Do(flip, order)) == [op];
    assert ApplyAll(cfg, s, [op]) == Apply(cfg, s, op);
    ApplyAgrees(cfg, s, op);
    ApplyCurrent(cfg, s, op);
    if flip.PowerSwitch? {
      ArbitrateAllFrame(cfg, s.(power := flip.on), order);
    } else {
      ArbitrateAllFrame(cfg, s.(thermal := flip.on), order);
    }
  }
}
