/** Setting the thermal level re-arbitrates nothing: exactly what is out of date afterwards, and when nothing is. */
module Staleness {
  import opened Common
  import opened Config
  import opened LiveList
  import opened Arbitration
  import opened ArbiterState
  import opened Agreement
  import opened Tasks
  import opened Runs
  import opened RunTheorems

  predicate SameSideOfZero(a: int, b: int) {
    a == 0 <==> b == 0
  }

  // ---- what is out of date -----------------------------------------------------------------------------------

  /** What arbitration last computed, against what it would compute at the present level. */
  lemma WantedNow(c: Candidates, powerOn: bool, thermalOn: bool, recorded: int, level: int)
    requires c.Valid()
    ensures CodeDefault(Wanted(c, powerOn, thermalOn, recorded)) == CodeDefault(Wanted(c, powerOn, thermalOn, level))
      <==> SameSideOfZero(recorded, level) || !LiftedWhenHot(c, powerOn, thermalOn)
  {
    if recorded == 0 && level != 0 {
      WantedAcross(c, powerOn, thermalOn, level);
    } else if recorded != 0 && level == 0 {
      WantedAcross(c, powerOn, thermalOn, recorded);
    }
    hide LiftedWhenHot, Base;
  }

  lemma RebuiltParts(cfg: Config, s: Arb, r: int)
    requires WfConfig(cfg) && Ready(cfg, s) && r in cfg.nodes
    ensures var now := RebuiltNow(cfg, s, r);
      && now.lists == s.info[r].lists && now.cand == CandidateCodes(s.info[r].lists) && now.candEnd == CandidateEnds(s.info[r].lists)
      && now.currentEndTime == CandidatesOf(s.info[r].lists).end
      && (PairOf(cfg, r).None? ==> now.currentValue == now.candidate)
  {
  }

  lemma AgreedParts(cfg: Config, s: Arb, r: int)
    requires Agrees(cfg, s) && r in cfg.nodes
    ensures WfConfig(cfg) && Ready(cfg, s)
    ensures var st := s.info[r];
      && st.cand == CandidateCodes(st.lists) && st.candEnd == CandidateEnds(st.lists)
      && st.currentEndTime == CandidatesOf(st.lists).end && CandidatesOf(st.lists).Valid()
      && st.candidate == CodeDefault(Wanted(CandidatesOf(st.lists), s.power, s.thermal, st.candLevel))
      && (PairOf(cfg, r).None? ==> st.currentValue == st.candidate)
  {
    AgreesMeans(cfg, s, r);
    assert CandOk(s.info[r]);
    CachedMeans(s.info[r]);
    hide CandOk, DecideOk, CurOk, CandidateCodes, CandidateEnds, CandidatesOf, Wanted;
  }

  /** In every reachable state, level changes of any kind included, a resource's candidate is the from-scratch
      one at the present level exactly if it was last arbitrated on the same side of zero or no perf-level
      request would lift it. Nothing else of its own ever goes out of date, and without a partner its applied
      value does so exactly when its candidate does. */
  lemma StaleExactly(cfg: Config, es: seq<Event>, r: int)
    requires WfConfig(cfg) && EventsOk(cfg, es) && r in cfg.nodes
    ensures var s := Reach(cfg, es);
      var st, now := s.info[r], RebuiltNow(cfg, s, r);
      var upToDate := SameSideOfZero(st.candLevel, s.level) || !LiftedWhenHot(CandidatesOf(st.lists), s.power, s.thermal);
      && (st.candidate == now.candidate <==> upToDate)
      && (PairOf(cfg, r).None? ==> (st.currentValue == now.currentValue <==> upToDate))
      && st.cand == now.cand && st.candEnd == now.candEnd && st.currentEndTime == now.currentEndTime
  {
    ReachAgrees(cfg, es);
    var s := Reach(cfg, es);
    hide Agrees, WfConfig, EventsOk, Reach, RebuiltNow, LiftedWhenHot, CandidateCodes, CandidateEnds, CandidatesOf, Wanted;
    AgreedParts(cfg, s, r);
    RebuiltCandidate(cfg, s, r);
    RebuiltParts(cfg, s, r);
    WantedNow(CandidatesOf(s.info[r].lists), s.power, s.thermal, s.info[r].candLevel, s.level);
  }

  /** With a limit switch on, the applied value of a max member goes out of date exactly when its own candidate
      does: its partner has no say in it. */
  lemma StaleWhenLimited(cfg: Config, es: seq<Event>, r: int)
    requires WfConfig(cfg) && EventsOk(cfg, es) && r in cfg.nodes && NotMin(cfg, r)
    requires Reach(cfg, es).power || Reach(cfg, es).thermal
    ensures var s := Reach(cfg, es);
      s.info[r].currentValue == RebuiltNow(cfg, s, r).currentValue <==>
        SameSideOfZero(s.info[r].candLevel, s.level) || !LiftedWhenHot(CandidatesOf(s.info[r].lists), s.power, s.thermal)
  {
    StaleExactly(cfg, es, r);
    ReachAgrees(cfg, es);
    var s := Reach(cfg, es);
    hide Agrees, EventsOk, Reach, LiftedWhenHot, RebuiltNow;
    SwitchedOnOwn(cfg, s, r);
    RebuiltOwn(cfg, s, r);
    AgreedParts(cfg, s, r);
  }

  lemma RebuiltOwn(cfg: Config, s: Arb, r: int)
    requires WfConfig(cfg) && Ready(cfg, s) && r in cfg.nodes && NotMin(cfg, r) && (s.power || s.thermal)
    ensures RebuiltNow(cfg, s, r).currentValue == RebuiltNow(cfg, s, r).candidate
  {
    assert WfPair(cfg, r);
  }

  /** The min member asks for more than the max member: who rules the pair matters. */
  predicate Contested(cfg: Config, s: Arb, r: int, p: int)
    requires r in cfg.nodes && r in s.info && p in s.info
  {
    var own, other := ViewDefault(s.info[r].candidate), ViewDefault(s.info[p].candidate);
    own.Some? && other.Some? && if cfg.nodes[r].isMaxValue then other.value > own.value else own.value > other.value
  }

  /** While the candidates of both members are up to date, the applied value of either is out of date exactly if
      the max member would rule now and did not when it was applied, or the other way round, and it matters. */
  lemma PairStaleExactly(cfg: Config, es: seq<Event>, r: int, p: int)
    requires WfConfig(cfg) && EventsOk(cfg, es) && r in cfg.nodes && PairOf(cfg, r) == Some(p) && p in cfg.nodes
    requires var s := Reach(cfg, es);
      s.info[r].candidate == RebuiltNow(cfg, s, r).candidate && s.info[p].candidate == RebuiltNow(cfg, s, p).candidate
    ensures var s := Reach(cfg, es);
      s.info[r].currentValue == RebuiltNow(cfg, s, r).currentValue <==>
        MaxRules(s, r, p, s.info[r].pairLevel) == MaxRules(s, r, p, s.level) || !Contested(cfg, s, r, p)
  {
    ReachAgrees(cfg, es);
    var s := Reach(cfg, es);
    hide EventsOk, Reach;
    PairAgreed(cfg, s, r, p);
  }

  lemma PairAgreed(cfg: Config, s: Arb, r: int, p: int)
    requires Agrees(cfg, s) && r in cfg.nodes && WfConfig(cfg) && Ready(cfg, s) && PairOf(cfg, r) == Some(p) && p in cfg.nodes
    requires s.info[r].candidate == RebuiltNow(cfg, s, r).candidate && s.info[p].candidate == RebuiltNow(cfg, s, p).candidate
    ensures s.info[r].currentValue == RebuiltNow(cfg, s, r).currentValue <==>
      MaxRules(s, r, p, s.info[r].pairLevel) == MaxRules(s, r, p, s.level) || !Contested(cfg, s, r, p)
  {
    hide CandOk, DecideOk, CurOk, Wanted, CandidatesOf, CandidateCodes, CandidateEnds;
    AgreesMeans(cfg, s, r);
    AgreesMeans(cfg, s, p);
    WantedIdle(cfg, s, r);
    WantedIdle(cfg, s, p);
  }

  // ---- when nothing is -----------------------------------------------------------------------------------------

  predicate NoPerfLevel(st: Status)
    requires Shaped(st)
  {
    st.lists[PERFLVL] == []
  }

  /** Each number was computed on the present side of zero, as `CurrentAt` asks, or from requests to which the level
      does not matter. */
  ghost predicate FreshAt(cfg: Config, s: Arb, r: int)
    requires WfConfig(cfg) && Ready(cfg, s) && r in cfg.nodes
  {
    var st, p := s.info[r], PairOf(cfg, r);
    && (SameSideOfZero(st.candLevel, s.level) || NoPerfLevel(st))
    && (WfPairOf(cfg, r);
        SameSideOfZero(st.pairLevel, s.level) || (NoPerfLevel(st) && (p.Some? ==> NoPerfLevel(s.info[p.value]))))
  }

  lemma WfPairOf(cfg: Config, r: int)
    requires WfConfig(cfg) && r in cfg.nodes
    ensures WfPair(cfg, r)
  {
  }

  ghost predicate Fresh(cfg: Config, s: Arb) {
    WfConfig(cfg) && Ready(cfg, s) && forall r :: r in cfg.nodes ==> FreshAt(cfg, s, r)
  }

  lemma WantedFresh(c: Candidates, powerOn: bool, thermalOn: bool, recorded: int, level: int)
    requires SameSideOfZero(recorded, level) || c.perfLvl.None?
    ensures Wanted(c, powerOn, thermalOn, recorded) == Wanted(c, powerOn, thermalOn, level)
  {
  }

  /** Fresh and agreed means the from-scratch status at the present level. */
  lemma FreshNow(cfg: Config, s: Arb, r: int)
    requires Agrees(cfg, s) && Fresh(cfg, s) && r in cfg.nodes
    ensures Plain(s.info[r]) == RebuiltNow(cfg, s, r)
  {
    hide CandOk, DecideOk, CurOk, Base;
    AgreesMeans(cfg, s, r);
    assert FreshAt(cfg, s, r) && WfPair(cfg, r);
    WantedFresh(CandidatesOf(s.info[r].lists), s.power, s.thermal, s.info[r].candLevel, s.level);
    if PairOf(cfg, r).Some? {
      var p := PairOf(cfg, r).value;
      assert FreshAt(cfg, s, p);
      WantedFresh(CandidatesOf(s.info[p].lists), s.power, s.thermal, s.info[p].candLevel, s.level);
    }
    hide Wanted;
  }

  lemma ArbitrateFresh(cfg: Config, s: Arb, r: int)
    requires WfConfig(cfg) && Ready(cfg, s) && r in cfg.nodes
    requires forall q :: q in cfg.nodes && q != r && PairOf(cfg, q) != Some(r) ==> FreshAt(cfg, s, q)
    requires forall q :: q in cfg.nodes && q != r ==> SameSideOfZero(s.info[q].candLevel, s.level) || NoPerfLevel(s.info[q])
    ensures Fresh(cfg, Arbitrate(cfg, s, r))
  {
    hide Wanted, Coupled, Limited, Cached;
    assert WfPair(cfg, r);
    var t := Arbitrate(cfg, s, r);
    assert forall q :: q in cfg.nodes ==> t.info[q].lists == s.info[q].lists;
    forall q | q in cfg.nodes ensures FreshAt(cfg, t, q) {
      assert WfPair(cfg, q);
    }
  }

  /** A type candidate that does not move when its list changes was present before if it is now. */
  lemma SameCandidateSameUse(st: Status, kind: int, l: Live)
    requires CandOk(st) && Shaped(st) && PERF <= kind <= PERFLVL && WfList(l, kind)
    requires Recount(st.(lists := st.lists[kind := l]), kind).cand == st.cand
    ensures st.lists[kind] == [] ==> l == []
  {
    hide CandOk, WfList, TopValue, CandidateEnd;
    CandAt(st, kind);
    CandidateValid(kind, l);
    assert st.cand[kind] == Code(Candidate(kind, l));
  }

  lemma CandAt(st: Status, kind: int)
    requires CandOk(st) && PERF <= kind <= PERFLVL
    ensures st.cand[kind] == Code(Candidate(kind, st.lists[kind]))
  {
    hide WfList, Candidate, CandidateEnd;
  }

  lemma SetListFresh(cfg: Config, s: Arb, r: int, kind: int, l: Live)
    requires Agrees(cfg, s) && Fresh(cfg, s) && r in cfg.nodes && PERF <= kind <= PERFLVL && WfList(l, kind)
    ensures Fresh(cfg, SetList(cfg, s, r, kind, l))
  {
    hide CandOk, DecideOk, CurOk, WfList, SetList, Arbitrate, Recount;
    AgreesCand(cfg, s, r);
    SetListCases(cfg, s, r, kind, l);
    RecountStatus(s.info[r].(lists := s.info[r].lists[kind := l]), kind);
    var st := Recount(s.info[r].(lists := s.info[r].lists[kind := l]), kind);
    var s1 := s.(info := s.info[r := st]);
    if st.cand == s.info[r].cand && st.candEnd == s.info[r].candEnd {
      if kind == PERFLVL { SameCandidateSameUse(s.info[r], kind, l); }
      SkipFresh(cfg, s, r, st);
    } else {
      MoveFresh(cfg, s, r, st);
    }
  }

  lemma RecountStatus(st: Status, kind: int)
    requires Shaped(st) && PERF <= kind <= PERFLVL
    ensures var u := Recount(st, kind); u.lists == st.lists && u.candLevel == st.candLevel && u.pairLevel == st.pairLevel && Shaped(u)
  {
  }

  lemma SkipFresh(cfg: Config, s: Arb, r: int, st: Status)
    requires Fresh(cfg, s) && r in cfg.nodes && Shaped(st) && (NoPerfLevel(s.info[r]) ==> NoPerfLevel(st))
    requires st.candLevel == s.info[r].candLevel && st.pairLevel == s.info[r].pairLevel
    ensures Fresh(cfg, s.(info := s.info[r := st]))
  {
    var t := s.(info := s.info[r := st]);
    forall q | q in cfg.nodes ensures FreshAt(cfg, t, q) {
      assert FreshAt(cfg, s, q) && WfPair(cfg, q);
    }
  }

  lemma MoveFresh(cfg: Config, s: Arb, r: int, st: Status)
    requires Fresh(cfg, s) && r in cfg.nodes && Shaped(st)
    ensures Ready(cfg, s.(info := s.info[r := st])) && Fresh(cfg, Arbitrate(cfg, s.(info := s.info[r := st]), r))
  {
    hide Arbitrate;
    var s1 := s.(info := s.info[r := st]);
    forall q | q in cfg.nodes && q != r && PairOf(cfg, q) != Some(r) ensures FreshAt(cfg, s1, q) {
      assert FreshAt(cfg, s, q) && WfPair(cfg, q);
    }
    forall q | q in cfg.nodes && q != r ensures SameSideOfZero(s1.info[q].candLevel, s1.level) || NoPerfLevel(s1.info[q]) {
      assert FreshAt(cfg, s, q);
    }
    ArbitrateFresh(cfg, s1, r);
  }

  lemma {:induction false} ArbitrateAllFresh(cfg: Config, s: Arb, order: seq<int>)
    requires Fresh(cfg, s) && forall r :: r in order ==> r in cfg.nodes
    ensures Fresh(cfg, ArbitrateAll(cfg, s, order))
    decreases |order|
  {
    hide Arbitrate, FreshAt;
    if order != [] {
      OneFresh(cfg, s, order[0]);
      ArbitrateAllFresh(cfg, Arbitrate(cfg, s, order[0]), order[1..]);
    }
  }

  lemma OneFresh(cfg: Config, s: Arb, r: int)
    requires Fresh(cfg, s) && r in cfg.nodes
    ensures Fresh(cfg, Arbitrate(cfg, s, r))
  {
    hide Arbitrate;
    MoveFresh(cfg, s, r, s.info[r]);
    assert s.(info := s.info[r := s.info[r]]) == s;
  }

  lemma SameStatusesFresh(cfg: Config, s: Arb, t: Arb)
    requires Fresh(cfg, s) && t.info == s.info && SameSideOfZero(t.level, s.level)
    ensures Fresh(cfg, t)
  {
    forall q | q in cfg.nodes ensures FreshAt(cfg, t, q) {
      assert FreshAt(cfg, s, q) && WfPair(cfg, q);
    }
  }

  lemma ApplyFresh(cfg: Config, s: Arb, op: Op)
    requires Agrees(cfg, s) && Fresh(cfg, s) && OpOk(cfg, op) && (op.Level? ==> SameSideOfZero(op.level, s.level))
    ensures Fresh(cfg, Apply(cfg, s, op)) && SameSideOfZero(Apply(cfg, s, op).level, s.level)
  {
    hide CandOk, DecideOk, CurOk, WfList, FreshAt, SetList, Instant, Expire;
    match op
    case Begin(r, a) =>
      InstantFrame(cfg, s, r, a);
      AgreesLists(cfg, s, r, a.kind);
      InstantWf(s.info[r].lists[a.kind], a);
      SetListFresh(cfg, s, r, a.kind, Instant(s.info[r].lists[a.kind], a));
      BeginFresh(cfg, s, r, a);
    case End(r, a) =>
      ExpireFrame(cfg, s, r, a);
      AgreesLists(cfg, s, r, a.kind);
      ExpireWf(s.info[r].lists[a.kind], a);
      SetListFresh(cfg, s, r, a.kind, Expire(s.info[r].lists[a.kind], a));
      EndFresh(cfg, s, r, a);
    case ClearPerf(r) =>
      SetListFrame(cfg, s, r, PERF, []);
      EmptyWf();
      SetListFresh(cfg, s, r, PERF, []);
      SameStatusesFresh(cfg, SetList(cfg, s, r, PERF, []), ClearOne(cfg, s, r));
    case SwitchPower(on, order) =>
      ArbitrateAllFrame(cfg, s.(power := on), order);
      SameStatusesFresh(cfg, s, s.(power := on));
      ArbitrateAllFresh(cfg, s.(power := on), order);
    case SwitchThermal(on, order) =>
      ArbitrateAllFrame(cfg, s.(thermal := on), order);
      SameStatusesFresh(cfg, s, s.(thermal := on));
      ArbitrateAllFresh(cfg, s.(thermal := on), order);
    case Level(level) => SameStatusesFresh(cfg, s, s.(level := level));
  }

  lemma EmptyWf()
    ensures WfList([], PERF)
  {
  }

  lemma ExpireWf(l: Live, a: ResAction)
    requires WfList(l, a.kind)
    ensures WfList(Expire(l, a), a.kind)
  {
    EraseWf(l, Exactly(a), a.kind);
  }

  lemma BeginFresh(cfg: Config, s: Arb, r: int, a: ResAction)
    requires Fresh(cfg, s) && r in cfg.nodes && a.Valid() && Fresh(cfg, SetList(cfg, s, r, a.kind, Instant(s.info[r].lists[a.kind], a)))
    ensures Fresh(cfg, DoInstant(cfg, s, r, a))
  {
    hide SetList, Instant, FreshAt;
    SameStatusesFresh(cfg, SetList(cfg, s, r, a.kind, Instant(s.info[r].lists[a.kind], a)),
      SetList(cfg, s, r, a.kind, Instant(s.info[r].lists[a.kind], a)).(boost := DoInstant(cfg, s, r, a).boost));
  }

  lemma EndFresh(cfg: Config, s: Arb, r: int, a: ResAction)
    requires Fresh(cfg, s) && r in cfg.nodes && a.Valid() && Fresh(cfg, SetList(cfg, s, r, a.kind, Expire(s.info[r].lists[a.kind], a)))
    ensures Fresh(cfg, DoExpire(cfg, s, r, a))
  {
    hide SetList, Expire, FreshAt;
    SameStatusesFresh(cfg, SetList(cfg, s, r, a.kind, Expire(s.info[r].lists[a.kind], a)),
      SetList(cfg, s, r, a.kind, Expire(s.info[r].lists[a.kind], a)).(boost := s.boost - One(a.interaction)));
  }

  lemma {:induction false} ApplyAllFresh(cfg: Config, s: Arb, ops: seq<Op>)
    requires Agrees(cfg, s) && Fresh(cfg, s) && OpsOk(cfg, ops) && SameSide(ops, s.level)
    ensures Fresh(cfg, ApplyAll(cfg, s, ops))
    decreases |ops|
  {
    hide Agrees, Apply, OpOk, FreshAt;
    if ops != [] {
      ApplyFresh(cfg, s, ops[0]);
      ApplyAgrees(cfg, s, ops[0]);
      ApplyAllFresh(cfg, Apply(cfg, s, ops[0]), ops[1..]);
    }
  }

  lemma LevelFresh(cfg: Config, s: Arb, level: int)
    requires WfConfig(cfg) && Ready(cfg, s) && forall q :: q in cfg.nodes ==> NoPerfLevel(s.info[q])
    ensures Fresh(cfg, s.(level := level))
  {
    forall q | q in cfg.nodes ensures FreshAt(cfg, s.(level := level), q) {
      assert WfPair(cfg, q);
    }
  }

  /** If the level is set, to anything, while no perf-level request is live, then until it crosses zero every
      value of every resource is the from-scratch value at the present level. */
  lemma FixedLevelIsCurrent(cfg: Config, before: seq<Event>, level: int, since: seq<Event>, r: int)
    requires WfConfig(cfg) && EventsOk(cfg, before) && EventsOk(cfg, since) && r in cfg.nodes
    requires forall q :: q in cfg.nodes ==> NoPerfLevel(Reach(cfg, before).info[q])
    requires NoCrossing(since, level)
    ensures var s := Run(cfg, Step(cfg, Reach(cfg, before), SetLevel(level)), since);
      Plain(s.info[r]) == RebuiltNow(cfg, s, r)
  {
    hide CandOk, DecideOk, CurOk, Reach, WfPair, FreshAt, EventsOk, NoCrossing;
    var s0 := Reach(cfg, before);
    ReachAgrees(cfg, before);
    LevelStep(cfg, s0, level);
    LevelFresh(cfg, s0, level);
    LevelAgrees(cfg, s0, level);
    var s := s0.(level := level);
    RunSameSide(cfg, since, level);
    RunIsOps(cfg, s, since);
    ApplyAllFresh(cfg, s, RunOps(cfg, since));
    ApplyAllAgrees(cfg, s, RunOps(cfg, since));
    FreshNow(cfg, Run(cfg, s, since), r);
  }
}
