/** The arbiter as the source has it: one object that owns a status object per resource. Each method is
    proved to compute the corresponding step of ArbiterState, Tasks or System. */
module Arbiter {
  import opened Common
  import opened Config
  import opened LiveList
  import opened Arbitration
  import opened ArbiterState
  import opened Agreement
  import opened Tasks
  import opened Runs
  import opened Levels
  import opened System
  import opened RequestChain
  import opened ArbiterObjects
  import opened ArbiterFacts

  class SocPerfThreadWrap {
    const config: Config
    const commands: map<int, Actions>
    var resStatusInfo: map<int, ResStatus?>
    var powerLimitBoost: bool
    var thermalLimitBoost: bool
    var thermalLvl: int
    var boostResCnt: int
    var weakInteractionStatus: bool
    var performanceModeStatus: bool
    var interAction: seq<InterAction>
    const socperfQueue: TaskQueue
    const sinks: Sinks
    ghost var statuses: set<ResStatus>
    ghost var dropped: int

    constructor (config: Config, commands: map<int, Actions>, interAction: seq<InterAction>)
      ensures this.config == config && this.commands == commands && this.interAction == interAction
      ensures resStatusInfo == map[] && statuses == {} && fresh(socperfQueue) && fresh(sinks)
      ensures !powerLimitBoost && !thermalLimitBoost && thermalLvl == 0 && boostResCnt == 0 && dropped == 0
      ensures weakInteractionStatus && !performanceModeStatus
      ensures socperfQueue.q == Queue(0, [], map[], 0) && socperfQueue.nextId == 0 && socperfQueue.weakLog == []
      ensures sinks.perfSo == [] && sinks.rssExe == []
    {
      this.config, this.commands, this.interAction := config, commands, interAction;
      resStatusInfo, statuses := map[], {};
      powerLimitBoost, thermalLimitBoost, thermalLvl, boostResCnt, dropped := false, false, 0, 0, 0;
      weakInteractionStatus, performanceModeStatus := true, false;
      socperfQueue := new TaskQueue();
      sinks := new Sinks();
    }

    /** One status object per configured resource, everything at its default. */
    method CreateStatuses()
      requires WfConfig(config) && resStatusInfo == map[] && statuses == {}
      requires !powerLimitBoost && !thermalLimitBoost && thermalLvl == 0 && boostResCnt == 0 && dropped == 0
      modifies this`resStatusInfo, this`statuses
      ensures Valid() && State() == InitArb(config) && fresh(statuses) && resStatusInfo.Keys == config.nodes.Keys
      ensures Sent() == map r | r in config.nodes :: (NODE_DEFAULT_VALUE, MAX_INT_VALUE)
    {
      var todo := config.nodes.Keys;
      while todo != {}
        invariant todo <= config.nodes.Keys
        invariant forall r :: r in config.nodes <==> r in todo || r in resStatusInfo
        invariant forall r :: r in resStatusInfo ==> r !in todo && resStatusInfo[r] != null && resStatusInfo[r] in statuses
        invariant fresh(statuses)
        invariant forall o :: o in statuses ==> o.Snapshot() == InitStatus && o.previousValue == NODE_DEFAULT_VALUE && o.previousEndTime == MAX_INT_VALUE
        invariant forall q, r :: q in resStatusInfo && r in resStatusInfo && q != r ==> resStatusInfo[q] != resStatusInfo[r]
      {
        Inhabited(todo);
        var resId :| resId in todo;
        todo := todo - {resId};
        var resStatus := new ResStatus();
        resStatusInfo := resStatusInfo[resId := resStatus];
        statuses := statuses + {resStatus};
      }
      hide WfConfig;
      assert forall r :: r in resStatusInfo <==> r in config.nodes;
      assert resStatusInfo.Keys == config.nodes.Keys;
      assert forall r :: r in config.nodes ==> State().info[r] == InitStatus;
      assert State().info == InitArb(config).info;
      assert forall r :: r in config.nodes ==> Sent()[r] == (NODE_DEFAULT_VALUE, MAX_INT_VALUE);
    }

    /** Every configured resource has its own status object. Other keys, such as the level ids that a limit
        request looks up, only ever map to null. */
    ghost predicate Valid()
      reads this`resStatusInfo, this`statuses, statuses
    {
      && WfConfig(config)
      && (forall r :: r in config.nodes ==> r in resStatusInfo && resStatusInfo[r] != null && resStatusInfo[r] in statuses && Shaped(resStatusInfo[r].Snapshot()))
      && (forall r :: r in resStatusInfo && r !in config.nodes ==> resStatusInfo[r] == null)
      && (forall q, r :: q in config.nodes && r in config.nodes && q != r ==> resStatusInfo[q] != resStatusInfo[r])
    }

    /** The status object of a configured resource. */
    ghost function Of(r: int): ResStatus
      requires Valid() && r in config.nodes
      reads this`resStatusInfo, this`statuses, statuses
    {
      resStatusInfo[r]
    }

    ghost function State(): Arb
      requires Valid()
      reads this, statuses
      ensures Ready(config, State())
    {
      Arb(map r | r in config.nodes :: resStatusInfo[r].Snapshot(), powerLimitBoost, thermalLimitBoost, thermalLvl, boostResCnt, dropped)
    }

    /** What was last reported: previousValue and previousEndTime. */
    ghost function Sent(): map<int, (int, int)>
      requires Valid()
      reads this`resStatusInfo, this`statuses, statuses
    {
      map r | r in config.nodes :: (resStatusInfo[r].previousValue, resStatusInfo[r].previousEndTime)
    }

    // ---- arbitration --------------------------------------------------------------------------------

    /** Two heaps in which every status object reads the same, except that of `r`. */
    twostate lemma OnlyChanged(r: int)
      requires old(Valid()) && Valid() && r in config.nodes && unchanged(this)
      requires forall q :: q in config.nodes && q != r ==> old(resStatusInfo[q].Snapshot()) == resStatusInfo[q].Snapshot()
      ensures State() == old(State()).(info := old(State()).info[r := resStatusInfo[r].Snapshot()])
    {
      assert State().info == old(State()).info[r := resStatusInfo[r].Snapshot()];
    }

    method UpdateCurrentValue(resId: int, currValue: int)
      requires Valid() && resId in config.nodes
      modifies Of(resId)`currentValue, Of(resId)`pairLevel
      ensures Valid()
      ensures State() == old(State()).(info := old(State()).info[resId :=
        old(State()).info[resId].(currentValue := currValue, pairLevel := thermalLvl)])
    {
      if resStatusInfo[resId] == null {
        return;
      }
      resStatusInfo[resId].currentValue := currValue;
      resStatusInfo[resId].pairLevel := thermalLvl;
      OnlyChanged(resId);
    }

    method UpdatePairResValue(minResId: int, minResValue: int, maxResId: int, maxResValue: int)
      requires Valid() && minResId in config.nodes && maxResId in config.nodes && minResId != maxResId
      modifies Of(minResId)`currentValue, Of(minResId)`pairLevel
      modifies Of(maxResId)`currentValue, Of(maxResId)`pairLevel
      ensures Valid()
      ensures State() == SetPair(old(State()), minResId, minResValue, maxResId, maxResValue)
    {
      UpdateCurrentValue(minResId, minResValue);
      UpdateCurrentValue(maxResId, maxResValue);
    }

    /** Coupling, given whether the max member of the pair rules. */
    method ArbitratePairRes(resId: int, perfRequestLimit: bool)
      requires Valid() && resId in config.nodes
      requires var p := PairOf(config, resId);
        p.Some? && resStatusInfo[resId].candidate != NODE_DEFAULT_VALUE && resStatusInfo[p.value].candidate != NODE_DEFAULT_VALUE ==>
          ((powerLimitBoost || thermalLimitBoost || perfRequestLimit) <==> Limited(State(), resId, p.value, thermalLvl))
      modifies statuses`currentValue, statuses`pairLevel
      ensures Valid()
      ensures State() == Couple(config, old(State()), resId)
    {
      ghost var s := State();
      var limit := powerLimitBoost || thermalLimitBoost || perfRequestLimit;
      if config.nodes[resId].isGov {
        UpdateCurrentValue(resId, resStatusInfo[resId].candidate);
        return;
      }
      var pairResId := config.nodes[resId].pair;
      if pairResId == INVALID_VALUE {
        UpdateCurrentValue(resId, resStatusInfo[resId].candidate);
        return;
      }
      CoupleSets(config, s, resId, pairResId);
      if resStatusInfo[pairResId] == null {
        return;
      }
      ApplyPair(resId, pairResId, limit);
    }

    /** The applied values of the two members of a pair. */
    method ApplyPair(resId: int, pairResId: int, limit: bool)
      requires Valid() && resId in config.nodes && PairOf(config, resId) == Option.Some(pairResId) && pairResId in config.nodes && pairResId != resId
      requires resStatusInfo[resId].candidate != NODE_DEFAULT_VALUE && resStatusInfo[pairResId].candidate != NODE_DEFAULT_VALUE ==>
        (limit <==> Limited(State(), resId, pairResId, thermalLvl))
      modifies statuses`currentValue, statuses`pairLevel
      ensures Valid()
      ensures State() == Couple(config, old(State()), resId)
    {
      CoupleSets(config, State(), resId, pairResId);
      hide Couple, SetPair, Limited, WfConfig, Cached;
      var own, other := resStatusInfo[resId], resStatusInfo[pairResId];
      if other.candidate == NODE_DEFAULT_VALUE || own.candidate == NODE_DEFAULT_VALUE {
        UpdatePairResValue(resId, own.candidate, pairResId, other.candidate);
        return;
      }
      if config.nodes[resId].isMaxValue {
        if own.candidate < other.candidate {
          if limit {
            UpdatePairResValue(pairResId, own.candidate, resId, own.candidate);
          } else {
            UpdatePairResValue(pairResId, other.candidate, resId, other.candidate);
          }
        } else {
          UpdatePairResValue(pairResId, other.candidate, resId, own.candidate);
        }
      } else {
        if own.candidate > other.candidate {
          if limit {
            UpdatePairResValue(resId, other.candidate, pairResId, other.candidate);
          } else {
            UpdatePairResValue(resId, own.candidate, pairResId, own.candidate);
          }
        } else {
          UpdatePairResValue(resId, own.candidate, pairResId, other.candidate);
        }
      }
    }

    method SetCandidate(resId: int, candidate: int, endTime: int)
      requires Valid() && resId in config.nodes
      modifies Of(resId)`candidate, Of(resId)`currentEndTime, Of(resId)`candLevel
      ensures Valid()
      ensures State() == old(State()).(info := old(State()).info[resId :=
        old(State()).info[resId].(candidate := candidate, currentEndTime := endTime, candLevel := thermalLvl)])
    {
      var resStatus := resStatusInfo[resId];
      resStatus.candidate := candidate;
      resStatus.currentEndTime := endTime;
      resStatus.candLevel := thermalLvl;
      OnlyChanged(resId);
    }

    /** Nothing is requested: send the default value. */
    method ExistNoCandidate(resId: int) returns (none: bool)
      requires Valid() && resId in config.nodes
      modifies Of(resId)`candidate, Of(resId)`currentEndTime, Of(resId)`candLevel, statuses`currentValue, statuses`pairLevel
      ensures Valid()
      ensures none <==> Idle(old(Of(resId).Snapshot()))
      ensures !none ==> Of(resId).Snapshot() == old(Of(resId).Snapshot())
      ensures State() == if none then Arbitrate(config, old(State()), resId) else old(State())
    {
      hide WfConfig, Couple, Decide, Limited;
      ghost var s := State();
      var resStatus := resStatusInfo[resId];
      var perfCandidate := resStatus.candidatesValue[PERF];
      var powerCandidate := resStatus.candidatesValue[POWER];
      var thermalCandidate := resStatus.candidatesValue[THERMAL];
      var perfLvlCandidate := resStatus.candidatesValue[PERFLVL];
      if perfCandidate == INVALID_VALUE && powerCandidate == INVALID_VALUE && thermalCandidate == INVALID_VALUE
        && perfLvlCandidate == INVALID_VALUE {
        SetCandidate(resId, NODE_DEFAULT_VALUE, MAX_INT_VALUE);
        IdleDecides(s, resId);
        ArbitratePairRes(resId, false);
        return true;
      }
      return false;
    }

    /** Combine perf, power and thermal by the two limit switches. */
    method ProcessLimitCase(resId: int)
      requires Valid() && resId in config.nodes && CodesOk(Of(resId).Snapshot())
      modifies Of(resId)`candidate, Of(resId)`currentEndTime, Of(resId)`candLevel
      ensures Valid()
      ensures State() == Based(old(State()), resId)
    {
      var resStatus := resStatusInfo[resId];
      var perf := resStatus.candidatesValue[PERF];
      var power := resStatus.candidatesValue[POWER];
      var thermal := resStatus.candidatesValue[THERMAL];
      var candidate;
      if !powerLimitBoost && !thermalLimitBoost {
        if perf != INVALID_VALUE {
          candidate := Max(Max(perf, power), thermal);
        } else {
          candidate := if power == INVALID_VALUE then thermal
            else if thermal == INVALID_VALUE then power else Min(power, thermal);
        }
      } else if !powerLimitBoost && thermalLimitBoost {
        candidate := if thermal != INVALID_VALUE then thermal else Max(perf, power);
      } else if powerLimitBoost && !thermalLimitBoost {
        candidate := if power != INVALID_VALUE then power else Max(perf, thermal);
      } else {
        if power == INVALID_VALUE && thermal == INVALID_VALUE {
          candidate := perf;
        } else {
          candidate := if power == INVALID_VALUE then thermal
            else if thermal == INVALID_VALUE then power else Min(power, thermal);
        }
      }
      TableCodes(perf, power, thermal, powerLimitBoost, thermalLimitBoost);
      assert candidate == Code(Base(View(perf), View(power), View(thermal), powerLimitBoost, thermalLimitBoost));
      hide Base, Code, Max, WfConfig;
      SetCandidate(resId, candidate,
        Min(Min(resStatus.candidatesEndTime[PERF], resStatus.candidatesEndTime[POWER]), resStatus.candidatesEndTime[THERMAL]));
    }

    /** The perf-level value caps the candidate at thermal level 0 and replaces it at any other. */
    method OverrideCandidate(resId: int)
      requires Valid() && resId in config.nodes && CodesOk(Of(resId).Snapshot())
      modifies Of(resId)`candidate
      ensures Valid()
      ensures State() == Overridden(old(State()), resId)
    {
      ghost var s := State();
      var resStatus := resStatusInfo[resId];
      OverrideCodes(s, resId);
      if resStatus.candidatesValue[PERFLVL] != INVALID_VALUE {
        if thermalLvl == 0 && resStatus.candidate != INVALID_VALUE {
          resStatus.candidate := Min(resStatus.candidate, resStatus.candidatesValue[PERFLVL]);
        } else {
          resStatus.candidate := resStatus.candidatesValue[PERFLVL];
        }
      }
      OnlyChanged(resId);
    }

    /** A perf-level request on the resource or its partner has the last word. */
    method ArbitratePairResInPerfLvl(resId: int) returns (done: bool)
      requires Valid() && resId in config.nodes && CodesOk(Of(resId).Snapshot())
      modifies Of(resId)`candidate, statuses`currentValue, statuses`pairLevel
      ensures Valid()
      ensures State() == if done then Couple(config, Overridden(old(State()), resId), resId) else old(State())
      ensures !done ==> Cached(Of(resId).Snapshot()).perfLvl.None?
      ensures !done ==> PairOf(config, resId).Some? && PairOf(config, resId).value in config.nodes && Cached(Of(PairOf(config, resId).value).Snapshot()).perfLvl.None?
    {
      var resStatus := resStatusInfo[resId];
      var pairResId := INVALID_VALUE;
      assert WfPair(config, resId);
      if !IsGov(config, resId) {
        pairResId := config.nodes[resId].pair;
      }
      if resStatus.candidatesValue[PERFLVL] == INVALID_VALUE && pairResId != INVALID_VALUE &&
        (resStatusInfo[pairResId] == null || resStatusInfo[pairResId].candidatesValue[PERFLVL] == INVALID_VALUE) {
        return false;
      }
      OverrideCandidate(resId);
      var limit := false;
      if thermalLvl != 0 && !IsGov(config, resId) &&
        (config.nodes[resId].isMaxValue || (pairResId != INVALID_VALUE && config.nodes[pairResId].isMaxValue)) {
        limit := true;
      }
      ArbitratePairRes(resId, limit);
      return true;
    }

    /** Without a performance level on either member, only the switches make the max member rule. */
    lemma OnlySwitchesLimit(resId: int)
      requires Valid() && resId in config.nodes && PairOf(config, resId).Some? && PairOf(config, resId).value in config.nodes
      requires Cached(Of(resId).Snapshot()).perfLvl.None? && Cached(Of(PairOf(config, resId).value).Snapshot()).perfLvl.None?
      ensures powerLimitBoost || thermalLimitBoost <==> Limited(State(), resId, PairOf(config, resId).value, thermalLvl)
    {
      hide WfConfig, Cached;
    }

    /** Switches, perf levels and coupling, for a resource with some candidate. */
    method ArbitrateRequested(resId: int)
      requires Valid() && resId in config.nodes && CodesOk(Of(resId).Snapshot()) && !Idle(Of(resId).Snapshot())
      modifies Of(resId)`candidate, Of(resId)`currentEndTime, Of(resId)`candLevel, statuses`currentValue, statuses`pairLevel
      ensures Valid()
      ensures State() == Arbitrate(config, old(State()), resId)
    {
      hide WfConfig, Couple, Base, CodesOk, Decide, Overridden, Limited, Idle;
      DecideByParts(State(), resId);
      ProcessLimitCase(resId);
      var done := ArbitratePairResInPerfLvl(resId);
      if !done {
        OnlySwitchesLimit(resId);
        ArbitratePairRes(resId, false);
      }
    }

    /** Arbitrate one resource, and with it the applied value of its partner. */
    method ArbitrateCandidate(resId: int)
      requires Valid() && resId in config.nodes && CodesOk(Of(resId).Snapshot())
      modifies Of(resId)`candidate, Of(resId)`currentEndTime, Of(resId)`candLevel, statuses`currentValue, statuses`pairLevel
      ensures Valid()
      ensures State() == Arbitrate(config, old(State()), resId)
    {
      hide WfConfig, Arbitrate, CodesOk;
      var none := ExistNoCandidate(resId);
      if none {
        return;
      }
      ArbitrateRequested(resId);
    }

    /** One pass over a list: the winning value, and the latest end time among its requests. */
    method InnerArbitrateCandidatesValue(kind: int, resStatus: ResStatus)
      requires Shaped(resStatus.Snapshot()) && PERF <= kind <= PERFLVL
      requires resStatus.resActionList[kind] != [] && forall x :: x in resStatus.resActionList[kind] ==> x.Valid()
      modifies resStatus`candidatesValue, resStatus`candidatesEndTime
      ensures resStatus.Snapshot() == Recount(old(resStatus.Snapshot()), kind)
    {
      hide TopValue, TopEnd, Winning;
      var isPerfFirst := kind == PERF || kind == PERFLVL;
      var l := resStatus.resActionList[kind];
      var res := if isPerfFirst then MIN_INT_VALUE else MAX_INT_VALUE;
      var endTime := MIN_INT_VALUE;
      var i := 0;
      NothingSeen(kind, l[..0], res, endTime);
      while i < |l|
        invariant i <= |l|
        invariant Winning(kind, l[..i], res, endTime)
        modifies {}
      {
        assert l[i] in l && l[i].Valid();
        assert l[..i + 1] == l[..i] + [l[i]];
        WinningStep(kind, l[..i], l[i], res, endTime);
        if (l[i].value > res && isPerfFirst) || (l[i].value < res && !isPerfFirst) {
          res := l[i].value;
          endTime := l[i].endTime;
        } else if l[i].value == res {
          endTime := Max(endTime, l[i].endTime);
        }
        i := i + 1;
      }
      assert l[..|l|] == l;
      AllSeen(kind, l, res, endTime);
      resStatus.candidatesValue := resStatus.candidatesValue[kind := res];
      resStatus.candidatesEndTime := resStatus.candidatesEndTime[kind := endTime];
    }

    /** Recompute one type's candidate, and arbitrate only if it or its end time moved. */
    method UpdateCandidatesValue(resId: int, kind: int)
      requires Valid() && resId in config.nodes && PERF <= kind <= PERFLVL
      requires CodesOk(Of(resId).Snapshot()) && forall x :: x in Of(resId).resActionList[kind] ==> x.Valid()
      modifies Of(resId)`candidatesValue, Of(resId)`candidatesEndTime
      modifies Of(resId)`candidate, Of(resId)`currentEndTime, Of(resId)`candLevel, statuses`currentValue, statuses`pairLevel
      ensures Valid()
      ensures State() == Refresh(config, old(State()), resId, kind)
    {
      hide WfConfig, Arbitrate, TopValue, TopEnd, CodesOk;
      ghost var s := State();
      var resStatus := resStatusInfo[resId];
      var prevValue := resStatus.candidatesValue[kind];
      var prevEndTime := resStatus.candidatesEndTime[kind];
      if resStatus.resActionList[kind] == [] {
        resStatus.candidatesValue := resStatus.candidatesValue[kind := INVALID_VALUE];
        resStatus.candidatesEndTime := resStatus.candidatesEndTime[kind := MAX_INT_VALUE];
      } else {
        InnerArbitrateCandidatesValue(kind, resStatus);
      }
      RecountCodes(s.info[resId], kind);
      assert resStatus.Snapshot() == Recount(s.info[resId], kind);
      OnlyChanged(resId);
      if resStatus.candidatesValue[kind] != prevValue || resStatus.candidatesEndTime[kind] != prevEndTime {
        ArbitrateCandidate(resId);
      }
    }

    // ---- changing the lists -----------------------------------------------------------------------------

    /** No status has changed, whatever has become of the other fields. */
    twostate lemma InfoKept()
      requires old(Valid()) && Valid() && unchanged(old(statuses)) && statuses == old(statuses) && resStatusInfo == old(resStatusInfo)
      ensures State().info == old(State()).info && Sent() == old(Sent())
    {
      hide WfConfig;
      assert forall r :: r in config.nodes ==> State().info[r] == old(State()).info[r];
      assert forall r :: r in config.nodes ==> Sent()[r] == old(Sent())[r];
    }

    twostate lemma SentKept()
      requires old(Valid()) && Valid() && resStatusInfo == old(resStatusInfo)
      requires forall r :: r in config.nodes ==>
        resStatusInfo[r].previousValue == old(resStatusInfo[r].previousValue) && resStatusInfo[r].previousEndTime == old(resStatusInfo[r].previousEndTime)
      ensures Sent() == old(Sent())
    {
      assert forall r :: r in config.nodes ==> Sent()[r] == old(Sent())[r];
    }

    /** Store a changed list and bring the caches up to date. */
    method StoreList(resId: int, kind: int, l: Live)
      requires Valid() && resId in config.nodes && PERF <= kind <= PERFLVL
      requires CodesOk(Of(resId).Snapshot()) && forall x :: x in l ==> x.Valid()
      modifies statuses
      ensures Valid() && Sent() == old(Sent())
      ensures State() == SetList(config, old(State()), resId, kind, l)
    {
      hide Refresh, WfConfig, Recount, CodesOk;
      ghost var s := State();
      AssignList(resId, kind, l);
      UpdateCandidatesValue(resId, kind);
      SentKept();
    }

    method AssignList(resId: int, kind: int, l: Live)
      requires Valid() && resId in config.nodes && PERF <= kind <= PERFLVL
      modifies Of(resId)`resActionList
      ensures Valid() && Of(resId).candidatesValue == old(Of(resId).candidatesValue)
      ensures old(CodesOk(Of(resId).Snapshot())) ==> CodesOk(Of(resId).Snapshot())
      ensures Of(resId).resActionList == old(Of(resId).resActionList)[kind := l]
      ensures State() == old(State()).(info := old(State()).info[resId := old(State()).info[resId].(lists := old(State()).info[resId].lists[kind := l])])
    {
      hide WfConfig;
      resStatusInfo[resId].resActionList := resStatusInfo[resId].resActionList[kind := l];
      OnlyChanged(resId);
      assert resStatusInfo[resId].Snapshot() == old(State()).info[resId].(lists := old(State()).info[resId].lists[kind := l]);
    }

    /** Find the entry an erasing loop stops at. */
    method FindFirst(l: Live, m: Match) returns (i: nat)
      ensures i <= |l| && (i < |l| <==> Hit(l, m)) && (i < |l| ==> m.Hits(l[i]))
      ensures EraseFirst(l, m) == if i < |l| then l[..i] + l[i + 1..] else l
    {
      i := 0;
      while i < |l| && !m.Hits(l[i])
        invariant i <= |l|
        invariant forall j :: 0 <= j < i ==> !m.Hits(l[j])
      {
        i := i + 1;
      }
      if i < |l| {
        EraseAt(l, m, i);
      } else {
        EraseMiss(l, m);
      }
    }

    /** Erase the first entry that is hit. */
    method Erase(l: Live, m: Match) returns (r: Live, hit: bool)
      ensures r == EraseFirst(l, m) && (hit <==> Hit(l, m))
    {
      var i := FindFirst(l, m);
      hit := i < |l|;
      r := if hit then l[..i] + l[i + 1..] else l;
    }

    /** The caches agree with the lists, and so every list and candidate is in order. */
    ghost predicate InOrder()
      reads this, statuses
    {
      Valid() && Agrees(config, State())
    }

    lemma OrderOf(r: int)
      requires InOrder() && r in config.nodes
      ensures CodesOk(Of(r).Snapshot()) && EntriesValid(Of(r).Snapshot())
      ensures r in resStatusInfo && resStatusInfo[r] != null && resStatusInfo[r] == Of(r)
      ensures |Of(r).resActionList| == ACTION_TYPE_MAX && Of(r).resActionList == State().info[r].lists
    {
      AgreesCand(config, State(), r);
      CandCodes(State().info[r]);
      hide Agrees, WfConfig;
    }

    lemma EntryOf(r: int, kind: int)
      requires InOrder() && r in config.nodes && PERF <= kind <= PERFLVL
      ensures r in resStatusInfo && resStatusInfo[r] != null && |resStatusInfo[r].resActionList| == ACTION_TYPE_MAX
      ensures resStatusInfo[r].resActionList[kind] == State().info[r].lists[kind]
      ensures CodesOk(Of(r).Snapshot()) && forall x :: x in resStatusInfo[r].resActionList[kind] ==> x.Valid()
    {
      OrderOf(r);
      hide Agrees, WfConfig, CodesOk;
    }

    /** Count interactive requests in or out. Arbitration does not read the counter. */
    method AddBoost(delta: int)
      requires Valid()
      modifies this`boostResCnt
      ensures Valid() && Sent() == old(Sent())
      ensures State() == old(State()).(boost := old(State()).boost + delta)
    {
      hide WfConfig;
      boostResCnt := boostResCnt + delta;
      InfoKept();
    }

    /** Account for interactive requests that are thrown away without being counted out. */
    method AddDropped(ghost lost: int)
      requires Valid()
      modifies this`dropped
      ensures Valid() && Sent() == old(Sent())
      ensures State() == old(State()).(dropped := old(State()).dropped + lost)
    {
      hide WfConfig;
      dropped := dropped + lost;
      InfoKept();
    }

    /** Store a changed list and count interactive requests in or out. */
    method StoreAndCount(resId: int, kind: int, l: Live, delta: int)
      requires Valid() && resId in config.nodes && PERF <= kind <= PERFLVL
      requires CodesOk(Of(resId).Snapshot()) && forall x :: x in l ==> x.Valid()
      modifies statuses, this`boostResCnt
      ensures Valid() && Sent() == old(Sent())
      ensures State() == SetList(config, old(State()), resId, kind, l).(boost := old(State()).boost + delta)
    {
      hide SetList, WfConfig, CodesOk, SocPerfThreadWrap.Valid;
      SetListKeepsBoost(config, State(), resId, kind, l);
      StoreList(resId, kind, l);
      AddBoost(delta);
    }

    /** An ON or untagged request replaces the entry it is TotalSame to, if any, and joins the end of the list. */
    method HandleResAction(resId: int, kind: int, resAction: ResAction)
      requires InOrder() && resId in config.nodes && resAction.Valid() && kind == resAction.kind && resAction.onOff != EventOff
      modifies statuses, this`boostResCnt
      ensures Valid() && Sent() == old(Sent())
      ensures State() == DoInstant(config, old(State()), resId, resAction)
    {
      hide Agrees, SetList, WfConfig, CodesOk, DoInstant, Hit, SocPerfThreadWrap.Valid;
      EntryOf(resId, kind);
      Filed(config, State(), resId, resAction);
      var l, found := Erase(resStatusInfo[resId].resActionList[kind], Same(resAction));
      var delta := if found && resAction.interaction then -1 else 0;
      if resAction.interaction {
        delta := delta + 1;
      }
      StoreAndCount(resId, kind, l + [resAction], delta);
    }

    /** An OFF request removes the ON entry it matches. */
    method HandleOff(resId: int, kind: int, resAction: ResAction)
      requires InOrder() && resId in config.nodes && resAction.Valid() && kind == resAction.kind && resAction.onOff == EventOff
      modifies statuses, this`boostResCnt
      ensures Valid() && Sent() == old(Sent())
      ensures State() == DoInstant(config, old(State()), resId, resAction)
    {
      hide Agrees, SetList, WfConfig, CodesOk, Hit, SocPerfThreadWrap.Valid;
      EntryOf(resId, kind);
      var l, found := Erase(resStatusInfo[resId].resActionList[kind], OnOf(resAction));
      if found {
        StoreAndCount(resId, kind, l, if resAction.interaction then -1 else 0);
      }
    }

    /** An instant request: ON and untagged requests are filed, an OFF removes the ON entry it matches. */
    method UpdateResActionListByInstantMsg(resId: int, kind: int, resAction: ResAction)
      requires InOrder() && resId in config.nodes && resAction.Valid() && kind == resAction.kind
      modifies statuses, this`boostResCnt
      ensures InOrder() && Sent() == old(Sent())
      ensures State() == DoInstant(config, old(State()), resId, resAction)
    {
      hide Agrees, DoInstant, WfConfig;
      InstantAgrees(config, State(), resId, resAction);
      match resAction.onOff
      case EventInvalid => HandleResAction(resId, kind, resAction);
      case EventOn => HandleResAction(resId, kind, resAction);
      case EventOff => HandleOff(resId, kind, resAction);
    }

    /** An expiry removes the very object it was posted for. */
    method HandleExpiry(resId: int, kind: int, resAction: ResAction)
      requires InOrder() && resId in config.nodes && resAction.Valid() && kind == resAction.kind
      modifies statuses, this`boostResCnt
      ensures Valid() && Sent() == old(Sent())
      ensures State() == DoExpire(config, old(State()), resId, resAction)
    {
      hide Agrees, SetList, WfConfig, CodesOk, Hit, SocPerfThreadWrap.Valid;
      EntryOf(resId, kind);
      var l, found := Erase(resStatusInfo[resId].resActionList[kind], Exactly(resAction));
      if found {
        StoreAndCount(resId, kind, l, if resAction.interaction then -1 else 0);
      }
    }

    /** An expiry removes the very object it was posted for, if that is still live. */
    method UpdateResActionListByDelayedMsg(resId: int, kind: int, resAction: ResAction)
      requires InOrder() && resId in config.nodes && resAction.Valid() && kind == resAction.kind
      modifies statuses, this`boostResCnt
      ensures InOrder() && Sent() == old(Sent())
      ensures State() == DoExpire(config, old(State()), resId, resAction)
    {
      hide Agrees, DoExpire, WfConfig;
      ExpireAgrees(config, State(), resId, resAction);
      HandleExpiry(resId, kind, resAction);
    }

    method UpdateResActionList(resId: int, resAction: ResAction, delayed: bool)
      requires InOrder() && resId in config.nodes && resAction.Valid()
      modifies statuses, this`boostResCnt
      ensures InOrder() && Sent() == old(Sent())
      ensures State() == if delayed then DoExpire(config, old(State()), resId, resAction)
        else DoInstant(config, old(State()), resId, resAction)
    {
      if delayed {
        UpdateResActionListByDelayedMsg(resId, resAction.kind, resAction);
      } else {
        UpdateResActionListByInstantMsg(resId, resAction.kind, resAction);
      }
    }

    // ---- the arbiter's share of each task ---------------------------------------------------------------

    /** A pack: file its requests in chain order, passing over unknown resources. */
    method RunPack(items: seq<Item>)
      requires InOrder() && TaskOk(config, Pack(items))
      modifies statuses, this`boostResCnt
      ensures InOrder() && Sent() == old(Sent())
      ensures State() == ApplyAll(config, old(State()), PackOps(config, items))
    {
      hide Agrees, DoInstant, WfConfig, SocPerfThreadWrap.State, SocPerfThreadWrap.Sent;
      ghost var s := State();
      var k := 0;
      assert items[0..] == items;
      while k < |items|
        invariant k <= |items| && InOrder() && Sent() == old(Sent())
        invariant TaskOk(config, Pack(items[k..]))
        invariant ApplyAll(config, State(), PackOps(config, items[k..])) == ApplyAll(config, s, PackOps(config, items))
      {
        ghost var before := State();
        assert items[k..][0] == items[k] && items[k..][1..] == items[k + 1..];
        PackOpsCons(config, before, items[k..]);
        if items[k].resId in config.nodes {
          UpdateResActionList(items[k].resId, items[k].action, false);
        }
        k := k + 1;
      }
    }

    /** Expiries: remove each object that is still live. */
    method RunExpiry(items: seq<Item>)
      requires InOrder() && TaskOk(config, Expiry(items))
      modifies statuses, this`boostResCnt
      ensures InOrder() && Sent() == old(Sent())
      ensures State() == ApplyAll(config, old(State()), ExpiryOps(items))
    {
      hide Agrees, DoExpire, WfConfig, SocPerfThreadWrap.State, SocPerfThreadWrap.Sent;
      ghost var s := State();
      var k := 0;
      assert items[0..] == items;
      while k < |items|
        invariant k <= |items| && InOrder() && Sent() == old(Sent())
        invariant TaskOk(config, Expiry(items[k..]))
        invariant ApplyAll(config, State(), ExpiryOps(items[k..])) == ApplyAll(config, s, ExpiryOps(items))
      {
        ghost var before := State();
        assert items[k..][0] == items[k] && items[k..][1..] == items[k + 1..];
        ExpiryOpsCons(config, before, items[k..]);
        UpdateResActionList(items[k].resId, items[k].action, true);
        k := k + 1;
      }
    }

    /** Arbitrate one resource among others that may still be out of date. */
    method Settle(resId: int, ghost done: set<int>)
      requires Valid() && resId in config.nodes && Partial(config, State(), done)
      modifies statuses
      ensures Valid() && Sent() == old(Sent())
      ensures State() == Arbitrate(config, old(State()), resId)
      ensures Partial(config, State(), done + {resId})
    {
      hide CandOk, DecideOk, CurOk, Arbitrate, CodesOk, WfConfig;
      StatusCodes(resId);
      SettleOne(config, State(), done, resId);
      ArbitrateCandidate(resId);
      SentKept();
    }

    /** Re-arbitrate everything, in the order the unordered map yields. */
    method ArbitrateEverything() returns (ghost order: seq<int>)
      requires Valid() && Partial(config, State(), {})
      modifies statuses
      ensures InOrder() && Sent() == old(Sent())
      ensures Visits(order, config.nodes.Keys) && State() == ArbitrateAll(config, old(State()), order)
    {
      hide CandOk, DecideOk, CurOk, Arbitrate, WfConfig, Elements;
      ghost var s := State();
      order := [];
      assert Elements([]) == {} by { NoElements(); }
      var todo := resStatusInfo.Keys;
      while todo != {}
        invariant todo <= resStatusInfo.Keys && Valid() && Sent() == old(Sent())
        invariant forall r :: r in order ==> r in config.nodes
        invariant forall r :: r in config.nodes ==> r in todo || r in order
        invariant State() == ArbitrateAll(config, s, order)
        invariant Partial(config, State(), Elements(order))
      {
        Inhabited(todo);
        var resId :| resId in todo;
        todo := todo - {resId};
        if resStatusInfo[resId] != null {
          ArbitrateAllSnoc(config, s, order, resId);
          ElementsSnoc(order, resId);
          Settle(resId, Elements(order));
          order := order + [resId];
        }
      }
      AllElements(order, config.nodes.Keys);
    }

    lemma StatusCodes(r: int)
      requires Valid() && r in config.nodes && Partial(config, State(), {})
      ensures CodesOk(Of(r).Snapshot())
    {
      assert CandOk(State().info[r]);
      CandCodes(State().info[r]);
    }

    method RunPowerSwitch(on: bool) returns (ghost order: seq<int>)
      requires InOrder()
      modifies statuses, this`powerLimitBoost
      ensures InOrder() && Sent() == old(Sent())
      ensures Visits(order, config.nodes.Keys) && State() == ArbitrateAll(config, old(State()).(power := on), order)
    {
      hide CandOk, DecideOk, CurOk, Arbitrate;
      powerLimitBoost := on;
      InfoKept();
      order := ArbitrateEverything();
    }

    method RunThermalSwitch(on: bool) returns (ghost order: seq<int>)
      requires InOrder()
      modifies statuses, this`thermalLimitBoost
      ensures InOrder() && Sent() == old(Sent())
      ensures Visits(order, config.nodes.Keys) && State() == ArbitrateAll(config, old(State()).(thermal := on), order)
    {
      hide CandOk, DecideOk, CurOk, Arbitrate;
      thermalLimitBoost := on;
      InfoKept();
      order := ArbitrateEverything();
    }

    /** Empty every perf list. The counter is left as it was. */
    method RunClear() returns (ghost order: seq<int>)
      requires InOrder()
      modifies statuses, this`dropped
      ensures InOrder() && Sent() == old(Sent())
      ensures Visits(order, config.nodes.Keys) && OpsOk(config, ClearOps(order))
      ensures State() == ApplyAll(config, old(State()), ClearOps(order))
    {
      hide Agrees, ClearOne, WfConfig, SocPerfThreadWrap.State, SocPerfThreadWrap.Sent;
      ghost var s := State();
      order := [];
      var todo := resStatusInfo.Keys;
      while todo != {}
        invariant todo <= resStatusInfo.Keys && InOrder() && Sent() == old(Sent())
        invariant forall r :: r in order ==> r in config.nodes
        invariant forall r :: r in config.nodes ==> r in todo || r in order
        invariant OpsOk(config, ClearOps(order)) && State() == ApplyAll(config, s, ClearOps(order))
      {
        Inhabited(todo);
        var resId :| resId in todo;
        todo := todo - {resId};
        if resStatusInfo[resId] != null {
          ghost var before := State();
          ClearOneAgrees(config, before, resId);
          ClearOpsSnoc(config, s, order, resId);
          ClearPerfList(resId);
          order := order + [resId];
        }
      }
      assert forall r :: r in config.nodes.Keys <==> r in order;
    }

    method ClearPerfList(resId: int)
      requires InOrder() && resId in config.nodes
      modifies statuses, this`dropped
      ensures Valid() && Sent() == old(Sent())
      ensures State() == ClearOne(config, old(State()), resId)
    {
      hide CandOk, DecideOk, CurOk, SetList, WfConfig, CodesOk;
      OrderOf(resId);
      ghost var lost := Interactive(Of(resId).resActionList[PERF]);
      StoreList(resId, PERF, []);
      AddDropped(lost);
    }

    // ---- reporting ---------------------------------------------------------------------------------------

    ghost function Whole(): Sys
      requires Valid()
      reads this, statuses, interAction, socperfQueue, sinks
    {
      Sys(State(), weakInteractionStatus, performanceModeStatus, Snapshots(interAction), socperfQueue.q, Sent(),
        sinks.perfSo, sinks.rssExe, socperfQueue.weakLog, socperfQueue.nextId)
    }

    ghost function Environment(): Env {
      Env(config, commands)
    }

    /** Whether one resource has changed since it was last reported; its present value now counts as reported. */
    method TakeChange(resId: int) returns (changed: bool, value: int, endTime: int)
      requires Valid() && resId in config.nodes
      modifies Of(resId)`previousValue, Of(resId)`previousEndTime
      ensures Valid() && State() == old(State())
      ensures (value, endTime) == (State().info[resId].currentValue, State().info[resId].currentEndTime)
      ensures (changed <==> (value, endTime) != old(Sent())[resId]) && Sent() == old(Sent())[resId := (value, endTime)]
    {
      hide WfConfig;
      var resStatus := resStatusInfo[resId];
      value, endTime := resStatus.currentValue, resStatus.currentEndTime;
      changed := resStatus.previousValue != value || resStatus.previousEndTime != endTime;
      if changed {
        resStatus.previousValue := value;
        resStatus.previousEndTime := endTime;
      }
      OnlyChanged(resId);
      assert State().info == old(State()).info;
      SentOnly(resId);
    }

    /** Put one resource on the report of its sink if it changed. */
    method Consider(resId: int, toPerfSo: Batch, toRssEx: Batch) returns (toPerfSo': Batch, toRssEx': Batch)
      requires Valid() && resId in config.nodes && toPerfSo.Parallel() && toRssEx.Parallel()
      modifies Of(resId)`previousValue, Of(resId)`previousEndTime
      ensures Valid() && State() == old(State()) && toPerfSo'.Parallel() && toRssEx'.Parallel()
      ensures var now := (State().info[resId].currentValue, State().info[resId].currentEndTime);
        var changed := now != old(Sent())[resId];
        && Sent() == old(Sent())[resId := now]
        && toPerfSo'.Report() == (if changed && config.nodes[resId].toPerfSo then toPerfSo.Report()[resId := now] else toPerfSo.Report())
        && toRssEx'.Report() == (if changed && !config.nodes[resId].toPerfSo then toRssEx.Report()[resId := now] else toRssEx.Report())
    {
      hide WfConfig, Batch.Report, Batch.Parallel, SocPerfThreadWrap.Valid;
      var changed, value, endTime := TakeChange(resId);
      toPerfSo', toRssEx' := PushOne(toPerfSo, toRssEx, changed, config.nodes[resId].toPerfSo, resId, value, endTime);
    }

    /** Push a changed value onto the batch of its sink. */
    static method PushOne(toPerfSo: Batch, toRssEx: Batch, changed: bool, perfSo: bool, resId: int, value: int, endTime: int)
      returns (toPerfSo': Batch, toRssEx': Batch)
      requires toPerfSo.Parallel() && toRssEx.Parallel()
      ensures toPerfSo'.Parallel() && toRssEx'.Parallel()
      ensures toPerfSo'.Report() == (if changed && perfSo then toPerfSo.Report()[resId := (value, endTime)] else toPerfSo.Report())
      ensures toRssEx'.Report() == (if changed && !perfSo then toRssEx.Report()[resId := (value, endTime)] else toRssEx.Report())
    {
      hide Batch.Report, Batch.Parallel;
      toPerfSo', toRssEx' := toPerfSo, toRssEx;
      if changed {
        if perfSo {
          toPerfSo' := Push(toPerfSo, resId, value, endTime);
        } else {
          toRssEx' := Push(toRssEx, resId, value, endTime);
        }
      }
    }

    twostate lemma SentOnly(resId: int)
      requires old(Valid()) && Valid() && resId in config.nodes && resStatusInfo == old(resStatusInfo)
      requires forall r :: r in config.nodes && r != resId ==>
        resStatusInfo[r].previousValue == old(resStatusInfo[r].previousValue) && resStatusInfo[r].previousEndTime == old(resStatusInfo[r].previousEndTime)
      ensures Sent() == old(Sent())[resId := (resStatusInfo[resId].previousValue, resStatusInfo[resId].previousEndTime)]
    {
      assert forall r :: r in config.nodes && r != resId ==> Sent()[r] == old(Sent())[r];
    }

    /** Collect what changed, resource by resource. Keys that only map to null are passed over without
        being looked into. */
    method CollectChanges() returns (toPerfSo: Batch, toRssEx: Batch)
      requires Valid()
      modifies statuses`previousValue, statuses`previousEndTime
      ensures Valid() && State() == old(State()) && toPerfSo.Parallel() && toRssEx.Parallel()
      ensures Sent() == CurrentReport(State())
      ensures toPerfSo.Report() == Delta(config, old(State()), old(Sent()), true)
      ensures toRssEx.Report() == Delta(config, old(State()), old(Sent()), false)
    {
      ghost var s, sent := State(), Sent();
      toPerfSo, toRssEx := Batch([], [], []), Batch([], [], []);
      ghost var p, e, now := Delta(config, s, sent, true), Delta(config, s, sent, false), CurrentReport(s);
      ReportParts(config, s, sent);
      var todo := resStatusInfo.Keys;
      ghost var done: set<int> := {};
      assert toPerfSo.Report() == map[];
      hide Delta, Batch.Report, Batch.Parallel, Part, Marked, CurrentReport, WfConfig, SocPerfThreadWrap.State, SocPerfThreadWrap.Sent;
      while todo != {}
        invariant todo <= resStatusInfo.Keys && Valid() && State() == s && todo !! done
        invariant forall r :: r in config.nodes ==> r in todo || r in done
        invariant toPerfSo.Parallel() && toRssEx.Parallel()
        invariant toPerfSo.Report() == Part(p, done) && toRssEx.Report() == Part(e, done)
        invariant Sent() == Marked(sent, now, done)
      {
        Inhabited(todo);
        var resId :| resId in todo;
        todo := todo - {resId};
        if resId in config.nodes {
          PartGrows(p, done, resId);
          PartGrows(e, done, resId);
          MarkedGrows(sent, now, done, resId);
          toPerfSo, toRssEx := Consider(resId, toPerfSo, toRssEx);
          done := done + {resId};
        }
      }
      AllDone(p, e, sent, now, done);
    }

    /** SendResStatus up to its last line. */
    method ReportChanges()
      requires Valid()
      modifies statuses`previousValue, statuses`previousEndTime, sinks
      ensures Valid() && State() == old(State()) && Sent() == CurrentReport(State())
      ensures Told(old(State()), old(Sent()), old(sinks.perfSo), old(sinks.rssExe))
    {
      hide Delta, Batch.Report, CurrentReport, WfConfig, SocPerfThreadWrap.Valid, SocPerfThreadWrap.State, SocPerfThreadWrap.Sent;
      var toPerfSo, toRssEx := CollectChanges();
      sinks.ReportToPerfSo(config.hasReportFunc, toPerfSo);
      sinks.ReportToRssExe(toRssEx);
    }

    /** What the sinks have been told after a report of state `s`. */
    ghost predicate Told(s: Arb, sent: Report, perfSo: seq<Report>, rssExe: seq<map<int, int>>)
      reads sinks
    {
      var p, e := Delta(config, s, sent, true), Delta(config, s, sent, false);
      && sinks.perfSo == (if config.hasReportFunc && p != map[] then perfSo + [p] else perfSo)
      && sinks.rssExe == (if e != map[] then rssExe + [Values(e)] else rssExe)
    }

    /** Nothing that makes up the arbiter's state has changed; the map may have gained null entries. */
    twostate lemma CoreKept()
      requires old(Valid()) && Valid() && unchanged(old(statuses)) && statuses == old(statuses)
      requires forall r :: r in config.nodes ==> resStatusInfo[r] == old(resStatusInfo[r])
      requires powerLimitBoost == old(powerLimitBoost) && thermalLimitBoost == old(thermalLimitBoost)
      requires thermalLvl == old(thermalLvl) && boostResCnt == old(boostResCnt) && dropped == old(dropped)
      ensures State() == old(State()) && Sent() == old(Sent())
    {
      hide WfConfig;
      assert forall r :: r in config.nodes ==> State().info[r] == old(State()).info[r];
      assert forall r :: r in config.nodes ==> Sent()[r] == old(Sent())[r];
    }

    /** Nothing but the queue has changed. */
    twostate lemma QueueOnly()
      requires old(Valid()) && unchanged(this) && unchanged(statuses)
      ensures Valid() && State() == old(State()) && Sent() == old(Sent())
    {
      CoreKept();
    }

    // ---- weak interaction ----------------------------------------------------------------------------------

    function GetModeCmdId(cmdId: int): int
      reads this
    {
      if cmdId == WEAK_CMD_ID && performanceModeStatus then WEAK_PERF_MODE_CMD_ID else cmdId
    }

    /** Submit a pack, unless the chain is empty. */
    method DoFreqActionPack(head: ResActionItem?, ghost nodes: seq<ResActionItem>, ghost items: seq<Item>)
      requires IsChain(head, nodes, items)
      modifies socperfQueue`q
      ensures socperfQueue.q == if items == [] then old(socperfQueue.q) else Submit(old(socperfQueue.q), Pack(items))
    {
      if head == null {
        return;
      }
      var read := ReadChain(head, nodes, items);
      socperfQueue.SubmitTask(Pack(read));
    }

    /** Submit a weak command as one pack, if the command exists and names any known resource. */
    method DoWeakInteraction(actions: Option<Actions>, on: bool, actionType: int)
      modifies socperfQueue`q, socperfQueue`nextId
      ensures var pairs := if actions.None? then [] else AllPairs(config, actions.value.actionList);
        && socperfQueue.nextId == old(socperfQueue.nextId) + |pairs|
        && socperfQueue.q == if pairs == [] then old(socperfQueue.q)
             else Submit(old(socperfQueue.q), Pack(WeakItems(pairs, actions.value.id, on, actionType, old(socperfQueue.nextId))))
    {
      if actions.None? {
        return;
      }
      var template := ResAction(0, 0, 0, actionType, if on then EventOn else EventOff, actions.value.id, MAX_INT_VALUE, false);
      var header, nodes, next := ChainActions(config, actions.value.actionList, template, socperfQueue.nextId);
      ghost var items := WeakItems(AllPairs(config, actions.value.actionList), actions.value.id, on, actionType, socperfQueue.nextId);
      assert items == Drafts(AllPairs(config, actions.value.actionList), template, socperfQueue.nextId);
      socperfQueue.nextId := next;
      DoFreqActionPack(header, nodes, items);
    }

    ghost predicate Distinct()
      reads this
    {
      forall i, j :: 0 <= i < j < |interAction| ==> interAction[i] != interAction[j]
    }

    /** Only interaction `i` has changed among the interactions. */
    twostate lemma OnlyInter(i: nat)
      requires unchanged(this) && Distinct() && i < |interAction|
      requires forall j :: 0 <= j < |interAction| && j != i ==> unchanged(interAction[j])
      ensures Snapshots(interAction) == old(Snapshots(interAction))[i := interAction[i].Snapshot()]
    {
      assert forall j :: 0 <= j < |interAction| && j != i ==> interAction[j].Snapshot() == old(interAction[j].Snapshot());
    }

    /** Look up a command for the present mode and submit its weak pack, remembering that it was called for. */
    method PostWeak(i: nat, on: bool)
      requires i < |interAction|
      modifies socperfQueue
      ensures var cmdId := GetModeCmdId(interAction[i].cmdId);
        var pairs := if cmdId in commands then AllPairs(config, commands[cmdId].actionList) else [];
        && socperfQueue.weakLog == old(socperfQueue.weakLog) + [(i, on)]
        && socperfQueue.nextId == old(socperfQueue.nextId) + |pairs|
        && socperfQueue.q == if pairs == [] then old(socperfQueue.q)
             else Submit(old(socperfQueue.q), Pack(WeakItems(pairs, commands[cmdId].id, on, interAction[i].actionType, old(socperfQueue.nextId))))
    {
      var cmdId := GetModeCmdId(interAction[i].cmdId);
      DoWeakInteraction(if cmdId in commands then Option.Some(commands[cmdId]) else Option.None, on, interAction[i].actionType);
      socperfQueue.weakLog := socperfQueue.weakLog + [(i, on)];
    }

    /** The interactions' records and the queue are those of `s`. */
    ghost predicate AutomatonIs(s: Sys)
      reads this, interAction, socperfQueue
    {
      && s.inter == Snapshots(interAction) && s.q == socperfQueue.q
      && s.weakLog == socperfQueue.weakLog && s.nextId == socperfQueue.nextId
    }

    /** Boosting is over: wait before going weak. */
    method AwaitWeak(i: nat, ghost s: Sys)
      requires Distinct() && i < |interAction| && AutomatonIs(s) && interAction[i].status == BoostStatus && Quiet(s)
      modifies interAction[i], socperfQueue
      ensures AutomatonIs(WeakOne(Environment(), s, i))
    {
      var inter := interAction[i];
      inter.status := BoostEnd;
      var handle := socperfQueue.SubmitHandle(WeakTimer(i), inter.delayTime * MICROS);
      inter.timerTask := Option.Some(handle);
      OnlyInter(i);
    }

    /** Boosting again while weak: take the weak pack back. */
    method LeaveWeak(i: nat, ghost s: Sys)
      requires Distinct() && i < |interAction| && AutomatonIs(s) && interAction[i].status == WeakStatus && !Quiet(s)
      requires s.perfMode == performanceModeStatus
      modifies interAction[i], socperfQueue
      ensures AutomatonIs(WeakOne(Environment(), s, i))
    {
      var inter := interAction[i];
      DoWeakIs(Environment(), SetInter(s, i, BoostStatus, s.inter[i].timer), i, false);
      hide AllPairs, WeakItems, DoWeak;
      inter.status := BoostStatus;
      PostWeak(i, false);
      OnlyInter(i);
    }

    /** Boosting again before going weak: call the timer off. */
    method StopWaiting(i: nat, ghost s: Sys)
      requires Distinct() && i < |interAction| && AutomatonIs(s) && interAction[i].status == BoostEnd && !Quiet(s)
      modifies interAction[i], socperfQueue
      ensures AutomatonIs(WeakOne(Environment(), s, i))
    {
      var inter := interAction[i];
      inter.status := BoostStatus;
      if inter.timerTask.Some? {
        socperfQueue.CancelHandle(inter.timerTask.value);
        inter.timerTask := Option.None;
      }
      OnlyInter(i);
    }

    /** One turn of the loop over the interactions. */
    method TurnOne(i: nat, ghost s: Sys)
      requires Distinct() && i < |interAction| && AutomatonIs(s)
      requires s.weakOn == weakInteractionStatus && s.arb.boost == boostResCnt && s.perfMode == performanceModeStatus
      modifies interAction[i], socperfQueue
      ensures AutomatonIs(WeakOne(Environment(), s, i))
    {
      var inter := interAction[i];
      assert s.inter[i] == inter.Snapshot();
      WeakOneIdle(Environment(), s, i);
      hide WeakOne;
      if weakInteractionStatus && boostResCnt == 0 && inter.status == BoostStatus {
        AwaitWeak(i, s);
      } else if (!weakInteractionStatus || boostResCnt != 0) && inter.status == WeakStatus {
        LeaveWeak(i, s);
      } else if (!weakInteractionStatus || boostResCnt != 0) && inter.status == BoostEnd {
        StopWaiting(i, s);
      }
    }

    /** A turn touches nothing but the automaton and the queue. */
    method WeakTurn(i: nat)
      requires Valid() && Distinct() && i < |interAction|
      modifies interAction[i], socperfQueue
      ensures Valid() && Whole() == WeakOne(Environment(), old(Whole()), i)
    {
      hide WeakOne, WfConfig;
      ghost var s := Whole();
      WeakOneRest(Environment(), s, i);
      TurnOne(i, s);
      CoreKept();
    }

    method WeakInteractionLoop()
      requires Valid() && Distinct()
      modifies interAction, socperfQueue
      ensures Valid() && Whole() == WeakInteraction(Environment(), old(Whole()))
    {
      hide Valid, WeakOne, WfConfig;
      ghost var s := Whole();
      var i := 0;
      while i < |interAction|
        invariant i <= |interAction| && Valid()
        invariant WeakFrom(Environment(), Whole(), i) == WeakFrom(Environment(), s, 0)
      {
        WeakTurn(i);
        i := i + 1;
      }
    }

    /** Report, then let the weak-interaction automaton look at the counter. */
    method SendResStatus()
      requires Valid() && Distinct()
      modifies statuses`previousValue, statuses`previousEndTime, sinks, interAction, socperfQueue
      ensures Valid() && State() == old(State())
      ensures Whole() == WeakInteraction(Environment(), Send(Environment(), old(Whole())))
    {
      hide WfConfig, Delta, WeakFrom, CurrentReport, Values, SocPerfThreadWrap.Valid, SocPerfThreadWrap.State, Snapshots;
      ReportChanges();
      WeakFromArb(Environment(), Whole(), 0);
      WeakInteractionLoop();
    }

    // ---- tasks --------------------------------------------------------------------------------------------

    /** A limit given as a value. */
    method DoFreqAction(resId: int, resAction: ResAction)
      requires InOrder() && TaskOk(config, Limit(false, resId, resAction))
      modifies statuses, this`boostResCnt
      ensures InOrder() && Sent() == old(Sent())
      ensures State() == ApplyAll(config, old(State()), LimitOps(config, false, resId, resAction))
    {
      if resId !in config.nodes {
        return;
      }
      OneBegin(config, State(), resId, resAction);
      UpdateResActionList(resId, resAction, false);
    }

    /** A limit given as a level: resolve it, then file the value. */
    method DoFreqActionLevel(resId: int, resAction: ResAction)
      requires InOrder() && TaskOk(config, Limit(true, resId, resAction))
      modifies statuses, this`boostResCnt
      ensures InOrder() && Sent() == old(Sent())
      ensures State() == ApplyAll(config, old(State()), LimitOps(config, true, resId, resAction))
    {
      hide Agrees, WfConfig, DoInstant, Apply;
      var realResId := resId - RES_ID_ADDITION;
      if realResId !in config.nodes {
        return;
      }
      var ok, value := GetResValueByLevel(config, realResId, resAction.value);
      if !ok {
        return;
      }
      ResolvedValid(config, resId, resAction, value);
      LevelOps(config, State(), resId, resAction, value);
      hide WfConfig, LimitOps, Resolve;
      UpdateResActionList(realResId, resAction.(value := value), false);
    }

    /** File a limit in either form. */
    method FileLimit(byLevel: bool, resId: int, resAction: ResAction)
      requires InOrder() && TaskOk(config, Limit(byLevel, resId, resAction))
      modifies statuses, this`boostResCnt
      ensures InOrder() && Sent() == old(Sent())
      ensures State() == ApplyAll(config, old(State()), LimitOps(config, byLevel, resId, resAction))
    {
      hide CandOk, DecideOk, CurOk, WfConfig, LimitOps, Apply, TaskOk;
      if byLevel {
        DoFreqActionLevel(resId, resAction);
      } else {
        DoFreqAction(resId, resAction);
      }
    }

    /** The event record looks the requested id up, which creates a null entry if it is a level id. */
    method LookUp(resId: int)
      requires Valid()
      modifies this`resStatusInfo
      ensures Valid() && State() == old(State()) && Sent() == old(Sent())
      ensures resStatusInfo == if resId in old(resStatusInfo) then old(resStatusInfo) else old(resStatusInfo)[resId := null]
      ensures resId in resStatusInfo && (resStatusInfo[resId] == null <==> resId !in config.nodes)
    {
      if resId !in resStatusInfo {
        resStatusInfo := resStatusInfo[resId := null];
      }
      CoreKept();
    }

    /** What a task does to the arbiter before it reports. */
    method Arbitrating(task: Task) returns (ghost order: seq<int>)
      requires InOrder() && TaskOk(config, task) && Sends(task)
      modifies statuses, this`boostResCnt, this`powerLimitBoost, this`thermalLimitBoost, this`dropped
      ensures InOrder() && Sent() == old(Sent())
      ensures Visits(order, config.nodes.Keys) && State() == Step(config, old(State()), Do(task, order))
    {
      hide CandOk, DecideOk, CurOk, WfConfig, Apply, PackOps, ExpiryOps, ClearOps, LimitOps, ArbitrateAll, TaskOk;
      ghost var s := State();
      order := SomeOrder(config.nodes.Keys);
      match task
      case Pack(items) => RunPack(items);
      case Expiry(items) => RunExpiry(items);
      case PowerSwitch(on) => order := RunPowerSwitch(on); SwitchIsStep(config, s, task, order);
      case ThermalSwitch(on) => order := RunThermalSwitch(on); SwitchIsStep(config, s, task, order);
      case Limit(byLevel, resId, resAction) => FileLimit(byLevel, resId, resAction);
      case Clear => order := RunClear();
    }

    /** The weak timer goes off: post the weak pack. */
    method GoWeak(i: nat, ghost s: Sys)
      requires Distinct() && i < |interAction| && AutomatonIs(s) && s.perfMode == performanceModeStatus
      modifies interAction[i], socperfQueue
      ensures AutomatonIs(DoWeak(Environment(), SetInter(s, i, WeakStatus, s.inter[i].timer), i, true))
    {
      DoWeakIs(Environment(), SetInter(s, i, WeakStatus, s.inter[i].timer), i, true);
      hide AllPairs, WeakItems, DoWeak;
      interAction[i].status := WeakStatus;
      PostWeak(i, true);
      OnlyInter(i);
    }

    method RunWeakTimer(i: nat)
      requires Valid() && Distinct() && i < |interAction|
      modifies interAction[i], socperfQueue
      ensures Valid() && State() == old(State())
      ensures Whole() == DoWeak(Environment(), SetInter(old(Whole()), i, WeakStatus, old(interAction[i].timerTask)), i, true)
    {
      ghost var s := Whole();
      GoWeak(i, s);
      CoreKept();
      DoWeakRest(Environment(), SetInter(s, i, WeakStatus, s.inter[i].timer), i, true);
    }

    method RunSetWeak(on: bool)
      requires Valid() && Distinct()
      modifies this`weakInteractionStatus, interAction, socperfQueue
      ensures Valid() && State() == old(State())
      ensures Whole() == WeakInteraction(Environment(), old(Whole()).(weakOn := on))
    {
      hide WfConfig, WeakFrom, WeakOne, SocPerfThreadWrap.Valid;
      weakInteractionStatus := on;
      CoreKept();
      WeakFromArb(Environment(), Whole(), 0);
      WeakInteractionLoop();
    }

    method RunSetPerfMode(on: bool)
      requires Valid()
      modifies this`performanceModeStatus
      ensures Valid() && State() == old(State())
      ensures Whole() == old(Whole()).(perfMode := on)
    {
      hide WfConfig;
      performanceModeStatus := on;
      CoreKept();
    }

    /** Only the arbiter's own state moves. */
    method ArbitratingOnly(task: Task) returns (ghost order: seq<int>)
      requires InOrder() && TaskOk(config, task) && Sends(task)
      modifies statuses, this`boostResCnt, this`powerLimitBoost, this`thermalLimitBoost, this`dropped
      ensures InOrder() && Visits(order, config.nodes.Keys)
      ensures Whole() == old(Whole()).(arb := Step(config, old(State()), Do(task, order)))
    {
      hide Agrees, Step, TaskOk, WfConfig;
      order := Arbitrating(task);
    }

    /** The event record of a limit task looks up the id it was given. */
    method RecordEvent(task: Task)
      requires Valid()
      modifies this`resStatusInfo
      ensures Valid() && State() == old(State()) && Whole() == old(Whole())
    {
      hide WfConfig;
      if task.Limit? && task.action.onOff != EventOff {
        LookUp(task.resId);
      }
    }

    /** A task that ends by reporting. A limit task goes on to look up the id it was given. */
    method RunAndSend(task: Task) returns (ghost order: seq<int>)
      requires InOrder() && Distinct() && TaskOk(config, task) && Sends(task)
      modifies this`boostResCnt, this`powerLimitBoost, this`thermalLimitBoost, this`dropped, this`resStatusInfo
      modifies statuses, sinks, interAction, socperfQueue
      ensures InOrder() && Visits(order, config.nodes.Keys)
      ensures Whole() == WeakInteraction(Environment(), Send(Environment(), old(Whole()).(arb := Step(config, old(State()), Do(task, order)))))
    {
      hide Agrees, Step, TaskOk, WeakInteraction, Send, SocPerfThreadWrap.Valid, Snapshots, WfConfig;
      order := ArbitratingOnly(task);
      SendResStatus();
      RecordEvent(task);
    }

    /** Run one task of the queue. */
    method Execute(task: Task) returns (ghost order: seq<int>)
      requires InOrder() && Distinct() && QueuedOk(config, task, |interAction|)
      modifies this`boostResCnt, this`powerLimitBoost, this`thermalLimitBoost, this`dropped, this`resStatusInfo
      modifies this`weakInteractionStatus, this`performanceModeStatus, statuses, sinks, interAction, socperfQueue
      ensures InOrder() && Visits(order, config.nodes.Keys)
      ensures Whole() == RunTask(Environment(), old(Whole()), task, order)
    {
      hide WfConfig, Agrees, Step, TaskOk, WeakInteraction, Send, DoWeak, Valid;
      order := SomeOrder(config.nodes.Keys);
      match task
      case SetWeak(on) => RunSetWeak(on);
      case SetPerfMode(on) => RunSetPerfMode(on);
      case WeakTimer(i) => RunWeakTimer(i);
      case _ => order := RunAndSend(task);
    }

    // ---- the queue ----------------------------------------------------------------------------------------

    method PopNext() returns (task: Task)
      requires Valid() && socperfQueue.q.ready != []
      modifies socperfQueue`q
      ensures Valid() && State() == old(State()) && task == old(socperfQueue.q).ready[0].task
      ensures var s := old(Whole()); s.q.ready != [] && Whole() == s.(q := s.q.(ready := s.q.ready[1..]))
    {
      hide WfConfig;
      task := socperfQueue.TakeNext();
      CoreKept();
    }

    method PopTimer(handle: nat) returns (task: Task)
      requires Valid() && handle in socperfQueue.q.timers
      modifies socperfQueue`q
      ensures Valid() && State() == old(State()) && task == old(socperfQueue.q).timers[handle].task
      ensures Whole() == old(Whole()).(q := Cancel(old(Whole()).q, handle))
    {
      hide WfConfig;
      task := socperfQueue.TakeTimer(handle);
      CoreKept();
    }

    /** The next task in submission order runs. */
    method RunNextTask() returns (ghost order: seq<int>)
      requires InOrder() && Distinct() && WfSys(Environment(), Whole()) && socperfQueue.q.ready != []
      modifies this`boostResCnt, this`powerLimitBoost, this`thermalLimitBoost, this`dropped, this`resStatusInfo
      modifies this`weakInteractionStatus, this`performanceModeStatus, statuses, sinks, interAction, socperfQueue
      ensures InOrder() && Visits(order, config.nodes.Keys)
      ensures Whole() == SysStep(Environment(), old(Whole()), RunNext(order))
    {
      NextOk(Environment(), Whole());
      hide Valid, Agrees, QueuedOk, RunTask, WfSys, SysStep, Whole;
      var task := PopNext();
      order := Execute(task);
    }

    /** A delayed task that has come due runs. */
    method FireTimer(handle: nat) returns (ghost order: seq<int>)
      requires InOrder() && Distinct() && WfSys(Environment(), Whole()) && CanFire(socperfQueue.q, handle)
      modifies this`boostResCnt, this`powerLimitBoost, this`thermalLimitBoost, this`dropped, this`resStatusInfo
      modifies this`weakInteractionStatus, this`performanceModeStatus, statuses, sinks, interAction, socperfQueue
      ensures InOrder() && Visits(order, config.nodes.Keys)
      ensures Whole() == SysStep(Environment(), old(Whole()), Fire(handle, order))
    {
      TimerTaskOk(Environment(), Whole(), handle);
      hide Valid, Agrees, QueuedOk, RunTask, WfSys, SysStep, Whole;
      var task := PopTimer(handle);
      order := Execute(task);
    }

    method StoreLevel(level: int)
      requires Valid()
      modifies this`thermalLvl
      ensures Valid() && Sent() == old(Sent()) && State() == old(State()).(level := level) && thermalLvl == level
    {
      hide WfConfig;
      thermalLvl := level;
      InfoKept();
    }

    /** Store the thermal level. Nothing is re-arbitrated. */
    method SetThermalLevel(level: int)
      requires InOrder() && WfSys(Environment(), Whole())
      modifies this`thermalLvl
      ensures InOrder() && thermalLvl == level && Whole() == SysStep(Environment(), old(Whole()), SetThermal(level))
    {
      hide Valid, Agrees, WfSys;
      LevelAgrees(config, State(), level);
      StoreLevel(level);
    }

    /** The entry points that only submit a task: switch flips, limits, clears and mode changes. */
    method PostTask(task: Task)
      requires Valid() && WfSys(Environment(), Whole()) && PostOk(Whole(), task) && TaskOk(config, task)
      modifies socperfQueue
      ensures Valid() && Whole() == SysStep(Environment(), old(Whole()), Post(task))
    {
      hide WfConfig, QueueOk, CommandsOk, TaskOk;
      socperfQueue.SubmitTask(task);
      if task.Limit? {
        socperfQueue.nextId := socperfQueue.nextId + 1;
      }
      CoreKept();
    }

    /** One delayed task per distinct non-zero duration, carrying the items of that duration. */
    method PostDelayTask(queueHead: ResActionItem?, ghost nodes: seq<ResActionItem>, ghost items: seq<Item>)
      returns (ghost durations: seq<int>)
      requires IsChain(queueHead, nodes, items)
      modifies socperfQueue`q
      ensures DurationsOf(items, durations)
      ensures socperfQueue.q == PostExpiries(old(socperfQueue.q), items, durations)
    {
      var groups := GroupByDuration(queueHead, nodes, items);
      durations := [];
      var todo := groups.Keys;
      ghost var q := socperfQueue.q;
      while todo != {}
        invariant todo <= groups.Keys && forall d :: d in groups <==> d in todo || d in durations
        invariant forall d :: d in durations ==> d !in todo
        invariant forall i, j :: 0 <= i < j < |durations| ==> durations[i] != durations[j]
        invariant socperfQueue.q == PostExpiries(q, items, durations)
      {
        Inhabited(todo);
        var d :| d in todo;
        todo := todo - {d};
        PostExpiriesSnoc(q, items, durations, d);
        ghost var handle := socperfQueue.SubmitHandle(Expiry(groups[d]), d * MICROS);
        durations := durations + [d];
      }
    }

    method GroupByDuration(queueHead: ResActionItem?, ghost nodes: seq<ResActionItem>, ghost items: seq<Item>)
      returns (groups: map<int, seq<Item>>)
      requires IsChain(queueHead, nodes, items)
      ensures Grouped(groups, items)
    {
      groups := map[];
      var head := queueHead;
      ghost var k := 0;
      while head != null
        invariant k <= |nodes| && Grouped(groups, items[..k])
        invariant head == if k < |nodes| then nodes[k] else null
        decreases |nodes| - k
      {
        var d := head.resAction.duration;
        GroupedStep(groups, items[..k], items[k]);
        assert items[..k + 1] == items[..k] + [items[k]];
        if d != 0 {
          groups := groups[d := (if d in groups then groups[d] else []) + [Item(head.resId, head.resAction)]];
        }
        head := head.next;
        k := k + 1;
      }
      assert items[..|nodes|] == items;
    }

    // ---- start-up -----------------------------------------------------------------------------------------

    /** The first report: every resource at its default. */
    method InitResStatus()
      requires Valid() && resStatusInfo.Keys == config.nodes.Keys
      modifies sinks
      ensures Valid() && State() == old(State()) && Sent() == old(Sent())
      ensures var p, e := Defaults(config, true), Defaults(config, false);
        && sinks.perfSo == (if config.hasReportFunc && p != map[] then old(sinks.perfSo) + [p] else old(sinks.perfSo))
        && sinks.rssExe == (if e != map[] then old(sinks.rssExe) + [Values(e)] else old(sinks.rssExe))
    {
      var toPerfSo, toRssEx := Batch([], [], []), Batch([], [], []);
      ghost var done: set<int> := {};
      var todo := resStatusInfo.Keys;
      DefaultsBegin(config);
      hide WfConfig, Batch.Report, Part, SocPerfThreadWrap.Valid, SocPerfThreadWrap.State, SocPerfThreadWrap.Sent;
      while todo != {}
        invariant todo <= resStatusInfo.Keys && todo !! done && forall r :: r in config.nodes ==> r in todo || r in done
        invariant toPerfSo.Parallel() && toRssEx.Parallel()
        invariant toPerfSo.Report() == Part(Defaults(config, true), done)
        invariant toRssEx.Report() == Part(Defaults(config, false), done)
        modifies {}
      {
        Inhabited(todo);
        var resId :| resId in todo;
        todo := todo - {resId};
        PartGrows(Defaults(config, true), done, resId);
        PartGrows(Defaults(config, false), done, resId);
        if config.nodes[resId].toPerfSo {
          toPerfSo := Push(toPerfSo, resId, NODE_DEFAULT_VALUE, MAX_INT_VALUE);
        } else {
          toRssEx := Push(toRssEx, resId, NODE_DEFAULT_VALUE, MAX_INT_VALUE);
        }
        done := done + {resId};
      }
      DefaultsDone(config, done);
      sinks.ReportToPerfSo(config.hasReportFunc, toPerfSo);
      sinks.ReportToRssExe(toRssEx);
      QueueOnly();
    }

    /** A fresh object whose statuses and sinks are at their defaults is in the state every run starts from. */
    lemma StartsAs(inter: seq<Inter>)
      requires Valid() && State() == InitArb(config) && Sent() == (map r | r in config.nodes :: (NODE_DEFAULT_VALUE, MAX_INT_VALUE))
      requires weakInteractionStatus && !performanceModeStatus && Snapshots(interAction) == inter
      requires socperfQueue.q == Queue(0, [], map[], 0) && socperfQueue.nextId == 0 && socperfQueue.weakLog == []
      requires var p, e := Defaults(config, true), Defaults(config, false);
        sinks.perfSo == (if config.hasReportFunc && p != map[] then [p] else []) && sinks.rssExe == (if e != map[] then [Values(e)] else [])
      ensures Whole() == InitSys(Environment(), inter)
    {
      hide WfConfig, Defaults, InitArb, Snapshots, Values;
    }

    /** The first task of the queue brings the arbiter into the state every run starts from. */
    method InitResourceNodeInfo()
      requires WfConfig(config) && resStatusInfo == map[] && statuses == {}
      requires !powerLimitBoost && !thermalLimitBoost && thermalLvl == 0 && boostResCnt == 0 && dropped == 0
      requires weakInteractionStatus && !performanceModeStatus
      requires socperfQueue.q == Queue(0, [], map[], 0) && socperfQueue.nextId == 0 && socperfQueue.weakLog == []
      requires sinks.perfSo == [] && sinks.rssExe == []
      modifies this`resStatusInfo, this`statuses, sinks
      ensures InOrder() && fresh(statuses)
      ensures Whole() == InitSys(Environment(), old(Snapshots(interAction)))
    {
      hide Agrees, Defaults, InitArb, InitSys, Values, SocPerfThreadWrap.Valid, SocPerfThreadWrap.State;
      ghost var inter := Snapshots(interAction);
      CreateStatuses();
      InitAgrees(config);
      hide WfConfig;
      InitResStatus();
      StartsAs(inter);
    }
  }
}
