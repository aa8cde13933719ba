/** What a resource and its partner get: over every run, written out in the numbers the source keeps. */
module Pairs {
  import opened Common
  import opened Config
  import opened LiveList
  import opened Arbitration
  import opened ArbiterState
  import opened Agreement
  import opened Tasks
  import opened Runs
  import opened RunTheorems
  import opened EndTimes

  /** No request of any kind is live on the resource. */
  predicate NothingAsked(st: Status)
    requires Shaped(st)
  {
    st.lists[PERF] == [] && st.lists[POWER] == [] && st.lists[THERMAL] == [] && st.lists[PERFLVL] == []
  }

  /** The max member of a pair has the last word: a limit switch is on, or the pair was coupled at a level other
      than zero and one of its members has a performance level live. */
  predicate MaxMemberRules(s: Arb, lo: int, hi: int)
    requires lo in s.info && hi in s.info && Shaped(s.info[lo]) && Shaped(s.info[hi])
  {
    s.power || s.thermal || (s.info[hi].pairLevel != 0 && (s.info[hi].lists[PERFLVL] != [] || s.info[lo].lists[PERFLVL] != []))
  }

  /** If only one member of a pair has a request, each gets its own candidate. If both have one, then either the
      max member gets its own candidate and the min member the lesser of the two, or the min member gets its own
      and the max member the greater of the two. */
  lemma PairValues(cfg: Config, es: seq<Event>, lo: int, hi: int)
    requires WfConfig(cfg) && EventsOk(cfg, es)
    requires hi in cfg.nodes && lo in cfg.nodes && cfg.nodes[hi].isMaxValue && PairOf(cfg, hi) == Some(lo)
    ensures var s := Reach(cfg, es);
      var l, h := s.info[lo], s.info[hi];
      && (l.candidate == -1 <==> NothingAsked(l)) && (h.candidate == -1 <==> NothingAsked(h)) && l.pairLevel == h.pairLevel
      && (NothingAsked(l) || NothingAsked(h) ==> l.currentValue == l.candidate && h.currentValue == h.candidate)
      && (!NothingAsked(l) && !NothingAsked(h) && MaxMemberRules(s, lo, hi) ==>
            h.currentValue == h.candidate && l.currentValue == if h.candidate < l.candidate then h.candidate else l.candidate)
      && (!NothingAsked(l) && !NothingAsked(h) && !MaxMemberRules(s, lo, hi) ==>
            l.currentValue == l.candidate && h.currentValue == if h.candidate < l.candidate then l.candidate else h.candidate)
  {
    hide EventsOk, Reach;
    ReachAgrees(cfg, es);
    PairNumbers(cfg, Reach(cfg, es), lo, hi);
  }

  lemma PairNumbers(cfg: Config, s: Arb, lo: int, hi: int)
    requires Agrees(cfg, s) && WfConfig(cfg) && Ready(cfg, s)
    requires hi in cfg.nodes && lo in cfg.nodes && cfg.nodes[hi].isMaxValue && PairOf(cfg, hi) == Some(lo)
    ensures var l, h := s.info[lo], s.info[hi];
      && (l.candidate == -1 <==> NothingAsked(l)) && (h.candidate == -1 <==> NothingAsked(h)) && l.pairLevel == h.pairLevel
      && (NothingAsked(l) || NothingAsked(h) ==> l.currentValue == l.candidate && h.currentValue == h.candidate)
      && (!NothingAsked(l) && !NothingAsked(h) && MaxMemberRules(s, lo, hi) ==>
            h.currentValue == h.candidate && l.currentValue == if h.candidate < l.candidate then h.candidate else l.candidate)
      && (!NothingAsked(l) && !NothingAsked(h) && !MaxMemberRules(s, lo, hi) ==>
            l.currentValue == l.candidate && h.currentValue == if h.candidate < l.candidate then l.candidate else h.candidate)
  {
    PairLevels(cfg, s, lo, hi);
    OwnCandidate(cfg, s, lo);
    OwnCandidate(cfg, s, hi);
    hide Agrees, WfConfig, WantedOf;
    var rules := PairApplied(cfg, s, lo, hi);
  }

  lemma PairLevels(cfg: Config, s: Arb, lo: int, hi: int)
    requires Agrees(cfg, s) && hi in cfg.nodes && lo in cfg.nodes && WfConfig(cfg) && Ready(cfg, s) && PairOf(cfg, hi) == Some(lo)
    ensures s.info[lo].pairLevel == s.info[hi].pairLevel
  {
    hide CandOk, DecideOk, WfConfig;
    assert CurOk(cfg, s, hi);
  }

  lemma OwnCandidate(cfg: Config, s: Arb, r: int)
    requires Agrees(cfg, s) && r in cfg.nodes && Ready(cfg, s)
    ensures var st := s.info[r];
      && st.candidate == CodeDefault(WantedOf(s, r)) && (st.candidate == -1 <==> NothingAsked(st))
      && (WantedOf(s, r).None? <==> NothingAsked(st)) && (WantedOf(s, r).Some? ==> WantedOf(s, r).value == st.candidate >= 0)
  {
    hide CandOk, DecideOk, CurOk, WantedOf, CandidatesOf, CandidateCodes, CandidateEnds, WfConfig;
    AgreesMeans(cfg, s, r);
    WantedIdle(cfg, s, r);
  }

  /** Without a partner the applied value is the resource's own candidate. */
  lemma UnpairedValue(cfg: Config, es: seq<Event>, r: int)
    requires WfConfig(cfg) && EventsOk(cfg, es) && r in cfg.nodes && (cfg.nodes[r].isGov || cfg.nodes[r].pair == INVALID_VALUE)
    ensures var st := Reach(cfg, es).info[r];
      st.currentValue == st.candidate && (st.candidate == -1 <==> NothingAsked(st))
  {
    ReachAgrees(cfg, es);
    hide WfConfig, EventsOk, Reach, WantedOf;
    OwnCandidate(cfg, Reach(cfg, es), r);
    AgreesMeans(cfg, Reach(cfg, es), r);
  }

  // ---- the end time ------------------------------------------------------------------------------------------

  /** A request that decides its list: the greatest perf value, or the least limit. */
  predicate Decides(l: Live, x: ResAction) {
    x in l && forall y :: y in l ==> if x.kind == PERF then y.value <= x.value else x.value <= y.value
  }

  /** The deciding request of its list that ends last. */
  ghost predicate DecidesLast(l: Live, x: ResAction) {
    Decides(l, x) && forall y :: Decides(l, y) ==> y.endTime <= x.endTime
  }

  /** The end time of a resource is the first moment at which the boost, the power limit or the thermal limit in
      force is over: the least, over the three lists, of the latest end among the requests that decide the list.
      With none of the three live it is the greatest int64. */
  lemma EndTimeIs(cfg: Config, es: seq<Event>, r: int)
    requires WfConfig(cfg) && EventsOk(cfg, es) && r in cfg.nodes
    ensures var st := Reach(cfg, es).info[r];
      && (forall kind, x :: kind in {PERF, POWER, THERMAL} && DecidesLast(st.lists[kind], x) ==> st.currentEndTime <= x.endTime)
      && (st.lists[PERF] == [] && st.lists[POWER] == [] && st.lists[THERMAL] == [] ==> st.currentEndTime == 0x7FFF_FFFF_FFFF_FFFF)
      && (st.lists[PERF] != [] || st.lists[POWER] != [] || st.lists[THERMAL] != [] ==>
            exists kind, x :: kind in {PERF, POWER, THERMAL} && DecidesLast(st.lists[kind], x) && x.endTime == st.currentEndTime)
  {
    hide EventsOk, Reach;
    ReachAgrees(cfg, es);
    EndTimeNumbers(cfg, Reach(cfg, es), r);
  }

  lemma EndTimeNumbers(cfg: Config, s: Arb, r: int)
    requires Agrees(cfg, s) && r in cfg.nodes && Ready(cfg, s)
    ensures var st := s.info[r];
      && (forall kind, x :: kind in {PERF, POWER, THERMAL} && DecidesLast(st.lists[kind], x) ==> st.currentEndTime <= x.endTime)
      && (st.lists[PERF] == [] && st.lists[POWER] == [] && st.lists[THERMAL] == [] ==> st.currentEndTime == 0x7FFF_FFFF_FFFF_FFFF)
      && (st.lists[PERF] != [] || st.lists[POWER] != [] || st.lists[THERMAL] != [] ==>
            exists kind, x :: kind in {PERF, POWER, THERMAL} && DecidesLast(st.lists[kind], x) && x.endTime == st.currentEndTime)
  {
    hide Agrees, DecidesLast, WfList, CandidateEnd;
    var st := s.info[r];
    LeastEnd(cfg, s, r);
    var p := ListEnd(cfg, s, r, PERF);
    var w := ListEnd(cfg, s, r, POWER);
    var t := ListEnd(cfg, s, r, THERMAL);
    hide CandidatesOf;
  }

  lemma LeastEnd(cfg: Config, s: Arb, r: int)
    requires Agrees(cfg, s) && r in cfg.nodes && Ready(cfg, s)
    ensures var l := s.info[r].lists;
      s.info[r].currentEndTime == Min(Min(CandidateEnd(PERF, l[PERF]), CandidateEnd(POWER, l[POWER])), CandidateEnd(THERMAL, l[THERMAL]))
  {
    hide CandOk, DecideOk, CurOk, WantedOf, Applied, WfConfig, CandidateEnd, Candidate;
    AgreesMeans(cfg, s, r);
  }

  /** The end of a list is that of its deciding request that ends last. */
  lemma ListEnd(cfg: Config, s: Arb, r: int, kind: int) returns (x: Option<ResAction>)
    requires Agrees(cfg, s) && r in cfg.nodes && Ready(cfg, s) && kind in {PERF, POWER, THERMAL}
    ensures var l := s.info[r].lists[kind];
      && (x.None? <==> l == []) && (l == [] ==> CandidateEnd(kind, l) == 0x7FFF_FFFF_FFFF_FFFF)
      && (forall y :: DecidesLast(l, y) ==> y.endTime == CandidateEnd(kind, l))
      && (x.Some? ==> DecidesLast(l, x.value) && x.value.endTime == CandidateEnd(kind, l))
      && CandidateEnd(kind, l) <= 0x7FFF_FFFF_FFFF_FFFF
  {
    hide Agrees;
    AgreesLists(cfg, s, r, kind);
    var l := s.info[r].lists[kind];
    CandidateValid(kind, l);
    if l == [] {
      x := None;
    } else {
      var y := Keeper(kind, l);
      x := Some(y);
      hide TopValue, TopEnd;
      DecidersWin(kind, l);
    }
  }

  lemma DecidersWin(kind: int, l: Live)
    requires l != [] && WfList(l, kind) && kind in {PERF, POWER, THERMAL}
    ensures forall y :: Decides(l, y) <==> y in l && y.value == TopValue(kind, l)
    ensures forall y :: y in l && y.value == TopValue(kind, l) ==> y.endTime <= TopEnd(l, TopValue(kind, l))
  {
    var v := TopValue(kind, l);
    var w :| w in l && w.value == v;
    hide WfList;
    assert forall y :: y in l ==> y.kind == kind by { KindOfAll(kind, l); }
    assert Decides(l, w);
  }

  lemma KindOfAll(kind: int, l: Live)
    requires WfList(l, kind)
    ensures forall y :: y in l ==> y.kind == kind
  {
  }
}
