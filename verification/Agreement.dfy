/** Every incremental step keeps the cached arbitration results equal to the from-scratch definition. */
module Agreement {
  import opened Common
  import opened Config
  import opened LiveList
  import opened Arbitration
  import opened ArbiterState

  // ---- what agreement means -------------------------------------------------------------

  /** The value a resource should have applied, from the live lists of the resource and its partner. */
  ghost function Applied(cfg: Config, s: Arb, r: int): Option<int>
    requires WfConfig(cfg) && Ready(cfg, s) && r in cfg.nodes
  {
    var own := WantedOf(s, r);
    if PairOf(cfg, r).None? then own
    else
      var p := PairOf(cfg, r).value;
      Coupled(cfg.nodes[r].isMaxValue, own, WantedOf(s, p), MaxRules(s, r, p, s.info[r].pairLevel))
  }

  ghost function WantedOf(s: Arb, r: int): Option<int>
    requires r in s.info && Shaped(s.info[r])
  {
    Wanted(CandidatesOf(s.info[r].lists), s.power, s.thermal, s.info[r].candLevel)
  }

  /** The max member of a pair rules when a limit switch is on, or when the device is hot and either
      member has a live perf-level request. */
  ghost predicate MaxRules(s: Arb, r: int, p: int, level: int)
    requires r in s.info && Shaped(s.info[r]) && p in s.info && Shaped(s.info[p])
  {
    s.power || s.thermal || (level != 0 && (s.info[r].lists[PERFLVL] != [] || s.info[p].lists[PERFLVL] != []))
  }

  function CandidateCodes(l: seq<Live>): seq<int>
    requires FiveLists(l)
  {
    [Code(Candidate(PERF, l[PERF])), Code(Candidate(POWER, l[POWER])), Code(Candidate(THERMAL, l[THERMAL])), Code(Candidate(PERFLVL, l[PERFLVL])), 0]
  }

  function CandidateEnds(l: seq<Live>): seq<int>
    requires FiveLists(l)
  {
    [CandidateEnd(PERF, l[PERF]), CandidateEnd(POWER, l[POWER]), CandidateEnd(THERMAL, l[THERMAL]), CandidateEnd(PERFLVL, l[PERFLVL]), 0]
  }

  /** The whole status of a resource, rebuilt from live lists, switches and thermal levels. */
  ghost function Rebuilt(cfg: Config, s: Arb, r: int): Status
    requires WfConfig(cfg) && Ready(cfg, s) && r in cfg.nodes
  {
    var st := s.info[r];
    Status(st.lists, CandidateCodes(st.lists), CandidateEnds(st.lists),
      CodeDefault(WantedOf(s, r)), CodeDefault(Applied(cfg, s, r)), CandidatesOf(st.lists).end, st.candLevel, st.pairLevel)
  }

  ghost predicate ListsOk(lists: seq<Live>) {
    && FiveLists(lists)
    && WfList(lists[PERF], PERF) && WfList(lists[POWER], POWER) && WfList(lists[THERMAL], THERMAL) && WfList(lists[PERFLVL], PERFLVL)
    && lists[BATTERY] == []
  }

  ghost predicate CandOk(st: Status) {
    && Shaped(st)
    && ListsOk(st.lists)
    && st.cand == CandidateCodes(st.lists)
    && st.candEnd == CandidateEnds(st.lists)
  }

  ghost predicate DecideOk(s: Arb, st: Status)
    requires Shaped(st)
  {
    && st.candidate == CodeDefault(Wanted(Cached(st), s.power, s.thermal, st.candLevel))
    && st.currentEndTime == Cached(st).end
  }

  /** The applied value matches the cached candidates of the pair. */
  ghost predicate CurOk(cfg: Config, s: Arb, r: int)
    requires WfConfig(cfg) && Ready(cfg, s) && r in cfg.nodes
  {
    var st := s.info[r];
    if PairOf(cfg, r).None? then st.currentValue == st.candidate
    else
      var p := PairOf(cfg, r).value;
      && st.pairLevel == s.info[p].pairLevel
      && st.currentValue == CodeDefault(Coupled(cfg.nodes[r].isMaxValue,
           ViewDefault(st.candidate), ViewDefault(s.info[p].candidate), Limited(s, r, p, st.pairLevel)))
  }

  /** Lists and type candidates agree everywhere; the arbitrated values agree on `done`. */
  ghost predicate Partial(cfg: Config, s: Arb, done: set<int>) {
    && WfConfig(cfg) && Ready(cfg, s) && done <= cfg.nodes.Keys
    && (forall r :: r in cfg.nodes ==> CandOk(s.info[r]))
    && (forall r :: r in done ==> DecideOk(s, s.info[r]) && CurOk(cfg, s, r))
  }

  ghost predicate Agrees(cfg: Config, s: Arb) {
    Partial(cfg, s, cfg.nodes.Keys)
  }

  // ---- agreement implies the from-scratch values ------------------------------------------

  lemma CandidateValid(kind: int, l: Live)
    requires WfList(l, kind)
    ensures Candidate(kind, l).Some? ==> 0 <= Candidate(kind, l).value <= MAX_INT_VALUE
    ensures View(Code(Candidate(kind, l))) == Candidate(kind, l)
    ensures 0 <= CandidateEnd(kind, l) <= MAX_INT_VALUE
  {
    if l != [] {
      var v := TopValue(kind, l);
      var x :| x in l && x.value == v;
    }
  }

  /** The caches hold exactly the candidates of the live lists. */
  lemma CachedMeans(st: Status)
    requires CandOk(st)
    ensures Cached(st) == CandidatesOf(st.lists) && Cached(st).Valid()
  {
    CandidateValid(PERF, st.lists[PERF]);
    CandidateValid(POWER, st.lists[POWER]);
    CandidateValid(THERMAL, st.lists[THERMAL]);
    CandidateValid(PERFLVL, st.lists[PERFLVL]);
  }

  /** The resource's own candidate and end time are those its live lists call for. */
  lemma DecidedMeans(s: Arb, r: int)
    requires r in s.info && CandOk(s.info[r]) && DecideOk(s, s.info[r])
    ensures var st := s.info[r];
      && st.cand == CandidateCodes(st.lists) && st.candEnd == CandidateEnds(st.lists) && st.currentEndTime == CandidatesOf(st.lists).end
      && st.candidate == CodeDefault(WantedOf(s, r)) && ViewDefault(st.candidate) == WantedOf(s, r)
      && (Cached(st).perfLvl.Some? <==> st.lists[PERFLVL] != [])
  {
    CachedMeans(s.info[r]);
    hide Cached, CandidateEnds, CandidateCodes;
  }

  /** Agreement is equality with the from-scratch status, for every resource. */
  lemma AgreesMeans(cfg: Config, s: Arb, r: int)
    requires Agrees(cfg, s) && r in cfg.nodes
    ensures s.info[r] == Rebuilt(cfg, s, r)
  {
    assert CandOk(s.info[r]) && DecideOk(s, s.info[r]) && CurOk(cfg, s, r);
    DecidedMeans(s, r);
    assert WfPair(cfg, r);
    hide CandOk, DecideOk, WantedOf, Cached, CandidateCodes, CandidateEnds, CandidatesOf, Coupled;
    if PairOf(cfg, r).Some? {
      DecidedMeans(s, PairOf(cfg, r).value);
    }
  }

  // ---- every step keeps agreement ---------------------------------------------------------

  /** What coupling `r` does to an arbitrary resource `q`. */
  lemma CoupleAt(cfg: Config, s: Arb, r: int, q: int)
    requires WfConfig(cfg) && Ready(cfg, s) && r in cfg.nodes && q in cfg.nodes
    requires q != r && PairOf(cfg, q) != Some(r) ==> CurOk(cfg, s, q)
    ensures var t := Couple(cfg, s, r);
      && CurOk(cfg, t, q)
      && t.info[q] == s.info[q].(currentValue := t.info[q].currentValue, pairLevel := t.info[q].pairLevel)
  {
    assert WfPair(cfg, r) && WfPair(cfg, q);
    if q == r {
    } else if PairOf(cfg, q) == Some(r) {
    } else {
      assert PairOf(cfg, r) != Some(q);
      if PairOf(cfg, q).Some? {
        var p := PairOf(cfg, q).value;
        assert p != r && WfPair(cfg, p);
        CoupleKeepsRest(cfg, s, r, p);
      }
    }
  }

  lemma CoupleKeepsRest(cfg: Config, s: Arb, r: int, p: int)
    requires WfConfig(cfg) && Ready(cfg, s) && r in cfg.nodes && p in cfg.nodes && p != r
    ensures var t := Couple(cfg, s, r); t.info[p] == s.info[p].(currentValue := t.info[p].currentValue, pairLevel := t.info[p].pairLevel)
    ensures PairOf(cfg, r) != Some(p) ==> Couple(cfg, s, r).info[p] == s.info[p]
  {
  }

  /** The applied value has no part in the type candidates or in the resource's own. */
  lemma DecideKept(s: Arb, t: Arb, st: Status, u: Status)
    requires t.power == s.power && t.thermal == s.thermal && CandOk(st)
    requires u == st.(currentValue := u.currentValue, pairLevel := u.pairLevel)
    ensures CandOk(u) && (DecideOk(s, st) ==> DecideOk(t, u))
  {
    hide CandidateCodes, CandidateEnds, ListsOk;
  }

  lemma DecidedOk(s: Arb, st: Status)
    requires CandOk(st)
    ensures var u := Decide(st, s.power, s.thermal, s.level); CandOk(u) && DecideOk(s, u)
  {
    hide CandidateCodes, CandidateEnds, ListsOk;
  }

  lemma CoupleSwitches(cfg: Config, s: Arb, r: int)
    requires Ready(cfg, s) && r in cfg.nodes
    ensures Couple(cfg, s, r).power == s.power && Couple(cfg, s, r).thermal == s.thermal
  {
    hide Coupled, Limited;
  }

  lemma ArbitrateAt(cfg: Config, s: Arb, r: int, q: int)
    requires WfConfig(cfg) && Ready(cfg, s) && r in cfg.nodes && q in cfg.nodes && CandOk(s.info[q])
    requires q != r && PairOf(cfg, q) != Some(r) ==> CurOk(cfg, s, q)
    ensures var t := Arbitrate(cfg, s, r);
      && CandOk(t.info[q]) && CurOk(cfg, t, q) && (q == r || DecideOk(s, s.info[q]) ==> DecideOk(t, t.info[q]))
  {
    var s1 := s.(info := s.info[r := Decide(s.info[r], s.power, s.thermal, s.level)]);
    if q != r && PairOf(cfg, q) != Some(r) {
      assert WfPair(cfg, q);
      assert CurOk(cfg, s1, q);
    }
    CoupleAt(cfg, s1, r, q);
    CoupleSwitches(cfg, s1, r);
    hide WfConfig, CandOk, CurOk, DecideOk, Couple, Decide;
    if q == r {
      DecidedOk(s, s.info[r]);
      DecideKept(s, Arbitrate(cfg, s, r), s1.info[q], Arbitrate(cfg, s, r).info[q]);
    } else {
      DecideKept(s, Arbitrate(cfg, s, r), s.info[q], Arbitrate(cfg, s, r).info[q]);
    }
  }

  /** Arbitrating `r` settles it and cannot unsettle any other resource, whatever state its pair was in. */
  lemma ArbitrateSettles(cfg: Config, s: Arb, done: set<int>, r: int)
    requires Partial(cfg, s, {}) && done <= cfg.nodes.Keys && r in cfg.nodes
    requires forall q :: q in done && q != r ==> DecideOk(s, s.info[q])
    requires forall q :: q in done && q != r && PairOf(cfg, q) != Some(r) ==> CurOk(cfg, s, q)
    ensures Partial(cfg, Arbitrate(cfg, s, r), done + {r})
  {
    var t := Arbitrate(cfg, s, r);
    ArbitrateSwitches(cfg, s, r);
    hide Arbitrate, CandOk, DecideOk, CurOk;
    forall q | q in cfg.nodes
      ensures CandOk(t.info[q]) && (q in done + {r} ==> DecideOk(t, t.info[q]) && CurOk(cfg, t, q))
    {
      assert CandOk(s.info[q]);
      if q == r || q in done || PairOf(cfg, q) == Some(r) {
        ArbitrateAt(cfg, s, r, q);
      } else {
        ArbitrateElsewhere(cfg, s, r, q);
      }
    }
  }

  lemma ArbitrateSwitches(cfg: Config, s: Arb, r: int)
    requires Ready(cfg, s) && r in cfg.nodes
    ensures Arbitrate(cfg, s, r).power == s.power && Arbitrate(cfg, s, r).thermal == s.thermal
  {
    hide Coupled, Limited, Decide;
  }

  lemma ArbitrateElsewhere(cfg: Config, s: Arb, r: int, q: int)
    requires WfConfig(cfg) && Ready(cfg, s) && r in cfg.nodes && q in cfg.nodes && q != r && PairOf(cfg, q) != Some(r)
    ensures Arbitrate(cfg, s, r).info[q] == s.info[q]
  {
    assert WfPair(cfg, r);
    CoupleKeepsRest(cfg, s.(info := s.info[r := Decide(s.info[r], s.power, s.thermal, s.level)]), r, q);
    hide Couple, Decide;
  }

  /** The arbitrated values of `q` are judged by the caches of `q` and its partner alone. */
  lemma SameCachesAt(cfg: Config, s: Arb, t: Arb, q: int)
    requires WfConfig(cfg) && Ready(cfg, s) && Ready(cfg, t) && q in cfg.nodes
    requires t.power == s.power && t.thermal == s.thermal
    requires forall x :: x in cfg.nodes ==> t.info[x] == s.info[x].(lists := t.info[x].lists)
    requires CurOk(cfg, s, q) && DecideOk(s, s.info[q])
    ensures CurOk(cfg, t, q) && DecideOk(t, t.info[q])
  {
    assert WfPair(cfg, q);
  }

  /** Swapping in lists with the same candidates leaves every arbitrated value right. */
  lemma SameCachesAgree(cfg: Config, s: Arb, t: Arb)
    requires Agrees(cfg, s) && Ready(cfg, t) && t.power == s.power && t.thermal == s.thermal
    requires forall x :: x in cfg.nodes ==> CandOk(t.info[x]) && t.info[x] == s.info[x].(lists := t.info[x].lists)
    ensures Agrees(cfg, t)
  {
    forall q | q in cfg.nodes ensures DecideOk(t, t.info[q]) && CurOk(cfg, t, q) {
      SameCachesAt(cfg, s, t, q);
    }
  }

  lemma CountersAgree(cfg: Config, s: Arb, boost: int, dropped: int)
    requires Agrees(cfg, s)
    ensures Agrees(cfg, s.(boost := boost, dropped := dropped))
  {
    SameCachesAgree(cfg, s, s.(boost := boost, dropped := dropped));
  }

  lemma SetListCases(cfg: Config, s: Arb, r: int, kind: int, l: Live)
    requires Ready(cfg, s) && r in cfg.nodes && PERF <= kind <= PERFLVL
    ensures var st := Recount(s.info[r].(lists := s.info[r].lists[kind := l]), kind);
      var s1 := s.(info := s.info[r := st]);
      SetList(cfg, s, r, kind, l) ==
        if st.cand == s.info[r].cand && st.candEnd == s.info[r].candEnd then s1 else Arbitrate(cfg, s1, r)
  {
    var st0 := s.info[r].(lists := s.info[r].lists[kind := l]);
    assert s.info[r := st0][r := Recount(st0, kind)] == s.info[r := Recount(st0, kind)];
  }

  /** Replacing one list keeps agreement, although arbitration is skipped when the type's candidate did not move. */
  lemma SetListAgrees(cfg: Config, s: Arb, r: int, kind: int, l: Live)
    requires Agrees(cfg, s) && r in cfg.nodes && PERF <= kind <= PERFLVL && WfList(l, kind)
    ensures Agrees(cfg, SetList(cfg, s, r, kind, l))
  {
    hide SetList, Recount, Arbitrate, CandOk, WfList, Agrees;
    AgreesCand(cfg, s, r);
    var st0 := s.info[r];
    var st := Recount(st0.(lists := st0.lists[kind := l]), kind);
    SetListCases(cfg, s, r, kind, l);
    RecountOk(st0, kind, l);
    if st.cand == st0.cand && st.candEnd == st0.candEnd {
      SkipAgrees(cfg, s, r, st, kind, l);
    } else {
      RecountAgrees(cfg, s, r, st);
    }
  }

  lemma AgreesCand(cfg: Config, s: Arb, r: int)
    requires Agrees(cfg, s) && r in cfg.nodes
    ensures Ready(cfg, s) && CandOk(s.info[r])
  {
    hide DecideOk, CurOk, WfConfig;
  }

  lemma AgreesReady(cfg: Config, s: Arb)
    requires Agrees(cfg, s)
    ensures Ready(cfg, s)
  {
  }

  lemma AgreesLists(cfg: Config, s: Arb, r: int, kind: int)
    requires Agrees(cfg, s) && r in cfg.nodes && PERF <= kind <= PERFLVL
    ensures Ready(cfg, s) && WfList(s.info[r].lists[kind], kind)
  {
    AgreesCand(cfg, s, r);
    hide Agrees;
    CandLists(s.info[r], kind);
  }

  lemma CandLists(st: Status, kind: int)
    requires CandOk(st) && PERF <= kind <= PERFLVL
    ensures WfList(st.lists[kind], kind)
  {
    hide WfList, CandidateCodes, CandidateEnds;
  }

  /** The type's candidate did not move: nothing has to be arbitrated. */
  lemma SkipAgrees(cfg: Config, s: Arb, r: int, st: Status, kind: int, l: Live)
    requires Agrees(cfg, s) && r in cfg.nodes && PERF <= kind <= PERFLVL && CandOk(st)
    requires Shaped(s.info[r]) && st == Recount(s.info[r].(lists := s.info[r].lists[kind := l]), kind)
    requires st.cand == s.info[r].cand && st.candEnd == s.info[r].candEnd
    ensures Agrees(cfg, s.(info := s.info[r := st]))
  {
    assert st == s.info[r].(lists := st.lists);
    hide Recount, CandOk, DecideOk, CurOk;
    SameCachesAgree(cfg, s, s.(info := s.info[r := st]));
  }

  /** It did move: arbitrating `r` brings everything back into agreement. */
  lemma RecountAgrees(cfg: Config, s: Arb, r: int, st: Status)
    requires Agrees(cfg, s) && r in cfg.nodes && CandOk(st)
    ensures Agrees(cfg, Arbitrate(cfg, s.(info := s.info[r := st]), r))
  {
    hide Arbitrate, CandOk, DecideOk, CurOk;
    RecountPartial(cfg, s, r, st);
    ArbitrateSettles(cfg, s.(info := s.info[r := st]), cfg.nodes.Keys, r);
    assert cfg.nodes.Keys + {r} == cfg.nodes.Keys;
  }

  /** A recount disturbs at most the arbitrated values of `r` and its partner. */
  lemma RecountPartial(cfg: Config, s: Arb, r: int, st: Status)
    requires Agrees(cfg, s) && r in cfg.nodes && CandOk(st)
    ensures var s1 := s.(info := s.info[r := st]);
      && Partial(cfg, s1, {})
      && (forall q :: q in cfg.nodes && q != r ==> DecideOk(s1, s1.info[q]))
      && (forall q :: q in cfg.nodes && q != r && PairOf(cfg, q) != Some(r) ==> CurOk(cfg, s1, q))
  {
    hide Coupled, Wanted, CandOk;
    var s1 := s.(info := s.info[r := st]);
    assert Ready(cfg, s1) by { assert Shaped(st) by { CandShaped(st); } }
    forall q | q in cfg.nodes && q != r && PairOf(cfg, q) != Some(r) ensures CurOk(cfg, s1, q) {
      assert CurOk(cfg, s, q) && WfPair(cfg, q);
    }
  }

  lemma CandShaped(st: Status)
    requires CandOk(st)
    ensures Shaped(st)
  {
  }

  lemma RecountOk(st: Status, kind: int, l: Live)
    requires CandOk(st) && PERF <= kind <= PERFLVL && WfList(l, kind)
    ensures CandOk(Recount(st.(lists := st.lists[kind := l]), kind))
  {
    hide WfList, Candidate, CandidateEnd;
  }

  lemma InstantAgrees(cfg: Config, s: Arb, r: int, a: ResAction)
    requires Agrees(cfg, s) && r in cfg.nodes && a.Valid()
    ensures Agrees(cfg, DoInstant(cfg, s, r, a))
  {
    hide Agrees, SetList, Instant, WfList, Hit;
    AgreesLists(cfg, s, r, a.kind);
    var l := s.info[r].lists[a.kind];
    InstantWf(l, a);
    SetListAgrees(cfg, s, r, a.kind, Instant(l, a));
    var t := SetList(cfg, s, r, a.kind, Instant(l, a));
    CountersAgree(cfg, t, DoInstant(cfg, s, r, a).boost, t.dropped);
  }

  lemma ExpireAgrees(cfg: Config, s: Arb, r: int, a: ResAction)
    requires Agrees(cfg, s) && r in cfg.nodes && a.Valid()
    ensures Agrees(cfg, DoExpire(cfg, s, r, a))
  {
    AgreesLists(cfg, s, r, a.kind);
    hide Agrees, SetList, WfList, EraseFirst;
    var l := s.info[r].lists[a.kind];
    EraseWf(l, Exactly(a), a.kind);
    SetListAgrees(cfg, s, r, a.kind, Expire(l, a));
    var t := SetList(cfg, s, r, a.kind, Expire(l, a));
    CountersAgree(cfg, t, DoExpire(cfg, s, r, a).boost, t.dropped);
  }

  lemma ClearOneAgrees(cfg: Config, s: Arb, r: int)
    requires Agrees(cfg, s) && r in cfg.nodes
    ensures Agrees(cfg, ClearOne(cfg, s, r))
  {
    hide SetList, Interactive, DecideOk, CurOk, CandOk;
    SetListAgrees(cfg, s, r, PERF, []);
    var t := SetList(cfg, s, r, PERF, []);
    CountersAgree(cfg, t, t.boost, ClearOne(cfg, s, r).dropped);
  }

  lemma InitAgrees(cfg: Config)
    requires WfConfig(cfg)
    ensures Agrees(cfg, InitArb(cfg))
  {
    forall r | r in cfg.nodes ensures CurOk(cfg, InitArb(cfg), r) {
      assert WfPair(cfg, r);
    }
  }
}
