/** The recorded end time of a candidate is honest: expiries alone cannot change the candidate before it. */
module EndTimes {
  import opened Common
  import opened Config
  import opened LiveList
  import opened Arbitration
  import opened ArbiterState
  import opened Agreement
  import opened Tasks
  import opened Runs
  import opened RunTheorems

  /** What is left of a list still holds a request for the winning value with the latest end time. */
  ghost predicate Remnant(l: Live, full: Live, keeper: Option<ResAction>) {
    (keeper.Some? ==> keeper.value in l) && forall y :: y in l ==> y in full
  }

  lemma {:induction false} ExpireOther(l: Live, a: ResAction, x: ResAction)
    requires x in l && x != a
    ensures x in Expire(l, a)
  {
    if l[0] == a {
      assert x in l[1..];
    } else if l[0] != x {
      assert x in l[1..];
      ExpireOther(l[1..], a, x);
    }
  }

  /** A request that keeps the candidate and its end time as they are for as long as it is live. */
  lemma Keeper(kind: int, full: Live) returns (x: ResAction)
    requires full != [] && PERF <= kind <= PERFLVL && forall y :: y in full ==> y.Valid()
    ensures x in full && x.value == TopValue(kind, full) && x.endTime == TopEnd(full, TopValue(kind, full))
  {
    var v := TopValue(kind, full);
    var y :| y in full && y.value == v;
    assert y.Valid();
    x :| x in full && x.value == v && x.endTime == TopEnd(full, v);
  }

  lemma HasMember(l: Live)
    ensures l != [] ==> exists x :: x in l
  {
    if l != [] {
      assert l[0] in l;
    }
  }

  lemma NothingLeft(l: Live)
    requires Remnant(l, [], None)
    ensures l == []
  {
    HasMember(l);
  }

  lemma RemnantCandidate(kind: int, l: Live, full: Live, x: ResAction)
    requires full != [] && Remnant(l, full, Some(x)) && x.value == TopValue(kind, full) && x.endTime == TopEnd(full, TopValue(kind, full))
    requires forall y :: y in full ==> y.Valid()
    ensures Candidate(kind, l) == Candidate(kind, full) && CandidateEnd(kind, l) == CandidateEnd(kind, full)
  {
    var v := TopValue(kind, full);
    var y :| y in l && y.value == TopValue(kind, l);
    assert TopValue(kind, l) == v;
    assert TopEnd(l, v) == x.endTime by {
      if TopEnd(l, v) != MIN_INT_VALUE {
        var z :| z in l && z.value == v && z.endTime == TopEnd(l, v);
        assert z in full;
      }
    }
  }

  /** None of these expiries is of a request on this list that ends at `end` or later. */
  predicate EndsBefore(items: seq<Item>, r: int, kind: int, end: int) {
    forall i :: 0 <= i < |items| && items[i].resId == r && items[i].action.kind == kind ==> items[i].action.endTime < end
  }

  lemma {:induction false} ExpiriesKeep(cfg: Config, s: Arb, items: seq<Item>, r: int, kind: int, full: Live, keeper: Option<ResAction>, end: int)
    requires Ready(cfg, s) && r in cfg.nodes && PERF <= kind <= PERFLVL && TaskOk(cfg, Expiry(items))
    requires EndsBefore(items, r, kind, end) && Remnant(s.info[r].lists[kind], full, keeper) && (keeper.Some? ==> keeper.value.endTime == end)
    ensures Remnant(ApplyAll(cfg, s, ExpiryOps(items)).info[r].lists[kind], full, keeper)
    decreases |items|
  {
    if items != [] {
      ExpiryOpsCons(cfg, s, items);
      var q, a := items[0].resId, items[0].action;
      ExpireFrame(cfg, s, q, a);
      var l := s.info[r].lists[kind];
      if q == r && a.kind == kind && keeper.Some? {
        ExpireOther(l, a, keeper.value);
      }
      hide DoExpire, ExpiryOps;
      var t := DoExpire(cfg, s, q, a);
      assert Remnant(t.info[r].lists[kind], full, keeper);
      hide Remnant;
      assert EndsBefore(items[1..], r, kind, end);
      ExpiriesKeep(cfg, t, items[1..], r, kind, full, keeper, end);
    } else {
      assert ExpiryOps(items) == [];
    }
  }

  /** Only expiries happen, none of them of a request on this list that ends at `end` or later. */
  ghost predicate OnlyExpiries(es: seq<Event>, r: int, kind: int, end: int) {
    forall i :: 0 <= i < |es| ==> es[i].Do? && es[i].task.Expiry? && EndsBefore(es[i].task.items, r, kind, end)
  }

  lemma {:induction false} ExpiryRunKeeps(cfg: Config, s: Arb, es: seq<Event>, r: int, kind: int, full: Live, keeper: Option<ResAction>, end: int)
    requires WfConfig(cfg) && Ready(cfg, s) && EventsOk(cfg, es) && r in cfg.nodes && PERF <= kind <= PERFLVL
    requires OnlyExpiries(es, r, kind, end) && Remnant(s.info[r].lists[kind], full, keeper) && (keeper.Some? ==> keeper.value.endTime == end)
    ensures Remnant(Run(cfg, s, es).info[r].lists[kind], full, keeper)
    decreases |es|
  {
    hide Remnant, EndsBefore, WfConfig, ExpiryOps, Apply;
    if es != [] {
      ExpiriesKeep(cfg, s, es[0].task.items, r, kind, full, keeper, end);
      ExpiryRunKeeps(cfg, Step(cfg, s, es[0]), es[1..], r, kind, full, keeper, end);
    }
  }

  /** After any run, as long as only expiries of requests that end before the recorded end time of a type's
      candidate happen, neither that candidate nor its recorded end time changes. */
  lemma EndTimesHonest(cfg: Config, es: seq<Event>, expiries: seq<Event>, r: int, kind: int)
    requires WfConfig(cfg) && EventsOk(cfg, es) && EventsOk(cfg, expiries) && r in cfg.nodes && PERF <= kind <= PERFLVL
    requires OnlyExpiries(expiries, r, kind, Reach(cfg, es).info[r].candEnd[kind])
    ensures EventsOk(cfg, es + expiries)
    ensures Reach(cfg, es + expiries).info[r].cand[kind] == Reach(cfg, es).info[r].cand[kind]
    ensures Reach(cfg, es + expiries).info[r].candEnd[kind] == Reach(cfg, es).info[r].candEnd[kind]
  {
    RunAppend(cfg, InitArb(cfg), es, expiries);
    var s := Reach(cfg, es);
    var t := Run(cfg, s, expiries);
    ReachAgrees(cfg, es);
    ReachAgrees(cfg, es + expiries);
    hide WfConfig, EventsOk, DecideOk, CurOk, OnlyExpiries, Run;
    var full, end := s.info[r].lists[kind], s.info[r].candEnd[kind];
    CachesOf(cfg, s, r, kind);
    CachesOf(cfg, t, r, kind);
    if full == [] {
      ExpiryRunKeeps(cfg, s, expiries, r, kind, full, None, end);
      NothingLeft(t.info[r].lists[kind]);
    } else {
      var x := Keeper(kind, full);
      ExpiryRunKeeps(cfg, s, expiries, r, kind, full, Some(x), end);
      RemnantCandidate(kind, t.info[r].lists[kind], full, x);
    }
  }

  /** The caches of one type are those of its list. */
  lemma CachesOf(cfg: Config, s: Arb, r: int, kind: int)
    requires Ready(cfg, s) && Agrees(cfg, s) && r in cfg.nodes && PERF <= kind <= PERFLVL
    ensures s.info[r].cand[kind] == Code(Candidate(kind, s.info[r].lists[kind]))
    ensures s.info[r].candEnd[kind] == CandidateEnd(kind, s.info[r].lists[kind])
    ensures forall x :: x in s.info[r].lists[kind] ==> x.Valid()
  {
    hide DecideOk, CurOk, Candidate, CandidateEnd;
    assert CandOk(s.info[r]);
  }
}
