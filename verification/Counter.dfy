/** The boost counter counts the live interactive requests, plus those a clear has thrown away. */
module Counter {
  import opened Common
  import opened Config
  import opened LiveList
  import opened ArbiterState
  import opened Tasks
  import opened RunTheorems

  /** Only perf requests can be interactive, so the perf lists hold every interactive entry. */
  function LiveBelow(s: Arb, n: nat): nat
    requires forall r :: r in s.info ==> Shaped(s.info[r])
  {
    if n == 0 then 0
    else LiveBelow(s, n - 1) + if n - 1 in s.info then Interactive(s.info[n - 1].lists[PERF]) else 0
  }

  /** The number of live interactive requests of all resources. */
  function LiveInteractive(cfg: Config, s: Arb): nat
    requires Ready(cfg, s)
  {
    LiveBelow(s, MAX_RESOURCE_ID + 1)
  }

  /** How far the counter is from what it should be. */
  function Drift(cfg: Config, s: Arb): int
    requires Ready(cfg, s)
  {
    s.boost - s.dropped - LiveInteractive(cfg, s)
  }

  lemma {:induction false} InteractiveConcat(a: Live, b: Live)
    ensures Interactive(a + b) == Interactive(a) + Interactive(b)
  {
    if a == [] {
      assert a + b == b;
    } else {
      assert (a + b)[1..] == a[1..] + b;
      InteractiveConcat(a[1..], b);
    }
  }

  /** Erasing takes away the first hit and nothing else. */
  lemma InteractiveErase(l: Live, m: Match) returns (x: Option<ResAction>)
    ensures x.Some? <==> Hit(l, m)
    ensures x.Some? ==> x.value in l && m.Hits(x.value)
    ensures Interactive(EraseFirst(l, m)) == Interactive(l) - One(x.Some? && x.value.interaction)
  {
    if Hit(l, m) {
      var i := FirstHit(l, m);
      x := Some(l[i]);
      assert l == l[..i] + ([l[i]] + l[i + 1..]);
      InteractiveConcat(l[..i], [l[i]] + l[i + 1..]);
      InteractiveConcat([l[i]], l[i + 1..]);
      InteractiveConcat(l[..i], l[i + 1..]);
      assert Interactive([l[i]]) == One(l[i].interaction);
    } else {
      EraseMiss(l, m);
      x := None;
    }
  }

  /** Changing the perf list of one resource changes the total by as much. */
  lemma {:induction false} LiveBelowChange(cfg: Config, s: Arb, t: Arb, r: int, n: nat)
    requires WfConfig(cfg) && Ready(cfg, s) && Ready(cfg, t) && r in cfg.nodes
    requires forall q :: q in cfg.nodes && q != r ==> t.info[q].lists == s.info[q].lists
    ensures LiveBelow(t, n) - LiveBelow(s, n) ==
      if r < n then Interactive(t.info[r].lists[PERF]) - Interactive(s.info[r].lists[PERF]) else 0
  {
    if n != 0 {
      LiveBelowChange(cfg, s, t, r, n - 1);
    }
  }

  /** The exact effect of an instant request: the counter moves by the request's own flag where the
      total moves by the flag of the entry it erases. */
  lemma InstantDrift(cfg: Config, s: Arb, r: int, a: ResAction) returns (erased: Option<ResAction>)
    requires WfConfig(cfg) && Ready(cfg, s) && r in cfg.nodes && a.Valid() && a.kind == PERF
    ensures var l := s.info[r].lists[PERF];
      var m := if a.onOff == EventOff then OnOf(a) else Same(a);
      && (erased.Some? <==> Hit(l, m)) && (erased.Some? ==> erased.value in l && m.Hits(erased.value))
      && Drift(cfg, DoInstant(cfg, s, r, a)) == Drift(cfg, s)
           + (if erased.Some? then One(erased.value.interaction) - One(a.interaction) else 0)
  {
    var l := s.info[r].lists[PERF];
    var m := if a.onOff == EventOff then OnOf(a) else Same(a);
    InstantFrame(cfg, s, r, a);
    erased := InteractiveErase(l, m);
    InteractiveConcat(EraseFirst(l, m), [a]);
    assert Interactive([a]) == One(a.interaction);
    BoostOf(cfg, s, r, a);
    hide DoInstant, Interactive;
    LiveBelowChange(cfg, s, DoInstant(cfg, s, r, a), r, MAX_RESOURCE_ID + 1);
  }

  lemma BoostOf(cfg: Config, s: Arb, r: int, a: ResAction)
    requires Ready(cfg, s) && r in cfg.nodes && a.Valid()
    ensures var l := s.info[r].lists[a.kind];
      DoInstant(cfg, s, r, a).boost == s.boost
        + (if a.onOff == EventOff then 0 else One(a.interaction))
        - One(a.interaction && Hit(l, if a.onOff == EventOff then OnOf(a) else Same(a)))
  {
  }

  /** A perf request keeps the counter right exactly when it erases nothing or erases an entry with
      the same interaction flag. */
  lemma InstantConserves(cfg: Config, s: Arb, r: int, a: ResAction) returns (erased: Option<ResAction>)
    requires WfConfig(cfg) && Ready(cfg, s) && r in cfg.nodes && a.Valid() && a.kind == PERF
    ensures erased.Some? ==> erased.value in s.info[r].lists[PERF] && erased.value.PartSame(a)
    ensures erased.None? ==> !Hit(s.info[r].lists[PERF], if a.onOff == EventOff then OnOf(a) else Same(a))
    ensures Drift(cfg, DoInstant(cfg, s, r, a)) == Drift(cfg, s) <==> erased.None? || erased.value.interaction == a.interaction
  {
    erased := InstantDrift(cfg, s, r, a);
  }

  // ---- conservation over runs --------------------------------------------------------------------

  /** The interaction flag of a perf request is a function of its command. */
  predicate Flagged(a: ResAction, flag: int -> bool) {
    a.kind == PERF ==> a.interaction == flag(a.cmdId)
  }

  /** Every perf entry takes its flag from its command. */
  ghost predicate FlaggedLists(cfg: Config, s: Arb, flag: int -> bool)
    requires Ready(cfg, s)
  {
    forall r, x :: r in cfg.nodes && x in s.info[r].lists[PERF] ==> x.kind == PERF && Flagged(x, flag)
  }

  ghost predicate Balanced(cfg: Config, s: Arb, flag: int -> bool) {
    Ready(cfg, s) && Drift(cfg, s) == 0 && FlaggedLists(cfg, s, flag)
  }

  predicate OpFlagged(op: Op, flag: int -> bool) {
    op.Begin? ==> Flagged(op.action, flag)
  }

  lemma BeginDrift(cfg: Config, s: Arb, r: int, a: ResAction)
    requires WfConfig(cfg) && Ready(cfg, s) && r in cfg.nodes && a.Valid()
    requires a.kind == PERF ==> forall x :: x in s.info[r].lists[PERF] && x.PartSame(a) ==> x.interaction == a.interaction
    ensures Drift(cfg, DoInstant(cfg, s, r, a)) == Drift(cfg, s)
  {
    if a.kind == PERF {
      var erased := InstantDrift(cfg, s, r, a);
    } else {
      InstantFrame(cfg, s, r, a);
      BoostOf(cfg, s, r, a);
      LiveBelowChange(cfg, s, DoInstant(cfg, s, r, a), r, MAX_RESOURCE_ID + 1);
      hide DoInstant;
    }
  }

  lemma BeginBalanced(cfg: Config, s: Arb, r: int, a: ResAction, flag: int -> bool)
    requires WfConfig(cfg) && Balanced(cfg, s, flag) && r in cfg.nodes && a.Valid() && Flagged(a, flag)
    ensures Balanced(cfg, DoInstant(cfg, s, r, a), flag)
  {
    hide DoInstant, Drift;
    BeginDrift(cfg, s, r, a);
    InstantFrame(cfg, s, r, a);
    var l := s.info[r].lists[a.kind];
    assert forall x :: x in Instant(l, a) ==> x in l || x == a;
    hide Instant;
  }

  lemma EndBalanced(cfg: Config, s: Arb, r: int, a: ResAction, flag: int -> bool)
    requires WfConfig(cfg) && Balanced(cfg, s, flag) && r in cfg.nodes && a.Valid()
    ensures Balanced(cfg, DoExpire(cfg, s, r, a), flag)
  {
    hide Drift, Flagged;
    EndDrift(cfg, s, r, a);
    ExpireFrame(cfg, s, r, a);
    hide DoExpire;
  }

  lemma EndDrift(cfg: Config, s: Arb, r: int, a: ResAction)
    requires WfConfig(cfg) && Ready(cfg, s) && r in cfg.nodes && a.Valid()
    ensures Drift(cfg, DoExpire(cfg, s, r, a)) == Drift(cfg, s)
  {
    ExpireFrame(cfg, s, r, a);
    var t := DoExpire(cfg, s, r, a);
    var x := InteractiveErase(s.info[r].lists[a.kind], Exactly(a));
    assert t.boost == s.boost - One(x.Some? && a.interaction);
    hide DoExpire;
    LiveBelowChange(cfg, s, t, r, MAX_RESOURCE_ID + 1);
  }

  lemma ClearBalanced(cfg: Config, s: Arb, r: int, flag: int -> bool)
    requires WfConfig(cfg) && Balanced(cfg, s, flag) && r in cfg.nodes
    ensures Balanced(cfg, ClearOne(cfg, s, r), flag)
  {
    SetListFrame(cfg, s, r, PERF, []);
    hide SetList;
    LiveBelowChange(cfg, s, ClearOne(cfg, s, r), r, MAX_RESOURCE_ID + 1);
  }

  lemma {:induction false} SameListsSameTotal(cfg: Config, s: Arb, t: Arb, n: nat)
    requires Ready(cfg, s) && Ready(cfg, t) && forall q :: q in cfg.nodes ==> t.info[q].lists == s.info[q].lists
    ensures LiveBelow(t, n) == LiveBelow(s, n)
  {
    if n != 0 {
      SameListsSameTotal(cfg, s, t, n - 1);
    }
  }

  /** Switches, levels and arbitration touch neither the counter nor a list. */
  lemma SwitchBalanced(cfg: Config, s: Arb, s1: Arb, order: seq<int>, flag: int -> bool)
    requires WfConfig(cfg) && Balanced(cfg, s, flag) && forall r :: r in order ==> r in cfg.nodes
    requires s1.info == s.info && s1.boost == s.boost && s1.dropped == s.dropped
    ensures Balanced(cfg, ArbitrateAll(cfg, s1, order), flag)
  {
    hide ArbitrateAll, CurrentAt, LiveBelow;
    ArbitrateAllFrame(cfg, s1, order);
    SameListsSameTotal(cfg, s, ArbitrateAll(cfg, s1, order), MAX_RESOURCE_ID + 1);
  }

  lemma ApplyBalanced(cfg: Config, s: Arb, op: Op, flag: int -> bool)
    requires WfConfig(cfg) && Balanced(cfg, s, flag) && OpOk(cfg, op) && OpFlagged(op, flag)
    ensures Balanced(cfg, Apply(cfg, s, op), flag)
  {
    hide DoInstant, DoExpire, ClearOne, ArbitrateAll;
    match op
    case Begin(r, a) => BeginBalanced(cfg, s, r, a, flag);
    case End(r, a) => EndBalanced(cfg, s, r, a, flag);
    case ClearPerf(r) => ClearBalanced(cfg, s, r, flag);
    case SwitchPower(on, order) => SwitchBalanced(cfg, s, s.(power := on), order, flag);
    case SwitchThermal(on, order) => SwitchBalanced(cfg, s, s.(thermal := on), order, flag);
    case Level(level) => SameListsSameTotal(cfg, s, s.(level := level), MAX_RESOURCE_ID + 1);
  }

  lemma {:induction false} ApplyAllBalanced(cfg: Config, s: Arb, ops: seq<Op>, flag: int -> bool)
    requires WfConfig(cfg) && Balanced(cfg, s, flag) && OpsOk(cfg, ops)
    requires forall i :: 0 <= i < |ops| ==> OpFlagged(ops[i], flag)
    ensures Balanced(cfg, ApplyAll(cfg, s, ops), flag)
    decreases |ops|
  {
    hide Apply, OpOk, OpFlagged, Drift, Flagged;
    if ops != [] {
      ApplyBalanced(cfg, s, ops[0], flag);
      ApplyAllBalanced(cfg, Apply(cfg, s, ops[0]), ops[1..], flag);
    }
  }

  lemma {:induction false} NoneLive(cfg: Config, n: nat)
    ensures LiveBelow(InitArb(cfg), n) == 0
  {
    if n != 0 {
      NoneLive(cfg, n - 1);
    }
  }

  /** Conservation: after every run whose perf requests take their interaction flag from their command,
      the counter is the number of live interactive requests plus the number dropped by clears. */
  lemma BoostConserved(cfg: Config, es: seq<Event>, flag: int -> bool)
    requires WfConfig(cfg) && EventsOk(cfg, es)
    requires forall i :: 0 <= i < |RunOps(cfg, es)| ==> OpFlagged(RunOps(cfg, es)[i], flag)
    ensures var s := Reach(cfg, es); s.boost == LiveInteractive(cfg, s) + s.dropped
  {
    NoneLive(cfg, MAX_RESOURCE_ID + 1);
    RunIsOps(cfg, InitArb(cfg), es);
    ApplyAllBalanced(cfg, InitArb(cfg), RunOps(cfg, es), flag);
  }
}
