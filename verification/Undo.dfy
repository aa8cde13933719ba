/** Switching a request off undoes switching it on. */
module Undo {
  import opened Common
  import opened Config
  import opened LiveList
  import opened ArbiterState
  import opened Agreement
  import opened Tasks
  import opened Runs
  import opened RunTheorems

  /** `op` is about other requests: it neither renews nor switches off the request `on`, and does not
      submit the same object again. Expiries, clears, switches and level changes are all allowed. */
  predicate Foreign(op: Op, r: int, on: ResAction) {
    op.Begin? ==>
      && op.action != on
      && (op.resId != r || !op.action.PartSame(on) || op.action.onOff == EventInvalid)
  }

  /** `l` is `base`, possibly with the entry `on` somewhere in it. */
  ghost predicate Extends(l: Live, base: Live, on: ResAction) {
    EraseFirst(l, Exactly(on)) == base && !Hit(base, OnOf(on))
  }

  lemma {:induction false} ExtendsMembers(l: Live, base: Live, on: ResAction)
    requires EraseFirst(l, Exactly(on)) == base
    ensures forall x :: x in l ==> x in base || x == on
    ensures forall x :: x in base ==> x in l
  {
    if l != [] && l[0] != on {
      ExtendsMembers(l[1..], EraseFirst(l[1..], Exactly(on)), on);
    }
  }

  /** A foreign instant request keeps the two lists one entry apart. */
  lemma ExtendsInstant(l: Live, base: Live, on: ResAction, b: ResAction)
    requires Extends(l, base, on) && on.onOff == EventOn
    requires b != on && (!b.PartSame(on) || b.onOff == EventInvalid)
    ensures Extends(Instant(l, b), Instant(base, b), on)
  {
    var m := if b.onOff == EventOff then OnOf(b) else Same(b);
    assert Apart(l, m, Exactly(on));
    EraseCommutes(l, m, Exactly(on));
    if b.onOff != EventOff {
      EraseAppend(EraseFirst(l, m), b, Exactly(on));
    }
    forall x | x in Instant(base, b) ensures !OnOf(on).Hits(x) {
      assert x in base || (b.onOff != EventOff && x == b);
    }
  }

  /** Any expiry, that of `on` included, keeps them so. */
  lemma ExtendsExpire(l: Live, base: Live, on: ResAction, e: ResAction)
    requires Extends(l, base, on) && on.onOff == EventOn
    ensures Extends(Expire(l, e), Expire(base, e), on)
  {
    assert on.PartSame(on);
    assert on !in base;
    if e == on {
      EraseMiss(base, Exactly(on));
    } else {
      assert Apart(l, Exactly(e), Exactly(on));
      EraseCommutes(l, Exactly(e), Exactly(on));
    }
    assert forall x :: x in Expire(base, e) ==> x in base;
  }

  /** The OFF request brings them together again, whether or not `on` is still live. */
  lemma ExtendsOff(l: Live, base: Live, on: ResAction, off: ResAction)
    requires Extends(l, base, on) && on.onOff == EventOn && off.onOff == EventOff && off.PartSame(on)
    ensures Instant(l, off) == base && Instant(base, off) == base
  {
    EraseMiss(base, OnOf(off));
    ExtendsMembers(l, base, on);
    if on in l {
      var i := FirstHit(l, Exactly(on));
      assert forall j :: 0 <= j < i ==> l[j] in l && l[j] in base;
      EraseAt(l, OnOf(off), i);
    } else {
      EraseMiss(l, Exactly(on));
      EraseMiss(l, OnOf(off));
    }
  }

  /** Renewing the request brings them together as well: the new object replaces `on` or is filed afresh. */
  lemma ExtendsRenew(l: Live, base: Live, on: ResAction, again: ResAction)
    requires Extends(l, base, on) && on.onOff == EventOn && again.onOff == EventOn && again.PartSame(on)
    ensures Instant(l, again) == Instant(base, again)
  {
    EraseMiss(base, Same(again));
    ExtendsMembers(l, base, on);
    if on in l {
      var i := FirstHit(l, Exactly(on));
      assert forall j :: 0 <= j < i ==> l[j] in l && l[j] in base;
      EraseAt(l, Same(again), i);
    } else {
      EraseMiss(l, Exactly(on));
      EraseMiss(l, Same(again));
    }
  }

  // ---- lifting to states and runs ---------------------------------------------------------------

  /** `s` and `t` have the same lists and settings, except that `s` may also hold `on`. */
  ghost predicate Ahead(cfg: Config, s: Arb, t: Arb, r: int, on: ResAction) {
    && Ready(cfg, s) && Ready(cfg, t) && r in cfg.nodes && on.Valid()
    && s.power == t.power && s.thermal == t.thermal && s.level == t.level
    && (forall q :: q in cfg.nodes && q != r ==> s.info[q].lists == t.info[q].lists)
    && s.info[r].lists == t.info[r].lists[on.kind := s.info[r].lists[on.kind]]
    && Extends(s.info[r].lists[on.kind], t.info[r].lists[on.kind], on)
  }

  lemma AheadBegin(cfg: Config, s: Arb, t: Arb, r: int, on: ResAction, q: int, b: ResAction)
    requires Ahead(cfg, s, t, r, on) && on.onOff == EventOn && q in cfg.nodes && b.Valid() && Foreign(Begin(q, b), r, on)
    ensures Ahead(cfg, DoInstant(cfg, s, q, b), DoInstant(cfg, t, q, b), r, on)
  {
    hide DoInstant, Extends, Instant;
    InstantFrame(cfg, s, q, b);
    InstantFrame(cfg, t, q, b);
    if q == r && b.kind == on.kind {
      ExtendsInstant(s.info[r].lists[on.kind], t.info[r].lists[on.kind], on, b);
    }
  }

  lemma AheadEnd(cfg: Config, s: Arb, t: Arb, r: int, on: ResAction, q: int, e: ResAction)
    requires Ahead(cfg, s, t, r, on) && on.onOff == EventOn && q in cfg.nodes && e.Valid()
    ensures Ahead(cfg, DoExpire(cfg, s, q, e), DoExpire(cfg, t, q, e), r, on)
  {
    hide DoExpire, Extends, Expire;
    ExpireFrame(cfg, s, q, e);
    ExpireFrame(cfg, t, q, e);
    if q == r && e.kind == on.kind {
      ExtendsExpire(s.info[r].lists[on.kind], t.info[r].lists[on.kind], on, e);
    }
  }

  lemma ExtendsNothing(on: ResAction)
    ensures Extends([], [], on)
  {
  }

  lemma AheadClear(cfg: Config, s: Arb, t: Arb, r: int, on: ResAction, q: int)
    requires Ahead(cfg, s, t, r, on) && q in cfg.nodes
    ensures Ahead(cfg, ClearOne(cfg, s, q), ClearOne(cfg, t, q), r, on)
  {
    hide SetList, Interactive, Extends;
    ExtendsNothing(on);
    SetListFrame(cfg, s, q, PERF, []);
    SetListFrame(cfg, t, q, PERF, []);
  }

  lemma AheadArbitrate(cfg: Config, s: Arb, t: Arb, r: int, on: ResAction, order: seq<int>)
    requires WfConfig(cfg) && Ahead(cfg, s, t, r, on) && on.onOff == EventOn && forall q :: q in order ==> q in cfg.nodes
    ensures Ahead(cfg, ArbitrateAll(cfg, s, order), ArbitrateAll(cfg, t, order), r, on)
  {
    hide ArbitrateAll, WfConfig, CurrentAt, Extends;
    ArbitrateAllFrame(cfg, s, order);
    ArbitrateAllFrame(cfg, t, order);
  }

  lemma AheadApply(cfg: Config, s: Arb, t: Arb, r: int, on: ResAction, op: Op)
    requires WfConfig(cfg) && Ahead(cfg, s, t, r, on) && on.onOff == EventOn && OpOk(cfg, op) && Foreign(op, r, on)
    ensures Ahead(cfg, Apply(cfg, s, op), Apply(cfg, t, op), r, on)
  {
    hide DoInstant, DoExpire, ClearOne, ArbitrateAll, Extends;
    match op
    case Begin(q, b) => AheadBegin(cfg, s, t, r, on, q, b);
    case End(q, e) => AheadEnd(cfg, s, t, r, on, q, e);
    case ClearPerf(q) => AheadClear(cfg, s, t, r, on, q);
    case SwitchPower(p, order) => AheadArbitrate(cfg, s.(power := p), t.(power := p), r, on, order);
    case SwitchThermal(p, order) => AheadArbitrate(cfg, s.(thermal := p), t.(thermal := p), r, on, order);
    case Level(level) =>
  }

  lemma {:induction false} AheadApplyAll(cfg: Config, s: Arb, t: Arb, r: int, on: ResAction, ops: seq<Op>)
    requires WfConfig(cfg) && Ahead(cfg, s, t, r, on) && on.onOff == EventOn && OpsOk(cfg, ops)
    requires forall i :: 0 <= i < |ops| ==> Foreign(ops[i], r, on)
    ensures Ahead(cfg, ApplyAll(cfg, s, ops), ApplyAll(cfg, t, ops), r, on)
    decreases |ops|
  {
    hide Apply, Foreign, Extends, OpOk;
    if ops != [] {
      AheadApply(cfg, s, t, r, on, ops[0]);
      AheadApplyAll(cfg, Apply(cfg, s, ops[0]), Apply(cfg, t, ops[0]), r, on, ops[1..]);
    }
  }

  /** A fresh ON request puts the state one entry ahead. */
  lemma AheadStart(cfg: Config, s: Arb, r: int, on: ResAction)
    requires Ready(cfg, s) && r in cfg.nodes && on.Valid() && on.onOff == EventOn
    requires !Hit(s.info[r].lists[on.kind], OnOf(on))
    ensures Ahead(cfg, DoInstant(cfg, s, r, on), s, r, on)
  {
    var l := s.info[r].lists[on.kind];
    InstantFrame(cfg, s, r, on);
    hide DoInstant;
    assert !Hit(l, Same(on)) && !Hit(l, Exactly(on));
    EraseMiss(l, Same(on));
    EraseMiss(l, Exactly(on));
    EraseAt(l + [on], Exactly(on), |l|);
    assert (l + [on])[..|l|] + (l + [on])[|l| + 1..] == l;
  }

  /** An OFF request matching `on` closes the gap. */
  lemma AheadOff(cfg: Config, s: Arb, t: Arb, r: int, on: ResAction, off: ResAction)
    requires Ahead(cfg, s, t, r, on) && on.onOff == EventOn && off.onOff == EventOff && off.PartSame(on) && off.Valid()
    ensures var u := DoInstant(cfg, s, r, off);
      && u.power == t.power && u.thermal == t.thermal && u.level == t.level
      && forall q :: q in cfg.nodes ==> u.info[q].lists == t.info[q].lists
  {
    InstantFrame(cfg, s, r, off);
    ExtendsOff(s.info[r].lists[on.kind], t.info[r].lists[on.kind], on, off);
    hide DoInstant, Instant, Extends;
  }

  /** Dropping an ON and its matching OFF from a run leaves the same lists, and therefore, while the
      level keeps to its side of zero, the same candidates, end times and applied values: whatever other
      requests do in between, and whether or not the request's own timer fired or a clear removed it. */
  lemma OffUndoesOn(cfg: Config, s: Arb, r: int, on: ResAction, off: ResAction, mid: seq<Op>, q: int)
    requires Agrees(cfg, s) && Current(cfg, s) && r in cfg.nodes && q in cfg.nodes && OpsOk(cfg, mid) && SameSide(mid, s.level)
    requires on.Valid() && off.Valid() && on.onOff == EventOn && off.onOff == EventOff && off.PartSame(on)
    requires !Hit(s.info[r].lists[on.kind], OnOf(on))
    requires forall i :: 0 <= i < |mid| ==> Foreign(mid[i], r, on)
    ensures Plain(DoInstant(cfg, ApplyAll(cfg, DoInstant(cfg, s, r, on), mid), r, off).info[q]) == Plain(ApplyAll(cfg, s, mid).info[q])
  {
    hide CandOk, DecideOk, CurOk, CurrentAt, WfPair, Foreign, Extends, OpOk, DoInstant, Hit;
    var s1 := DoInstant(cfg, s, r, on);
    AheadStart(cfg, s, r, on);
    AheadApplyAll(cfg, s1, s, r, on, mid);
    var u, t := ApplyAll(cfg, s1, mid), ApplyAll(cfg, s, mid);
    AheadOff(cfg, u, t, r, on, off);
    UndoAgree(cfg, s, r, on, off, mid);
    SameListsSameCaches(cfg, DoInstant(cfg, u, r, off), t);
  }

  lemma UndoAgree(cfg: Config, s: Arb, r: int, on: ResAction, off: ResAction, mid: seq<Op>)
    requires Agrees(cfg, s) && Current(cfg, s) && r in cfg.nodes && OpsOk(cfg, mid) && SameSide(mid, s.level)
    requires on.Valid() && off.Valid()
    ensures var u := DoInstant(cfg, ApplyAll(cfg, DoInstant(cfg, s, r, on), mid), r, off);
      Agrees(cfg, u) && Current(cfg, u) && Agrees(cfg, ApplyAll(cfg, s, mid)) && Current(cfg, ApplyAll(cfg, s, mid))
  {
    hide CandOk, DecideOk, CurOk, CurrentAt, WfPair, DoInstant, OpOk;
    UndoStep(cfg, s, r, on);
    UndoRun(cfg, s, mid);
    UndoRun(cfg, DoInstant(cfg, s, r, on), mid);
    UndoStep(cfg, ApplyAll(cfg, DoInstant(cfg, s, r, on), mid), r, off);
  }

  lemma UndoStep(cfg: Config, s: Arb, r: int, a: ResAction)
    requires Agrees(cfg, s) && Current(cfg, s) && r in cfg.nodes && a.Valid()
    ensures Agrees(cfg, DoInstant(cfg, s, r, a)) && Current(cfg, DoInstant(cfg, s, r, a)) && DoInstant(cfg, s, r, a).level == s.level
  {
    hide CandOk, DecideOk, CurOk, CurrentAt, WfPair, DoInstant;
    ApplyAgrees(cfg, s, Begin(r, a));
    ApplyCurrent(cfg, s, Begin(r, a));
  }

  lemma UndoRun(cfg: Config, s: Arb, ops: seq<Op>)
    requires Agrees(cfg, s) && Current(cfg, s) && OpsOk(cfg, ops) && SameSide(ops, s.level)
    ensures Agrees(cfg, ApplyAll(cfg, s, ops)) && Current(cfg, ApplyAll(cfg, s, ops))
  {
    hide CandOk, DecideOk, CurOk, CurrentAt, WfPair, OpOk;
    ApplyAllAgrees(cfg, s, ops);
    ApplyAllCurrent(cfg, s, ops);
  }

  /** A pack of a single request runs. */
  ghost function OneRequest(cfg: Config, s: Arb, r: int, a: ResAction, order: seq<int>): (t: Arb)
    requires WfConfig(cfg) && Ready(cfg, s) && r in cfg.nodes && a.Valid() && Visits(order, cfg.nodes.Keys)
    ensures Ready(cfg, t)
  {
    Step(cfg, s, Do(Pack([Item(r, a)]), order))
  }

  lemma SingleStep(cfg: Config, s: Arb, r: int, a: ResAction, order: seq<int>)
    requires WfConfig(cfg) && Ready(cfg, s) && r in cfg.nodes && a.Valid() && Visits(order, cfg.nodes.Keys)
    ensures OneRequest(cfg, s, r, a, order) == DoInstant(cfg, s, r, a)
  {
    hide DoInstant;
    var items := [Item(r, a)];
    assert PackOps(cfg, items) == [Begin(r, a)] + PackOps(cfg, items[1..]);
    assert Ops(cfg, Do(Pack(items), order)) == [Begin(r, a)];
    assert ApplyAll(cfg, s, [Begin(r, a)]) == Apply(cfg, s, Begin(r, a));
  }

  /** The same for runs of tasks from start-up: submitting ON before `mid` and OFF after it ends in the
      same caches as `mid` alone. */
  lemma RequestUndone(
    cfg: Config, before: seq<Event>, r: int, on: ResAction, off: ResAction, mid: seq<Event>, order: seq<int>, q: int)
    requires WfConfig(cfg) && EventsOk(cfg, before) && EventsOk(cfg, mid) && Visits(order, cfg.nodes.Keys)
    requires NoCrossing(before, 0) && NoCrossing(mid, 0) && r in cfg.nodes && q in cfg.nodes
    requires on.Valid() && off.Valid() && on.onOff == EventOn && off.onOff == EventOff && off.PartSame(on)
    requires !Hit(Reach(cfg, before).info[r].lists[on.kind], OnOf(on))
    requires forall i :: 0 <= i < |RunOps(cfg, mid)| ==> Foreign(RunOps(cfg, mid)[i], r, on)
    ensures var s := Reach(cfg, before);
      var undone := OneRequest(cfg, Run(cfg, OneRequest(cfg, s, r, on, order), mid), r, off, order);
      Plain(undone.info[q]) == Plain(Run(cfg, s, mid).info[q])
  {
    hide CandOk, DecideOk, CurOk, CurrentAt, WfPair, OpOk, Foreign, DoInstant, Reach, EventOk, OneRequest, Visits, Ops;
    var s := Reach(cfg, before);
    ReachAgrees(cfg, before);
    ReachLevel(cfg, before);
    var ops := RunOps(cfg, mid);
    RunSameSide(cfg, mid, 0);
    var asked := DoInstant(cfg, s, r, on);
    SingleStep(cfg, s, r, on, order);
    RunIsOps(cfg, s, mid);
    RunIsOps(cfg, asked, mid);
    SingleStep(cfg, ApplyAll(cfg, asked, ops), r, off, order);
    OffUndoesOn(cfg, s, r, on, off, ops, q);
  }

  /** Whatever the thermal level does, the live lists and the candidates of every type are undone; only values
      that depend on when the level was last looked at may differ. */
  lemma ListsUndone(
    cfg: Config, before: seq<Event>, r: int, on: ResAction, off: ResAction, mid: seq<Event>, order: seq<int>, q: int)
    requires WfConfig(cfg) && EventsOk(cfg, before) && EventsOk(cfg, mid) && Visits(order, cfg.nodes.Keys)
    requires r in cfg.nodes && q in cfg.nodes
    requires on.Valid() && off.Valid() && on.onOff == EventOn && off.onOff == EventOff && off.PartSame(on)
    requires !Hit(Reach(cfg, before).info[r].lists[on.kind], OnOf(on))
    requires forall i :: 0 <= i < |RunOps(cfg, mid)| ==> Foreign(RunOps(cfg, mid)[i], r, on)
    ensures var s := Reach(cfg, before);
      var undone, plain := OneRequest(cfg, Run(cfg, OneRequest(cfg, s, r, on, order), mid), r, off, order), Run(cfg, s, mid);
      && undone.info[q].lists == plain.info[q].lists
      && undone.info[q].cand == plain.info[q].cand && undone.info[q].candEnd == plain.info[q].candEnd
  {
    hide CandOk, DecideOk, CurOk, WfPair, OpOk, Foreign, DoInstant, Reach, EventOk, OneRequest, Visits, Ops, Hit, Extends;
    var s := Reach(cfg, before);
    ReachAgrees(cfg, before);
    var ops := RunOps(cfg, mid);
    var asked := DoInstant(cfg, s, r, on);
    SingleStep(cfg, s, r, on, order);
    RunIsOps(cfg, s, mid);
    RunIsOps(cfg, asked, mid);
    var u, t := ApplyAll(cfg, asked, ops), ApplyAll(cfg, s, ops);
    SingleStep(cfg, u, r, off, order);
    AheadStart(cfg, s, r, on);
    AheadApplyAll(cfg, asked, s, r, on, ops);
    AheadOff(cfg, u, t, r, on, off);
    UndoAgrees(cfg, s, r, on, off, ops);
    SameListsSameCandidates(cfg, DoInstant(cfg, u, r, off), t, q);
  }

  lemma UndoAgrees(cfg: Config, s: Arb, r: int, on: ResAction, off: ResAction, mid: seq<Op>)
    requires Agrees(cfg, s) && r in cfg.nodes && OpsOk(cfg, mid) && on.Valid() && off.Valid()
    ensures Agrees(cfg, DoInstant(cfg, ApplyAll(cfg, DoInstant(cfg, s, r, on), mid), r, off)) && Agrees(cfg, ApplyAll(cfg, s, mid))
  {
    hide CandOk, DecideOk, CurOk, WfPair, DoInstant, OpOk;
    InstantAgrees(cfg, s, r, on);
    ApplyAllAgrees(cfg, s, mid);
    ApplyAllAgrees(cfg, DoInstant(cfg, s, r, on), mid);
    InstantAgrees(cfg, ApplyAll(cfg, DoInstant(cfg, s, r, on), mid), r, off);
  }

  lemma SameListsSameCandidates(cfg: Config, u: Arb, t: Arb, q: int)
    requires Agrees(cfg, u) && Agrees(cfg, t) && q in cfg.nodes && u.info[q].lists == t.info[q].lists
    ensures u.info[q].cand == t.info[q].cand && u.info[q].candEnd == t.info[q].candEnd
  {
    AgreesCand(cfg, u, q);
    AgreesCand(cfg, t, q);
    hide Agrees;
  }
}
