/** The whole OFF request of a command undoes its whole ON request. */
module ChainUndo {
  import opened Common
  import opened Config
  import opened LiveList
  import opened ArbiterState
  import opened Agreement
  import opened Tasks
  import opened Runs
  import opened RunTheorems
  import opened Undo
  import opened Staleness
  import opened Requests

  // ---- states with the same lists --------------------------------------------------------------------------

  ghost predicate SameLists(cfg: Config, s: Arb, t: Arb) {
    && Ready(cfg, s) && Ready(cfg, t) && s.power == t.power && s.thermal == t.thermal && s.level == t.level
    && forall q :: q in cfg.nodes ==> s.info[q].lists == t.info[q].lists
  }

  /** One list of one resource changes, in both states alike. */
  lemma SameListsSet(cfg: Config, s: Arb, t: Arb, s1: Arb, t1: Arb, r: int, kind: int, l: Live)
    requires SameLists(cfg, s, t) && Ready(cfg, s1) && Ready(cfg, t1) && r in cfg.nodes && PERF <= kind <= PERFLVL
    requires s1.power == s.power && s1.thermal == s.thermal && s1.level == s.level && t1.power == t.power && t1.thermal == t.thermal && t1.level == t.level
    requires s1.info[r].lists == s.info[r].lists[kind := l] && t1.info[r].lists == t.info[r].lists[kind := l]
    requires forall q :: q in cfg.nodes && q != r ==> s1.info[q].lists == s.info[q].lists && t1.info[q].lists == t.info[q].lists
    ensures SameLists(cfg, s1, t1)
  {
  }

  lemma SameListsArbitrate(cfg: Config, s: Arb, t: Arb, order: seq<int>)
    requires WfConfig(cfg) && SameLists(cfg, s, t) && forall r :: r in order ==> r in cfg.nodes
    ensures SameLists(cfg, ArbitrateAll(cfg, s, order), ArbitrateAll(cfg, t, order))
  {
    hide ArbitrateAll, WfConfig, CurrentAt;
    ArbitrateAllFrame(cfg, s, order);
    ArbitrateAllFrame(cfg, t, order);
  }

  lemma SameListsBegin(cfg: Config, s: Arb, t: Arb, r: int, a: ResAction)
    requires Ready(cfg, s) && Ready(cfg, t) && r in cfg.nodes && a.Valid() && SameLists(cfg, s, t)
    ensures SameLists(cfg, DoInstant(cfg, s, r, a), DoInstant(cfg, t, r, a))
  {
    hide DoInstant, Instant;
    InstantFrame(cfg, s, r, a);
    InstantFrame(cfg, t, r, a);
    SameListsSet(cfg, s, t, DoInstant(cfg, s, r, a), DoInstant(cfg, t, r, a), r, a.kind, Instant(s.info[r].lists[a.kind], a));
  }

  lemma SameListsEnd(cfg: Config, s: Arb, t: Arb, r: int, a: ResAction)
    requires Ready(cfg, s) && Ready(cfg, t) && r in cfg.nodes && a.Valid() && SameLists(cfg, s, t)
    ensures SameLists(cfg, DoExpire(cfg, s, r, a), DoExpire(cfg, t, r, a))
  {
    hide DoExpire, Expire;
    ExpireFrame(cfg, s, r, a);
    ExpireFrame(cfg, t, r, a);
    SameListsSet(cfg, s, t, DoExpire(cfg, s, r, a), DoExpire(cfg, t, r, a), r, a.kind, Expire(s.info[r].lists[a.kind], a));
  }

  lemma SameListsApply(cfg: Config, s: Arb, t: Arb, op: Op)
    requires WfConfig(cfg) && SameLists(cfg, s, t) && OpOk(cfg, op)
    ensures SameLists(cfg, Apply(cfg, s, op), Apply(cfg, t, op))
  {
    hide DoInstant, DoExpire, SetList, ArbitrateAll;
    match op
    case Begin(r, a) => SameListsBegin(cfg, s, t, r, a);
    case End(r, a) => SameListsEnd(cfg, s, t, r, a);
    case ClearPerf(r) =>
      SetListFrame(cfg, s, r, PERF, []);
      SetListFrame(cfg, t, r, PERF, []);
      SameListsSet(cfg, s, t, SetList(cfg, s, r, PERF, []), SetList(cfg, t, r, PERF, []), r, PERF, []);
    case SwitchPower(on, order) => SameListsArbitrate(cfg, s.(power := on), t.(power := on), order);
    case SwitchThermal(on, order) => SameListsArbitrate(cfg, s.(thermal := on), t.(thermal := on), order);
    case Level(_) =>
  }

  lemma {:induction false} SameListsApplyAll(cfg: Config, s: Arb, t: Arb, ops: seq<Op>)
    requires WfConfig(cfg) && SameLists(cfg, s, t) && OpsOk(cfg, ops)
    ensures SameLists(cfg, ApplyAll(cfg, s, ops), ApplyAll(cfg, t, ops))
    decreases |ops|
  {
    if ops != [] {
      SameListsApply(cfg, s, t, ops[0]);
      SameListsReady(cfg, s, t);
      hide Apply, OpOk, SameLists, WfConfig;
      SameListsApplyAll(cfg, Apply(cfg, s, ops[0]), Apply(cfg, t, ops[0]), ops[1..]);
    }
  }

  lemma SameListsReady(cfg: Config, s: Arb, t: Arb)
    requires SameLists(cfg, s, t)
    ensures Ready(cfg, s) && Ready(cfg, t)
  {
  }

  lemma SameListsTrans(cfg: Config, s: Arb, t: Arb, u: Arb)
    requires SameLists(cfg, s, t) && SameLists(cfg, t, u)
    ensures SameLists(cfg, s, u)
  {
  }

  // ---- chains ------------------------------------------------------------------------------------------------

  function Begins(items: seq<Item>): seq<Op> {
    seq(|items|, i requires 0 <= i < |items| => Begin(items[i].resId, items[i].action))
  }

  ghost predicate ChainOf(cfg: Config, items: seq<Item>, onOff: EventType) {
    forall i :: 0 <= i < |items| ==> items[i].resId in cfg.nodes && items[i].action.Valid() && items[i].action.onOff == onOff
  }

  /** No two items are the same object. */
  predicate DistinctObjects(items: seq<Item>) {
    forall i, j :: 0 <= i < j < |items| ==> items[i].action.id != items[j].action.id
  }

  /** The two items ask the same of one resource. */
  predicate SameKey(a: Item, b: Item) {
    a.resId == b.resId && b.action.PartSame(a.action)
  }

  /** The first item is asked for again first at `j`. */
  predicate AgainAt(items: seq<Item>, j: nat) {
    0 < j < |items| && SameKey(items[0], items[j]) && forall k :: 0 < k < j ==> !SameKey(items[0], items[k])
  }

  lemma Again(items: seq<Item>) returns (j: nat)
    requires items != []
    ensures j == 0 || AgainAt(items, j)
    ensures j == 0 ==> forall k :: 0 < k < |items| ==> !SameKey(items[0], items[k])
  {
    j := 1;
    while j < |items| && !SameKey(items[0], items[j])
      invariant 1 <= j <= |items|
      invariant forall k :: 0 < k < j ==> !SameKey(items[0], items[k])
    {
      j := j + 1;
    }
    if j >= |items| { j := 0; }
  }

  /** No item's key is live already. */
  ghost predicate NotLive(cfg: Config, s: Arb, items: seq<Item>)
    requires Ready(cfg, s) && ChainOf(cfg, items, EventOn)
  {
    forall i :: 0 <= i < |items| ==> !Hit(s.info[items[i].resId].lists[items[i].action.kind], OnOf(items[i].action))
  }

  /** The operations are about other requests than any of the chain. */
  predicate ForeignToAll(ops: seq<Op>, items: seq<Item>) {
    forall i, k :: 0 <= i < |items| && 0 <= k < |ops| ==> Foreign(ops[k], items[i].resId, items[i].action)
  }

  lemma ChainTails(cfg: Config, s: Arb, ons: seq<Item>, mid: seq<Op>, offs: seq<Item>)
    requires Ready(cfg, s) && ons != [] && ChainOf(cfg, ons, EventOn) && ChainOf(cfg, offs, EventOff) && DistinctObjects(ons) && NotLive(cfg, s, ons)
    requires Matching(ons, offs) && ForeignToAll(mid, ons)
    ensures offs != [] && ChainOf(cfg, ons[1..], EventOn) && ChainOf(cfg, offs[1..], EventOff) && DistinctObjects(ons[1..]) && NotLive(cfg, s, ons[1..])
    ensures Matching(ons[1..], offs[1..]) && ForeignToAll(mid, ons[1..])
    ensures ons[0].resId == offs[0].resId && offs[0].action.PartSame(ons[0].action)
    ensures OpsOk(cfg, Begins(ons)) && OpsOk(cfg, Begins(offs)) && OpsOk(cfg, Begins(ons[1..])) && OpsOk(cfg, Begins(offs[1..]))
  {
    assert forall i :: 0 <= i < |ons[1..]| ==> ons[1..][i] == ons[i + 1];
    assert forall i :: 0 <= i < |offs[1..]| ==> offs[1..][i] == offs[i + 1];
  }

  /** An item that is not asked for again: everything up to the OFF chain is foreign to it. */
  lemma OnceOnly(ons: seq<Item>, mid: seq<Op>)
    requires ons != [] && DistinctObjects(ons) && ForeignToAll(mid, ons) && forall k :: 0 < k < |ons| ==> !SameKey(ons[0], ons[k])
    ensures forall k :: 0 <= k < |Begins(ons[1..]) + mid| ==> Foreign((Begins(ons[1..]) + mid)[k], ons[0].resId, ons[0].action)
  {
    forall k | 0 <= k < |Begins(ons[1..]) + mid| ensures Foreign((Begins(ons[1..]) + mid)[k], ons[0].resId, ons[0].action) {
      if k < |Begins(ons[1..])| {
        assert (Begins(ons[1..]) + mid)[k] == Begin(ons[k + 1].resId, ons[k + 1].action);
      } else {
        assert (Begins(ons[1..]) + mid)[k] == mid[k - |Begins(ons[1..])|];
      }
    }
  }

  lemma BeginsCons(items: seq<Item>)
    requires items != []
    ensures Begins(items) == [Begin(items[0].resId, items[0].action)] + Begins(items[1..])
  {
  }

  lemma FirstOp(cfg: Config, s: Arb, r: int, a: ResAction, rest: seq<Op>)
    requires Ready(cfg, s) && r in cfg.nodes && a.Valid() && OpsOk(cfg, rest)
    ensures OpsOk(cfg, [Begin(r, a)] + rest) && ApplyAll(cfg, s, [Begin(r, a)] + rest) == ApplyAll(cfg, DoInstant(cfg, s, r, a), rest)
  {
    hide DoInstant;
    assert ([Begin(r, a)] + rest)[1..] == rest;
  }

  /** An item that is not asked for again can be taken out of both chains. */
  lemma OnceUndone(cfg: Config, s: Arb, ons: seq<Item>, mid: seq<Op>, offs: seq<Item>)
    requires WfConfig(cfg) && Ready(cfg, s) && OpsOk(cfg, mid) && ons != [] && offs != []
    requires ChainOf(cfg, ons, EventOn) && ChainOf(cfg, offs, EventOff) && NotLive(cfg, s, ons)
    requires ons[0].resId == offs[0].resId && offs[0].action.PartSame(ons[0].action)
    requires OpsOk(cfg, Begins(ons)) && OpsOk(cfg, Begins(offs)) && OpsOk(cfg, Begins(ons[1..])) && OpsOk(cfg, Begins(offs[1..]))
    requires forall k :: 0 <= k < |Begins(ons[1..]) + mid| ==> Foreign((Begins(ons[1..]) + mid)[k], ons[0].resId, ons[0].action)
    ensures SameLists(cfg, ApplyAll(cfg, ApplyAll(cfg, ApplyAll(cfg, s, Begins(ons)), mid), Begins(offs)),
      ApplyAll(cfg, ApplyAll(cfg, ApplyAll(cfg, s, Begins(ons[1..])), mid), Begins(offs[1..])))
  {
    var r, on, off, more := ons[0].resId, ons[0].action, offs[0].action, Begins(ons[1..]);
    hide DoInstant, Foreign, WfConfig, OpOk, Apply, Ahead, Extends;
    AheadStart(cfg, s, r, on);
    var s1 := DoInstant(cfg, s, r, on);
    BeginsCons(ons);
    BeginsCons(offs);
    hide Begins;
    FirstOp(cfg, s, r, on, more);
    AheadApplyAll(cfg, s1, s, r, on, more + mid);
    ApplyAppend(cfg, s1, more, mid);
    ApplyAppend(cfg, s, more, mid);
    var u, t := ApplyAll(cfg, ApplyAll(cfg, s1, more), mid), ApplyAll(cfg, ApplyAll(cfg, s, more), mid);
    FirstOp(cfg, u, r, off, Begins(offs[1..]));
    AheadOff(cfg, u, t, r, on, off);
    SameListsApplyAll(cfg, DoInstant(cfg, u, r, off), t, Begins(offs[1..]));
  }

  // ---- what is asked for twice ---------------------------------------------------------------------------------

  /** Filing the request again, or withdrawing it, brings the two states together. */
  lemma CloseGap(cfg: Config, s: Arb, t: Arb, r: int, on: ResAction, b: ResAction)
    requires Ahead(cfg, s, t, r, on) && on.onOff == EventOn && b.Valid() && b.onOff != EventInvalid && b.PartSame(on)
    ensures SameLists(cfg, DoInstant(cfg, s, r, b), DoInstant(cfg, t, r, b))
  {
    InstantFrame(cfg, s, r, b);
    InstantFrame(cfg, t, r, b);
    if b.onOff == EventOff {
      ExtendsOff(s.info[r].lists[on.kind], t.info[r].lists[on.kind], on, b);
    } else {
      ExtendsRenew(s.info[r].lists[on.kind], t.info[r].lists[on.kind], on, b);
    }
    hide DoInstant, Instant, Extends;
  }

  /** Item `j` files or withdraws the key of `on` on `r`, and no earlier item is about it. */
  ghost predicate ClosesAt(items: seq<Item>, j: nat, r: int, on: ResAction) {
    && j < |items| && items[j].resId == r && items[j].action.PartSame(on) && items[j].action.onOff != EventInvalid
    && forall k :: 0 <= k < j ==> Foreign(Begin(items[k].resId, items[k].action), r, on)
  }

  lemma ClosesTail(items: seq<Item>, j: nat, r: int, on: ResAction)
    requires ClosesAt(items, j, r, on)
    ensures items != []
    ensures if j == 0 then items[0].resId == r && items[0].action.PartSame(on) && items[0].action.onOff != EventInvalid
      else Foreign(Begin(items[0].resId, items[0].action), r, on) && ClosesAt(items[1..], j - 1, r, on)
  {
    assert forall k :: 0 <= k < |items[1..]| ==> items[1..][k] == items[k + 1];
  }

  lemma AgainCloses(items: seq<Item>, j: nat, onOff: EventType, on: ResAction)
    requires AgainAt(items, j) && SameKey(items[0], Item(items[0].resId, on)) && onOff != EventInvalid
    requires forall k :: 0 <= k < |items| ==> items[k].action.onOff == onOff && (k > 0 ==> items[k].action != on)
    ensures ClosesAt(items[1..], j - 1, items[0].resId, on)
  {
    var rest := items[1..];
    assert forall k :: 0 <= k < |rest| ==> rest[k] == items[k + 1];
  }

  /** Two states one entry apart come together once a chain files or withdraws that entry. */
  lemma {:induction false} GapCloses(cfg: Config, s: Arb, t: Arb, r: int, on: ResAction, items: seq<Item>, j: nat)
    requires WfConfig(cfg) && Ready(cfg, s) && Ready(cfg, t) && OpsOk(cfg, Begins(items))
    requires Ahead(cfg, s, t, r, on) && on.onOff == EventOn && ClosesAt(items, j, r, on)
    ensures SameLists(cfg, ApplyAll(cfg, s, Begins(items)), ApplyAll(cfg, t, Begins(items)))
    decreases j
  {
    hide *;
    ClosesTail(items, j, r, on);
    FirstBegins(cfg, items);
    var q, b := items[0].resId, items[0].action;
    if j == 0 {
      CloseGap(cfg, s, t, r, on, b);
      SameListsApplyAll(cfg, DoInstant(cfg, s, q, b), DoInstant(cfg, t, q, b), Begins(items[1..]));
    } else {
      AheadBegin(cfg, s, t, r, on, q, b);
      GapCloses(cfg, DoInstant(cfg, s, q, b), DoInstant(cfg, t, q, b), r, on, items[1..], j - 1);
    }
    FromSecond(cfg, s, t, items);
  }

  lemma FromSecond(cfg: Config, s: Arb, t: Arb, items: seq<Item>)
    requires Ready(cfg, s) && Ready(cfg, t) && items != [] && items[0].resId in cfg.nodes && items[0].action.Valid()
    requires OpsOk(cfg, Begins(items)) && OpsOk(cfg, Begins(items[1..]))
    requires SameLists(cfg, ApplyAll(cfg, DoInstant(cfg, s, items[0].resId, items[0].action), Begins(items[1..])),
      ApplyAll(cfg, DoInstant(cfg, t, items[0].resId, items[0].action), Begins(items[1..])))
    ensures SameLists(cfg, ApplyAll(cfg, s, Begins(items)), ApplyAll(cfg, t, Begins(items)))
  {
    BeginsCons(items);
    hide *;
    FirstOp(cfg, s, items[0].resId, items[0].action, Begins(items[1..]));
    FirstOp(cfg, t, items[0].resId, items[0].action, Begins(items[1..]));
  }

  lemma FirstBegins(cfg: Config, items: seq<Item>)
    requires items != [] && OpsOk(cfg, Begins(items))
    ensures Begins(items) == [Begin(items[0].resId, items[0].action)] + Begins(items[1..]) && OpsOk(cfg, Begins(items[1..]))
    ensures items[0].resId in cfg.nodes && items[0].action.Valid()
  {
    BeginsCons(items);
    assert OpOk(cfg, Begins(items)[0]);
    assert forall k :: 0 <= k < |Begins(items[1..])| ==> Begins(items[1..])[k] == Begins(items)[k + 1];
  }

  /** A chain of ON requests may leave out an item that it asks for again. */
  lemma OnSpare(cfg: Config, s: Arb, ons: seq<Item>, j: nat)
    requires WfConfig(cfg) && Ready(cfg, s) && ChainOf(cfg, ons, EventOn) && DistinctObjects(ons) && NotLive(cfg, s, ons) && AgainAt(ons, j)
    requires OpsOk(cfg, Begins(ons)) && OpsOk(cfg, Begins(ons[1..]))
    ensures SameLists(cfg, ApplyAll(cfg, s, Begins(ons)), ApplyAll(cfg, s, Begins(ons[1..])))
  {
    var r, on, rest := ons[0].resId, ons[0].action, ons[1..];
    AgainCloses(ons, j, EventOn, on);
    AheadStart(cfg, s, r, on);
    BeginsCons(ons);
    hide *;
    FirstOp(cfg, s, r, on, Begins(rest));
    GapCloses(cfg, DoInstant(cfg, s, r, on), s, r, on, rest, j - 1);
  }

  /** An OFF request that finds an entry takes just that one. */
  lemma OffExtends(l: Live, off: ResAction) returns (on: ResAction)
    requires WfList(l, off.kind) && off.onOff == EventOff && Hit(l, OnOf(off))
    ensures on.onOff == EventOn && off.PartSame(on) && on.Valid() && Extends(l, Instant(l, off), on)
  {
    var i := FirstHit(l, OnOf(off));
    on := l[i];
    EraseAt(l, Exactly(on), i);
    EraseWf(l, OnOf(off), off.kind);
    hide EraseFirst, WfList;
    assert forall x :: OnOf(on).Hits(x) ==> OnOf(off).Hits(x);
  }

  lemma OffAhead(cfg: Config, s: Arb, r: int, off: ResAction) returns (on: ResAction)
    requires Agrees(cfg, s) && Ready(cfg, s) && r in cfg.nodes && off.Valid() && off.onOff == EventOff
    requires Hit(s.info[r].lists[off.kind], OnOf(off))
    ensures on.onOff == EventOn && off.PartSame(on) && Ahead(cfg, s, DoInstant(cfg, s, r, off), r, on)
  {
    AgreesLists(cfg, s, r, off.kind);
    InstantFrame(cfg, s, r, off);
    hide DoInstant, Agrees, Instant, Extends, Hit, WfList;
    on := OffExtends(s.info[r].lists[off.kind], off);
    PutBack(s.info[r].lists, off.kind, Instant(s.info[r].lists[off.kind], off));
  }

  lemma PutBack(lists: seq<Live>, kind: int, l: Live)
    requires 0 <= kind < |lists|
    ensures lists == lists[kind := l][kind := lists[kind]]
  {
  }

  lemma OffMiss(cfg: Config, s: Arb, r: int, off: ResAction)
    requires Ready(cfg, s) && r in cfg.nodes && off.Valid() && off.onOff == EventOff && !Hit(s.info[r].lists[off.kind], OnOf(off))
    ensures SameLists(cfg, s, DoInstant(cfg, s, r, off))
  {
    InstantFrame(cfg, s, r, off);
    EraseMiss(s.info[r].lists[off.kind], OnOf(off));
    hide DoInstant;
  }

  /** So may a chain of OFF requests. */
  lemma OffSpare(cfg: Config, s: Arb, offs: seq<Item>, j: nat)
    requires Agrees(cfg, s) && Ready(cfg, s) && WfConfig(cfg) && ChainOf(cfg, offs, EventOff) && AgainAt(offs, j)
    requires OpsOk(cfg, Begins(offs)) && OpsOk(cfg, Begins(offs[1..]))
    ensures SameLists(cfg, ApplyAll(cfg, s, Begins(offs)), ApplyAll(cfg, s, Begins(offs[1..])))
  {
    var r, off, rest := offs[0].resId, offs[0].action, offs[1..];
    BeginsCons(offs);
    FirstOp(cfg, s, r, off, Begins(rest));
    hide DoInstant, Begins, Ahead, OpOk, Agrees, Apply, WfConfig, SameLists, Hit;
    var t := DoInstant(cfg, s, r, off);
    if Hit(s.info[r].lists[off.kind], OnOf(off)) {
      var on := OffAhead(cfg, s, r, off);
      AgainCloses(offs, j, EventOff, on);
      hide ChainOf, AgainAt;
      GapCloses(cfg, s, t, r, on, rest, j - 1);
    } else {
      hide ChainOf, AgainAt;
      OffMiss(cfg, s, r, off);
      SameListsApplyAll(cfg, s, t, Begins(rest));
    }
    SameListsSym(cfg, ApplyAll(cfg, s, Begins(rest)), ApplyAll(cfg, t, Begins(rest)));
  }

  lemma SameListsSym(cfg: Config, s: Arb, t: Arb)
    requires SameLists(cfg, s, t)
    ensures SameLists(cfg, t, s)
  {
  }

  lemma AgainMatches(ons: seq<Item>, offs: seq<Item>, j: nat)
    requires Matching(ons, offs) && AgainAt(ons, j)
    ensures AgainAt(offs, j)
  {
  }

  /** An item that is asked for again can be taken out of both chains. */
  lemma TwiceUndone(cfg: Config, s: Arb, ons: seq<Item>, mid: seq<Op>, offs: seq<Item>, j: nat)
    requires WfConfig(cfg) && Agrees(cfg, s) && Ready(cfg, s) && OpsOk(cfg, mid)
    requires ChainOf(cfg, ons, EventOn) && ChainOf(cfg, offs, EventOff) && DistinctObjects(ons) && NotLive(cfg, s, ons) && Matching(ons, offs) && AgainAt(ons, j)
    requires OpsOk(cfg, Begins(ons)) && OpsOk(cfg, Begins(offs)) && OpsOk(cfg, Begins(ons[1..])) && OpsOk(cfg, Begins(offs[1..]))
    ensures SameLists(cfg, ApplyAll(cfg, ApplyAll(cfg, ApplyAll(cfg, s, Begins(ons)), mid), Begins(offs)),
      ApplyAll(cfg, ApplyAll(cfg, ApplyAll(cfg, s, Begins(ons[1..])), mid), Begins(offs[1..])))
  {
    AgainMatches(ons, offs, j);
    var asked, less, more := ApplyAll(cfg, s, Begins(ons)), ApplyAll(cfg, s, Begins(ons[1..])), Begins(offs[1..]);
    hide ChainOf, DistinctObjects, NotLive, Matching, AgainAt, Agrees, SameLists, ApplyAll, OpsOk;
    OnSpare(cfg, s, ons, j);
    SameListsApplyAll(cfg, asked, less, mid);
    ApplyAllAgrees(cfg, s, Begins(ons));
    ApplyAllAgrees(cfg, asked, mid);
    var u := ApplyAll(cfg, asked, mid);
    OffSpare(cfg, u, offs, j);
    SameListsApplyAll(cfg, u, ApplyAll(cfg, less, mid), more);
    SameListsTrans(cfg, ApplyAll(cfg, u, Begins(offs)), ApplyAll(cfg, u, more), ApplyAll(cfg, ApplyAll(cfg, less, mid), more));
  }

  /** Taking the first item out of both chains changes no list. */
  lemma FirstUndone(cfg: Config, s: Arb, ons: seq<Item>, mid: seq<Op>, offs: seq<Item>)
    requires WfConfig(cfg) && Agrees(cfg, s) && Ready(cfg, s) && OpsOk(cfg, mid) && ons != [] && offs != []
    requires ChainOf(cfg, ons, EventOn) && ChainOf(cfg, offs, EventOff) && DistinctObjects(ons) && NotLive(cfg, s, ons)
    requires Matching(ons, offs) && ForeignToAll(mid, ons)
    requires OpsOk(cfg, Begins(ons)) && OpsOk(cfg, Begins(offs)) && OpsOk(cfg, Begins(ons[1..])) && OpsOk(cfg, Begins(offs[1..]))
    ensures SameLists(cfg, ApplyAll(cfg, ApplyAll(cfg, ApplyAll(cfg, s, Begins(ons)), mid), Begins(offs)),
      ApplyAll(cfg, ApplyAll(cfg, ApplyAll(cfg, s, Begins(ons[1..])), mid), Begins(offs[1..])))
  {
    var j := Again(ons);
    assert ons[0].resId == offs[0].resId && offs[0].action.PartSame(ons[0].action);
    hide ChainOf, NotLive, Agrees, SameLists, ApplyAll, OpsOk, Begins;
    if j == 0 {
      OnceOnly(ons, mid);
      OnceUndone(cfg, s, ons, mid, offs);
    } else {
      TwiceUndone(cfg, s, ons, mid, offs, j);
    }
  }

  /** Any operations between a chain of ON requests and the matching chain of OFF requests end in the lists they
      would have ended in by themselves, whether or not the chain asks for something twice. */
  lemma {:induction false} ChainUndone(cfg: Config, s: Arb, ons: seq<Item>, mid: seq<Op>, offs: seq<Item>)
    requires WfConfig(cfg) && Agrees(cfg, s) && Ready(cfg, s) && OpsOk(cfg, mid)
    requires ChainOf(cfg, ons, EventOn) && ChainOf(cfg, offs, EventOff) && DistinctObjects(ons) && NotLive(cfg, s, ons)
    requires Matching(ons, offs) && ForeignToAll(mid, ons)
    ensures OpsOk(cfg, Begins(ons)) && OpsOk(cfg, Begins(offs))
    ensures SameLists(cfg, ApplyAll(cfg, ApplyAll(cfg, ApplyAll(cfg, s, Begins(ons)), mid), Begins(offs)), ApplyAll(cfg, s, mid))
    decreases |ons|
  {
    if ons == [] {
      assert Begins(ons) == [] && Begins(offs) == [];
    } else {
      ChainTails(cfg, s, ons, mid, offs);
      FirstUndone(cfg, s, ons, mid, offs);
      ChainUndone(cfg, s, ons[1..], mid, offs[1..]);
      hide *;
      SameListsTrans(cfg, ApplyAll(cfg, ApplyAll(cfg, ApplyAll(cfg, s, Begins(ons)), mid), Begins(offs)),
        ApplyAll(cfg, ApplyAll(cfg, ApplyAll(cfg, s, Begins(ons[1..])), mid), Begins(offs[1..])), ApplyAll(cfg, s, mid));
    }
  }

  // ---- runs --------------------------------------------------------------------------------------------------------

  lemma {:induction false} PackIsBegins(cfg: Config, items: seq<Item>)
    requires TaskOk(cfg, Pack(items)) && forall i :: 0 <= i < |items| ==> items[i].resId in cfg.nodes
    ensures PackOps(cfg, items) == Begins(items)
  {
    if items != [] {
      assert forall i :: 0 <= i < |items[1..]| ==> items[1..][i] == items[i + 1];
      PackIsBegins(cfg, items[1..]);
      BeginsCons(items);
    }
  }

  /** A pack of a chain runs. */
  ghost function RunChain(cfg: Config, s: Arb, items: seq<Item>): (t: Arb)
    requires Ready(cfg, s) && TaskOk(cfg, Pack(items))
    ensures Ready(cfg, t)
  {
    ApplyAll(cfg, s, PackOps(cfg, items))
  }

  lemma RunChainIsStep(cfg: Config, s: Arb, items: seq<Item>, order: seq<int>)
    requires WfConfig(cfg) && Ready(cfg, s) && TaskOk(cfg, Pack(items)) && Visits(order, cfg.nodes.Keys)
    ensures EventOk(cfg, Do(Pack(items), order)) && Step(cfg, s, Do(Pack(items), order)) == RunChain(cfg, s, items)
  {
  }

  lemma ChainAgrees(cfg: Config, s: Arb, items: seq<Item>)
    requires Agrees(cfg, s) && Ready(cfg, s) && TaskOk(cfg, Pack(items))
    ensures Agrees(cfg, RunChain(cfg, s, items))
    ensures Fresh(cfg, s) ==> Fresh(cfg, RunChain(cfg, s, items))
  {
    hide Agrees, Apply, TaskOk, Fresh;
    PackOpsBegin(cfg, items);
    ApplyAllAgrees(cfg, s, PackOps(cfg, items));
    if Fresh(cfg, s) {
      ApplyAllFresh(cfg, s, PackOps(cfg, items));
    }
  }

  lemma MidAgrees(cfg: Config, s: Arb, mid: seq<Event>)
    requires WfConfig(cfg) && Agrees(cfg, s) && Ready(cfg, s) && EventsOk(cfg, mid)
    ensures Agrees(cfg, Run(cfg, s, mid))
    ensures Fresh(cfg, s) && NoCrossing(mid, s.level) ==> Fresh(cfg, Run(cfg, s, mid))
  {
    hide Agrees, Apply, Fresh, EventOk, Ops, WfConfig;
    RunIsOps(cfg, s, mid);
    ApplyAllAgrees(cfg, s, RunOps(cfg, mid));
    if Fresh(cfg, s) && NoCrossing(mid, s.level) {
      RunSameSide(cfg, mid, s.level);
      ApplyAllFresh(cfg, s, RunOps(cfg, mid));
    }
  }

  lemma SameListsSameNow(cfg: Config, s: Arb, t: Arb, q: int)
    requires Agrees(cfg, s) && Agrees(cfg, t) && SameLists(cfg, s, t) && q in cfg.nodes
    ensures s.info[q].cand == t.info[q].cand && s.info[q].candEnd == t.info[q].candEnd
    ensures Fresh(cfg, s) && Fresh(cfg, t) ==> Plain(s.info[q]) == Plain(t.info[q])
  {
    AgreesReady(cfg, s);
    hide CandOk, DecideOk, CurOk, RebuiltNow, FreshAt;
    SameListsSameCandidates(cfg, s, t, q);
    if Fresh(cfg, s) && Fresh(cfg, t) {
      FreshNow(cfg, s, q);
      FreshNow(cfg, t, q);
      SameListsRebuilt(cfg, s, t, q);
    }
  }

  lemma {:induction false} BeginsLevel(cfg: Config, s: Arb, ops: seq<Op>)
    requires Ready(cfg, s) && OpsOk(cfg, ops) && forall i :: 0 <= i < |ops| ==> ops[i].Begin?
    ensures ApplyAll(cfg, s, ops).level == s.level
    decreases |ops|
  {
    hide DoInstant;
    if ops != [] {
      assert OpOk(cfg, ops[0]);
      InstantFrame(cfg, s, ops[0].resId, ops[0].action);
      assert Apply(cfg, s, ops[0]) == DoInstant(cfg, s, ops[0].resId, ops[0].action);
      hide Apply, OpOk;
      BeginsLevel(cfg, Apply(cfg, s, ops[0]), ops[1..]);
    }
  }

  /** The chains run as packs around a run of other events. */
  lemma ChainsRun(cfg: Config, s: Arb, ons: seq<Item>, mid: seq<Event>, offs: seq<Item>)
    requires WfConfig(cfg) && Agrees(cfg, s) && Ready(cfg, s) && EventsOk(cfg, mid)
    requires ChainOf(cfg, ons, EventOn) && ChainOf(cfg, offs, EventOff) && DistinctObjects(ons) && Matching(ons, offs)
    requires NotLive(cfg, s, ons) && ForeignToAll(RunOps(cfg, mid), ons)
    ensures TaskOk(cfg, Pack(ons)) && TaskOk(cfg, Pack(offs)) && RunChain(cfg, s, ons).level == s.level
    ensures SameLists(cfg, RunChain(cfg, Run(cfg, RunChain(cfg, s, ons), mid), offs), Run(cfg, s, mid))
  {
    hide EventOk, Ops, Foreign, Hit, Apply, SameLists, WfConfig;
    PackIsBegins(cfg, ons);
    PackIsBegins(cfg, offs);
    BeginsLevel(cfg, s, PackOps(cfg, ons));
    RunIsOps(cfg, s, mid);
    RunIsOps(cfg, RunChain(cfg, s, ons), mid);
    ChainUndone(cfg, s, ons, RunOps(cfg, mid), offs);
  }

  /** After any run, a chain of ON requests, any further run about other requests and the matching chain of OFF
      requests leave the lists, candidates and end times of the further run alone; and if nothing was out of
      date and the level does not cross zero meanwhile, every status. */
  lemma ChainTakenBack(cfg: Config, before: seq<Event>, ons: seq<Item>, mid: seq<Event>, offs: seq<Item>, q: int)
    requires WfConfig(cfg) && EventsOk(cfg, before) && EventsOk(cfg, mid) && q in cfg.nodes
    requires ChainOf(cfg, ons, EventOn) && ChainOf(cfg, offs, EventOff) && DistinctObjects(ons) && Matching(ons, offs)
    requires NotLive(cfg, Reach(cfg, before), ons) && ForeignToAll(RunOps(cfg, mid), ons)
    ensures TaskOk(cfg, Pack(ons)) && TaskOk(cfg, Pack(offs))
    ensures var s := Reach(cfg, before);
      var undone, plain := RunChain(cfg, Run(cfg, RunChain(cfg, s, ons), mid), offs), Run(cfg, s, mid);
      && undone.info[q].lists == plain.info[q].lists
      && undone.info[q].cand == plain.info[q].cand && undone.info[q].candEnd == plain.info[q].candEnd
      && (Fresh(cfg, s) && NoCrossing(mid, s.level) ==> Plain(undone.info[q]) == Plain(plain.info[q]))
  {
    ReachAgrees(cfg, before);
    var s := Reach(cfg, before);
    hide Agrees, Fresh, Reach, EventOk, Ops, NoCrossing, Apply, ChainOf, DistinctObjects, NotLive, Matching, ForeignToAll, SameLists, TaskOk, WfConfig, Plain;
    ChainsRun(cfg, s, ons, mid, offs);
    var asked := RunChain(cfg, s, ons);
    ChainAgrees(cfg, s, ons);
    MidAgrees(cfg, s, mid);
    MidAgrees(cfg, asked, mid);
    hide RunChain, Run;
    ChainAgrees(cfg, Run(cfg, asked, mid), offs);
    SameListsSameNow(cfg, RunChain(cfg, Run(cfg, asked, mid), offs), Run(cfg, s, mid), q);
    ListsOfSame(cfg, RunChain(cfg, Run(cfg, asked, mid), offs), Run(cfg, s, mid), q);
  }

  lemma ListsOfSame(cfg: Config, s: Arb, t: Arb, q: int)
    requires SameLists(cfg, s, t) && q in cfg.nodes
    ensures Ready(cfg, s) && Ready(cfg, t) && s.info[q].lists == t.info[q].lists
  {
  }
}
