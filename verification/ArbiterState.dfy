/** The cached state of the arbiter and the incremental steps that maintain it, as functions.
    The class in Arbiter.dfy computes exactly these; the lemmas in Agreement.dfy relate them
    to the from-scratch definition. */
module ArbiterState {
  import opened Common
  import opened Config
  import opened LiveList
  import opened Arbitration

  /** A snapshot of one ResStatus. `candLevel` and `pairLevel` are the thermal levels that were in
      force when `candidate` and `currentValue` were last computed; the source does not store them. */
  datatype Status = Status(
    lists: seq<Live>, cand: seq<int>, candEnd: seq<int>,
    candidate: int, currentValue: int, currentEndTime: int, candLevel: int, pairLevel: int)

  /** `dropped` counts the interactive requests that Clear has thrown away. */
  datatype Arb = Arb(info: map<int, Status>, power: bool, thermal: bool, level: int, boost: int, dropped: int)

  predicate Shaped(st: Status) {
    |st.lists| == |st.cand| == |st.candEnd| == ACTION_TYPE_MAX
  }

  /** Every configured resource has its status, and nothing else does. */
  predicate Ready(cfg: Config, s: Arb) {
    s.info.Keys == cfg.nodes.Keys && forall r :: r in s.info ==> Shaped(s.info[r])
  }

  const InitStatus: Status := Status(
    [[], [], [], [], []],
    [INVALID_VALUE, INVALID_VALUE, INVALID_VALUE, INVALID_VALUE, 0],
    [MAX_INT_VALUE, MAX_INT_VALUE, MAX_INT_VALUE, MAX_INT_VALUE, 0],
    NODE_DEFAULT_VALUE, NODE_DEFAULT_VALUE, MAX_INT_VALUE, 0, 0)

  function InitArb(cfg: Config): (s: Arb)
    ensures Ready(cfg, s)
  {
    Arb(map r | r in cfg.nodes :: InitStatus, false, false, 0, 0, 0)
  }

  // Sentinel codings: INVALID_VALUE is "no request of this type", -1 is "nothing requested".

  function View(v: int): Option<int> {
    if v == INVALID_VALUE then None else Some(v)
  }

  function Code(o: Option<int>): int {
    if o.None? then INVALID_VALUE else o.value
  }

  function ViewDefault(v: int): Option<int> {
    if v == NODE_DEFAULT_VALUE then None else Some(v)
  }

  function CodeDefault(o: Option<int>): int {
    if o.None? then NODE_DEFAULT_VALUE else o.value
  }

  /** The cached candidate of one type, recomputed from its list. */
  function Recount(st: Status, kind: int): (r: Status)
    requires Shaped(st) && PERF <= kind <= PERFLVL
    ensures Shaped(r)
  {
    st.(cand := st.cand[kind := Code(Candidate(kind, st.lists[kind]))],
        candEnd := st.candEnd[kind := CandidateEnd(kind, st.lists[kind])])
  }

  /** The candidates as the caches record them. With nothing requested the end time is the default. */
  function Cached(st: Status): Candidates
    requires Shaped(st)
  {
    var perf, power, thermal, perfLvl := View(st.cand[PERF]), View(st.cand[POWER]), View(st.cand[THERMAL]), View(st.cand[PERFLVL]);
    Candidates(perf, power, thermal, perfLvl,
      if perf.None? && power.None? && thermal.None? && perfLvl.None? then MAX_INT_VALUE
      else Min(Min(st.candEnd[PERF], st.candEnd[POWER]), st.candEnd[THERMAL]))
  }

  /** The resource's own candidate, recomputed from its cached type candidates. */
  function Decide(st: Status, powerOn: bool, thermalOn: bool, level: int): (r: Status)
    requires Shaped(st)
    ensures Shaped(r)
  {
    st.(candidate := CodeDefault(Wanted(Cached(st), powerOn, thermalOn, level)),
        currentEndTime := Cached(st).end,
        candLevel := level)
  }

  /** Whether the max member rules the pair of `r` and `p`. */
  predicate Limited(s: Arb, r: int, p: int, level: int)
    requires r in s.info && p in s.info && Shaped(s.info[r]) && Shaped(s.info[p])
  {
    || s.power || s.thermal
    || (level != 0 && (Cached(s.info[r]).perfLvl.Some? || Cached(s.info[p]).perfLvl.Some?))
  }

  /** Both members of a pair take new applied values whenever either is arbitrated. */
  function Couple(cfg: Config, s: Arb, r: int): (t: Arb)
    requires Ready(cfg, s) && r in cfg.nodes
    ensures Ready(cfg, t)
  {
    var p := PairOf(cfg, r);
    if p.None? then
      s.(info := s.info[r := s.info[r].(currentValue := s.info[r].candidate, pairLevel := s.level)])
    else if p.value !in s.info then s
    else
      var own, other := ViewDefault(s.info[r].candidate), ViewDefault(s.info[p.value].candidate);
      var limited := Limited(s, r, p.value, s.level);
      s.(info := s.info
        [r := s.info[r].(currentValue := CodeDefault(Coupled(cfg.nodes[r].isMaxValue, own, other, limited)), pairLevel := s.level)]
        [p.value := s.info[p.value].(currentValue := CodeDefault(Coupled(!cfg.nodes[r].isMaxValue, other, own, limited)), pairLevel := s.level)])
  }

  /** ArbitrateCandidate. */
  function Arbitrate(cfg: Config, s: Arb, r: int): (t: Arb)
    requires Ready(cfg, s) && r in cfg.nodes
    ensures Ready(cfg, t)
  {
    Couple(cfg, s.(info := s.info[r := Decide(s.info[r], s.power, s.thermal, s.level)]), r)
  }

  /** UpdateCandidatesValue: re-arbitrate only when the type's candidate or its end time moved. */
  function Refresh(cfg: Config, s: Arb, r: int, kind: int): (t: Arb)
    requires Ready(cfg, s) && r in cfg.nodes && PERF <= kind <= PERFLVL
    ensures Ready(cfg, t)
  {
    var st := Recount(s.info[r], kind);
    var s1 := s.(info := s.info[r := st]);
    if st.cand[kind] != s.info[r].cand[kind] || st.candEnd[kind] != s.info[r].candEnd[kind]
    then Arbitrate(cfg, s1, r) else s1
  }

  function SetList(cfg: Config, s: Arb, r: int, kind: int, l: Live): (t: Arb)
    requires Ready(cfg, s) && r in cfg.nodes && PERF <= kind <= PERFLVL
    ensures Ready(cfg, t)
  {
    Refresh(cfg, s.(info := s.info[r := s.info[r].(lists := s.info[r].lists[kind := l])]), r, kind)
  }

  function One(b: bool): int {
    if b then 1 else 0
  }

  /** UpdateResActionList for an instant request. An OFF that matches nothing changes nothing. */
  function DoInstant(cfg: Config, s: Arb, r: int, a: ResAction): (t: Arb)
    requires Ready(cfg, s) && r in cfg.nodes && a.Valid()
    ensures Ready(cfg, t)
  {
    var l := s.info[r].lists[a.kind];
    if a.onOff == EventOff then
      if Hit(l, OnOf(a))
      then SetList(cfg, s, r, a.kind, Instant(l, a)).(boost := s.boost - One(a.interaction))
      else s
    else
      SetList(cfg, s, r, a.kind, Instant(l, a)).(
        boost := s.boost - One(a.interaction && Hit(l, Same(a))) + One(a.interaction))
  }

  /** UpdateResActionList for an expiry. The timer of a request that is no longer live changes nothing. */
  function DoExpire(cfg: Config, s: Arb, r: int, a: ResAction): (t: Arb)
    requires Ready(cfg, s) && r in cfg.nodes && a.Valid()
    ensures Ready(cfg, t)
  {
    var l := s.info[r].lists[a.kind];
    if Hit(l, Exactly(a))
    then SetList(cfg, s, r, a.kind, Expire(l, a)).(boost := s.boost - One(a.interaction))
    else s
  }

  /** The interactive entries of a list. */
  function Interactive(l: Live): nat {
    if l == [] then 0 else One(l[0].interaction) + Interactive(l[1..])
  }

  function ClearOne(cfg: Config, s: Arb, r: int): (t: Arb)
    requires Ready(cfg, s) && r in cfg.nodes
    ensures Ready(cfg, t)
  {
    SetList(cfg, s, r, PERF, []).(dropped := s.dropped + Interactive(s.info[r].lists[PERF]))
  }
}
