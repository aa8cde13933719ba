/** The from-scratch definition of what every cached arbitration result should be.
    It works on live lists and options only: no sentinel, no cache, no order of events. */
module Arbitration {
  import opened Common
  import opened LiveList

  predicate PerfFirst(kind: int) {
    kind == PERF || kind == PERFLVL
  }

  /** The winning value: the greatest for perf kinds, the least for limit kinds. */
  function TopValue(kind: int, l: Live): (v: int)
    requires l != []
    ensures exists x :: x in l && x.value == v
    ensures forall x :: x in l ==> if PerfFirst(kind) then x.value <= v else v <= x.value
  {
    if |l| == 1 then
      assert l == [l[0]];
      l[0].value
    else
      var m := |l| - 1;
      var v := TopValue(kind, l[..m]);
      assert l == l[..m] + [l[m]];
      if PerfFirst(kind) then Max(v, l[m].value) else Min(v, l[m].value)
  }

  /** The latest end time among the requests for `value`. */
  function TopEnd(l: Live, value: int): (e: int)
    ensures forall x :: x in l && x.value == value ==> x.endTime <= e
    ensures e == MIN_INT_VALUE || exists x :: x in l && x.value == value && x.endTime == e
  {
    if l == [] then MIN_INT_VALUE
    else
      var m := |l| - 1;
      var e := TopEnd(l[..m], value);
      assert l == l[..m] + [l[m]];
      if l[m].value == value then Max(e, l[m].endTime) else e
  }

  function Candidate(kind: int, l: Live): Option<int> {
    if l == [] then None else Some(TopValue(kind, l))
  }

  function CandidateEnd(kind: int, l: Live): int {
    if l == [] then MAX_INT_VALUE else TopEnd(l, TopValue(kind, l))
  }

  /** The two limit switches combine the perf, power and thermal candidates. A limit whose switch is
      on beats every boost; a limit whose switch is off only takes part as one more request. */
  function Base(perf: Option<int>, power: Option<int>, thermal: Option<int>, powerOn: bool, thermalOn: bool): Option<int> {
    if powerOn && thermalOn then OrElse(MinOpt(power, thermal), perf)
    else if powerOn then OrElse(power, MaxOpt(perf, thermal))
    else if thermalOn then OrElse(thermal, MaxOpt(perf, power))
    else if perf.Some? then MaxOpt(perf, MaxOpt(power, thermal))
    else MinOpt(power, thermal)
  }

  /** A perf-level request caps the base value at thermal level 0 and replaces it at any other level. */
  function Override(base: Option<int>, perfLvl: Option<int>, level: int): Option<int> {
    if perfLvl.None? then base
    else if level == 0 then MinOpt(base, perfLvl)
    else perfLvl
  }

  predicate FiveLists(lists: seq<Live>) {
    |lists| == ACTION_TYPE_MAX
  }

  /** Everything arbitration needs to know of a resource's requests: the four candidates and the
      earliest end time of the three ordinary ones. */
  datatype Candidates = Candidates(
    perf: Option<int>, power: Option<int>, thermal: Option<int>, perfLvl: Option<int>, end: int)
  {
    predicate Valid() {
      forall c :: c in [perf, power, thermal, perfLvl] && c.Some? ==> 0 <= c.value
    }
  }

  function CandidatesOf(lists: seq<Live>): Candidates
    requires FiveLists(lists)
  {
    Candidates(
      Candidate(PERF, lists[PERF]), Candidate(POWER, lists[POWER]), Candidate(THERMAL, lists[THERMAL]),
      Candidate(PERFLVL, lists[PERFLVL]),
      Min(Min(CandidateEnd(PERF, lists[PERF]), CandidateEnd(POWER, lists[POWER])), CandidateEnd(THERMAL, lists[THERMAL])))
  }

  /** The candidate of one resource. */
  function Wanted(c: Candidates, powerOn: bool, thermalOn: bool, level: int): (w: Option<int>)
    ensures w.None? <==> c.perf.None? && c.power.None? && c.thermal.None? && c.perfLvl.None?
    ensures c.Valid() && w.Some? ==> 0 <= w.value
  {
    assert c.Valid() ==> forall x :: x in [c.perf, c.power, c.thermal, c.perfLvl] && x.Some? ==> 0 <= x.value;
    Override(Base(c.perf, c.power, c.thermal, powerOn, thermalOn), c.perfLvl, level)
  }

  /** The value applied to one member of a min/max pair. When the pair is limited the max member
      rules and pulls the min member down; otherwise the min member rules and pulls the max member up. */
  function Coupled(isMax: bool, own: Option<int>, other: Option<int>, limited: bool): Option<int> {
    if own.None? || other.None? then own
    else if isMax then if limited then own else MaxOpt(own, other)
    else if limited then MinOpt(own, other) else own
  }
}
