/** Constants and value types shared by every part of the frequency arbiter. */
module Common {

  // Sentinels. The model keeps the source's integers wherever the source stores them.
  const MAX_INT_VALUE: int := 0x7FFF_FFFF_FFFF_FFFF
  const MIN_INT_VALUE: int := -0x8000_0000_0000_0000
  const INVALID_VALUE: int := -0x8000_0000
  const NODE_DEFAULT_VALUE: int := -1
  const RESET_VALUE: int := -1
  const RES_ID_ADDITION: int := 10000
  const MIN_RESOURCE_ID: int := 1000
  const MAX_RESOURCE_ID: int := 5999

  // Action types: the index of a request list. Battery requests are filed under POWER,
  // so the fifth list is never used.
  const PERF: int := 0
  const POWER: int := 1
  const THERMAL: int := 2
  const PERFLVL: int := 3
  const BATTERY: int := 4
  const ACTION_TYPE_MAX: int := 5

  datatype Option<+T> = None | Some(value: T)

  datatype EventType = EventInvalid | EventOff | EventOn

  /** One request object. `id` stands for the object's address: two shared pointers are equal
      exactly when they hold the same id. */
  datatype ResAction = ResAction(
    id: nat, value: int, duration: int, kind: int, onOff: EventType, cmdId: int, endTime: int, interaction: bool)
  {
    predicate TotalSame(other: ResAction) {
      PartSame(other) && onOff == other.onOff
    }

    predicate PartSame(other: ResAction) {
      value == other.value && duration == other.duration && kind == other.kind && cmdId == other.cmdId
    }

    /** What the arbiter is entitled to expect of a request: a non-negative int64 value, a
        non-negative duration, one of the four used lists, and interaction only on perf requests. */
    predicate Valid() {
      && 0 <= value <= MAX_INT_VALUE
      && 0 <= duration
      && PERF <= kind <= PERFLVL
      && 0 <= endTime <= MAX_INT_VALUE
      && (kind != PERF ==> !interaction)
    }
  }

  /** A resource paired with a request for it: one link of a request chain. */
  datatype Item = Item(resId: int, action: ResAction)

  function Max(a: int, b: int): int {
    if a >= b then a else b
  }

  function Min(a: int, b: int): int {
    if a <= b then a else b
  }

  function MaxOpt(a: Option<int>, b: Option<int>): Option<int> {
    if a.None? then b else if b.None? then a else Some(Max(a.value, b.value))
  }

  function MinOpt(a: Option<int>, b: Option<int>): Option<int> {
    if a.None? then b else if b.None? then a else Some(Min(a.value, b.value))
  }

  function OrElse(a: Option<int>, b: Option<int>): Option<int> {
    if a.Some? then a else b
  }

  lemma Inhabited(s: set<int>)
    ensures s == {} || exists x :: x in s
  {
    if forall x :: x !in s {
      assert s == {};
    }
  }

  /** Every key of `keys` is visited; unordered containers may be walked in any such order. */
  ghost predicate Visits(order: seq<int>, keys: set<int>) {
    && (forall r :: r in keys ==> r in order)
    && (forall r :: r in order ==> r in keys)
  }
}

/** The static description of the resources, after the configuration has been loaded. */
module Config {
  import opened Common

  datatype ResourceNode = ResourceNode(isGov: bool, isMaxValue: bool, pair: int, toPerfSo: bool, available: set<int>)

  /** `nodes` is resourceNodeInfo_; `hasReportFunc` says whether the perf library supplied a reporting function. */
  datatype Config = Config(nodes: map<int, ResourceNode>, hasReportFunc: bool)

  predicate IsGov(cfg: Config, r: int) {
    r in cfg.nodes && cfg.nodes[r].isGov
  }

  function PairOf(cfg: Config, r: int): Option<int>
    requires r in cfg.nodes
  {
    if cfg.nodes[r].isGov || cfg.nodes[r].pair == INVALID_VALUE then None else Some(cfg.nodes[r].pair)
  }

  /** Resource ids lie in the range the loader admits; pairs are symmetric with exactly one maximum member. */
  ghost predicate WfConfig(cfg: Config) {
    && (forall r :: r in cfg.nodes ==> MIN_RESOURCE_ID <= r <= MAX_RESOURCE_ID)
    && (forall r :: r in cfg.nodes ==> WfPair(cfg, r))
    && (forall r, v :: r in cfg.nodes && v in cfg.nodes[r].available ==> 0 <= v <= MAX_INT_VALUE)
  }

  ghost predicate WfPair(cfg: Config, r: int)
    requires r in cfg.nodes
  {
    PairOf(cfg, r).Some? ==>
      && PairOf(cfg, r).value in cfg.nodes
      && PairOf(cfg, PairOf(cfg, r).value) == Some(r)
      && cfg.nodes[PairOf(cfg, r).value].isMaxValue != cfg.nodes[r].isMaxValue
  }
}
