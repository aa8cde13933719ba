/** The objects the arbiter updates in place: a status per resource, a record per weak interaction, the
    report sinks and the serial queue. */
module ArbiterObjects {
  import opened Common
  import opened LiveList
  import opened ArbiterState
  import opened Tasks
  import opened System

  class ResStatus {
    var resActionList: seq<Live>
    var candidatesValue: seq<int>
    var candidatesEndTime: seq<int>
    var candidate: int
    var currentValue: int
    var previousValue: int
    var currentEndTime: int
    var previousEndTime: int
    ghost var candLevel: int
    ghost var pairLevel: int

    constructor ()
      ensures Snapshot() == InitStatus
      ensures previousValue == NODE_DEFAULT_VALUE && previousEndTime == MAX_INT_VALUE
    {
      resActionList := [[], [], [], [], []];
      candidatesValue := [INVALID_VALUE, INVALID_VALUE, INVALID_VALUE, INVALID_VALUE, 0];
      candidatesEndTime := [MAX_INT_VALUE, MAX_INT_VALUE, MAX_INT_VALUE, MAX_INT_VALUE, 0];
      candidate := NODE_DEFAULT_VALUE;
      currentValue := NODE_DEFAULT_VALUE;
      previousValue := NODE_DEFAULT_VALUE;
      currentEndTime := MAX_INT_VALUE;
      previousEndTime := MAX_INT_VALUE;
      candLevel, pairLevel := 0, 0;
    }

    ghost function Snapshot(): Status
      reads this
    {
      Status(resActionList, candidatesValue, candidatesEndTime, candidate, currentValue, currentEndTime, candLevel, pairLevel)
    }
  }

  class InterAction {
    const cmdId: int
    const actionType: int
    const delayTime: int
    var status: InterStatus
    var timerTask: Option<nat>

    constructor (cmdId: int, actionType: int, delayTime: int)
      ensures Snapshot() == Inter(cmdId, actionType, delayTime, BoostStatus, None)
    {
      this.cmdId, this.actionType, this.delayTime := cmdId, actionType, delayTime;
      status, timerTask := BoostStatus, None;
    }

    ghost function Snapshot(): Inter
      reads this
    {
      Inter(cmdId, actionType, delayTime, status, timerTask)
    }
  }

  ghost function Snapshots(inter: seq<InterAction>): (r: seq<Inter>)
    reads inter
    ensures |r| == |inter| && forall i :: 0 <= i < |inter| ==> r[i] == inter[i].Snapshot()
  {
    if inter == [] then [] else Snapshots(inter[..|inter| - 1]) + [inter[|inter| - 1].Snapshot()]
  }

  /** The two receivers of reports: what each has been sent. */
  class Sinks {
    ghost var perfSo: seq<Report>
    ghost var rssExe: seq<map<int, int>>

    constructor ()
      ensures perfSo == [] && rssExe == []
    {
      perfSo, rssExe := [], [];
    }

    /** Hand a report to the perf library, if it is there and there is anything to say. */
    method ReportToPerfSo(hasReportFunc: bool, b: Batch)
      requires b.Parallel()
      modifies this`perfSo
      ensures perfSo == if hasReportFunc && b.Report() != map[] then old(perfSo) + [b.Report()] else old(perfSo)
    {
      if !hasReportFunc {
        return;
      }
      if |b.qosId| > 0 {
        perfSo := perfSo + [b.Report()];
      }
    }

    /** Hand a report to the executor. Its payload has no end times. */
    method ReportToRssExe(b: Batch)
      requires b.Parallel()
      modifies this`rssExe
      ensures rssExe == if b.Report() != map[] then old(rssExe) + [Values(b.Report())] else old(rssExe)
    {
      if |b.qosId| > 0 {
        rssExe := rssExe + [Values(b.Report())];
      }
    }
  }

  /** The serial queue, and the source of new request objects. */
  class TaskQueue {
    var q: Queue
    var nextId: nat
    ghost var weakLog: seq<(nat, bool)>

    constructor ()
      ensures q == Queue(0, [], map[], 0) && nextId == 0 && weakLog == []
    {
      q, nextId, weakLog := Queue(0, [], map[], 0), 0, [];
    }

    method SubmitTask(task: Task)
      modifies this`q
      ensures q == Submit(old(q), task)
    {
      q := q.(ready := q.ready + [Queued(q.now, task)]);
    }

    method SubmitHandle(task: Task, delay: int) returns (handle: nat)
      modifies this`q
      ensures q == SubmitDelayed(old(q), task, delay) && handle == old(q).nextHandle
    {
      handle := q.nextHandle;
      q := q.(timers := q.timers[handle := Timer(q.now + delay, task)], nextHandle := handle + 1);
    }

    /** Take the oldest task that waits without delay. */
    method TakeNext() returns (task: Task)
      requires q.ready != []
      modifies this`q
      ensures task == old(q).ready[0].task && q == old(q).(ready := old(q).ready[1..])
    {
      task := q.ready[0].task;
      q := q.(ready := q.ready[1..]);
    }

    /** Take a delayed task that has come due. */
    method TakeTimer(handle: nat) returns (task: Task)
      requires handle in q.timers
      modifies this`q
      ensures task == old(q).timers[handle].task && q == Cancel(old(q), handle)
    {
      task := q.timers[handle].task;
      q := q.(timers := q.timers - {handle});
    }

    method CancelHandle(handle: nat)
      modifies this`q
      ensures q == Cancel(old(q), handle)
    {
      q := q.(timers := q.timers - {handle});
    }
  }

  /** A report as the three parallel vectors the source builds. */
  datatype Batch = Batch(qosId: seq<int>, value: seq<int>, endTime: seq<int>) {
    predicate Parallel() {
      |qosId| == |value| == |endTime|
    }

    function Report(): (r: Report)
      requires Parallel()
      ensures r == map[] <==> qosId == []
      decreases |qosId|
    {
      if qosId == [] then map[]
      else
        var m := |qosId| - 1;
        var all := Batch(qosId[..m], value[..m], endTime[..m]).Report()[qosId[m] := (value[m], endTime[m])];
        assert qosId[m] in all;
        all
    }
  }

  /** Add one entry to the three vectors of a report. */
  method Push(b: Batch, id: int, value: int, end: int) returns (b': Batch)
    requires b.Parallel()
    ensures b'.Parallel() && b'.Report() == b.Report()[id := (value, end)]
  {
    b' := Batch(b.qosId + [id], b.value + [value], b.endTime + [end]);
    assert b'.qosId[..|b.qosId|] == b.qosId && b'.value[..|b.qosId|] == b.value && b'.endTime[..|b.qosId|] == b.endTime;
  }
}
