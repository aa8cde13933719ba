/** The delta reports of the two sinks replay to the full state. */
module Reports {
  import opened Common
  import opened Config
  import opened ArbiterState
  import opened Tasks
  import opened System
  import opened SystemRuns

  /** What a sink knows after a sequence of reports. */
  function Replay<V>(log: seq<map<int, V>>): map<int, V> {
    if log == [] then map[] else Replay(log[..|log| - 1]) + log[|log| - 1]
  }

  /** The part of the state one sink is told. */
  function Share(cfg: Config, sent: Report, toPerfSo: bool): Report {
    map r | r in sent && r in cfg.nodes && cfg.nodes[r].toPerfSo == toPerfSo :: sent[r]
  }

  /** Both sinks know exactly the present value of each of their resources, and the perf library also its
      end time. */
  ghost predicate SinksCurrent(env: Env, s: Sys) {
    && s.sent == CurrentReport(s.arb) && (!env.cfg.hasReportFunc ==> s.perfSo == [])
    && (env.cfg.hasReportFunc ==> Replay(s.perfSo) == Share(env.cfg, CurrentReport(s.arb), true))
    && Replay(s.rssExe) == Values(Share(env.cfg, CurrentReport(s.arb), false))
  }

  lemma DeltaCompletes(cfg: Config, s: Arb, sent: Report, toPerfSo: bool)
    requires Ready(cfg, s) && sent.Keys == cfg.nodes.Keys
    ensures Share(cfg, sent, toPerfSo) + Delta(cfg, s, sent, toPerfSo) == Share(cfg, CurrentReport(s), toPerfSo)
  {
  }

  lemma ReplaySnoc<V>(log: seq<map<int, V>>, r: map<int, V>)
    ensures Replay(log + [r]) == Replay(log) + r
  {
    assert (log + [r])[..|log|] == log;
  }

  lemma ValuesPlus(a: Report, b: Report)
    ensures Values(a) + Values(b) == Values(a + b)
  {
  }

  lemma SendKeeps(env: Env, s: Sys)
    requires Ready(env.cfg, s.arb) && s.sent.Keys == env.cfg.nodes.Keys
    requires env.cfg.hasReportFunc ==> Replay(s.perfSo) == Share(env.cfg, s.sent, true)
    requires !env.cfg.hasReportFunc ==> s.perfSo == []
    requires Replay(s.rssExe) == Values(Share(env.cfg, s.sent, false))
    ensures SinksCurrent(env, Send(env, s))
  {
    hide Delta, Replay, Share, Values, CurrentReport;
    var cfg := env.cfg;
    var p, e := Delta(cfg, s.arb, s.sent, true), Delta(cfg, s.arb, s.sent, false);
    DeltaCompletes(cfg, s.arb, s.sent, true);
    DeltaCompletes(cfg, s.arb, s.sent, false);
    ReplaySnoc(s.perfSo, p);
    ReplaySnoc(s.rssExe, Values(e));
    ValuesPlus(Share(cfg, s.sent, false), e);
    assert e == map[] ==> Share(cfg, s.sent, false) + e == Share(cfg, s.sent, false);
    assert p == map[] ==> Share(cfg, s.sent, true) + p == Share(cfg, s.sent, true);
  }

  lemma SinksSame(env: Env, s: Sys, t: Sys)
    requires SinksCurrent(env, s) && t.arb.info == s.arb.info && t.sent == s.sent && t.perfSo == s.perfSo && t.rssExe == s.rssExe
    ensures SinksCurrent(env, t)
  {
  }

  lemma RunTaskKeeps(env: Env, s: Sys, task: Task, order: seq<int>)
    requires WfSys(env, s) && QueuedOk(env.cfg, task, |s.inter|) && Visits(order, env.cfg.nodes.Keys)
    requires SinksCurrent(env, s)
    ensures SinksCurrent(env, RunTask(env, s, task, order))
  {
    hide QueueOk, CommandsOk, WfConfig, RunTask, Replay, Share, CurrentReport, Delta, Step;
    RunTaskOk(env, s, task, order);
    var t := RunTask(env, s, task, order);
    if Sends(task) {
      SendKeeps(env, s.(arb := t.arb));
      SinksSame(env, Send(env, s.(arb := t.arb)), t);
    }
  }

  lemma SysStepKeeps(env: Env, s: Sys, e: SysEvent)
    requires WfSys(env, s) && Enabled(env, s, e) && SinksCurrent(env, s)
    ensures SinksCurrent(env, SysStep(env, s, e))
  {
    hide SinksCurrent, RunTask, PostExpiries;
    match e
    case RunNext(order) =>
      var s1 := s.(q := s.q.(ready := s.q.ready[1..]));
      SinksSame(env, s, s1);
      RunTaskKeeps(env, s1, s.q.ready[0].task, order);
    case Fire(h, order) =>
      var s1 := s.(q := Cancel(s.q, h));
      SinksSame(env, s, s1);
      RunTaskKeeps(env, s1, s.q.timers[h].task, order);
    case _ => SinksSame(env, s, SysStep(env, s, e));
  }

  lemma FirstReport(env: Env, inter: seq<Inter>, toPerfSo: bool)
    ensures var s := InitSys(env, inter);
      s.sent == CurrentReport(s.arb) && Share(env.cfg, s.sent, toPerfSo) == Defaults(env.cfg, toPerfSo)
  {
  }

  lemma StartReported(env: Env, inter: seq<Inter>)
    requires Start(env, inter)
    ensures SinksCurrent(env, InitSys(env, inter))
  {
    FirstReport(env, inter, true);
    FirstReport(env, inter, false);
    hide Start, Share, Defaults, CurrentReport, InitArb;
    var p, e := Defaults(env.cfg, true), Defaults(env.cfg, false);
    ReplaySnoc([], p);
    ReplaySnoc([], Values(e));
    assert [] + [p] == [p] && [] + [Values(e)] == [Values(e)];
    assert map[] + p == p && map[] + Values(e) == Values(e);
  }

  lemma {:induction false} SysRunKeeps(env: Env, s: Sys, es: seq<SysEvent>)
    requires WfSys(env, s) && Possible(env, s, es) && SinksCurrent(env, s)
    ensures SinksCurrent(env, SysRun(env, s, es))
    decreases |es|
  {
    hide SysStep, Enabled, SinksCurrent;
    if es != [] {
      SysStepOk(env, s, es[0]);
      SysStepKeeps(env, s, es[0]);
      SysRunKeeps(env, SysStep(env, s, es[0]), es[1..]);
    }
  }

  /** Replay: at every point of every run, the initial report and all later partial reports of each sink
      add up to the present value of every resource it is told about. */
  lemma ReportsReplay(env: Env, inter: seq<Inter>, es: seq<SysEvent>)
    requires Feasible(env, inter, es)
    ensures SinksCurrent(env, ReachSys(env, inter, es))
  {
    hide WfSys, SinksCurrent, Possible;
    StartOk(env, inter);
    StartReported(env, inter);
    SysRunKeeps(env, InitSys(env, inter), es);
  }

  /** For one resource: the receiver it belongs to knows what is applied, and no other receiver knows of it. The perf
      library, if there is one, also knows until when. */
  lemma ReportsTell(env: Env, inter: seq<Inter>, es: seq<SysEvent>, r: int)
    requires Feasible(env, inter, es) && r in env.cfg.nodes
    ensures var s := ReachSys(env, inter, es);
      var st, perf, rss := s.arb.info[r], Replay(s.perfSo), Replay(s.rssExe);
      && (r in perf <==> env.cfg.nodes[r].toPerfSo && env.cfg.hasReportFunc) && (r in rss <==> !env.cfg.nodes[r].toPerfSo)
      && (r in perf ==> perf[r] == (st.currentValue, st.currentEndTime)) && (r in rss ==> rss[r] == st.currentValue)
  {
    hide Feasible, ReachSys, Replay;
    ReportsReplay(env, inter, es);
    ReachIsReady(env, inter, es);
    NothingReported(ReachSys(env, inter, es).perfSo);
  }

  lemma ReachIsReady(env: Env, inter: seq<Inter>, es: seq<SysEvent>)
    requires Feasible(env, inter, es)
    ensures Ready(env.cfg, ReachSys(env, inter, es).arb)
  {
  }

  lemma NothingReported<V>(log: seq<map<int, V>>)
    ensures log == [] ==> Replay(log) == map[]
  {
  }

  /** `log` grew by one report about exactly the resources in `changed`, or not at all if there are none. */
  ghost predicate Grew<V>(log: seq<map<int, V>>, longer: seq<map<int, V>>, changed: set<int>) {
    if changed == {} then longer == log
    else |longer| == |log| + 1 && longer[..|log|] == log && longer[|log|].Keys == changed
  }

  function Changed(cfg: Config, before: Report, after: Report, toPerfSo: bool): set<int> {
    set r | r in before && r in after && r in cfg.nodes && cfg.nodes[r].toPerfSo == toPerfSo && before[r] != after[r]
  }

  lemma DeltaIsChange(cfg: Config, s: Arb, sent: Report, toPerfSo: bool)
    ensures Delta(cfg, s, sent, toPerfSo).Keys == Changed(cfg, sent, CurrentReport(s), toPerfSo)
    ensures Values(Delta(cfg, s, sent, toPerfSo)).Keys == Changed(cfg, sent, CurrentReport(s), toPerfSo)
    ensures Delta(cfg, s, sent, toPerfSo) == map[] <==> Changed(cfg, sent, CurrentReport(s), toPerfSo) == {}
  {
    assert Delta(cfg, s, sent, toPerfSo).Keys == Changed(cfg, sent, CurrentReport(s), toPerfSo);
  }

  /** A partial report names exactly the resources of its sink whose value or end time a task changed,
      and there is none when it changed none. */
  lemma ReportNamesChanges(env: Env, s: Sys, task: Task, order: seq<int>)
    requires WfSys(env, s) && QueuedOk(env.cfg, task, |s.inter|) && Visits(order, env.cfg.nodes.Keys)
    requires SinksCurrent(env, s)
    ensures var t := RunTask(env, s, task, order);
      && (env.cfg.hasReportFunc ==> Grew(s.perfSo, t.perfSo, Changed(env.cfg, CurrentReport(s.arb), CurrentReport(t.arb), true)))
      && Grew(s.rssExe, t.rssExe, Changed(env.cfg, CurrentReport(s.arb), CurrentReport(t.arb), false))
  {
    hide QueueOk, CommandsOk, WfConfig, RunTask, Replay, Share, CurrentReport, Delta, Step, Values;
    RunTaskOk(env, s, task, order);
    var t := RunTask(env, s, task, order);
    DeltaIsChange(env.cfg, t.arb, s.sent, true);
    DeltaIsChange(env.cfg, t.arb, s.sent, false);
    if !Sends(task) {
      assert Changed(env.cfg, CurrentReport(s.arb), CurrentReport(t.arb), true) == {};
      assert Changed(env.cfg, CurrentReport(s.arb), CurrentReport(t.arb), false) == {};
    }
  }
}
