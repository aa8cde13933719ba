/** What the weak-interaction automaton submits of its own accord. */
module WeakPacks {
  import opened Common
  import opened Tasks
  import opened System
  import opened SystemRuns
  import opened CommandPairs

  /** A pack for interaction `i`: it asks, without a duration, for exactly what the command in force lists. */
  ghost predicate PackFor(env: Env, it: Inter, perfMode: bool, on: bool, task: Task) {
    && task.Pack? && CommandInForce(it.cmdId, perfMode) in env.commands
    && var command := env.commands[CommandInForce(it.cmdId, perfMode)];
    && (forall k :: 0 <= k < |task.items| ==> WeakItem(env, it, command, on, task.items[k]))
    && (forall r, v :: Lists(env.cfg, command.actionList, r, v) ==>
          exists k :: 0 <= k < |task.items| && task.items[k].resId == r && task.items[k].action.value == v)
  }

  ghost predicate WeakItem(env: Env, it: Inter, command: Actions, on: bool, item: Item) {
    && Lists(env.cfg, command.actionList, item.resId, item.action.value)
    && item.action.duration == 0 && item.action.endTime == 0x7FFF_FFFF_FFFF_FFFF && !item.action.interaction
    && item.action.kind == it.actionType && item.action.cmdId == command.id
    && item.action.onOff == if on then EventOn else EventOff
  }

  /** Nothing is posted, or one such pack. */
  ghost predicate PostsAtMost(env: Env, it: Inter, perfMode: bool, on: bool, q: Queue, p: Queue) {
    p == q || (exists task :: p == Submit(q, task) && PackFor(env, it, perfMode, on, task))
  }

  lemma DoWeakPosts(env: Env, s: Sys, i: nat, on: bool)
    requires i < |s.inter|
    ensures var t := DoWeak(env, s, i, on);
      && t.inter == s.inter && t.perfMode == s.perfMode && PostsAtMost(env, s.inter[i], s.perfMode, on, s.q, t.q)
      && (t.q == s.q ==> var key := CommandInForce(s.inter[i].cmdId, s.perfMode);
            key in env.commands ==> forall r, v :: !Lists(env.cfg, env.commands[key].actionList, r, v))
  {
    var key := CommandInForce(s.inter[i].cmdId, s.perfMode);
    if key in env.commands {
      var command := env.commands[key];
      var pairs := AllPairs(env.cfg, command.actionList);
      forall r, v ensures (r, v) in pairs <==> Lists(env.cfg, command.actionList, r, v) {
        PairsListed(env.cfg, command.actionList, r, v);
      }
      var items := WeakItems(pairs, command.id, on, s.inter[i].actionType, s.nextId);
      hide Lists, AllPairs;
      forall k | 0 <= k < |items| ensures WeakItem(env, s.inter[i], command, on, items[k]) {
        assert pairs[k] in pairs && pairs[k] == (items[k].resId, items[k].action.value);
      }
      forall r, v | Lists(env.cfg, command.actionList, r, v)
        ensures exists k :: 0 <= k < |items| && items[k].resId == r && items[k].action.value == v
      {
        var k :| 0 <= k < |pairs| && pairs[k] == (r, v);
        assert items[k].resId == r;
      }
      hide WeakItem, WeakItems;
      assert PackFor(env, s.inter[i], s.perfMode, on, Pack(items));
      assert |Submit(s.q, Pack(items)).ready| != |s.q.ready|;
      assert pairs == [] ==> forall r, v :: !Lists(env.cfg, command.actionList, r, v);
    }
  }

  /** Every task of `p` beyond those of `q` is an OFF pack of an interaction under the command in force. */
  ghost predicate OffPacks(env: Env, inter: seq<Inter>, perfMode: bool, q: Queue, p: Queue) {
    && |q.ready| <= |p.ready| && p.ready[..|q.ready|] == q.ready
    && forall k :: |q.ready| <= k < |p.ready| ==> IsOffPack(env, inter, perfMode, p.ready[k].task)
  }

  ghost predicate IsOffPack(env: Env, inter: seq<Inter>, perfMode: bool, task: Task) {
    exists i :: 0 <= i < |inter| && PackFor(env, inter[i], perfMode, false, task)
  }

  /** The parts of the interactions that a pack depends on. */
  predicate SameCommands(a: seq<Inter>, b: seq<Inter>) {
    |a| == |b| && forall i :: 0 <= i < |a| ==> a[i].cmdId == b[i].cmdId && a[i].actionType == b[i].actionType
  }

  lemma PackSame(env: Env, a: Inter, b: Inter, perfMode: bool, on: bool, task: Task)
    requires PackFor(env, a, perfMode, on, task) && a.cmdId == b.cmdId && a.actionType == b.actionType
    ensures PackFor(env, b, perfMode, on, task)
  {
    hide Lists;
  }

  lemma OffPacksTrans(env: Env, a: seq<Inter>, b: seq<Inter>, perfMode: bool, q: Queue, p: Queue, o: Queue)
    requires SameCommands(a, b) && OffPacks(env, a, perfMode, q, p) && OffPacks(env, b, perfMode, p, o)
    ensures OffPacks(env, a, perfMode, q, o)
  {
    hide PackFor;
    assert o.ready[..|q.ready|] == o.ready[..|p.ready|][..|q.ready|];
    forall k | |q.ready| <= k < |o.ready| ensures IsOffPack(env, a, perfMode, o.ready[k].task) {
      if k < |p.ready| {
        assert o.ready[k] == o.ready[..|p.ready|][k];
      } else {
        assert IsOffPack(env, b, perfMode, o.ready[k].task);
        var i :| 0 <= i < |b| && PackFor(env, b[i], perfMode, false, o.ready[k].task);
        PackSame(env, b[i], a[i], perfMode, false, o.ready[k].task);
      }
    }
    assert o.ready[..|q.ready|] == q.ready;
  }

  lemma WeakOnePosts(env: Env, s: Sys, i: nat)
    requires i < |s.inter|
    ensures var t := WeakOne(env, s, i);
      SameCommands(s.inter, t.inter) && t.perfMode == s.perfMode && OffPacks(env, s.inter, s.perfMode, s.q, t.q)
  {
    hide PackFor, DoWeak;
    if s.inter[i].status.WeakStatus? && !Quiet(s) {
      var s1 := SetInter(s, i, BoostStatus, s.inter[i].timer);
      DoWeakPosts(env, s1, i, false);
      var t := DoWeak(env, s1, i, false);
      if t.q != s.q {
        var task :| t.q == Submit(s.q, task) && PackFor(env, s1.inter[i], s.perfMode, false, task);
        PackSame(env, s1.inter[i], s.inter[i], s.perfMode, false, task);
        assert IsOffPack(env, s.inter, s.perfMode, task);
      }
    }
  }

  lemma {:induction false} WeakFromPosts(env: Env, s: Sys, i: nat)
    requires i <= |s.inter|
    ensures var t := WeakFrom(env, s, i);
      SameCommands(s.inter, t.inter) && t.perfMode == s.perfMode && OffPacks(env, s.inter, s.perfMode, s.q, t.q)
    decreases |s.inter| - i
  {
    hide WeakOne, PackFor;
    if i < |s.inter| {
      var t := WeakOne(env, s, i);
      WeakOnePosts(env, s, i);
      WeakFromPosts(env, t, i + 1);
      OffPacksTrans(env, s.inter, t.inter, s.perfMode, s.q, t.q, WeakFrom(env, t, i + 1).q);
    }
  }

  lemma RunTaskPosts(env: Env, s: Sys, task: Task, order: seq<int>)
    requires WfSys(env, s) && QueuedOk(env.cfg, task, |s.inter|) && Visits(order, env.cfg.nodes.Keys) && !task.WeakTimer?
    ensures var t := RunTask(env, s, task, order); OffPacks(env, s.inter, t.perfMode, s.q, t.q)
  {
    hide WfSys, TaskOk, WeakFrom, OffPacks, Step, Send, SameCommands;
    SysParts(env, s);
    match task
    case SetWeak(on) => WeakFromPosts(env, s.(weakOn := on), 0);
    case SetPerfMode(on) => NothingPosted(env, s.inter, on, s.q);
    case WeakTimer(_) => assert false;
    case _ =>
      var acted := s.(arb := Step(env.cfg, s.arb, Do(task, order)));
      SendKeeps(env, acted);
      WeakFromPosts(env, Send(env, acted), 0);
  }

  lemma NothingPosted(env: Env, inter: seq<Inter>, perfMode: bool, q: Queue)
    ensures OffPacks(env, inter, perfMode, q, q)
  {
  }

  lemma SendKeeps(env: Env, s: Sys)
    ensures var t := Send(env, s); t.inter == s.inter && t.perfMode == s.perfMode && t.q == s.q
  {
    hide Delta, CurrentReport;
  }

  /** Whatever the service submits of its own accord asks for what the command in force lists, and for nothing else:
      as the timer of an interaction fires, its ON pack if the command lists anything, and no other task; as any
      other task runs, OFF packs only. So in the performance mode an interaction of command 9101 posts the requests
      of command 39101 and none of its own. */
  lemma PostsCommandInForce(env: Env, inter: seq<Inter>, es: seq<SysEvent>, e: SysEvent)
    requires Feasible(env, inter, es) && Enabled(env, ReachSys(env, inter, es), e) && (e.RunNext? || e.Fire?)
    ensures var s := ReachSys(env, inter, es);
      var t, q := SysStep(env, s, e), WithoutTask(s, e);
      match TaskOf(s, e)
      case WeakTimer(i) =>
        && i < |s.inter| && PostsAtMost(env, s.inter[i], s.perfMode, true, q, t.q)
        && (t.q == q ==> var key := CommandInForce(s.inter[i].cmdId, s.perfMode);
              key in env.commands ==> forall r, v :: !Lists(env.cfg, env.commands[key].actionList, r, v))
      case _ => OffPacks(env, s.inter, t.perfMode, q, t.q)
  {
    hide *;
    var s := ReachSys(env, inter, es);
    ReachedOk(env, inter, es);
    EventRuns(env, s, e);
    var s1 := s.(q := WithoutTask(s, e));
    match TaskOf(s, e)
    case WeakTimer(i) =>
      IndexOk(env, s, i);
      FiredPosts(env, s1, i, e.order);
    case _ =>
      RunTaskPosts(env, s1, TaskOf(s, e), e.order);
  }

  lemma ReachedOk(env: Env, inter: seq<Inter>, es: seq<SysEvent>)
    requires Feasible(env, inter, es)
    ensures WfSys(env, ReachSys(env, inter, es))
  {
  }

  lemma IndexOk(env: Env, s: Sys, i: nat)
    requires QueuedOk(env.cfg, WeakTimer(i), |s.inter|)
    ensures i < |s.inter|
  {
  }

  lemma FiredPosts(env: Env, s: Sys, i: nat, order: seq<int>)
    requires WfSys(env, s) && i < |s.inter| && Visits(order, env.cfg.nodes.Keys) && QueuedOk(env.cfg, WeakTimer(i), |s.inter|)
    ensures var t := RunTask(env, s, WeakTimer(i), order);
      && PostsAtMost(env, s.inter[i], s.perfMode, true, s.q, t.q)
      && (t.q == s.q ==> var key := CommandInForce(s.inter[i].cmdId, s.perfMode);
            key in env.commands ==> forall r, v :: !Lists(env.cfg, env.commands[key].actionList, r, v))
  {
    SysParts(env, s);
    hide WfSys, DoWeak, PackFor, Lists;
    var s1 := SetInter(s, i, WeakStatus, s.inter[i].timer);
    DoWeakPosts(env, s1, i, true);
    var t := DoWeak(env, s1, i, true);
    if t.q != s.q {
      var task :| t.q == Submit(s.q, task) && PackFor(env, s1.inter[i], s.perfMode, true, task);
      PackSame(env, s1.inter[i], s.inter[i], s.perfMode, true, task);
    }
  }
}
