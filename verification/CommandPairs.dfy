/** What a command's actions list: the pairs of a resource id and a value that requests are made of. */
module CommandPairs {
  import opened Config
  import opened System

  /** The command an interaction goes by: 39101 stands in for 9101 while the performance mode is on. */
  function CommandInForce(cmdId: int, perf: bool): int {
    if cmdId == 9101 && perf then 39101 else cmdId
  }

  /** A pair of ids and values that one of the actions lists, with a known resource. */
  ghost predicate Lists(cfg: Config, actions: seq<Action>, r: int, v: int) {
    && r in cfg.nodes
    && exists a, i :: 0 <= a < |actions| && ListsAt(actions[a].variable, i, r, v)
  }

  /** Ids and values alternate; a last id without a value does not count. */
  predicate ListsAt(variable: seq<int>, i: int, r: int, v: int) {
    0 <= i && 2 * i + 1 < |variable| && variable[2 * i] == r && variable[2 * i + 1] == v
  }

  lemma {:induction false} PairsListed(cfg: Config, actions: seq<Action>, r: int, v: int)
    ensures (r, v) in AllPairs(cfg, actions) <==> Lists(cfg, actions, r, v)
  {
    if actions != [] {
      var own, rest := ValidPairs(cfg, actions[0].variable), AllPairs(cfg, actions[1..]);
      assert (r, v) in own + rest <==> (r, v) in own || (r, v) in rest;
      PairListed(cfg, actions[0].variable, r, v);
      PairsListed(cfg, actions[1..], r, v);
      hide ValidPairs, AllPairs, ListsAt;
      assert forall a :: 0 <= a < |actions[1..]| ==> actions[1..][a] == actions[a + 1];
      if a, i :| 0 <= a < |actions[1..]| && ListsAt(actions[1..][a].variable, i, r, v) {
        assert ListsAt(actions[a + 1].variable, i, r, v);
      }
      if a, i :| 0 <= a < |actions| && ListsAt(actions[a].variable, i, r, v) {
        assert a > 0 ==> ListsAt(actions[1..][a - 1].variable, i, r, v);
      }
    }
  }

  lemma {:induction false} PairListed(cfg: Config, variable: seq<int>, r: int, v: int)
    ensures (r, v) in ValidPairs(cfg, variable) <==> r in cfg.nodes && exists i :: ListsAt(variable, i, r, v)
    decreases |variable|
  {
    if |variable| >= 2 {
      var rest := variable[2..];
      PairListed(cfg, rest, r, v);
      var head: seq<(int, int)> := if variable[0] in cfg.nodes then [(variable[0], variable[1])] else [];
      assert (r, v) in head + ValidPairs(cfg, rest) <==> (r, v) in head || (r, v) in ValidPairs(cfg, rest);
      if i :| ListsAt(rest, i, r, v) {
        assert ListsAt(variable, i + 1, r, v);
      }
      if i :| ListsAt(variable, i, r, v) {
        assert i > 0 ==> ListsAt(rest, i - 1, r, v);
      }
      if variable[0] == r && variable[1] == v {
        assert ListsAt(variable, 0, r, v);
      }
    }
  }
}
