/** The linked chain of request items, built link by link and walked to its end. */
module RequestChain {
  import opened Common
  import opened Config
  import opened System

  class ResActionItem {
    const resId: int
    const resAction: ResAction
    var next: ResActionItem?

    constructor (id: int, action: ResAction)
      ensures resId == id && resAction == action && next == null
    {
      resId, resAction, next := id, action, null;
    }
  }

  function LastOf(nodes: seq<ResActionItem>): ResActionItem? {
    if nodes == [] then null else nodes[|nodes| - 1]
  }

  /** `nodes` are the links of an acyclic chain from `head`, in order, and `items` is what they say. */
  ghost predicate IsChain(head: ResActionItem?, nodes: seq<ResActionItem>, items: seq<Item>)
    reads nodes
  {
    && head == (if nodes == [] then null else nodes[0])
    && (nodes != [] ==> nodes[|nodes| - 1].next == null)
    && (forall i :: 0 <= i < |nodes| - 1 ==> nodes[i].next == nodes[i + 1])
    && (forall i, j :: 0 <= i < j < |nodes| ==> nodes[i] != nodes[j])
    && |items| == |nodes|
    && (forall i :: 0 <= i < |nodes| ==> items[i] == Item(nodes[i].resId, nodes[i].resAction))
  }

  lemma EmptyChain()
    ensures IsChain(null, [], []) && LastOf([]) == null
  {
  }

  /** Walk the chain. The walk ends because no link is met twice. */
  method ReadChain(head: ResActionItem?, ghost nodes: seq<ResActionItem>, ghost items: seq<Item>) returns (read: seq<Item>)
    requires IsChain(head, nodes, items)
    ensures read == items
  {
    read := [];
    var queueHead := head;
    ghost var k := 0;
    while queueHead != null
      invariant k <= |nodes|
      invariant queueHead == if k < |nodes| then nodes[k] else null
      invariant read == items[..k]
      decreases |nodes| - k
    {
      read := read + [Item(queueHead.resId, queueHead.resAction)];
      queueHead := queueHead.next;
      k := k + 1;
    }
  }

  /** Hang one more item on the end of a chain under construction, given its first and last link. */
  method Append(header: ResActionItem?, curItem: ResActionItem?, ghost nodes: seq<ResActionItem>, ghost items: seq<Item>,
    resId: int, action: ResAction)
    returns (first: ResActionItem, last: ResActionItem, ghost longer: seq<ResActionItem>)
    requires IsChain(header, nodes, items) && curItem == LastOf(nodes)
    modifies curItem
    ensures fresh(last) && longer == nodes + [last] && last == LastOf(longer)
    ensures IsChain(first, longer, items + [Item(resId, action)])
  {
    var resActionItem := new ResActionItem(resId, action);
    if curItem != null {
      curItem.next := resActionItem;
      first := header;
    } else {
      first := resActionItem;
    }
    last := resActionItem;
    longer := nodes + [resActionItem];
  }

  /** One request per pair, alike but for value and address; addresses are handed out in order. */
  function Drafts(pairs: seq<(int, int)>, template: ResAction, id: nat): (items: seq<Item>)
    ensures |items| == |pairs|
  {
    seq(|pairs|, i requires 0 <= i < |pairs| => Item(pairs[i].0, template.(id := id + i, value := pairs[i].1)))
  }

  lemma DraftsAppend(a: seq<(int, int)>, b: seq<(int, int)>, template: ResAction, id: nat)
    ensures Drafts(a + b, template, id) == Drafts(a, template, id) + Drafts(b, template, id + |a|)
  {
  }

  /** A later part of a list of pairs begins with the next valid pair, if there is one. */
  lemma DraftsStep(cfg: Config, variable: seq<int>, i: nat, template: ResAction, id: nat)
    requires i + 1 < |variable|
    ensures Drafts(ValidPairs(cfg, variable[i..]), template, id) ==
      if variable[i] in cfg.nodes
      then [Item(variable[i], template.(id := id, value := variable[i + 1]))] + Drafts(ValidPairs(cfg, variable[i + 2..]), template, id + 1)
      else Drafts(ValidPairs(cfg, variable[i + 2..]), template, id)
  {
    assert variable[i..][2..] == variable[i + 2..];
    if variable[i] in cfg.nodes {
      assert ValidPairs(cfg, variable[i..]) == [(variable[i], variable[i + 1])] + ValidPairs(cfg, variable[i + 2..]);
      DraftsAppend([(variable[i], variable[i + 1])], ValidPairs(cfg, variable[i + 2..]), template, id);
    } else {
      assert ValidPairs(cfg, variable[i..]) == ValidPairs(cfg, variable[i + 2..]);
    }
  }

  lemma SaidMore(said: seq<Item>, item: Item, rest: seq<Item>)
    ensures said + ([item] + rest) == (said + [item]) + rest
  {
  }

  lemma NoPairs(cfg: Config, variable: seq<int>, template: ResAction, id: nat)
    requires |variable| < 2
    ensures Drafts(ValidPairs(cfg, variable), template, id) == []
  {
  }

  /** The loop over an action's variables: hang one item on the chain for every pair that names a known
      resource. A trailing odd entry is not looked at. */
  method ChainPairs(cfg: Config, header: ResActionItem?, curItem: ResActionItem?, ghost nodes: seq<ResActionItem>, ghost items: seq<Item>,
    variable: seq<int>, template: ResAction, id: nat)
    returns (first: ResActionItem?, last: ResActionItem?, ghost longer: seq<ResActionItem>, next: nat)
    requires IsChain(header, nodes, items) && curItem == LastOf(nodes)
    modifies curItem
    ensures last == LastOf(longer) && (last == curItem || fresh(last))
    ensures IsChain(first, longer, items + Drafts(ValidPairs(cfg, variable), template, id))
    ensures next == id + |Drafts(ValidPairs(cfg, variable), template, id)|
  {
    hide ValidPairs, Drafts, IsChain;
    first, last, longer, next := header, curItem, nodes, id;
    ghost var said, all := items, Drafts(ValidPairs(cfg, variable), template, id);
    var i := 0;
    assert variable[0..] == variable;
    while i < |variable| - 1
      invariant 0 <= i <= |variable| && last == LastOf(longer) && IsChain(first, longer, said)
      invariant last == curItem || fresh(last)
      invariant said + Drafts(ValidPairs(cfg, variable[i..]), template, next) == items + all
      invariant next == id + |said| - |items|
    {
      DraftsStep(cfg, variable, i, template, next);
      if variable[i] in cfg.nodes {
        var action := template.(id := next, value := variable[i + 1]);
        SaidMore(said, Item(variable[i], action), Drafts(ValidPairs(cfg, variable[i + 2..]), template, next + 1));
        first, last, longer := Append(first, last, longer, said, variable[i], action);
        next, said := next + 1, said + [Item(variable[i], action)];
      }
      i := i + 2;
    }
    NoPairs(cfg, variable[i..], template, next);
    assert said == items + all;
  }

  lemma AllPairsStep(cfg: Config, list: seq<Action>, k: nat, template: ResAction, id: nat)
    requires k < |list|
    ensures var head := Drafts(ValidPairs(cfg, list[k].variable), template, id);
      Drafts(AllPairs(cfg, list[k..]), template, id) == head + Drafts(AllPairs(cfg, list[k + 1..]), template, id + |head|)
  {
    assert list[k..][0] == list[k] && list[k..][1..] == list[k + 1..];
    DraftsAppend(ValidPairs(cfg, list[k].variable), AllPairs(cfg, list[k + 1..]), template, id);
  }

  /** What is still to be hung on the chain after `k` actions, appended to what is on it, gives it all. */
  ghost predicate ToChain(cfg: Config, said: seq<Item>, list: seq<Action>, k: nat, template: ResAction, id: nat, all: seq<Item>) {
    k <= |list| && said + Drafts(AllPairs(cfg, list[k..]), template, id) == all
  }

  lemma ToChainFirst(cfg: Config, list: seq<Action>, template: ResAction, id: nat)
    ensures ToChain(cfg, [], list, 0, template, id, Drafts(AllPairs(cfg, list), template, id))
  {
    assert list[0..] == list;
  }

  lemma ToChainStep(cfg: Config, said: seq<Item>, list: seq<Action>, k: nat, template: ResAction, id: nat, all: seq<Item>)
    requires k < |list| && ToChain(cfg, said, list, k, template, id, all)
    ensures var head := Drafts(ValidPairs(cfg, list[k].variable), template, id);
      ToChain(cfg, said + head, list, k + 1, template, id + |head|, all)
  {
    AllPairsStep(cfg, list, k, template, id);
    hide Drafts, AllPairs, ValidPairs;
  }

  lemma ToChainLast(cfg: Config, said: seq<Item>, list: seq<Action>, template: ResAction, id: nat, all: seq<Item>)
    requires ToChain(cfg, said, list, |list|, template, id, all)
    ensures said == all
  {
    assert list[|list|..] == [];
  }

  /** The chain of all actions of a command, one template for all. */
  method ChainActions(cfg: Config, list: seq<Action>, template: ResAction, id: nat)
    returns (header: ResActionItem?, ghost nodes: seq<ResActionItem>, next: nat)
    ensures IsChain(header, nodes, Drafts(AllPairs(cfg, list), template, id))
    ensures next == id + |AllPairs(cfg, list)|
  {
    hide *;
    EmptyChain();
    ghost var all, said := Drafts(AllPairs(cfg, list), template, id), [];
    var curItem: ResActionItem?;
    header, curItem, nodes, next := null, null, [], id;
    ToChainFirst(cfg, list, template, id);
    var k := 0;
    while k < |list|
      invariant k <= |list| && IsChain(header, nodes, said) && curItem == LastOf(nodes)
      invariant curItem == null || fresh(curItem)
      invariant ToChain(cfg, said, list, k, template, next, all) && next == id + |said|
    {
      ToChainStep(cfg, said, list, k, template, next, all);
      ghost var more := Drafts(ValidPairs(cfg, list[k].variable), template, next);
      header, curItem, nodes, next := ChainPairs(cfg, header, curItem, nodes, said, list[k].variable, template, next);
      said := said + more;
      k := k + 1;
    }
    ToChainLast(cfg, said, list, template, next, all);
  }
}
