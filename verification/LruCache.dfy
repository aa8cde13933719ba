/** The least-recently-used cache of permission verdicts: a list of entries and an index into it. */
module LruCache {
  import opened Common

  // ---- the cache as a list of keys and values, most recently used first -----------------------------------

  function Keys<K, V>(s: seq<(K, V)>): (ks: seq<K>)
    ensures |ks| == |s| && forall i :: 0 <= i < |s| ==> ks[i] == s[i].0
  {
    seq(|s|, i requires 0 <= i < |s| => s[i].0)
  }

  function Lookup<K(==), V>(s: seq<(K, V)>, k: K): Option<V> {
    if s == [] then None else if s[0].0 == k then Some(s[0].1) else Lookup(s[1..], k)
  }

  /** Every entry but those of `k`. */
  function Without<K(==), V>(s: seq<(K, V)>, k: K): seq<(K, V)> {
    if s == [] then [] else (if s[0].0 == k then [] else [s[0]]) + Without(s[1..], k)
  }

  function Got<K(==), V>(s: seq<(K, V)>, k: K): seq<(K, V)> {
    if Lookup(s, k).None? then s else [(k, Lookup(s, k).value)] + Without(s, k)
  }

  function Stored<K(==), V>(s: seq<(K, V)>, capacity: nat, k: K, v: V): seq<(K, V)>
    requires 1 <= capacity
  {
    if Lookup(s, k).Some? then [(k, v)] + Without(s, k)
    else [(k, v)] + if |s| >= capacity then s[..|s| - 1] else s
  }

  predicate Distinct<K(==)>(ks: seq<K>) {
    forall i, j :: 0 <= i < j < |ks| ==> ks[i] != ks[j]
  }

  // ---- the cache as the source has it ----------------------------------------------------------------------

  class Node<K, V> {
    const key: K
    var value: V

    constructor (key: K, value: V)
      ensures this.key == key && this.value == value
    {
      this.key, this.value := key, value;
    }
  }

  /** Where an iterator points. */
  function Position<T(==)>(s: seq<T>, x: T): (m: nat)
    requires x in s
    ensures m < |s| && s[m] == x
  {
    if s[0] == x then 0 else 1 + Position(s[1..], x)
  }

  /** The list with one place taken out. */
  function Cut<T>(s: seq<T>, m: nat): (r: seq<T>)
    requires m < |s|
    ensures |r| == |s| - 1 && forall i :: 0 <= i < |r| ==> r[i] == if i < m then s[i] else s[i + 1]
  {
    s[..m] + s[m + 1..]
  }

  lemma {:induction false} WithoutIsCut<K, V>(s: seq<(K, V)>, m: nat)
    requires m < |s| && Distinct(Keys(s))
    ensures Without(s, s[m].0) == Cut(s, m) && Lookup(s, s[m].0) == Option.Some(s[m].1)
    decreases |s|
  {
    assert forall i, j :: 0 <= i < j < |s| ==> Keys(s)[i] != Keys(s)[j];
    if m == 0 {
      WithoutNone(s[1..], s[0].0);
    } else {
      DistinctTail(s);
      WithoutIsCut(s[1..], m - 1);
      assert Cut(s, m) == [s[0]] + Cut(s[1..], m - 1);
      assert Keys(s)[0] != Keys(s)[m];
    }
  }

  lemma DistinctTail<K, V>(s: seq<(K, V)>)
    requires s != [] && Distinct(Keys(s))
    ensures Distinct(Keys(s[1..]))
  {
    assert Keys(s[1..]) == Keys(s)[1..];
  }

  lemma {:induction false} WithoutNone<K, V>(s: seq<(K, V)>, k: K)
    requires forall i :: 0 <= i < |s| ==> s[i].0 != k
    ensures Without(s, k) == s && Lookup(s, k).None?
    decreases |s|
  {
    if s != [] {
      WithoutNone(s[1..], k);
    }
  }

  /** What a list of nodes says. */
  ghost function Said<K, V>(l: seq<Node<K, V>>): (s: seq<(K, V)>)
    reads l
    ensures |s| == |l| && forall i :: 0 <= i < |l| ==> s[i] == (l[i].key, l[i].value)
  {
    seq(|l|, i requires 0 <= i < |l| reads l => (l[i].key, l[i].value))
  }

  /** List and index agree: the same keys, each once, and each index entry is its own node. */
  ghost predicate Indexed<K, V>(l: seq<Node<K, V>>, index: map<K, Node<K, V>>) {
    && (forall i :: 0 <= i < |l| ==> l[i].key in index && index[l[i].key] == l[i])
    && (forall k :: k in index ==> index[k].key == k && index[k] in l)
    && (forall i, j :: 0 <= i < j < |l| ==> l[i].key != l[j].key)
  }

  lemma CutKeeps<T>(s: seq<T>, m: nat, x: T)
    requires m < |s| && x in s && x != s[m]
    ensures x in Cut(s, m)
  {
    var i :| 0 <= i < |s| && s[i] == x;
    assert Cut(s, m)[if i < m then i else i - 1] == x;
  }

  lemma CutDistinct<K, V>(l: seq<Node<K, V>>, m: nat)
    requires m < |l| && forall i, j :: 0 <= i < j < |l| ==> l[i].key != l[j].key
    ensures var c := Cut(l, m); forall i, j :: 0 <= i < j < |c| ==> c[i].key != c[j].key
    ensures forall x :: x in Cut(l, m) ==> x in l && x.key != l[m].key
  {
  }

  lemma IndexedCut<K, V>(l: seq<Node<K, V>>, index: map<K, Node<K, V>>, m: nat)
    requires Indexed(l, index) && m < |l|
    ensures Indexed(Cut(l, m), index - {l[m].key})
  {
    CutDistinct(l, m);
    hide Cut;
    var c, rest := Cut(l, m), index - {l[m].key};
    forall k | k in rest ensures rest[k] in c {
      assert index[k].key == k && index[k] in l;
      CutKeeps(l, m, index[k]);
    }
    forall i | 0 <= i < |c| ensures c[i].key in rest && rest[c[i].key] == c[i] {
      assert c[i] in c;
    }
  }

  lemma IndexedPush<K, V>(l: seq<Node<K, V>>, index: map<K, Node<K, V>>, node: Node<K, V>)
    requires Indexed(l, index) && node.key !in index
    ensures Indexed([node] + l, index[node.key := node])
    ensures Said([node] + l) == [(node.key, node.value)] + Said(l)
  {
    var more := [node] + l;
    forall k | k in index ensures index[k] in more {
      var i :| 0 <= i < |l| && l[i] == index[k];
      assert more[i + 1] == l[i];
    }
    assert more[0] == node;
  }

  lemma SaidDistinct<K, V>(l: seq<Node<K, V>>)
    requires forall i, j :: 0 <= i < j < |l| ==> l[i].key != l[j].key
    ensures Distinct(Keys(Said(l)))
  {
  }

  lemma SaidCut<K, V>(l: seq<Node<K, V>>, m: nat)
    requires m < |l|
    ensures Said(Cut(l, m)) == Cut(Said(l), m)
  {
  }

  /** The index knows exactly the keys of the list. */
  lemma IndexMisses<K, V>(l: seq<Node<K, V>>, index: map<K, Node<K, V>>, key: K)
    requires Indexed(l, index) && key !in index
    ensures Lookup(Said(l), key).None?
  {
    WithoutNone(Said(l), key);
  }

  lemma IndexFinds<K, V>(l: seq<Node<K, V>>, index: map<K, Node<K, V>>, key: K)
    requires Indexed(l, index) && key in index
    ensures index[key] in l && index[key].key == key
    ensures Lookup(Said(l), key) == Option.Some(index[key].value)
    ensures Without(Said(l), key) == Said(Cut(l, Position(l, index[key])))
  {
    hide Distinct, Keys, Without, Lookup;
    var m := Position(l, index[key]);
    SaidDistinct(l);
    SaidCut(l, m);
    WithoutIsCut(Said(l), m);
  }

  /** A node under a present key can take the front place. */
  lemma Front<K, V>(l: seq<Node<K, V>>, index: map<K, Node<K, V>>, key: K, node: Node<K, V>)
    requires Indexed(l, index) && key in index && node.key == key && index[key] in l
    ensures var rest := Cut(l, Position(l, index[key]));
      && Indexed([node] + rest, index[key := node]) && |rest| == |l| - 1
      && Said([node] + rest) == [(key, node.value)] + Said(rest)
    ensures node == index[key] ==> index[key := node] == index
  {
    var m := Position(l, index[key]);
    IndexedCut(l, index, m);
    assert l[m].key == key;
    hide Indexed, Said, Cut;
    IndexedPush(Cut(l, m), index - {key}, node);
    assert (index - {key})[key := node] == index[key := node];
  }

  lemma DropLast<K, V>(l: seq<Node<K, V>>, index: map<K, Node<K, V>>)
    requires Indexed(l, index) && l != []
    ensures var m := |l| - 1; Indexed(l[..m], index - {l[m].key}) && Said(l[..m]) == Said(l)[..m]
  {
    IndexedCut(l, index, |l| - 1);
    assert Cut(l, |l| - 1) == l[..|l| - 1];
  }

  lemma HeadPlace<K, V>(l: seq<Node<K, V>>, index: map<K, Node<K, V>>, key: K)
    requires Indexed(l, index) && key in index && l != [] && index[key] == l[0]
    ensures Position(l, index[key]) == 0 && Cut(l, 0) == l[1..] && l[0].key == key
    ensures forall i :: 0 <= i < |l[1..]| ==> l[1..][i] != l[0]
  {
  }

  class SocPerfLRUCache<K(==), V> {
    const capacity: nat
    var lruList: seq<Node<K, V>>
    var relationMap: map<K, Node<K, V>>

    ghost predicate Valid()
      reads this
    {
      1 <= capacity && |lruList| <= capacity && Indexed(lruList, relationMap)
    }

    ghost function Contents(): seq<(K, V)>
      reads this, lruList
    {
      Said(lruList)
    }

    constructor (capacity: nat)
      requires 1 <= capacity
      ensures Valid() && this.capacity == capacity && Contents() == []
    {
      this.capacity, lruList, relationMap := capacity, [], map[];
    }

    /** Look a key up; a key that is found becomes the most recently used. */
    method Get(key: K) returns (value: Option<V>)
      requires Valid()
      modifies this`lruList
      ensures Valid() && relationMap == old(relationMap) && (value.None? ==> lruList == old(lruList))
      ensures value == Lookup(old(Contents()), key) && Contents() == Got(old(Contents()), key)
    {
      hide Indexed, Cut, Lookup, Without, Said;
      if key !in relationMap {
        IndexMisses(lruList, relationMap, key);
        return Option.None;
      }
      IndexFinds(lruList, relationMap, key);
      var node := relationMap[key];
      Front(lruList, relationMap, key, node);
      lruList := [node] + Cut(lruList, Position(lruList, node));
      value := Option.Some(node.value);
    }

    /** A new value under a key that is present but not most recent: its node is replaced by one at the front. */
    method Renew(key: K, value: V)
      requires Valid() && key in relationMap
      modifies this`lruList, this`relationMap
      ensures Valid() && Contents() == Stored(old(Contents()), capacity, key, value)
    {
      hide Indexed, Lookup, Without, Said, Position;
      IndexFinds(lruList, relationMap, key);
      ghost var rest := Cut(lruList, Position(lruList, relationMap[key]));
      ghost var said := Said(rest);
      var node := new Node(key, value);
      assert Said(rest) == said;
      Front(lruList, relationMap, key, node);
      lruList := [node] + Cut(lruList, Position(lruList, relationMap[key]));
      relationMap := relationMap[key := node];
    }

    /** A new value under the most recently used key: it is overwritten in place. */
    method Overwrite(key: K, value: V)
      requires Valid() && key in relationMap && |lruList| > 0 && relationMap[key] == lruList[0]
      modifies lruList[0]
      ensures Valid() && Contents() == Stored(old(Contents()), capacity, key, value)
    {
      hide Indexed, Lookup, Without, Position, Cut;
      IndexFinds(lruList, relationMap, key);
      HeadPlace(lruList, relationMap, key);
      assert Without(Contents(), key) == Said(lruList[1..]);
      ghost var rest := Said(lruList[1..]);
      lruList[0].value := value;
      assert Said(lruList[1..]) == rest;
      assert Said(lruList) == [Said(lruList)[0]] + Said(lruList[1..]);
    }

    /** A new key; in a full cache the least recently used one makes room. */
    method Insert(key: K, value: V)
      requires Valid() && key !in relationMap
      modifies this`lruList, this`relationMap
      ensures Valid() && Contents() == Stored(old(Contents()), capacity, key, value)
    {
      hide Indexed, Lookup, Without, Position, Cut, Said;
      IndexMisses(lruList, relationMap, key);
      var node := new Node(key, value);
      if |lruList| >= capacity {
        DropLast(lruList, relationMap);
        var last := lruList[|lruList| - 1];
        relationMap := relationMap - {last.key};
        lruList := lruList[..|lruList| - 1];
      }
      IndexedPush(lruList, relationMap, node);
      lruList := [node] + lruList;
      relationMap := relationMap[key := node];
    }

    /** Store a value under a key, as the most recently used; a new key may push the least recently used out. */
    method Put(key: K, value: V)
      requires Valid()
      modifies this`lruList, this`relationMap, lruList
      ensures Valid() && Contents() == Stored(old(Contents()), capacity, key, value)
    {
      if key in relationMap {
        IndexFinds(lruList, relationMap, key);
        if relationMap[key] != lruList[0] {
          Renew(key, value);
        } else {
          Overwrite(key, value);
        }
      } else {
        Insert(key, value);
      }
    }
  }
}
