/** The list of live requests of one resource and type, and the three ways a task changes it. */
module LiveList {
  import opened Common

  type Live = seq<ResAction>

  /** The comparison an erasing loop makes against each list entry. */
  datatype Match = Same(a: ResAction) | OnOf(a: ResAction) | Exactly(a: ResAction) {
    predicate Hits(x: ResAction) {
      match this
      case Same(a) => a.TotalSame(x)
      case OnOf(a) => a.PartSame(x) && x.onOff == EventOn
      case Exactly(a) => a == x
    }
  }

  /** The list without its first hit. */
  function EraseFirst(l: Live, m: Match): (r: Live)
    ensures forall x :: x in r ==> x in l
    ensures |r| == |l| || |r| == |l| - 1
  {
    if l == [] then [] else if m.Hits(l[0]) then l[1..] else [l[0]] + EraseFirst(l[1..], m)
  }

  predicate Hit(l: Live, m: Match) {
    exists x :: x in l && m.Hits(x)
  }

  /** What an instant request makes of the list it addresses. */
  function Instant(l: Live, a: ResAction): Live {
    if a.onOff == EventOff then EraseFirst(l, OnOf(a)) else EraseFirst(l, Same(a)) + [a]
  }

  /** What the expiry of a request makes of the list it addresses. */
  function Expire(l: Live, a: ResAction): Live {
    EraseFirst(l, Exactly(a))
  }

  /** No list holds an OFF entry, nor two entries that are TotalSame. */
  ghost predicate WfList(l: Live, kind: int) {
    && (forall x :: x in l ==> x.Valid() && x.kind == kind && x.onOff != EventOff)
    && (forall i, j :: 0 <= i < j < |l| ==> !l[i].TotalSame(l[j]))
  }

  /** How an erasing loop that stops at its first hit computes EraseFirst. */
  lemma {:induction false} EraseAt(l: Live, m: Match, i: nat)
    requires i < |l| && m.Hits(l[i])
    requires forall j :: 0 <= j < i ==> !m.Hits(l[j])
    ensures EraseFirst(l, m) == l[..i] + l[i + 1..]
  {
    if i == 0 {
    } else {
      assert l[1..][i - 1] == l[i];
      EraseAt(l[1..], m, i - 1);
      assert l[..i] + l[i + 1..] == [l[0]] + (l[1..][..i - 1] + l[1..][i..]);
    }
  }

  lemma {:induction false} EraseMiss(l: Live, m: Match)
    requires !Hit(l, m)
    ensures EraseFirst(l, m) == l
  {
    if l != [] {
      assert l[0] in l;
      forall x | x in l[1..] ensures !m.Hits(x) { assert x in l; }
      EraseMiss(l[1..], m);
    }
  }

  lemma FirstHit(l: Live, m: Match) returns (i: nat)
    requires Hit(l, m)
    ensures i < |l| && m.Hits(l[i])
    ensures forall j :: 0 <= j < i ==> !m.Hits(l[j])
    ensures EraseFirst(l, m) == l[..i] + l[i + 1..]
  {
    var x :| x in l && m.Hits(x);
    i := 0;
    while !m.Hits(l[i])
      invariant i < |l|
      invariant forall j :: 0 <= j < i ==> !m.Hits(l[j])
      invariant x in l[i..]
      decreases |l| - i
    {
      assert l[i..] == [l[i]] + l[i + 1..];
      i := i + 1;
    }
    EraseAt(l, m, i);
  }

  lemma OthersMiss(l: Live, m: Match, kind: int, i: nat, k: nat)
    requires WfList(l, kind) && i < |l| && k < |l| && i != k && m.Hits(l[i])
    ensures !m.Hits(l[k])
  {
    assert !l[i].TotalSame(l[k]) && !l[k].TotalSame(l[i]);
  }

  lemma WithoutWf(l: Live, kind: int, i: nat)
    requires WfList(l, kind) && i < |l|
    ensures WfList(l[..i] + l[i + 1..], kind)
  {
    var r := l[..i] + l[i + 1..];
    assert forall j :: 0 <= j < |r| ==> r[j] == l[if j < i then j else j + 1];
  }

  /** Erasing keeps a list well formed; what is erased by a TotalSame match leaves no entry TotalSame to it. */
  lemma EraseWf(l: Live, m: Match, kind: int)
    requires WfList(l, kind)
    ensures WfList(EraseFirst(l, m), kind)
    ensures m.Same? && m.a.kind == kind ==> !Hit(EraseFirst(l, m), m)
    ensures m.OnOf? ==> !Hit(EraseFirst(l, m), m)
    ensures m.Exactly? ==> m.a !in EraseFirst(l, m)
  {
    if Hit(l, m) {
      var i := FirstHit(l, m);
      WithoutWf(l, kind, i);
      var r := l[..i] + l[i + 1..];
      hide WfList;
      forall x | x in r ensures !m.Hits(x) {
        var j :| 0 <= j < |r| && r[j] == x;
        OthersMiss(l, m, kind, i, if j < i then j else j + 1);
      }
    } else {
      EraseMiss(l, m);
    }
  }

  lemma InstantWf(l: Live, a: ResAction)
    requires WfList(l, a.kind) && a.Valid()
    ensures WfList(Instant(l, a), a.kind)
  {
    if a.onOff == EventOff {
      EraseWf(l, OnOf(a), a.kind);
    } else {
      EraseWf(l, Same(a), a.kind);
      var r := EraseFirst(l, Same(a));
      forall i | 0 <= i < |r| ensures !r[i].TotalSame(a) {
        assert r[i] in r;
      }
    }
  }

  // ---- commutation --------------------------------------------------------------------------

  predicate Apart(l: Live, m: Match, n: Match) {
    forall x :: x in l ==> !(m.Hits(x) && n.Hits(x))
  }

  /** Two erasures that never compete for an entry commute. */
  lemma {:induction false} EraseCommutes(l: Live, m: Match, n: Match)
    requires Apart(l, m, n)
    ensures EraseFirst(EraseFirst(l, m), n) == EraseFirst(EraseFirst(l, n), m)
  {
    if l != [] {
      assert l[0] in l;
      forall x | x in l[1..] ensures !(m.Hits(x) && n.Hits(x)) { assert x in l; }
      EraseCommutes(l[1..], m, n);
    }
  }

  lemma {:induction false} EraseAppend(l: Live, a: ResAction, m: Match)
    requires !m.Hits(a)
    ensures EraseFirst(l + [a], m) == EraseFirst(l, m) + [a]
  {
    if l == [] {
      assert l + [a] == [a];
      assert EraseFirst([a], m) == [a] + EraseFirst([a][1..], m);
    } else {
      assert (l + [a])[0] == l[0] && (l + [a])[1..] == l[1..] + [a];
      EraseAppend(l[1..], a, m);
    }
  }
}
