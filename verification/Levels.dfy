/** Limits given as a level: level 0 is the greatest available value, and levels past the end mean the least. */
module Levels {
  import opened Common
  import opened Config

  /** The available values above `v`. */
  ghost function Above(available: set<int>, v: int): set<int> {
    set x | x in available && v < x
  }

  /** The available value with exactly min(level, n - 1) available values above it. */
  ghost predicate AtLevel(available: set<int>, level: int, v: int) {
    v in available && 0 <= level && |Above(available, v)| == Min(level, |available| - 1)
  }

  ghost function Resolve(available: set<int>, level: int): (v: Option<int>)
    ensures v.None? <==> available == {} || level < 0
    ensures v.Some? ==> AtLevel(available, level, v.value)
  {
    if available == {} || level < 0 then None
    else
      var _ := LevelExists(available, level);
      var v :| AtLevel(available, level, v);
      Some(v)
  }

  ghost function LevelExists(available: set<int>, level: int): (v: int)
    requires available != {} && 0 <= level
    ensures AtLevel(available, level, v)
  {
    var g := Greatest(available);
    assert Above(available, g) == {};
    var rest := available - {g};
    if level == 0 || rest == {} then
      assert available == rest + {g};
      g
    else
      var v := LevelExists(rest, level - 1);
      assert Above(available, v) == Above(rest, v) + {g};
      v
  }

  ghost function Greatest(s: set<int>): (m: int)
    requires s != {}
    ensures m in s && forall x :: x in s ==> x <= m
  {
    Inhabited(s);
    var x :| x in s;
    if s == {x} then x
    else
      var m := Greatest(s - {x});
      assert s == (s - {x}) + {x};
      Max(x, m)
  }

  /** A higher level never resolves to a higher value. */
  lemma LevelAntitone(available: set<int>, j: int, v: int, k: int, w: int)
    requires AtLevel(available, j, v) && AtLevel(available, k, w) && j <= k
    ensures w <= v
  {
    if v < w {
      assert w in Above(available, v);
      SubsetSmaller(Above(available, w) + {w}, Above(available, v));
    }
  }

  lemma {:induction false} SubsetSmaller(a: set<int>, b: set<int>)
    requires a <= b
    ensures |a| <= |b|
  {
    if a != {} {
      Inhabited(a);
      var x :| x in a;
      SubsetSmaller(a - {x}, b - {x});
    }
  }

  /** A level has one value, so a level limit and its later removal resolve alike. */
  lemma LevelUnique(available: set<int>, level: int, v: int)
    requires AtLevel(available, level, v)
    ensures Resolve(available, level) == Some(v)
  {
    var w := Resolve(available, level).value;
    LevelAntitone(available, level, v, level, w);
    LevelAntitone(available, level, w, level, v);
  }

  ghost predicate Ascending(s: seq<int>) {
    forall i, j :: 0 <= i < j < |s| ==> s[i] < s[j]
  }

  ghost predicate Lists(s: seq<int>, values: set<int>) {
    Ascending(s) && (forall x :: x in s <==> x in values)
  }

  lemma {:induction false} ListingSize(s: seq<int>, values: set<int>)
    requires Lists(s, values)
    ensures |s| == |values|
  {
    if s == [] {
      assert forall x :: x !in values;
      assert values == {};
    } else {
      var last := |s| - 1;
      var rest, fewer := s[..last], values - {s[last]};
      assert s == rest + [s[last]];
      assert s[last] in s;
      forall x | x in rest ensures x < s[last] {
        var k :| 0 <= k < last && s[k] == x;
      }
      ListingSize(rest, fewer);
      assert values == fewer + {s[last]};
    }
  }

  /** In an ascending listing the value at position i has the values after it above it. */
  lemma AscendingRank(s: seq<int>, values: set<int>, i: nat)
    requires Lists(s, values) && i < |s|
    ensures |s| == |values| && |Above(values, s[i])| == |s| - 1 - i
  {
    ListingSize(s, values);
    var rest := s[i + 1..];
    forall x ensures x in rest <==> x in Above(values, s[i]) {
      if x in values && s[i] < x {
        var k :| 0 <= k < |s| && s[k] == x;
        assert rest[k - i - 1] == x;
      }
    }
    ListingSize(rest, Above(values, s[i]));
  }

  /** Insertion into an ordered set of values. */
  method InsertOrdered(s: seq<int>, x: int) returns (r: seq<int>)
    requires Ascending(s) && x !in s
    ensures Ascending(r)
    ensures forall y :: y in r <==> y in s || y == x
  {
    var i := 0;
    while i < |s| && s[i] < x
      invariant i <= |s|
      invariant forall j :: 0 <= j < i ==> s[j] < x
    {
      i := i + 1;
    }
    r := s[..i] + [x] + s[i..];
    assert i < |s| ==> s[i] in s && x < s[i];
    assert forall k :: 0 <= k < |s| ==> s[k] == r[if k < i then k else k + 1];
    assert r[i] == x;
  }

  /** GetResValueByLevel: sort the available values and index from the top. */
  method GetResValueByLevel(cfg: Config, resId: int, level: int) returns (ok: bool, resValue: int)
    ensures ok <==> resId in cfg.nodes && cfg.nodes[resId].available != {} && 0 <= level
    ensures ok ==> Resolve(cfg.nodes[resId].available, level) == Some(resValue)
  {
    if resId !in cfg.nodes || cfg.nodes[resId].available == {} {
      return false, 0;
    }
    if level < 0 {
      return false, 0;
    }
    var values := cfg.nodes[resId].available;
    var available: seq<int> := [];
    var todo := values;
    while todo != {}
      invariant todo <= values && Lists(available, values - todo)
    {
      Inhabited(todo);
      var a :| a in todo;
      available := InsertOrdered(available, a);
      todo := todo - {a};
    }
    assert values - todo == values;
    var len := |available|;
    var iter := 0;
    assert len > 0 by {
      Inhabited(values);
      var a :| a in values;
      assert a in available;
    }
    if level < len {
      iter := len - 1 - level;
    }
    ok, resValue := true, available[iter];
    AscendingRank(available, values, iter);
    LevelUnique(values, level, resValue);
  }
}
