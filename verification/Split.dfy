/** Splitting a string at a one-character delimiter. */
module Split {

  /** The first place of `d` at or after `i`, or the end. */
  function FindFrom(s: string, d: char, i: nat): (p: nat)
    requires i <= |s|
    ensures i <= p <= |s| && (p < |s| ==> s[p] == d)
    ensures forall k :: i <= k < p ==> s[k] != d
    decreases |s| - i
  {
    if i == |s| || s[i] == d then i else FindFrom(s, d, i + 1)
  }

  function Join(pieces: seq<string>, d: char): string
    requires pieces != []
  {
    if |pieces| == 1 then pieces[0] else pieces[0] + [d] + Join(pieces[1..], d)
  }

  function Count(s: string, d: char): nat {
    if s == "" then 0 else (if s[0] == d then 1 else 0) + Count(s[1..], d)
  }

  predicate Free(pieces: seq<string>, d: char) {
    forall i :: 0 <= i < |pieces| ==> d !in pieces[i]
  }

  /** The pieces of a string: the only way to write it as delimiter-free strings joined by the delimiter. */
  function Pieces(s: string, d: char): (pieces: seq<string>)
    ensures pieces != []
    decreases |s|
  {
    var p := FindFrom(s, d, 0);
    if p == |s| then [s] else [s[..p]] + Pieces(s[p + 1..], d)
  }

  /** The pieces still to come from place `i` on; none once the loop has jumped past the end. */
  function From(s: string, d: char, i: nat): seq<string>
    requires i <= |s| + 1
  {
    if i > |s| then [] else Pieces(s[i..], d)
  }

  lemma FromStep(s: string, d: char, i: nat)
    requires i <= |s|
    ensures var p := FindFrom(s, d, i); From(s, d, i) == [s[i..p]] + From(s, d, p + 1)
  {
    var t, p := s[i..], FindFrom(s, d, i);
    FindShift(s, d, i);
    hide FindFrom;
    assert t[..p - i] == s[i..p];
    if p < |s| {
      assert t[p - i + 1..] == s[p + 1..];
    } else {
      assert t == s[i..p] && From(s, d, p + 1) == [];
    }
  }

  /** The index-jumping loop: each turn takes the piece up to the next delimiter and jumps behind it. */
  method SplitEx(str: string, d: char) returns (result: seq<string>)
    ensures result == Pieces(str, d)
  {
    hide *;
    var tempStr := str + [d];
    var length := |tempStr|;
    result := [];
    var i := 0;
    FromEnds(str, d);
    while i < length
      invariant i <= length && result + From(str, d, i) == Pieces(str, d)
    {
      FindInFront(str, d, i);
      FromStep(str, d, i);
      var position := FindFrom(tempStr, d, i);
      var tmp := tempStr[i..position];
      assert tmp == str[i..position];
      Regroup(result, tmp, From(str, d, position + 1));
      result := result + [tmp];
      i := position;
      i := i + 1;
    }
  }

  lemma FromEnds(s: string, d: char)
    ensures [] + From(s, d, 0) == Pieces(s, d) && From(s, d, |s| + 1) == []
  {
    assert s[0..] == s;
  }

  lemma Regroup(a: seq<string>, x: string, b: seq<string>)
    ensures a + ([x] + b) == (a + [x]) + b
  {
  }

  /** With the delimiter added at the end, the search finds what it would find, or the added one. */
  lemma {:induction false} FindInFront(s: string, d: char, i: nat)
    requires i <= |s|
    ensures FindFrom(s + [d], d, i) == FindFrom(s, d, i)
    decreases |s| - i
  {
    if i < |s| && s[i] != d {
      FindInFront(s, d, i + 1);
    }
  }

  lemma FindShift(s: string, d: char, i: nat)
    requires i <= |s|
    ensures FindFrom(s[i..], d, 0) + i == FindFrom(s, d, i)
  {
    var t, p, q := s[i..], FindFrom(s[i..], d, 0), FindFrom(s, d, i);
    assert forall k :: 0 <= k < |t| ==> t[k] == s[i + k];
    assert p + i == q;
  }

  lemma JoinCons(first: string, rest: seq<string>, d: char)
    requires rest != []
    ensures Join([first] + rest, d) == first + [d] + Join(rest, d)
    ensures d !in first && Free(rest, d) ==> Free([first] + rest, d)
  {
    assert ([first] + rest)[1..] == rest;
  }

  lemma CountCut(s: string, d: char, p: nat)
    requires p < |s| && s[p] == d && forall k :: 0 <= k < p ==> s[k] != d
    ensures Count(s, d) == 1 + Count(s[p + 1..], d)
  {
    CountTo(s, d, p);
    assert s[p..][1..] == s[p + 1..];
  }

  lemma OnePiece(s: string, d: char)
    requires forall k :: 0 <= k < |s| ==> s[k] != d
    ensures Pieces(s, d) == [s] && Join([s], d) == s && Free([s], d) && Count(s, d) == 0
  {
    CountTo(s, d, |s|);
  }

  /** Round trip: joining the pieces gives the string back, no piece contains the delimiter, and there is one
      piece more than there are delimiters. */
  lemma {:induction false} JoinOfPieces(s: string, d: char)
    ensures Join(Pieces(s, d), d) == s && Free(Pieces(s, d), d) && |Pieces(s, d)| == Count(s, d) + 1
    decreases |s|
  {
    hide Join, Count, Free, FindFrom;
    var p := FindFrom(s, d, 0);
    if p < |s| {
      JoinOfPieces(s[p + 1..], d);
      JoinCons(s[..p], Pieces(s[p + 1..], d), d);
      CountCut(s, d, p);
      assert s == s[..p] + [d] + s[p + 1..];
    } else {
      OnePiece(s, d);
    }
  }

  lemma {:induction false} CountTo(s: string, d: char, p: nat)
    requires p <= |s| && forall k :: 0 <= k < p ==> s[k] != d
    ensures Count(s, d) == Count(s[p..], d)
  {
    if p > 0 {
      CountTo(s[1..], d, p - 1);
      assert s[1..][p - 1..] == s[p..];
    } else {
      assert s[0..] == s;
    }
  }

  /** The other way round: splitting what delimiter-free strings were joined to gives the strings back. */
  lemma {:induction false} PiecesOfJoin(pieces: seq<string>, d: char)
    requires pieces != [] && Free(pieces, d)
    ensures Pieces(Join(pieces, d), d) == pieces
    decreases |pieces|
  {
    var s := Join(pieces, d);
    var p := FindFrom(s, d, 0);
    if |pieces| == 1 {
      assert forall k :: 0 <= k < |s| ==> s[k] in pieces[0];
      assert pieces == [pieces[0]];
    } else {
      var n := |pieces[0]|;
      assert s[n] == d && s[..n] == pieces[0] && s[n + 1..] == Join(pieces[1..], d);
      assert forall k :: 0 <= k < n ==> s[k] == pieces[0][k] && pieces[0][k] in pieces[0];
      assert p == n;
      PiecesOfJoin(pieces[1..], d);
      assert pieces == [pieces[0]] + pieces[1..];
    }
  }

  predicate Digits(s: string) {
    forall c :: c in s ==> '0' <= c <= '9'
  }

  /** IsNumber: digits, perhaps after a minus sign. The empty string counts as a number. */
  predicate NumberLike(s: string) {
    Digits(if s != "" && s[0] == '-' then s[1..] else s)
  }

  method IsNumber(str: string) returns (number: bool)
    ensures number == NumberLike(str)
  {
    var i := 0;
    while i < |str|
      invariant i <= |str|
      invariant forall k :: 0 <= k < i ==> '0' <= str[k] <= '9' || (k == 0 && str[k] == '-')
    {
      if !(i == 0 && str[i] == '-') {
        if str[i] < '0' || str[i] > '9' {
          assert str[i] in if str[0] == '-' then str[1..] else str;
          return false;
        }
      }
      i := i + 1;
    }
    return true;
  }
}
