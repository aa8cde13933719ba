/** The throttle in front of every performance request, over whole runs of asks. */
module Throttle {

  const TIME_INTERVAL: int := 8
  const CANCEL_CMDID_PREFIX: int := 100000
  const TWO_TO_THE_64: int := 0x1_0000_0000_0000_0000

  /** Someone asks to switch a command on (or to run it once), or off, at a time in milliseconds. */
  datatype Ask = Ask(on: bool, cmdId: int, at: int) {
    function Key(): int {
      if on then cmdId else cmdId + CANCEL_CMDID_PREFIX
    }
  }

  /** The times are unsigned 64-bit numbers, and so is their difference. */
  function Elapsed(since: int, now: int): int {
    (now - since) % TWO_TO_THE_64
  }

  /** What boostTime_ becomes before the interval is looked at: an ON lets the next OFF through. */
  function Opened(boost: map<int, int>, a: Ask): map<int, int> {
    if a.on then boost[a.cmdId + CANCEL_CMDID_PREFIX := 0] else boost
  }

  predicate Passes(boost: map<int, int>, a: Ask) {
    var b := Opened(boost, a);
    a.Key() !in b || Elapsed(b[a.Key()], a.at) > TIME_INTERVAL
  }

  function After(boost: map<int, int>, a: Ask): map<int, int> {
    if Passes(boost, a) then Opened(boost, a)[a.Key() := a.at] else Opened(boost, a)
  }

  /** boostTime_ after a run of asks. */
  function Boost(asks: seq<Ask>): map<int, int> {
    if asks == [] then map[] else After(Boost(asks[..|asks| - 1]), asks[|asks| - 1])
  }

  /** Whether ask `n` of a run is let through. */
  predicate Accepted(asks: seq<Ask>, n: nat)
    requires n < |asks|
  {
    Passes(Boost(asks[..n]), asks[n])
  }

  /** The clock never goes back and has passed the interval, and no command's id is another's cancel id. */
  predicate Clocked(asks: seq<Ask>) {
    && (forall i :: 0 <= i < |asks| ==> 8 < asks[i].at < 0x1_0000_0000_0000_0000)
    && (forall i, j :: 0 <= i <= j < |asks| ==> asks[i].at <= asks[j].at)
    && (forall i, j :: 0 <= i < |asks| && 0 <= j < |asks| ==> asks[i].cmdId != asks[j].cmdId + 100000)
  }

  predicate Is(asks: seq<Ask>, i: int, on: bool, cmdId: int) {
    0 <= i < |asks| && asks[i].on == on && asks[i].cmdId == cmdId
  }

  /** An accepted OFF of a command that no ON attempt of it has followed within the first `n` asks. */
  predicate StandingOff(asks: seq<Ask>, i: int, cmdId: int, n: int) {
    Is(asks, i, false, cmdId) && Accepted(asks, i) && forall k :: i < k < n ==> !Is(asks, k, true, cmdId)
  }

  predicate GrantedOn(asks: seq<Ask>, i: int, cmdId: int) {
    Is(asks, i, true, cmdId) && Accepted(asks, i)
  }

  /** What boostTime_ holds under a command's own id: the time of its last accepted ON. */
  ghost predicate KnowsOn(asks: seq<Ask>, n: nat, c: int)
    requires n <= |asks|
  {
    var b := Boost(asks[..n]);
    && (c in b ==> exists i :: 0 <= i < n && GrantedOn(asks, i, c) && b[c] == asks[i].at)
    && (forall i :: 0 <= i < n && GrantedOn(asks, i, c) ==> c in b && asks[i].at <= b[c])
  }

  /** And under its cancel id: nothing before any ON attempt or OFF, 0 after an ON attempt, and otherwise the
      time of the last accepted OFF. */
  ghost predicate KnowsOff(asks: seq<Ask>, n: nat, c: int)
    requires n <= |asks|
  {
    var b, d := Boost(asks[..n]), c + CANCEL_CMDID_PREFIX;
    && (d in b && b[d] != 0 ==> exists i :: 0 <= i < n && StandingOff(asks, i, c, n) && b[d] == asks[i].at)
    && (forall i :: 0 <= i < n && StandingOff(asks, i, c, n) ==> d in b && asks[i].at <= b[d])
  }

  lemma BoostStep(asks: seq<Ask>, n: nat)
    requires n < |asks|
    ensures Boost(asks[..n + 1]) == After(Boost(asks[..n]), asks[n])
  {
    assert asks[..n + 1][..n] == asks[..n];
  }

  lemma KnowsOnStep(asks: seq<Ask>, n: nat, j: nat)
    requires Clocked(asks) && n < |asks| && j < |asks| && KnowsOn(asks, n, asks[j].cmdId)
    ensures KnowsOn(asks, n + 1, asks[j].cmdId)
  {
    hide Boost, Elapsed;
    var c, a, b := asks[j].cmdId, asks[n], Boost(asks[..n]);
    BoostStep(asks, n);
    assert Accepted(asks, n) == Passes(b, a);
    assert a.Key() == c <==> a.on && a.cmdId == c;
    assert asks[n].cmdId != c + CANCEL_CMDID_PREFIX && c != asks[n].cmdId + CANCEL_CMDID_PREFIX;
    if a.Key() == c && Passes(b, a) {
      assert GrantedOn(asks, n, c);
    } else {
      assert !GrantedOn(asks, n, c);
    }
  }

  lemma KnowsOffStep(asks: seq<Ask>, n: nat, j: nat)
    requires Clocked(asks) && n < |asks| && j < |asks| && KnowsOff(asks, n, asks[j].cmdId)
    ensures KnowsOff(asks, n + 1, asks[j].cmdId)
  {
    hide Boost, Elapsed;
    var c, a, b := asks[j].cmdId, asks[n], Boost(asks[..n]);
    BoostStep(asks, n);
    assert Accepted(asks, n) == Passes(b, a);
    assert asks[n].cmdId != c + CANCEL_CMDID_PREFIX;
    if Is(asks, n, true, c) {
      var m := n + 1;
      assert forall i :: 0 <= i < m ==> !StandingOff(asks, i, c, m);
    } else {
      assert forall i :: 0 <= i < n ==> StandingOff(asks, i, c, n + 1) == StandingOff(asks, i, c, n);
      if Is(asks, n, false, c) && Passes(b, a) {
        assert StandingOff(asks, n, c, n + 1);
      } else {
        assert !StandingOff(asks, n, c, n + 1);
      }
    }
  }

  lemma {:induction false} Knows(asks: seq<Ask>, n: nat, j: nat)
    requires Clocked(asks) && n <= |asks| && j < |asks|
    ensures KnowsOn(asks, n, asks[j].cmdId) && KnowsOff(asks, n, asks[j].cmdId)
  {
    if n == 0 {
      assert asks[..0] == [];
    } else {
      hide KnowsOn, KnowsOff, Clocked;
      Knows(asks, n - 1, j);
      KnowsOnStep(asks, n - 1, j);
      KnowsOffStep(asks, n - 1, j);
    }
  }

  lemma ElapsedIs(since: int, now: int)
    requires 0 <= since <= now < TWO_TO_THE_64
    ensures Elapsed(since, now) == now - since
  {
  }

  /** An ON is let through exactly when every earlier ON of the command that was let through is more than
      the interval ago. So accepted ONs of one command are more than 8 ms apart, and OFFs do not matter. */
  lemma OnVerdict(asks: seq<Ask>, j: nat)
    requires Clocked(asks) && j < |asks| && asks[j].on
    ensures Accepted(asks, j) <==>
      forall i :: 0 <= i < j && GrantedOn(asks, i, asks[j].cmdId) ==> asks[j].at - asks[i].at > 8
  {
    var c, b := asks[j].cmdId, Boost(asks[..j]);
    Knows(asks, j, j);
    hide Boost, Elapsed;
    if c in b {
      ElapsedIs(b[c], asks[j].at);
    }
  }

  /** An OFF is let through exactly when every earlier OFF of the command that was let through is more than
      the interval ago or has been followed by an ON attempt. */
  lemma OffVerdict(asks: seq<Ask>, j: nat)
    requires Clocked(asks) && j < |asks| && !asks[j].on
    ensures Accepted(asks, j) <==>
      forall i :: 0 <= i < j && StandingOff(asks, i, asks[j].cmdId, j) ==> asks[j].at - asks[i].at > 8
  {
    var c, b := asks[j].cmdId, Boost(asks[..j]);
    var d := c + CANCEL_CMDID_PREFIX;
    Knows(asks, j, j);
    hide Boost, Elapsed;
    if d in b {
      if b[d] == 0 {
        ElapsedIs(0, asks[j].at);
      } else {
        ElapsedIs(b[d], asks[j].at);
      }
    }
  }

  /** From an ON attempt until the next OFF of the command, its cancel time stays 0. */
  lemma {:induction false} OpenSince(asks: seq<Ask>, i: nat, j: nat, c: int)
    requires i < j <= |asks| && Is(asks, i, true, c)
    requires forall k :: i < k < j ==> !Is(asks, k, false, c)
    requires forall k :: 0 <= k < j ==> asks[k].cmdId != c + CANCEL_CMDID_PREFIX
    ensures var b, d := Boost(asks[..j]), c + CANCEL_CMDID_PREFIX; d in b && b[d] == 0
  {
    hide Boost, Passes;
    BoostStep(asks, j - 1);
    if i < j - 1 {
      OpenSince(asks, i, j - 1, c);
      assert !Is(asks, j - 1, false, c);
    }
  }

  /** The first OFF of a command after any ON attempt, accepted or not, is let through, provided the clock
      itself has passed the interval; before that it is refused. */
  lemma FirstOffVerdict(asks: seq<Ask>, i: nat, j: nat)
    requires i < j < |asks| && Is(asks, i, true, asks[j].cmdId) && !asks[j].on && 0 <= asks[j].at < 0x1_0000_0000_0000_0000
    requires forall k :: i < k < j ==> !Is(asks, k, false, asks[j].cmdId)
    requires forall k :: 0 <= k < j ==> asks[k].cmdId != asks[j].cmdId + 100000
    ensures Accepted(asks, j) <==> asks[j].at > 8
  {
    OpenSince(asks, i, j, asks[j].cmdId);
    ElapsedIs(0, asks[j].at);
    hide Boost, Elapsed;
  }

  // ---- any clock ---------------------------------------------------------------------------------------------

  /** Ask `i` is the last ON of the command let through among the first `n`. */
  predicate LastGranted(asks: seq<Ask>, i: int, c: int, n: int) {
    GrantedOn(asks, i, c) && i < n <= |asks| && forall k :: i < k < n ==> !GrantedOn(asks, k, c)
  }

  /** What boostTime_ holds under the command's own id: the time of the last ON let through. */
  ghost predicate Records(asks: seq<Ask>, n: nat, c: int)
    requires n <= |asks|
  {
    var b := Boost(asks[..n]);
    && ((forall i :: 0 <= i < n ==> !GrantedOn(asks, i, c)) ==> c !in b)
    && (forall i :: LastGranted(asks, i, c, n) ==> c in b && b[c] == asks[i].at)
  }

  lemma OnAfter(b: map<int, int>, a: Ask, c: int)
    requires a.cmdId + 100000 != c
    ensures if a.on && a.cmdId == c && Passes(b, a) then c in After(b, a) && After(b, a)[c] == a.at
      else (c in After(b, a) <==> c in b) && (c in b ==> After(b, a)[c] == b[c])
  {
    hide Elapsed;
  }

  lemma {:induction false} OnRecord(asks: seq<Ask>, n: nat, c: int)
    requires n <= |asks| && forall k :: 0 <= k < n ==> asks[k].cmdId + 100000 != c
    ensures Records(asks, n, c)
  {
    if n == 0 {
      assert asks[..0] == [];
    } else {
      var m := n - 1;
      OnRecord(asks, m, c);
      BoostStep(asks, m);
      OnAfter(Boost(asks[..m]), asks[m], c);
      hide Boost, Elapsed, After;
      assert GrantedOn(asks, m, c) <==> asks[m].on && asks[m].cmdId == c && Passes(Boost(asks[..m]), asks[m]);
      hide GrantedOn;
      if !GrantedOn(asks, m, c) {
        assert forall i :: LastGranted(asks, i, c, n) ==> LastGranted(asks, i, c, m);
      } else {
        assert forall i :: LastGranted(asks, i, c, n) ==> i == m;
      }
    }
  }

  /** Whatever the clock does, an ON is let through exactly if none was before, or the clock reads less than at the
      last one that was, or more than 8 ms more: a clock that has gone back lets everything through. */
  lemma OnVerdictAnyClock(asks: seq<Ask>, j: nat)
    requires j < |asks| && asks[j].on && forall k :: 0 <= k < j ==> asks[k].cmdId + 100000 != asks[j].cmdId
    requires forall k :: 0 <= k <= j ==> 0 <= asks[k].at < 0x8000_0000_0000_0000
    ensures (forall i :: 0 <= i < j ==> !GrantedOn(asks, i, asks[j].cmdId)) ==> Accepted(asks, j)
    ensures forall i :: LastGranted(asks, i, asks[j].cmdId, j) ==>
      (Accepted(asks, j) <==> asks[j].at < asks[i].at || asks[j].at > asks[i].at + 8)
  {
    OnRecord(asks, j, asks[j].cmdId);
    hide Boost, GrantedOn;
    var b := Boost(asks[..j]);
    assert Accepted(asks, j) == Passes(b, asks[j]);
  }
}
