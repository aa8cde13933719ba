/** The device-mode table of a command: from a mode name to the command that replaces it in that mode. */
module ModeTable {
  import opened Common
  import opened Split

  const SPLIT_OR: char := '|'
  const SPLIT_EQUAL: char := '='

  class ModeMap {
    const mode: string
    var cmdId: int

    constructor (mode: string, cmdId: int)
      ensures this.mode == mode && this.cmdId == cmdId
    {
      this.mode, this.cmdId := mode, cmdId;
    }
  }

  /** What a table says, in its order. */
  ghost function Said(modeMap: seq<ModeMap>): (t: seq<(string, int)>)
    reads modeMap
    ensures |t| == |modeMap| && forall i :: 0 <= i < |t| ==> t[i] == (modeMap[i].mode, modeMap[i].cmdId)
  {
    seq(|modeMap|, i requires 0 <= i < |modeMap| reads modeMap => (modeMap[i].mode, modeMap[i].cmdId))
  }

  /** Each mode has one entry. */
  predicate Unique(t: seq<(string, int)>) {
    forall i, j :: 0 <= i < j < |t| ==> t[i].0 != t[j].0
  }

  /** What the table has for a mode. */
  function CommandFor(t: seq<(string, int)>, mode: string): Option<int> {
    if t == [] then None else if t[0].0 == mode then Some(t[0].1) else CommandFor(t[1..], mode)
  }

  /** One entry of the string: a mode name and a number, with an equals sign between them. */
  function Entry(piece: string, atoi: string -> int): Option<(string, int)> {
    var pair := Pieces(piece, SPLIT_EQUAL);
    if |pair| == 2 && pair[0] != "" && NumberLike(pair[1]) then Some((pair[0], atoi(pair[1]))) else None
  }

  /** The last valid entry for a mode. */
  function LastEntry(pieces: seq<string>, atoi: string -> int, mode: string): Option<int> {
    if pieces == [] then None
    else
      var e := Entry(pieces[|pieces| - 1], atoi);
      if e.Some? && e.value.0 == mode then Some(e.value.1) else LastEntry(pieces[..|pieces| - 1], atoi, mode)
  }

  /** A table brought up to date with some pieces: what it now has for each mode, with the modes it had before
      where they were. */
  ghost predicate Updated(before: seq<(string, int)>, after: seq<(string, int)>, pieces: seq<string>, atoi: string -> int) {
    && Unique(after)
    && |before| <= |after|
    && (forall i :: 0 <= i < |before| ==> after[i].0 == before[i].0)
    && (forall i :: |before| <= i < |after| ==> LastEntry(pieces, atoi, after[i].0).Some?)
    && forall mode {:trigger CommandFor(after, mode)} ::
      CommandFor(after, mode) == OrElse(LastEntry(pieces, atoi, mode), CommandFor(before, mode))
  }

  lemma {:induction false} CommandAt(t: seq<(string, int)>, i: nat)
    requires Unique(t) && i < |t|
    ensures CommandFor(t, t[i].0) == Some(t[i].1)
  {
    if i > 0 {
      assert Unique(t[1..]);
      CommandAt(t[1..], i - 1);
    }
  }

  lemma {:induction false} CommandNone(t: seq<(string, int)>, mode: string)
    ensures CommandFor(t, mode).None? <==> forall i :: 0 <= i < |t| ==> t[i].0 != mode
  {
    if t != [] {
      CommandNone(t[1..], mode);
      if CommandFor(t, mode).None? {
        forall i | 0 <= i < |t| ensures t[i].0 != mode {
          if i > 0 { assert t[i] == t[1..][i - 1]; }
        }
      }
    }
  }

  /** A new command for a mode the table has. */
  lemma {:induction false} CommandSet(t: seq<(string, int)>, i: nat, cmdId: int, mode: string)
    requires Unique(t) && i < |t|
    ensures CommandFor(t[i := (t[i].0, cmdId)], mode) == if mode == t[i].0 then Some(cmdId) else CommandFor(t, mode)
  {
    var u := t[i := (t[i].0, cmdId)];
    if i == 0 {
      assert u[1..] == t[1..];
    } else {
      assert u[1..] == t[1..][i - 1 := (t[i].0, cmdId)];
      assert t[0].0 != t[i].0;
      CommandSet(t[1..], i - 1, cmdId, mode);
    }
  }

  lemma {:induction false} CommandAdded(t: seq<(string, int)>, e: (string, int), mode: string)
    ensures CommandFor(t + [e], mode) == OrElse(CommandFor(t, mode), if mode == e.0 then Some(e.1) else None)
  {
    if t == [] {
      assert [] + [e] == [e] && [e][1..] == [];
    } else {
      assert (t + [e])[1..] == t[1..] + [e];
      CommandAdded(t[1..], e, mode);
    }
  }

  // ---- what the table comes to ------------------------------------------------------------------------------

  /** A piece that gives a mode a number. */
  predicate Names(piece: string, mode: string, number: string) {
    piece == mode + "=" + number && mode != "" && '=' !in mode && NumberLike(number)
  }

  lemma EntryMeans(piece: string, atoi: string -> int, mode: string)
    ensures forall number :: Names(piece, mode, number) ==> Entry(piece, atoi) == Some((mode, atoi(number)))
    ensures Entry(piece, atoi).Some? && Entry(piece, atoi).value.0 == mode ==> exists number :: Names(piece, mode, number)
  {
    JoinOfPieces(piece, '=');
    var pair := Pieces(piece, '=');
    if |pair| == 2 {
      assert pair == [pair[0]] + [pair[1]];
      JoinCons(pair[0], [pair[1]], '=');
      assert piece == pair[0] + "=" + pair[1];
    }
    forall number | Names(piece, mode, number) ensures Entry(piece, atoi) == Some((mode, atoi(number))) {
      JoinCons(mode, [number], '=');
      assert '=' !in number;
      PiecesOfJoin([mode] + [number], '=');
      assert Join([mode] + [number], '=') == piece;
    }
    if Entry(piece, atoi).Some? && Entry(piece, atoi).value.0 == mode {
      assert Names(piece, mode, pair[1]);
    }
  }

  /** Piece `k` is the last that names the mode. */
  ghost predicate LastNaming(pieces: seq<string>, k: int, mode: string, number: string) {
    0 <= k < |pieces| && Names(pieces[k], mode, number) && forall j, n :: k < j < |pieces| ==> !Names(pieces[j], mode, n)
  }

  lemma {:induction false} LastEntryMeans(pieces: seq<string>, atoi: string -> int, mode: string)
    ensures forall k, number :: LastNaming(pieces, k, mode, number) ==> LastEntry(pieces, atoi, mode) == Some(atoi(number))
    ensures LastEntry(pieces, atoi, mode).Some? ==> exists k, number :: LastNaming(pieces, k, mode, number)
    ensures LastEntry(pieces, atoi, mode).None? <==> forall k, number :: 0 <= k < |pieces| ==> !Names(pieces[k], mode, number)
    decreases |pieces|
  {
    if pieces != [] {
      var m := |pieces| - 1;
      EntryMeans(pieces[m], atoi, mode);
      LastEntryMeans(pieces[..m], atoi, mode);
      hide Entry, Names;
      if number :| Names(pieces[m], mode, number) {
        assert LastNaming(pieces, m, mode, number);
      } else if LastEntry(pieces[..m], atoi, mode).Some? {
        var k, number :| LastNaming(pieces[..m], k, mode, number);
        assert LastNaming(pieces, k, mode, number);
      }
      forall k, number | LastNaming(pieces, k, mode, number) ensures LastEntry(pieces, atoi, mode) == Some(atoi(number)) {
        if k < m {
          assert LastNaming(pieces[..m], k, mode, number);
        }
      }
    }
  }

  lemma CommandIn(t: seq<(string, int)>, mode: string, v: int)
    requires Unique(t)
    ensures (mode, v) in t <==> CommandFor(t, mode) == Some(v)
  {
    CommandNone(t, mode);
    if i :| 0 <= i < |t| && t[i].0 == mode {
      CommandAt(t, i);
      assert forall j :: 0 <= j < |t| && t[j].0 == mode ==> j == i;
    }
  }

  /** Once a string has been read the table has, for a mode, the number of the last piece between bars that gives the
      mode one, and what it had before if none does. */
  lemma TableMeans(before: seq<(string, int)>, after: seq<(string, int)>, text: string, atoi: string -> int, mode: string, v: int)
    requires Unique(before) && Updated(before, after, Pieces(text, '|'), atoi)
    ensures var pieces := Pieces(text, '|');
      (mode, v) in after <==>
        || (exists k, number :: LastNaming(pieces, k, mode, number) && v == atoi(number))
        || ((forall k, number :: 0 <= k < |pieces| ==> !Names(pieces[k], mode, number)) && (mode, v) in before)
  {
    var pieces := Pieces(text, '|');
    CommandIn(before, mode, v);
    CommandIn(after, mode, v);
    LastEntryMeans(pieces, atoi, mode);
    hide Unique, LastEntry, Names, CommandFor;
    if LastEntry(pieces, atoi, mode).Some? {
      var k, number :| LastNaming(pieces, k, mode, number);
      assert LastEntry(pieces, atoi, mode) == Some(atoi(number));
    }
  }

  // ---- keeping it up to date ---------------------------------------------------------------------------------

  lemma LastEntryStep(pieces: seq<string>, k: nat, atoi: string -> int, mode: string)
    requires k < |pieces|
    ensures LastEntry(pieces[..k + 1], atoi, mode) ==
      var e := Entry(pieces[k], atoi);
      if e.Some? && e.value.0 == mode then Some(e.value.1) else LastEntry(pieces[..k], atoi, mode)
  {
    assert pieces[..k + 1][..k] == pieces[..k];
  }

  /** One more piece that is no valid entry. */
  lemma UpdatedSkip(before: seq<(string, int)>, t: seq<(string, int)>, pieces: seq<string>, k: nat, atoi: string -> int)
    requires k < |pieces| && Updated(before, t, pieces[..k], atoi) && Entry(pieces[k], atoi).None?
    ensures Updated(before, t, pieces[..k + 1], atoi)
  {
    hide Entry, LastEntry, Unique, CommandFor;
    forall mode ensures LastEntry(pieces[..k + 1], atoi, mode) == LastEntry(pieces[..k], atoi, mode) {
      LastEntryStep(pieces, k, atoi, mode);
    }
  }

  /** One more entry, for a mode that is there. */
  lemma UpdatedSet(before: seq<(string, int)>, t: seq<(string, int)>, pieces: seq<string>, k: nat, atoi: string -> int, i: nat)
    requires k < |pieces| && Updated(before, t, pieces[..k], atoi)
    requires i < |t| && Entry(pieces[k], atoi).Some? && Entry(pieces[k], atoi).value.0 == t[i].0
    ensures Updated(before, t[i := Entry(pieces[k], atoi).value], pieces[..k + 1], atoi)
  {
    var e := Entry(pieces[k], atoi).value;
    var u := t[i := e];
    hide Entry, LastEntry, CommandFor;
    assert Unique(u);
    hide Unique;
    forall mode ensures CommandFor(u, mode) == OrElse(LastEntry(pieces[..k + 1], atoi, mode), CommandFor(before, mode)) {
      LastEntryStep(pieces, k, atoi, mode);
      CommandSet(t, i, e.1, mode);
    }
    forall j | |before| <= j < |u| ensures LastEntry(pieces[..k + 1], atoi, u[j].0).Some? {
      LastEntryStep(pieces, k, atoi, u[j].0);
    }
  }

  /** One more entry, for a mode that is not there yet. */
  lemma UpdatedAdd(before: seq<(string, int)>, t: seq<(string, int)>, pieces: seq<string>, k: nat, atoi: string -> int)
    requires k < |pieces| && Updated(before, t, pieces[..k], atoi) && Entry(pieces[k], atoi).Some?
    requires forall i :: 0 <= i < |t| ==> t[i].0 != Entry(pieces[k], atoi).value.0
    ensures Updated(before, t + [Entry(pieces[k], atoi).value], pieces[..k + 1], atoi)
  {
    var e := Entry(pieces[k], atoi).value;
    var u := t + [e];
    hide Entry, LastEntry, CommandFor;
    CommandNone(t, e.0);
    assert Unique(u);
    hide Unique;
    forall mode ensures CommandFor(u, mode) == OrElse(LastEntry(pieces[..k + 1], atoi, mode), CommandFor(before, mode)) {
      LastEntryStep(pieces, k, atoi, mode);
      CommandAdded(t, e, mode);
    }
    forall j | |before| <= j < |u| ensures LastEntry(pieces[..k + 1], atoi, u[j].0).Some? {
      LastEntryStep(pieces, k, atoi, u[j].0);
    }
  }

  class ModeActions {
    var modeMap: seq<ModeMap>

    constructor ()
      ensures modeMap == []
    {
      modeMap := [];
    }

    /** Find the entry of a mode. */
    method FindMode(mode: string) returns (i: nat)
      ensures i <= |modeMap| && (i < |modeMap| ==> modeMap[i].mode == mode)
      ensures forall k :: 0 <= k < i ==> modeMap[k].mode != mode
    {
      i := 0;
      while i < |modeMap| && modeMap[i].mode != mode
        invariant i <= |modeMap|
        invariant forall k :: 0 <= k < i ==> modeMap[k].mode != mode
      {
        i := i + 1;
      }
    }

    /** Overwrite the entry of a mode in place, or add one at the end. */
    method SetMode(mode: string, cmdId: int)
      requires Unique(Said(modeMap))
      modifies this`modeMap, modeMap
      ensures var t := old(Said(modeMap));
        || (exists i :: 0 <= i < |t| && t[i].0 == mode && Said(modeMap) == t[i := (mode, cmdId)] && modeMap == old(modeMap))
        || ((forall i :: 0 <= i < |t| ==> t[i].0 != mode) && Said(modeMap) == t + [(mode, cmdId)]
            && fresh(modeMap[|t|]) && modeMap[..|t|] == old(modeMap))
    {
      ghost var t := Said(modeMap);
      var i := FindMode(mode);
      if i < |modeMap| {
        assert forall k :: 0 <= k < |modeMap| && k != i ==> t[k].0 != t[i].0;
        modeMap[i].cmdId := cmdId;
        assert t[i].0 == mode && Said(modeMap) == t[i := (mode, cmdId)];
      } else {
        var newMode := new ModeMap(mode, cmdId);
        modeMap := modeMap + [newMode];
        assert Said(modeMap) == t + [(mode, cmdId)];
      }
    }

    /** Read a mode string into the table: mode names stay unique, and the table then has for each mode the last
        valid entry of the string, or what it had before. A missing string changes nothing. */
    method ParseModeCmd(mode: Option<string>, atoi: string -> int)
      requires Unique(Said(modeMap))
      modifies this`modeMap, modeMap
      ensures Updated(old(Said(modeMap)), Said(modeMap), if mode.None? then [] else Pieces(mode.value, '|'), atoi)
    {
      if mode.None? {
        return;
      }
      var modeListResult := SplitEx(mode.value, SPLIT_OR);
      ghost var before := Said(modeMap);
      hide Entry, LastEntry, Updated, CommandFor;
      assert modeListResult[..0] == [];
      NothingRead(before, atoi);
      var k := 0;
      while k < |modeListResult|
        invariant k <= |modeListResult| && Updated(before, Said(modeMap), modeListResult[..k], atoi)
        invariant forall i :: 0 <= i < |modeMap| ==> modeMap[i] in old(modeMap) || fresh(modeMap[i])
      {
        UpdatedUnique(before, Said(modeMap), modeListResult[..k], atoi);
        ParsePiece(before, modeListResult, k, atoi);
        k := k + 1;
      }
      assert modeListResult[..k] == modeListResult;
    }

    /** One piece of the string. */
    method ParsePiece(ghost before: seq<(string, int)>, pieces: seq<string>, k: nat, atoi: string -> int)
      requires k < |pieces| && Unique(Said(modeMap)) && Updated(before, Said(modeMap), pieces[..k], atoi)
      modifies this`modeMap, modeMap
      ensures Updated(before, Said(modeMap), pieces[..k + 1], atoi)
      ensures forall i :: 0 <= i < |modeMap| ==> modeMap[i] in old(modeMap) || fresh(modeMap[i])
    {
      hide Updated, LastEntry, CommandFor;
      ghost var t := Said(modeMap);
      var itemPair := SplitEx(pieces[k], SPLIT_EQUAL);
      var number := true;
      if |itemPair| == 2 {
        number := IsNumber(itemPair[1]);
      }
      if |itemPair| != 2 || itemPair[0] == "" || !number {
        UpdatedSkip(before, t, pieces, k, atoi);
        return;
      }
      assert Entry(pieces[k], atoi) == Option.Some((itemPair[0], atoi(itemPair[1])));
      hide Entry, Unique;
      SetMode(itemPair[0], atoi(itemPair[1]));
      if i :| 0 <= i < |t| && t[i].0 == itemPair[0] && Said(modeMap) == t[i := (itemPair[0], atoi(itemPair[1]))] {
        UpdatedSet(before, t, pieces, k, atoi, i);
      } else {
        UpdatedAdd(before, t, pieces, k, atoi);
      }
    }
  }

  lemma NothingRead(before: seq<(string, int)>, atoi: string -> int)
    requires Unique(before)
    ensures Updated(before, before, [], atoi)
  {
  }

  lemma UpdatedUnique(before: seq<(string, int)>, t: seq<(string, int)>, pieces: seq<string>, atoi: string -> int)
    requires Updated(before, t, pieces, atoi)
    ensures Unique(t)
  {
  }
}
