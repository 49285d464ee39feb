/**
 * The server's roster: the ordered array of player records that the
 * `start`, `disconnect` and `player coordinates` handlers change.
 */
module Roster {
  import opened Results
  import opened Grid

  /** One roster entry, keyed by the id of the socket that created it. */
  datatype Player = Player(id: string, x: int, y: int, score: int)

  function Position(p: Player): Point
  {
    Point(p.x, p.y)
  }

  /** The number of entries carrying `sid`. */
  function Count(ps: seq<Player>, sid: string): (n: nat)
    ensures n <= |ps|
    ensures n == 0 <==> forall i :: 0 <= i < |ps| ==> ps[i].id != sid
  {
    if |ps| == 0 then 0
    else (if ps[0].id == sid then 1 else 0) + Count(ps[1..], sid)
  }

  ghost predicate UniqueIds(ps: seq<Player>)
  {
    forall i, j :: 0 <= i < j < |ps| ==> ps[i].id != ps[j].id
  }

  // ---------------------------------------------------------------- admit

  /** The `start` handler: a new record for socket `sid` at the current start
      point with score 0 is appended. There is no check for an existing entry
      with the same id. */
  function Admit(ps: seq<Player>, sid: string, start: Point): (r: seq<Player>)
    ensures |r| == |ps| + 1
    ensures forall i :: 0 <= i < |ps| ==> r[i] == ps[i]
    ensures r[|ps|].id == sid && Position(r[|ps|]) == start && r[|ps|].score == 0
  {
    ps + [Player(sid, start.x, start.y, 0)]
  }

  /** Admission always adds one more entry for `sid`, even when one exists. */
  lemma {:induction false} AdmitAddsOneEntry(ps: seq<Player>, sid: string, start: Point)
    ensures Count(Admit(ps, sid, start), sid) == Count(ps, sid) + 1
  {
    CountAppend(ps, Player(sid, start.x, start.y, 0), sid);
  }

  lemma {:induction false} CountAppend(ps: seq<Player>, p: Player, sid: string)
    ensures Count(ps + [p], sid) == Count(ps, sid) + (if p.id == sid then 1 else 0)
  {
    if |ps| > 0 {
      assert (ps + [p])[1..] == ps[1..] + [p];
      CountAppend(ps[1..], p, sid);
    }
  }

  /** Admitting a socket that has no entry keeps ids unique; admitting one
      that does breaks uniqueness. */
  lemma AdmitUniqueness(ps: seq<Player>, sid: string, start: Point)
    requires UniqueIds(ps)
    ensures UniqueIds(Admit(ps, sid, start)) <==> Count(ps, sid) == 0
  {
    var r := Admit(ps, sid, start);
    if Count(ps, sid) != 0 {
      var i :| 0 <= i < |ps| && ps[i].id == sid;
      assert r[i].id == r[|ps|].id;
    }
  }

  // --------------------------------------------------------------- remove

  /** The reference meaning of "remove the player with id `sid`": every other
      entry, in order. */
  function Filter(ps: seq<Player>, sid: string): (r: seq<Player>)
    ensures |r| == |ps| - Count(ps, sid)
    ensures forall i :: 0 <= i < |r| ==> r[i].id != sid && r[i] in ps
  {
    if |ps| == 0 then []
    else if ps[0].id == sid then Filter(ps[1..], sid)
    else [ps[0]] + Filter(ps[1..], sid)
  }

  /** What the `disconnect` handler's forward loop with an in-place `splice`
      computes: a matching entry is dropped, and the entry that slides into
      its slot is passed over without being compared. */
  function SkipRemove(ps: seq<Player>, sid: string): seq<Player>
  {
    if |ps| == 0 then []
    else if ps[0].id == sid then
      (if |ps| == 1 then [] else [ps[1]] + SkipRemove(ps[2..], sid))
    else [ps[0]] + SkipRemove(ps[1..], sid)
  }

  /** The handler's loop as written: `for (i = 0; i < players.length; i++)
      if (id == players[i].playerID) players.splice(i, 1)`. */
  method DisconnectLoop(players: seq<Player>, sid: string) returns (r: seq<Player>)
    ensures r == SkipRemove(players, sid)
  {
    r := players;
    var i := 0;
    while i < |r|
      invariant 0 <= i <= |r| + 1
      invariant i <= |r| ==> r[..i] + SkipRemove(r[i..], sid) == SkipRemove(players, sid)
      invariant i == |r| + 1 ==> r == SkipRemove(players, sid)
      decreases |r| + 1 - i
    {
      if sid == r[i].id {
        SpliceStep(r, i, sid);
        r := r[..i] + r[i + 1..];
      } else {
        KeepStep(r, i, sid);
      }
      i := i + 1;
    }
    if i == |r| {
      assert r[..i] == r && r[i..] == [];
    }
  }

  /** One iteration that splices out entry `i`: the slot `i` now holds the
      former entry `i + 1`, which the next iteration never looks at. */
  lemma SpliceStep(r: seq<Player>, i: nat, sid: string)
    requires i < |r| && r[i].id == sid
    ensures i + 1 < |r| ==>
      var next := r[..i] + r[i + 1..];
      next[..i + 1] + SkipRemove(next[i + 1..], sid) == r[..i] + SkipRemove(r[i..], sid)
    ensures i + 1 == |r| ==> r[..i] + r[i + 1..] == r[..i] + SkipRemove(r[i..], sid)
  {
    var next := r[..i] + r[i + 1..];
    if i + 1 < |r| {
      assert r[i..][1] == r[i + 1];
      assert r[i..][2..] == r[i + 2..] == next[i + 1..];
      assert next[..i + 1] == r[..i] + [r[i + 1]];
    } else {
      assert r[i..] == [r[i]];
    }
  }

  /** One iteration that keeps entry `i`. */
  lemma KeepStep(r: seq<Player>, i: nat, sid: string)
    requires i < |r| && r[i].id != sid
    ensures r[..i + 1] + SkipRemove(r[i + 1..], sid) == r[..i] + SkipRemove(r[i..], sid)
  {
    assert r[i..][1..] == r[i + 1..];
    assert r[..i + 1] == r[..i] + [r[i]];
  }

  /** Whatever the duplicates, the loop only ever drops entries for `sid`:
      every other entry survives in order, and at least one entry for `sid`
      goes when there is one. */
  lemma {:induction false} SkipRemoveKeepsOthers(ps: seq<Player>, sid: string)
    ensures Filter(SkipRemove(ps, sid), sid) == Filter(ps, sid)
    ensures Count(SkipRemove(ps, sid), sid) <= Count(ps, sid)
    ensures Count(ps, sid) > 0 ==> Count(SkipRemove(ps, sid), sid) < Count(ps, sid)
    ensures Count(ps, sid) == 0 ==> SkipRemove(ps, sid) == ps
  {
    if |ps| == 0 {
    } else if ps[0].id == sid {
      if |ps| > 1 {
        SkipRemoveKeepsOthers(ps[2..], sid);
        var r := SkipRemove(ps, sid);
        assert r[1..] == SkipRemove(ps[2..], sid);
        assert ps[1..][1..] == ps[2..];
      }
    } else {
      SkipRemoveKeepsOthers(ps[1..], sid);
      var r := SkipRemove(ps, sid);
      assert r[1..] == SkipRemove(ps[1..], sid);
    }
  }

  /** No two neighbouring entries both carry `sid`. */
  ghost predicate NoAdjacentPair(ps: seq<Player>, sid: string)
  {
    forall i :: 0 <= i < |ps| - 1 ==> ps[i].id != sid || ps[i + 1].id != sid
  }

  /** Unless two entries for `sid` sit side by side, the loop removes exactly
      the entries for `sid` and keeps every other one in order. */
  lemma {:induction false} SkipRemoveIsFilter(ps: seq<Player>, sid: string)
    requires NoAdjacentPair(ps, sid)
    ensures SkipRemove(ps, sid) == Filter(ps, sid)
  {
    if |ps| == 0 {
    } else if ps[0].id == sid {
      if |ps| > 1 {
        assert ps[1].id != sid;
        assert ps[1..][1..] == ps[2..];
        assert NoAdjacentPair(ps[2..], sid);
        SkipRemoveIsFilter(ps[2..], sid);
      }
    } else {
      assert NoAdjacentPair(ps[1..], sid);
      SkipRemoveIsFilter(ps[1..], sid);
    }
  }

  /** Two neighbouring entries for `sid` always leave one of them behind:
      either the first is compared and removed and the second is passed over,
      or the first is itself passed over. */
  lemma {:induction false} AdjacentPairSurvives(ps: seq<Player>, sid: string)
    requires !NoAdjacentPair(ps, sid)
    ensures Count(SkipRemove(ps, sid), sid) > 0
  {
    var i :| 0 <= i < |ps| - 1 && ps[i].id == sid && ps[i + 1].id == sid;
    var r := SkipRemove(ps, sid);
    if ps[0].id == sid {
      if ps[1].id == sid {
        assert r[0] == ps[1];
      } else {
        assert i >= 2 && ps[2..][i - 2] == ps[i] && ps[2..][i - 1] == ps[i + 1];
        AdjacentPairSurvives(ps[2..], sid);
        assert r[1..] == SkipRemove(ps[2..], sid);
      }
    } else {
      assert i >= 1 && ps[1..][i - 1] == ps[i] && ps[1..][i] == ps[i + 1];
      AdjacentPairSurvives(ps[1..], sid);
      assert r[1..] == SkipRemove(ps[1..], sid);
    }
  }

  /** The loop clears every entry for `sid` exactly when no two of them are
      neighbours. */
  lemma {:induction false} DisconnectClearsIff(ps: seq<Player>, sid: string)
    ensures Count(SkipRemove(ps, sid), sid) == 0 <==> NoAdjacentPair(ps, sid)
  {
    if NoAdjacentPair(ps, sid) {
      SkipRemoveIsFilter(ps, sid);
    } else {
      AdjacentPairSurvives(ps, sid);
    }
  }

  /** With unique ids a disconnect removes the one entry for `sid` (if any),
      keeps all others in order, and leaves ids unique. */
  lemma {:induction false} DisconnectUnique(ps: seq<Player>, sid: string)
    requires UniqueIds(ps)
    ensures SkipRemove(ps, sid) == Filter(ps, sid)
    ensures Count(SkipRemove(ps, sid), sid) == 0
    ensures |SkipRemove(ps, sid)| == |ps| - Count(ps, sid)
    ensures Count(ps, sid) == 0 ==> SkipRemove(ps, sid) == ps
    ensures UniqueIds(SkipRemove(ps, sid))
  {
    SkipRemoveIsFilter(ps, sid);
    FilterSubsequence(ps, sid);
    if Count(ps, sid) == 0 {
      FilterAbsent(ps, sid);
    }
  }

  lemma {:induction false} FilterAbsent(ps: seq<Player>, sid: string)
    requires Count(ps, sid) == 0
    ensures Filter(ps, sid) == ps
  {
    if |ps| > 0 {
      assert Count(ps[1..], sid) == 0;
      FilterAbsent(ps[1..], sid);
    }
  }

  /** Filtering a unique roster keeps it unique. */
  lemma {:induction false} FilterSubsequence(ps: seq<Player>, sid: string)
    requires UniqueIds(ps)
    ensures UniqueIds(Filter(ps, sid))
  {
    if |ps| > 0 {
      FilterSubsequence(ps[1..], sid);
      var rest := Filter(ps[1..], sid);
      if ps[0].id != sid {
        forall i | 0 <= i < |rest| ensures rest[i].id != ps[0].id {
          var k :| 0 <= k < |ps[1..]| && ps[1..][k] == rest[i];
          assert ps[k + 1] == rest[i];
        }
      }
    }
  }

  /** The loop's blind spot: the first entry for `sid`, at `i`, is spliced
      out and the entry behind it slides into slot `i`, which the loop then
      steps past without comparing. So a duplicate right behind it survives. */
  lemma {:induction false} AdjacentDuplicateSurvives(ps: seq<Player>, sid: string, i: nat)
    requires i + 1 < |ps| && ps[i].id == sid && Count(ps[..i], sid) == 0
    ensures |SkipRemove(ps, sid)| > i && SkipRemove(ps, sid)[i] == ps[i + 1]
    ensures ps[i + 1].id == sid ==> Count(SkipRemove(ps, sid), sid) >= 1
    decreases i
  {
    if i > 0 {
      assert ps[..i][0] == ps[0];
      assert ps[1..][..i - 1] == ps[..i][1..];
      assert Count(ps[1..][..i - 1], sid) == 0;
      AdjacentDuplicateSurvives(ps[1..], sid, i - 1);
    }
  }

  /** Admitting a new socket and then disconnecting it restores the roster. */
  lemma AdmitThenDisconnect(ps: seq<Player>, sid: string, start: Point)
    requires Count(ps, sid) == 0
    ensures SkipRemove(Admit(ps, sid, start), sid) == ps
  {
    var r := Admit(ps, sid, start);
    assert NoAdjacentPair(r, sid) by {
      forall i | 0 <= i < |r| - 1
        ensures r[i].id != sid
      {
        assert r[i] == ps[i];
      }
    }
    SkipRemoveIsFilter(r, sid);
    FilterAppend(ps, sid, start);
  }

  lemma {:induction false} FilterAppend(ps: seq<Player>, sid: string, start: Point)
    requires Count(ps, sid) == 0
    ensures Filter(Admit(ps, sid, start), sid) == ps
  {
    if |ps| > 0 {
      assert Admit(ps, sid, start)[1..] == Admit(ps[1..], sid, start);
      FilterAppend(ps[1..], sid, start);
    }
  }

  // ----------------------------------------------------------------- find

  /** `i` is the index the move handler picks for `sid`: a matching entry
      with no matching entry after it. */
  ghost predicate IsMover(ps: seq<Player>, sid: string, i: int)
  {
    && 0 <= i < |ps|
    && ps[i].id == sid
    && forall j :: i < j < |ps| ==> ps[j].id != sid
  }

  /** The last entry carrying `sid`, if any. */
  function LastIndexOf(ps: seq<Player>, sid: string): (r: Option<nat>)
    ensures r.Some? ==> IsMover(ps, sid, r.value)
    ensures r.None? <==> Count(ps, sid) == 0
  {
    if |ps| == 0 then None
    else if ps[|ps| - 1].id == sid then Some(|ps| - 1)
    else
      var r := LastIndexOf(ps[..|ps| - 1], sid);
      assert ps == ps[..|ps| - 1] + [ps[|ps| - 1]];
      CountAppend(ps[..|ps| - 1], ps[|ps| - 1], sid);
      r
  }

  /** The move handler's search as written: a forward loop that never
      breaks, so a later match overwrites an earlier one. */
  method FindMover(players: seq<Player>, sid: string) returns (r: Option<nat>)
    ensures r == LastIndexOf(players, sid)
  {
    r := None;
    var i := 0;
    while i < |players|
      invariant 0 <= i <= |players|
      invariant r == LastIndexOf(players[..i], sid)
    {
      if sid == players[i].id {
        r := Some(i);
      }
      assert players[..i + 1][..i] == players[..i];
      i := i + 1;
    }
    assert players[..i] == players;
  }

  /** With unique ids the mover is the one entry for `sid`. */
  lemma MoverIsUnique(ps: seq<Player>, sid: string, i: int)
    requires UniqueIds(ps) && 0 <= i < |ps| && ps[i].id == sid
    ensures LastIndexOf(ps, sid) == Some(i)
  {
  }

  // ---------------------------------------------------------------- reset

  /** Every entry moved to `p`; ids and scores kept. */
  function ResetAll(ps: seq<Player>, p: Point): (r: seq<Player>)
    ensures |r| == |ps|
    ensures forall i :: 0 <= i < |r| ==> Position(r[i]) == p && r[i].id == ps[i].id && r[i].score == ps[i].score
  {
    seq(|ps|, i requires 0 <= i < |ps| => ps[i].(x := p.x, y := p.y))
  }
}
