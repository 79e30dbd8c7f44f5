/** training.py: judging a submitted move against the stored engine moves,
    choosing the next position in sequence, and the attempt log. */
module Training {
  import opened Common
  import opened Sorting
  import opened Tables

  // ---------------------------------------------------------------------
  // Lookups
  // ---------------------------------------------------------------------

  /** The first row of `moves` for this position with this move text. */
  function FindMove(moves: seq<Move>, positionId: int, move: string): (r: Option<Move>)
    ensures r.Some? ==> r.value in moves && r.value.positionId == positionId && r.value.move == move
    ensures r.None? <==> !HasMovePair(moves, positionId, move)
  {
    if moves == [] then None
    else if moves[0].positionId == positionId && moves[0].move == move then Some(moves[0])
    else
      var rest := FindMove(moves[1..], positionId, move);
      assert HasMovePair(moves, positionId, move) <==> HasMovePair(moves[1..], positionId, move) by {
        if HasMovePair(moves, positionId, move) {
          var i :| 0 <= i < |moves| && moves[i].positionId == positionId && moves[i].move == move;
          assert moves[1..][i - 1] == moves[i];
        }
        if HasMovePair(moves[1..], positionId, move) {
          var i :| 0 <= i < |moves[1..]| && moves[1..][i].positionId == positionId && moves[1..][i].move == move;
          assert moves[i + 1] == moves[1..][i];
        }
      }
      rest
  }

  /** The row of rank 1 for this position, taken as the first in table
      order when several exist. */
  function TopMove(moves: seq<Move>, positionId: int): (r: Option<Move>)
    ensures r.Some? ==> r.value in moves && r.value.positionId == positionId && r.value.rank == 1
    ensures r.None? <==> forall m | m in moves :: m.positionId != positionId || m.rank != 1
  {
    if moves == [] then None
    else if moves[0].positionId == positionId && moves[0].rank == 1 then Some(moves[0])
    else
      var rest := TopMove(moves[1..], positionId);
      assert forall m | m in moves && m != moves[0] :: m in moves[1..];
      rest
  }

  /** Under UNIQUE(position_id, move) the row with a given pair is the only
      one, so looking it up finds exactly that row. */
  lemma {:induction false} FindMoveUnique(moves: seq<Move>, i: nat)
    requires i < |moves| && MovePairsUnique(moves)
    ensures FindMove(moves, moves[i].positionId, moves[i].move) == Some(moves[i])
  {
    if i > 0 && !(moves[0].positionId == moves[i].positionId && moves[0].move == moves[i].move) {
      assert MovePairsUnique(moves[1..]) by {
        forall a, b | 0 <= a < b < |moves[1..]|
          ensures moves[1..][a].positionId != moves[1..][b].positionId || moves[1..][a].move != moves[1..][b].move
        {
          assert moves[1..][a] == moves[a + 1] && moves[1..][b] == moves[b + 1];
        }
      }
      assert moves[1..][i - 1] == moves[i];
      FindMoveUnique(moves[1..], i - 1);
    }
  }

  // ---------------------------------------------------------------------
  // validate_move
  // ---------------------------------------------------------------------

  /** The two thresholds: the user's stored values, else 3 and 10. */
  function Thresholds(settings: map<int, SettingsRow>, userId: int): (t: (SqlValue, SqlValue))
    ensures userId !in settings ==> t == (SqlInt(3), SqlInt(10))
    ensures userId in settings ==>
      t == (settings[userId].topNThreshold, settings[userId].scoreDifferenceThreshold)
  {
    if userId in settings then (settings[userId].topNThreshold, settings[userId].scoreDifferenceThreshold)
    else (SqlInt(3), SqlInt(10))
  }

  /** The dictionary `validate_move` returns. `MoveNotFound` is
      {"success": False, "message": "Move not found or position invalid"};
      `ComparisonFailed` is the TypeError that comparing an int with a
      stored NULL or text threshold raises. */
  datatype Validation =
    | MoveNotFound
    | ComparisonFailed
    | Judged(
        moveId: int,
        rank: int,
        score: int,
        classification: string,
        centipawnLoss: int,
        scoreDifference: nat,
        success: bool,
        result: string,
        message: string)

  const RankPrefix := "Move ranked #"
  const ScoreSuffix := ", but score difference too high: "

  /** `validate_move`. The comparisons run as Python runs them: the score
      test only when the rank test passed, and the rank test again for the
      message. */
  function ValidateMove(settings: map<int, SettingsRow>, moves: seq<Move>, positionId: int,
                        selectedMove: string, userId: int): (v: Validation)
    ensures v == MoveNotFound <==>
      !HasMovePair(moves, positionId, selectedMove) || TopMove(moves, positionId).None?
    ensures v.Judged? ==>
      var sel := FindMove(moves, positionId, selectedMove).value;
      var top := TopMove(moves, positionId).value;
      && v.moveId == sel.id && v.rank == sel.rank && v.score == sel.score
      && v.classification == sel.classification && v.centipawnLoss == sel.centipawnLoss
      && v.scoreDifference == Abs(sel.score - top.score)
    ensures v.Judged? ==> (v.result == "pass" <==> v.success) && (v.result == "pass" || v.result == "fail")
    ensures v.Judged? ==>
      var (topN, diffMax) := Thresholds(settings, userId);
      && topN.SqlInt?
      && (v.success <==> v.rank <= topN.i && diffMax.SqlInt? && v.scoreDifference <= diffMax.i)
      && RankPrefix + IntToString(v.rank) <= v.message
      && (|v.message| > |RankPrefix + IntToString(v.rank)| <==> v.rank <= topN.i && !v.success)
      && (v.rank <= topN.i && !v.success ==>
            v.message == RankPrefix + IntToString(v.rank) + ScoreSuffix + IntToString(v.scoreDifference))
    ensures v == ComparisonFailed <==>
      var (topN, diffMax) := Thresholds(settings, userId);
      && HasMovePair(moves, positionId, selectedMove) && TopMove(moves, positionId).Some?
      && (!topN.SqlInt? || (!diffMax.SqlInt? && FindMove(moves, positionId, selectedMove).value.rank <= topN.i))
  {
    var (topN, diffMax) := Thresholds(settings, userId);
    var selected := FindMove(moves, positionId, selectedMove);
    var top := TopMove(moves, positionId);
    if selected.None? || top.None? then MoveNotFound
    else
      var sel := selected.value;
      var diff := Abs(sel.score - top.value.score);
      if !topN.SqlInt? then ComparisonFailed
      else if sel.rank <= topN.i && !diffMax.SqlInt? then ComparisonFailed
      else
        var success := sel.rank <= topN.i && diff <= diffMax.i;
        var head := RankPrefix + IntToString(sel.rank);
        var message := if sel.rank <= topN.i && !success then head + ScoreSuffix + IntToString(diff) else head;
        Judged(sel.id, sel.rank, sel.score, sel.classification, sel.centipawnLoss, diff,
               success, if success then "pass" else "fail", message)
  }

  /** A user without a settings row is judged against the defaults: within
      the top 3 and at most 10 centipawns from the best move. */
  lemma DefaultThresholdsApply(settings: map<int, SettingsRow>, moves: seq<Move>, positionId: int,
                               selectedMove: string, userId: int)
    requires userId !in settings
    requires HasMovePair(moves, positionId, selectedMove) && TopMove(moves, positionId).Some?
    ensures var v := ValidateMove(settings, moves, positionId, selectedMove, userId);
      v.Judged? && (v.success <==> v.rank <= 3 && v.scoreDifference <= 10)
  {
  }

  /** Submitting the rank-1 move gives a score difference of 0, and it
      passes whenever the thresholds are integers with top N at least 1 and
      the allowed difference at least 0. */
  lemma TopMovePasses(settings: map<int, SettingsRow>, moves: seq<Move>, positionId: int, userId: int)
    requires MovePairsUnique(moves)
    requires TopMove(moves, positionId).Some?
    requires var (topN, diffMax) := Thresholds(settings, userId);
      topN.SqlInt? && topN.i >= 1 && diffMax.SqlInt? && diffMax.i >= 0
    ensures var top := TopMove(moves, positionId).value;
      var v := ValidateMove(settings, moves, positionId, top.move, userId);
      v.Judged? && v.scoreDifference == 0 && v.success && v.result == "pass"
      && v.message == RankPrefix + "1"
  {
    var top := TopMove(moves, positionId).value;
    var i :| 0 <= i < |moves| && moves[i] == top;
    FindMoveUnique(moves, i);
  }

  // ---------------------------------------------------------------------
  // get_position_by_id
  // ---------------------------------------------------------------------

  function MovesOf(moves: seq<Move>, positionId: int): (r: seq<Move>)
    ensures forall m | m in r :: m in moves && m.positionId == positionId
    ensures forall m | m in moves && m.positionId == positionId :: m in r
    ensures multiset(r) <= multiset(moves)
  {
    if moves == [] then []
    else
      var last := moves[|moves| - 1];
      var init := moves[..|moves| - 1];
      assert moves == init + [last];
      MovesOf(init, positionId) + (if last.positionId == positionId then [last] else [])
  }

  function Rank(m: Move): int { m.rank }

  /** A position with its moves, as `get_position_by_id` returns it. The
      view keeps the whole row and each move's `position_id`, which the
      SELECTs leave out. */
  datatype PositionView = PositionView(id: int, position: Position, moves: seq<Move>)

  /** `get_position_by_id`: None for an unknown id; otherwise the row and
      exactly its moves ordered by rank. */
  function PositionById(positions: map<int, Position>, moves: seq<Move>, positionId: int): (r: Option<PositionView>)
    ensures r.None? <==> positionId !in positions
    ensures r.Some? ==>
      && r.value.id == positionId && r.value.position == positions[positionId]
      && SortedBy(r.value.moves, Rank)
      && multiset(r.value.moves) == multiset(MovesOf(moves, positionId))
  {
    if positionId !in positions then None
    else Some(PositionView(positionId, positions[positionId], SortBy(MovesOf(moves, positionId), Rank)))
  }

  // ---------------------------------------------------------------------
  // get_sequential_position
  // ---------------------------------------------------------------------

  /** The set of position ids the user has attempted. */
  function AttemptedIds(userMoves: seq<UserMove>, userId: int): set<int>
  {
    set i | 0 <= i < |userMoves| && userMoves[i].userId == userId :: userMoves[i].positionId
  }

  lemma {:induction false} MinExists(s: set<int>)
    requires s != {}
    ensures exists m :: m in s && forall y | y in s :: m <= y
    decreases |s|
  {
    var x := PickMember(s);
    var rest := s - {x};
    if rest == {} {
      assert s == {x};
    } else {
      MinExists(rest);
      var m :| m in rest && forall y | y in rest :: m <= y;
      var least := if x < m then x else m;
      forall y | y in s ensures least <= y {
        if y != x { assert y in rest; }
      }
      assert least in s;
    }
  }

  /** The least member of a set of ids (`MIN`). */
  function MinOf(s: set<int>): (m: int)
    requires s != {}
    ensures m in s && forall y | y in s :: m <= y
  {
    MinExists(s);
    var m :| m in s && forall y | y in s :: m <= y;
    m
  }

  /** The greatest member of a set of ids (`MAX`). */
  function MaxOf(s: set<int>): (m: int)
    requires s != {}
    ensures m in s && forall y | y in s :: y <= m
  {
    var neg := set y | y in s :: -y;
    assert neg != {} by {
      var x := PickMember(s);
      assert -x in neg;
    }
    var least := MinOf(neg);
    assert forall y | y in s :: -y in neg;
    -least
  }

  /** `MAX(position_id)` over the user's attempts, with NULL and 0 read as
      0 (`if result['last_position'] else 0`). */
  function LastAttempted(userMoves: seq<UserMove>, userId: int): (last: int)
    ensures AttemptedIds(userMoves, userId) == {} ==> last == 0
    ensures AttemptedIds(userMoves, userId) != {} ==>
      last == MaxOf(AttemptedIds(userMoves, userId))
  {
    var ids := AttemptedIds(userMoves, userId);
    if ids == {} then 0 else MaxOf(ids)
  }

  /** Position ids above `last`. */
  function IdsAfter(positions: map<int, Position>, last: int): set<int>
  {
    set k | k in positions && k > last
  }

  /** `SELECT MIN(id) ... WHERE id > ?` with a falsy (NULL or 0) result
      read as None. */
  function NextAfter(positions: map<int, Position>, last: int): (r: Option<int>)
    ensures r.Some? ==>
      && r.value in positions && r.value > last && r.value != 0
      && forall k | k in positions && k > last :: r.value <= k
    ensures r.None? <==> IdsAfter(positions, last) == {} || MinOf(IdsAfter(positions, last)) == 0
  {
    var after := IdsAfter(positions, last);
    if after == {} then None
    else
      var m := MinOf(after);
      assert forall k | k in positions && k > last :: k in after;
      if m == 0 then None else Some(m)
  }

  datatype Sequential = NextPosition(view: PositionView) | NoPosition | ClosedDatabase

  /** `get_sequential_position` as written: when nothing follows the last
      attempt, the wrap-around query runs on a connection already closed
      and raises, modelled as `ClosedDatabase`. */
  function SequentialPositionAsWritten(positions: map<int, Position>, moves: seq<Move>,
                                       userMoves: seq<UserMove>, userId: int): (r: Sequential)
    ensures r.NoPosition? ==> false
    ensures r.ClosedDatabase? <==> NextAfter(positions, LastAttempted(userMoves, userId)).None?
    ensures r.NextPosition? ==>
      var last := LastAttempted(userMoves, userId);
      && r.view.id in positions && r.view.id > last
      && (forall k | k in positions && k > last :: r.view.id <= k)
      && Some(r.view) == PositionById(positions, moves, r.view.id)
  {
    var next := NextAfter(positions, LastAttempted(userMoves, userId));
    if next.None? then ClosedDatabase
    else NextPosition(PositionById(positions, moves, next.value).value)
  }

  /** `get_sequential_position` with the wrap-around working as the comment
      at training.py:96 says: after the last position, start again from the
      smallest id. */
  function SequentialPosition(positions: map<int, Position>, moves: seq<Move>,
                              userMoves: seq<UserMove>, userId: int): (r: Sequential)
    ensures !r.ClosedDatabase?
    ensures r.NoPosition? <==>
      NextAfter(positions, LastAttempted(userMoves, userId)).None?
      && (positions == map[] || MinOf(positions.Keys) == 0)
    ensures r.NextPosition? ==>
      r.view.id in positions && Some(r.view) == PositionById(positions, moves, r.view.id)
    ensures NextAfter(positions, LastAttempted(userMoves, userId)).Some? ==>
      r == SequentialPositionAsWritten(positions, moves, userMoves, userId)
    ensures NextAfter(positions, LastAttempted(userMoves, userId)).None? && r.NextPosition? ==>
      forall k | k in positions :: r.view.id <= k
  {
    var next := NextAfter(positions, LastAttempted(userMoves, userId));
    if next.Some? then NextPosition(PositionById(positions, moves, next.value).value)
    else if positions == map[] then NoPosition
    else
      var first := MinOf(positions.Keys);
      if first == 0 then NoPosition
      else NextPosition(PositionById(positions, moves, first).value)
  }

  /** A user who has attempted the only position gets an error from the
      code as written, while the intended wrap-around returns it again. */
  lemma WrapAroundFails(p: Position)
    ensures var positions := map[1 := p];
      var attempts := [UserMove(1, 7, 1, 1, 2.5, "pass", None)];
      && SequentialPositionAsWritten(positions, [], attempts, 7) == ClosedDatabase
      && SequentialPosition(positions, [], attempts, 7) == NextPosition(PositionView(1, p, []))
  {
    var positions := map[1 := p];
    var attempts := [UserMove(1, 7, 1, 1, 2.5, "pass", None)];
    assert AttemptedIds(attempts, 7) == {1} by {
      assert attempts[0].positionId == 1;
    }
    assert IdsAfter(positions, 1) == {};
    assert positions.Keys == {1};
  }

  // ---------------------------------------------------------------------
  // The attempt log: record_user_move and save_openai_analysis
  // ---------------------------------------------------------------------

  /** `UPDATE user_moves SET openai_analysis = ? WHERE id = ?`. */
  function WithAnalysis(rows: seq<UserMove>, recordId: int, text: string): (r: seq<UserMove>)
    ensures |r| == |rows|
  {
    seq(|rows|, i requires 0 <= i < |rows| =>
      if rows[i].id == recordId then rows[i].(openaiAnalysis := Some(text)) else rows[i])
  }

  /** The update touches only the analysis of the row with that id. */
  lemma WithAnalysisChangesOnlyThatRow(rows: seq<UserMove>, recordId: int, text: string)
    ensures var r := WithAnalysis(rows, recordId, text);
      forall i | 0 <= i < |rows| ::
        && (rows[i].id == recordId ==> r[i] == rows[i].(openaiAnalysis := Some(text)))
        && (rows[i].id != recordId ==> r[i] == rows[i])
  {
  }

  /** Saving twice keeps only the second text: the last call wins. */
  lemma LastAnalysisWins(rows: seq<UserMove>, recordId: int, first: string, second: string)
    ensures WithAnalysis(WithAnalysis(rows, recordId, first), recordId, second)
         == WithAnalysis(rows, recordId, second)
  {
    var once := WithAnalysis(rows, recordId, first);
    assert forall i | 0 <= i < |rows| :: once[i].id == rows[i].id;
  }

  /** Analysing the row just recorded changes that row alone, since its id
      is above every earlier one. */
  lemma AnalysisOfNewRow(rows: seq<UserMove>, row: UserMove, text: string)
    requires forall i | 0 <= i < |rows| :: rows[i].id < row.id
    ensures WithAnalysis(rows + [row], row.id, text) == rows + [row.(openaiAnalysis := Some(text))]
  {
  }

  /** `record_user_move`: appends one attempt with the next AUTOINCREMENT id
      and returns that id (`cursor.lastrowid`). */
  method RecordUserMove(db: Database, userId: int, positionId: int, moveId: int, timeTaken: real, result: string)
    returns (moveRecordId: int)
    requires db.Valid()
    modifies db
    ensures db.Valid()
    ensures moveRecordId == old(db.userMoveSeq) + 1
    ensures forall i | 0 <= i < |old(db.userMoves)| :: old(db.userMoves)[i].id < moveRecordId
    ensures db.userMoves == old(db.userMoves) + [UserMove(moveRecordId, userId, positionId, moveId, timeTaken, result, None)]
    ensures db.userMoveSeq == moveRecordId
    ensures db.CatalogState() == old(db.CatalogState())
    ensures db.settings == old(db.settings) && db.users == old(db.users) && db.userSeq == old(db.userSeq)
  {
    moveRecordId := db.userMoveSeq + 1;
    db.userMoves := db.userMoves + [UserMove(moveRecordId, userId, positionId, moveId, timeTaken, result, None)];
    db.userMoveSeq := moveRecordId;
  }

  /** `save_openai_analysis`: sets the analysis of the row with that id (of
      none, if there is no such row), adds no row, and returns True. */
  method SaveOpenaiAnalysis(db: Database, moveRecordId: int, analysisText: string) returns (ok: bool)
    requires db.Valid()
    modifies db
    ensures db.Valid()
    ensures ok
    ensures db.userMoves == WithAnalysis(old(db.userMoves), moveRecordId, analysisText)
    ensures db.userMoveSeq == old(db.userMoveSeq)
    ensures db.CatalogState() == old(db.CatalogState())
    ensures db.settings == old(db.settings) && db.users == old(db.users) && db.userSeq == old(db.userSeq)
  {
    db.userMoves := WithAnalysis(db.userMoves, moveRecordId, analysisText);
    assert forall i | 0 <= i < |db.userMoves| :: db.userMoves[i].id == old(db.userMoves)[i].id;
    return true;
  }

  // ---------------------------------------------------------------------
  // get_position_category
  // ---------------------------------------------------------------------

  function PositionCategory(fullmoveNumber: int): (c: string)
    ensures c == "opening" <==> fullmoveNumber <= 15
    ensures c == "middle game" <==> 15 < fullmoveNumber <= 32
    ensures c == "endgame" <==> 32 < fullmoveNumber
  {
    match PhaseOf(fullmoveNumber)
    case Opening => "opening"
    case MiddleGame => "middle game"
    case Endgame => "endgame"
  }
}
