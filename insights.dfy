/** insights.py: the counting reports over a user's attempts — per tactic,
    per structural feature of the position, and per game phase. Each report
    first joins the attempt log with the catalogue, then counts in a loop. */
module Insights {
  import opened Common
  import opened Sorting
  import opened Tables

  /** A `{'total': ..., 'correct': ...}` counter. */
  datatype Tally = Tally(total: nat, correct: nat)

  /** One more attempt, correct when its result is 'pass'. */
  function Bump(t: Tally, pass: bool): (r: Tally)
    ensures r.total == t.total + 1
    ensures r.correct == t.correct + (if pass then 1 else 0)
  {
    Tally(t.total + 1, if pass then t.correct + 1 else t.correct)
  }

  /** `(correct / total) * 100 if total > 0 else 0`. */
  function Accuracy(t: Tally): (a: real)
    ensures t.total == 0 ==> a == 0.0
    ensures t.total > 0 ==> a * (t.total as real) == (t.correct as real) * 100.0
  {
    if t.total > 0 then (t.correct as real / t.total as real) * 100.0 else 0.0
  }

  /** With no more correct attempts than attempts, an accuracy is a
      percentage. */
  lemma AccuracyIsPercentage(t: Tally)
    requires t.correct <= t.total
    ensures 0.0 <= Accuracy(t) <= 100.0
  {
    if t.total > 0 {
      var a := Accuracy(t);
      assert a * (t.total as real) <= (t.total as real) * 100.0;
    }
  }

  // ---------------------------------------------------------------------
  // get_tactical_analysis
  // ---------------------------------------------------------------------

  /** A row of `user_moves JOIN moves ON um.move_id = m.id`; `tactics` None
      is the JSON text "null". */
  datatype TacticRow = TacticRow(result: string, tactics: Option<seq<string>>)

  /** The join rows of one attempt: one per row of `moves` with its move id. */
  function TacticRowsOf(um: UserMove, moves: seq<Move>): seq<TacticRow>
  {
    if moves == [] then []
    else
      TacticRowsOf(um, moves[..|moves| - 1])
      + (if moves[|moves| - 1].id == um.moveId then [TacticRow(um.result, moves[|moves| - 1].tactics)] else [])
  }

  function TacticRows(userMoves: seq<UserMove>, moves: seq<Move>, userId: int): seq<TacticRow>
  {
    if userMoves == [] then []
    else
      var um := userMoves[|userMoves| - 1];
      TacticRows(userMoves[..|userMoves| - 1], moves, userId)
      + (if um.userId == userId then TacticRowsOf(um, moves) else [])
  }

  predicate AllDecoded(rows: seq<TacticRow>)
  {
    forall i | 0 <= i < |rows| :: rows[i].tactics.Some?
  }

  /** One tactic named in one row, with that row's pass flag. */
  datatype Occurrence = Occurrence(tactic: string, pass: bool)

  function RowOccurrences(row: TacticRow): (occ: seq<Occurrence>)
    requires row.tactics.Some?
    ensures |occ| == |row.tactics.value|
  {
    seq(|row.tactics.value|, k requires 0 <= k < |row.tactics.value| =>
      Occurrence(row.tactics.value[k], row.result == "pass"))
  }

  /** Every tactic occurrence, row by row, as the nested loop visits them. */
  function Occurrences(rows: seq<TacticRow>): seq<Occurrence>
    requires AllDecoded(rows)
  {
    if rows == [] then []
    else Occurrences(rows[..|rows| - 1]) + RowOccurrences(rows[|rows| - 1])
  }

  /** One more row of the loop over the joined rows. */
  lemma OccurrencesStep(rows: seq<TacticRow>, i: nat)
    requires i < |rows| && AllDecoded(rows[..i]) && rows[i].tactics.Some?
    ensures AllDecoded(rows[..i + 1])
    ensures Occurrences(rows[..i + 1]) == Occurrences(rows[..i]) + RowOccurrences(rows[i])
  {
    assert rows[..i + 1][..i] == rows[..i];
  }

  /** The counter of tactic `t` after the occurrences `occ`. */
  function CountOf(occ: seq<Occurrence>, t: string): Tally
  {
    if occ == [] then Tally(0, 0)
    else
      var prev := CountOf(occ[..|occ| - 1], t);
      if occ[|occ| - 1].tactic == t then Bump(prev, occ[|occ| - 1].pass) else prev
  }

  /** The keys of `tactics_data` in insertion order: each tactic once, where
      it first occurs. */
  function FirstSeen(occ: seq<Occurrence>): seq<string>
  {
    if occ == [] then []
    else
      var prev := FirstSeen(occ[..|occ| - 1]);
      if occ[|occ| - 1].tactic in prev then prev else prev + [occ[|occ| - 1].tactic]
  }

  /** A tactic's correct count never exceeds its total, and the total is
      the number of its occurrences. */
  lemma {:induction false} CorrectAtMostTotal(occ: seq<Occurrence>, t: string)
    ensures CountOf(occ, t).correct <= CountOf(occ, t).total
    ensures CountOf(occ, t).total == |set k | 0 <= k < |occ| && occ[k].tactic == t|
  {
    if occ != [] {
      var init := occ[..|occ| - 1];
      CorrectAtMostTotal(init, t);
      var before := set k | 0 <= k < |init| && init[k].tactic == t;
      var after := set k | 0 <= k < |occ| && occ[k].tactic == t;
      assert forall k | 0 <= k < |init| :: init[k] == occ[k];
      if occ[|occ| - 1].tactic == t {
        assert |occ| - 1 !in before;
        assert after == before + {|occ| - 1};
      } else {
        assert after == before;
      }
    }
  }

  /** Exactly the tactics that occur are listed, each once. */
  lemma {:induction false} FirstSeenIsExact(occ: seq<Occurrence>, t: string)
    ensures t in FirstSeen(occ) <==> exists k | 0 <= k < |occ| :: occ[k].tactic == t
    ensures forall a, b | 0 <= a < b < |FirstSeen(occ)| :: FirstSeen(occ)[a] != FirstSeen(occ)[b]
  {
    if occ != [] {
      var init := occ[..|occ| - 1];
      FirstSeenIsExact(init, t);
      if exists k | 0 <= k < |init| :: init[k].tactic == t {
        var k :| 0 <= k < |init| && init[k].tactic == t;
        assert occ[k] == init[k];
      }
      if exists k | 0 <= k < |occ| :: occ[k].tactic == t {
        var k :| 0 <= k < |occ| && occ[k].tactic == t;
        if k < |init| { assert init[k] == occ[k]; }
      }
    }
  }

  datatype TacticStat = TacticStat(tactic: string, total: nat, correct: nat, accuracy: real)

  function StatOf(t: string, c: Tally): TacticStat
  {
    TacticStat(t, c.total, c.correct, Accuracy(c))
  }

  /** `tactics_analysis` before sorting: one entry per key of
      `tactics_data`, in insertion order. */
  function Stats(occ: seq<Occurrence>): (r: seq<TacticStat>)
    ensures |r| == |FirstSeen(occ)|
  {
    var names := FirstSeen(occ);
    seq(|names|, k requires 0 <= k < |names| => StatOf(names[k], CountOf(occ, names[k])))
  }

  /** The sort key of `sort(key=total, reverse=True)`. */
  function NegTotal(s: TacticStat): int { -(s.total as int) }

  /** The loop's counters agree with the specification on the occurrences
      visited so far. */
  ghost predicate CountsMatch(counts: map<string, Tally>, order: seq<string>, occ: seq<Occurrence>)
  {
    && order == FirstSeen(occ)
    && (forall t :: t in counts <==> t in order)
    && (forall t | t in counts :: counts[t] == CountOf(occ, t))
  }

  /** The counters after one more occurrence: a new tactic gets a zero
      counter and a place at the end of the key order, then its counter is
      bumped. */
  function AddOccurrence(counts: map<string, Tally>, order: seq<string>, o: Occurrence): (map<string, Tally>, seq<string>)
  {
    var c0 := if o.tactic in counts then counts else counts[o.tactic := Tally(0, 0)];
    var order1 := if o.tactic in counts then order else order + [o.tactic];
    (c0[o.tactic := Bump(c0[o.tactic], o.pass)], order1)
  }

  lemma CountsStep(counts: map<string, Tally>, order: seq<string>, occ: seq<Occurrence>, o: Occurrence)
    requires CountsMatch(counts, order, occ)
    ensures var next := AddOccurrence(counts, order, o);
      CountsMatch(next.0, next.1, occ + [o])
  {
    var occ1 := occ + [o];
    assert occ1[..|occ1| - 1] == occ;
    if o.tactic !in counts {
      assert CountOf(occ, o.tactic) == Tally(0, 0) by {
        FirstSeenIsExact(occ, o.tactic);
        NeverSeenCountsZero(occ, o.tactic);
      }
    }
  }

  lemma {:induction false} NeverSeenCountsZero(occ: seq<Occurrence>, t: string)
    requires forall k | 0 <= k < |occ| :: occ[k].tactic != t
    ensures CountOf(occ, t) == Tally(0, 0)
  {
    if occ != [] {
      var init := occ[..|occ| - 1];
      assert forall k | 0 <= k < |init| :: init[k] == occ[k];
      NeverSeenCountsZero(init, t);
    }
  }

  datatype InsightError = NullTactics  // iterating a JSON null raises TypeError

  /** The inner loop of `get_tactical_analysis` over one row's tactics. */
  method CountRowTactics(counts: map<string, Tally>, order: seq<string>, row: TacticRow, ghost base: seq<Occurrence>)
    returns (counts': map<string, Tally>, order': seq<string>)
    requires row.tactics.Some?
    requires CountsMatch(counts, order, base)
    ensures CountsMatch(counts', order', base + RowOccurrences(row))
  {
    counts', order' := counts, order;
    var tactics := row.tactics.value;
    var pass := row.result == "pass";
    ghost var rowOcc := RowOccurrences(row);
    var j := 0;
    assert base + rowOcc[..0] == base;
    while j < |tactics|
      invariant 0 <= j <= |tactics|
      invariant CountsMatch(counts', order', base + rowOcc[..j])
    {
      var tactic := tactics[j];
      ghost var next := AddOccurrence(counts', order', Occurrence(tactic, pass));
      CountsStep(counts', order', base + rowOcc[..j], Occurrence(tactic, pass));
      assert rowOcc[..j + 1] == rowOcc[..j] + [rowOcc[j]];
      assert base + rowOcc[..j + 1] == (base + rowOcc[..j]) + [Occurrence(tactic, pass)];
      if tactic !in counts' {
        counts' := counts'[tactic := Tally(0, 0)];
        order' := order' + [tactic];
      }
      counts' := counts'[tactic := Bump(counts'[tactic], pass)];
      assert (counts', order') == next;
      j := j + 1;
    }
    assert rowOcc[..|tactics|] == rowOcc;
  }

  /** `get_tactical_analysis`: counts every tactic occurrence and lists the
      counters by total, largest first, keeping first-seen order among
      equal totals. */
  method GetTacticalAnalysis(db: Database, userId: int) returns (r: Result<seq<TacticStat>, InsightError>)
    ensures var rows := TacticRows(db.userMoves, db.moves, userId);
      && (r.Err? <==> !AllDecoded(rows))
      && (r.Ok? ==> AllDecoded(rows) && r.value == SortBy(Stats(Occurrences(rows)), NegTotal))
  {
    var rows := TacticRows(db.userMoves, db.moves, userId);
    var counts: map<string, Tally> := map[];
    var order: seq<string> := [];
    var i := 0;
    while i < |rows|
      invariant 0 <= i <= |rows|
      invariant AllDecoded(rows[..i])
      invariant CountsMatch(counts, order, Occurrences(rows[..i]))
    {
      if rows[i].tactics.None? {
        return Err(NullTactics);
      }
      counts, order := CountRowTactics(counts, order, rows[i], Occurrences(rows[..i]));
      OccurrencesStep(rows, i);
      i := i + 1;
    }
    assert rows[..|rows|] == rows;
    var analysis := StatsOfCounters(counts, order, Occurrences(rows));
    return Ok(SortBy(analysis, NegTotal));
  }

  /** The loop over `tactic_stats.items()` that builds the list of
      dictionaries, in key order. */
  method StatsOfCounters(counts: map<string, Tally>, order: seq<string>, ghost occ: seq<Occurrence>)
    returns (analysis: seq<TacticStat>)
    requires CountsMatch(counts, order, occ)
    ensures analysis == Stats(occ)
  {
    var stats := Stats(occ);
    analysis := [];
    var k := 0;
    while k < |order|
      invariant 0 <= k <= |order|
      invariant |analysis| == k
      invariant forall m | 0 <= m < k :: analysis[m] == stats[m]
    {
      assert order[k] in counts;
      analysis := analysis + [StatOf(order[k], counts[order[k]])];
      k := k + 1;
    }
  }

  /** Each entry before sorting is the counter of a tactic that occurs. */
  lemma StatsAreOccurringCounters(occ: seq<Occurrence>, k: nat)
    requires k < |Stats(occ)|
    ensures var s := Stats(occ)[k];
      && s.tactic in FirstSeen(occ)
      && s.total == CountOf(occ, s.tactic).total
      && s.correct <= s.total
      && s.total > 0
  {
    var t := FirstSeen(occ)[k];
    CorrectAtMostTotal(occ, t);
    FirstSeenIsExact(occ, t);
    var w :| 0 <= w < |occ| && occ[w].tactic == t;
    assert w in set k | 0 <= k < |occ| && occ[k].tactic == t;
  }

  /** The report lists only occurring tactics, each with correct at most
      total, ordered by total from largest to smallest. */
  lemma TacticReportShape(occ: seq<Occurrence>)
    ensures var report := SortBy(Stats(occ), NegTotal);
      && (forall a, b | 0 <= a < b < |report| :: report[a].total >= report[b].total)
      && (forall s | s in report ::
            && s.tactic in FirstSeen(occ)
            && s.total == CountOf(occ, s.tactic).total
            && s.correct <= s.total
            && s.total > 0)
      && |report| == |FirstSeen(occ)|
  {
    var stats := Stats(occ);
    var report := SortBy(stats, NegTotal);
    forall a, b | 0 <= a < b < |report| ensures report[a].total >= report[b].total {
      assert NegTotal(report[a]) <= NegTotal(report[b]);
    }
    SortByMembers(stats, NegTotal);
    forall s | s in report
      ensures s.tactic in FirstSeen(occ) && s.total == CountOf(occ, s.tactic).total
      ensures s.correct <= s.total && s.total > 0
    {
      assert s in stats;
      var k :| 0 <= k < |stats| && stats[k] == s;
      StatsAreOccurringCounters(occ, k);
    }
  }

  // ---------------------------------------------------------------------
  // get_structural_analysis
  // ---------------------------------------------------------------------

  /** A row of `user_moves JOIN positions`: the attempt's result, the
      position's decoded metadata and its `turn` column. */
  datatype StructuralRow = StructuralRow(result: string, metadata: Metadata, positionTurn: string)

  function StructuralRows(userMoves: seq<UserMove>, positions: map<int, Position>, userId: int): seq<StructuralRow>
  {
    if userMoves == [] then []
    else
      var um := userMoves[|userMoves| - 1];
      StructuralRows(userMoves[..|userMoves| - 1], positions, userId)
      + (if um.userId == userId && um.positionId in positions
         then [StructuralRow(um.result, positions[um.positionId].metadata, positions[um.positionId].turn)]
         else [])
  }

  /** A JSON object is truthy when present, not null and not empty. */
  predicate Truthy<V>(m: Option<map<string, V>>)
  {
    m.Some? && m.value != map[]
  }

  /** `d.get(key, default)` on an object of integers. */
  function GetOr(d: map<string, int>, key: string, default: int): int
  {
    if key in d then d[key] else default
  }

  predicate IsolatedPawns(ps: map<string, int>)
  {
    GetOr(ps, "white_isolated_pawns", 0) > 0 || GetOr(ps, "black_isolated_pawns", 0) > 0
  }

  predicate DoubledPawns(ps: map<string, int>)
  {
    GetOr(ps, "white_doubled_pawns", 0) > 0 || GetOr(ps, "black_doubled_pawns", 0) > 0
  }

  /** A missing island count reads as 1, which does not count. */
  predicate SeveralPawnIslands(ps: map<string, int>)
  {
    GetOr(ps, "white_pawn_islands", 1) > 1 || GetOr(ps, "black_pawn_islands", 1) > 1
  }

  predicate PassedPawns(ps: map<string, int>)
  {
    GetOr(ps, "white_passed_pawns", 0) > 0 || GetOr(ps, "black_passed_pawns", 0) > 0
  }

  datatype CenterBucket = WhiteStrong | BlackStrong | Balanced

  /** White strong when white leads by more than 2, black strong when black
      does, otherwise equal. */
  function CenterBucketOf(cc: map<string, int>): (b: CenterBucket)
    ensures b == WhiteStrong <==> GetOr(cc, "white", 0) > GetOr(cc, "black", 0) + 2
    ensures b == BlackStrong <==> GetOr(cc, "black", 0) > GetOr(cc, "white", 0) + 2
    ensures b == Balanced <==>
      Abs(GetOr(cc, "white", 0) - GetOr(cc, "black", 0)) <= 2
  {
    var white := GetOr(cc, "white", 0);
    var black := GetOr(cc, "black", 0);
    if white > black + 2 then WhiteStrong
    else if black > white + 2 then BlackStrong
    else Balanced
  }

  function KingOf(ks: map<string, map<string, int>>, side: string): map<string, int>
  {
    if side in ks then ks[side] else map[]
  }

  /** Fewer than two defenders, no pawn shield or an open file count as an
      exposed king. */
  predicate Exposed(king: map<string, int>)
  {
    GetOr(king, "defender_count", 0) < 2 || GetOr(king, "pawn_shield", 0) < 1 || GetOr(king, "open_files", 0) > 0
  }

  /** The side whose king insights.py:149-150 inspects: white only when the
      metadata's `turn` is 'white'. */
  function KingSideAsWritten(row: StructuralRow): string
  {
    if row.metadata.turn == Some("white") then "white" else "black"
  }

  /** The side to move, read from the position's own `turn` column. */
  function KingSide(row: StructuralRow): (side: string)
    ensures side == "white" <==> row.positionTurn == "white"
    ensures side == "black" <==> row.positionTurn != "white"
  {
    if row.positionTurn == "white" then "white" else "black"
  }

  /** Which king the king-safety step inspects: the one insights.py:149-150
      picks, or the king of the side to move. */
  datatype KingRule = AsWritten | SideToMove

  function InspectedSide(rule: KingRule, row: StructuralRow): string
  {
    match rule
    case AsWritten => KingSideAsWritten(row)
    case SideToMove => KingSide(row)
  }

  /** Metadata written by the import has no `turn`, so the code as written
      always inspects the black king, whoever is to move. */
  lemma ImportedRowsInspectBlackKing(row: StructuralRow)
    requires row.metadata.turn == None
    ensures KingSideAsWritten(row) == "black"
  {
  }


  datatype StructuralCounts = StructuralCounts(
    isolated: Tally, doubled: Tally, islands: Tally, passed: Tally,
    whiteStrong: Tally, blackStrong: Tally, balanced: Tally,
    exposed: Tally, sheltered: Tally)

  const NoCounts := StructuralCounts(Tally(0, 0), Tally(0, 0), Tally(0, 0), Tally(0, 0),
                                     Tally(0, 0), Tally(0, 0), Tally(0, 0), Tally(0, 0), Tally(0, 0))

  function BumpIf(t: Tally, cond: bool, pass: bool): Tally
  {
    if cond then Bump(t, pass) else t
  }

  /** A row's contribution to the pawn-structure counters; each feature
      counts on its own. */
  function CountPawns(c: StructuralCounts, row: StructuralRow): StructuralCounts
  {
    var pass := row.result == "pass";
    var ps := row.metadata.pawnStructure;
    if Truthy(ps) then
      c.(isolated := BumpIf(c.isolated, IsolatedPawns(ps.value), pass),
         doubled := BumpIf(c.doubled, DoubledPawns(ps.value), pass),
         islands := BumpIf(c.islands, SeveralPawnIslands(ps.value), pass),
         passed := BumpIf(c.passed, PassedPawns(ps.value), pass))
    else c
  }

  /** A row's contribution to the center-control counters: one bucket. */
  function CountCenter(c: StructuralCounts, row: StructuralRow): StructuralCounts
  {
    var pass := row.result == "pass";
    var cc := row.metadata.centerControl;
    if Truthy(cc) then
      match CenterBucketOf(cc.value)
      case WhiteStrong => c.(whiteStrong := Bump(c.whiteStrong, pass))
      case BlackStrong => c.(blackStrong := Bump(c.blackStrong, pass))
      case Balanced => c.(balanced := Bump(c.balanced, pass))
    else c
  }

  /** A row's contribution to the king-safety counters: one bucket. */
  function CountKing(c: StructuralCounts, row: StructuralRow, rule: KingRule): StructuralCounts
  {
    var pass := row.result == "pass";
    var ks := row.metadata.kingSafety;
    if Truthy(ks) then
      if Exposed(KingOf(ks.value, InspectedSide(rule, row))) then c.(exposed := Bump(c.exposed, pass))
      else c.(sheltered := Bump(c.sheltered, pass))
    else c
  }

  /** One row's contribution to every counter. */
  function CountRow(c: StructuralCounts, row: StructuralRow, rule: KingRule): StructuralCounts
  {
    CountKing(CountCenter(CountPawns(c, row), row), row, rule)
  }

  function CountRows(rows: seq<StructuralRow>, rule: KingRule): StructuralCounts
  {
    if rows == [] then NoCounts else CountRow(CountRows(rows[..|rows| - 1], rule), rows[|rows| - 1], rule)
  }

  /** The number of rows satisfying `p`. */
  function CountWhere(rows: seq<StructuralRow>, p: StructuralRow -> bool): (n: nat)
    ensures n <= |rows|
  {
    if rows == [] then 0 else CountWhere(rows[..|rows| - 1], p) + (if p(rows[|rows| - 1]) then 1 else 0)
  }

  predicate HasCenter(row: StructuralRow) { Truthy(row.metadata.centerControl) }
  predicate HasKingSafety(row: StructuralRow) { Truthy(row.metadata.kingSafety) }
  predicate HasPawnIslands(row: StructuralRow)
  {
    Truthy(row.metadata.pawnStructure) && SeveralPawnIslands(row.metadata.pawnStructure.value)
  }
  predicate HasIsolatedPawns(row: StructuralRow)
  {
    Truthy(row.metadata.pawnStructure) && IsolatedPawns(row.metadata.pawnStructure.value)
  }

  predicate TallyOk(t: Tally) { t.correct <= t.total }

  /** The pawn step touches only the pawn counters. */
  lemma CountPawnsFields(c: StructuralCounts, row: StructuralRow)
    ensures var n := CountPawns(c, row);
      var pass := row.result == "pass";
      var ps := row.metadata.pawnStructure;
      && n.isolated == BumpIf(c.isolated, HasIsolatedPawns(row), pass)
      && n.doubled == BumpIf(c.doubled, Truthy(ps) && DoubledPawns(ps.value), pass)
      && n.islands == BumpIf(c.islands, HasPawnIslands(row), pass)
      && n.passed == BumpIf(c.passed, Truthy(ps) && PassedPawns(ps.value), pass)
      && n.whiteStrong == c.whiteStrong && n.blackStrong == c.blackStrong && n.balanced == c.balanced
      && n.exposed == c.exposed && n.sheltered == c.sheltered
  {
  }

  /** The center step bumps at most one center bucket and nothing else. */
  lemma CountCenterFields(c: StructuralCounts, row: StructuralRow)
    ensures var n := CountCenter(c, row);
      var pass := row.result == "pass";
      var cc := row.metadata.centerControl;
      && n.whiteStrong == BumpIf(c.whiteStrong, HasCenter(row) && CenterBucketOf(cc.value) == WhiteStrong, pass)
      && n.blackStrong == BumpIf(c.blackStrong, HasCenter(row) && CenterBucketOf(cc.value) == BlackStrong, pass)
      && n.balanced == BumpIf(c.balanced, HasCenter(row) && CenterBucketOf(cc.value) == Balanced, pass)
      && n.isolated == c.isolated && n.doubled == c.doubled && n.islands == c.islands && n.passed == c.passed
      && n.exposed == c.exposed && n.sheltered == c.sheltered
  {
  }

  /** The king step bumps exactly one king bucket when there is data, and
      nothing else. */
  lemma CountKingFields(c: StructuralCounts, row: StructuralRow, rule: KingRule)
    ensures var n := CountKing(c, row, rule);
      var pass := row.result == "pass";
      var ks := row.metadata.kingSafety;
      && n.exposed == BumpIf(c.exposed, HasKingSafety(row) && Exposed(KingOf(ks.value, InspectedSide(rule, row))), pass)
      && n.sheltered == BumpIf(c.sheltered, HasKingSafety(row) && !Exposed(KingOf(ks.value, InspectedSide(rule, row))), pass)
      && n.isolated == c.isolated && n.doubled == c.doubled && n.islands == c.islands && n.passed == c.passed
      && n.whiteStrong == c.whiteStrong && n.blackStrong == c.blackStrong && n.balanced == c.balanced
  {
  }

  /** What one row does to each counter, field by field. */
  lemma CountRowFields(c: StructuralCounts, row: StructuralRow, rule: KingRule)
    ensures var n := CountRow(c, row, rule);
      var pass := row.result == "pass";
      var ps := row.metadata.pawnStructure;
      var cc := row.metadata.centerControl;
      var ks := row.metadata.kingSafety;
      && n.isolated == BumpIf(c.isolated, HasIsolatedPawns(row), pass)
      && n.doubled == BumpIf(c.doubled, Truthy(ps) && DoubledPawns(ps.value), pass)
      && n.islands == BumpIf(c.islands, HasPawnIslands(row), pass)
      && n.passed == BumpIf(c.passed, Truthy(ps) && PassedPawns(ps.value), pass)
      && n.whiteStrong == BumpIf(c.whiteStrong, HasCenter(row) && CenterBucketOf(cc.value) == WhiteStrong, pass)
      && n.blackStrong == BumpIf(c.blackStrong, HasCenter(row) && CenterBucketOf(cc.value) == BlackStrong, pass)
      && n.balanced == BumpIf(c.balanced, HasCenter(row) && CenterBucketOf(cc.value) == Balanced, pass)
      && n.exposed == BumpIf(c.exposed, HasKingSafety(row) && Exposed(KingOf(ks.value, InspectedSide(rule, row))), pass)
      && n.sheltered == BumpIf(c.sheltered, HasKingSafety(row) && !Exposed(KingOf(ks.value, InspectedSide(rule, row))), pass)
  {
    var p := CountPawns(c, row);
    var q := CountCenter(p, row);
    CountPawnsFields(c, row);
    CountCenterFields(p, row);
    CountKingFields(q, row, rule);
  }

  /** The three center buckets split the rows with center-control data
      and never hold more correct than total. */
  lemma {:induction false} CenterPartition(rows: seq<StructuralRow>, rule: KingRule)
    ensures var c := CountRows(rows, rule);
      && c.whiteStrong.total + c.blackStrong.total + c.balanced.total == CountWhere(rows, HasCenter)
      && TallyOk(c.whiteStrong) && TallyOk(c.blackStrong) && TallyOk(c.balanced)
  {
    if rows != [] {
      CenterPartition(rows[..|rows| - 1], rule);
      CountRowFields(CountRows(rows[..|rows| - 1], rule), rows[|rows| - 1], rule);
    }
  }

  /** The two king buckets split the rows with king-safety data, whichever
      king is inspected. */
  lemma {:induction false} KingPartition(rows: seq<StructuralRow>, rule: KingRule)
    ensures var c := CountRows(rows, rule);
      && c.exposed.total + c.sheltered.total == CountWhere(rows, HasKingSafety)
      && TallyOk(c.exposed) && TallyOk(c.sheltered)
  {
    if rows != [] {
      KingPartition(rows[..|rows| - 1], rule);
      CountRowFields(CountRows(rows[..|rows| - 1], rule), rows[|rows| - 1], rule);
    }
  }

  /** The pawn features are counted each on its own: one row can raise
      several of them, and a missing island count never counts. */
  lemma {:induction false} PawnFeaturesIndependent(rows: seq<StructuralRow>, rule: KingRule)
    ensures var c := CountRows(rows, rule);
      && c.islands.total == CountWhere(rows, HasPawnIslands)
      && c.isolated.total == CountWhere(rows, HasIsolatedPawns)
      && TallyOk(c.isolated) && TallyOk(c.doubled) && TallyOk(c.islands) && TallyOk(c.passed)
  {
    if rows != [] {
      PawnFeaturesIndependent(rows[..|rows| - 1], rule);
      CountRowFields(CountRows(rows[..|rows| - 1], rule), rows[|rows| - 1], rule);
    }
  }

  /** A row with both isolated pawns and several islands raises both
      counters. */
  lemma OneRowSeveralFeatures()
    ensures var row := StructuralRow("pass",
              Metadata(None, Some(map["white_isolated_pawns" := 1, "black_pawn_islands" := 3]), None, None), "white");
      var c := CountRows([row], SideToMove);
      c.isolated.total == 1 && c.islands.total == 1 && c.doubled.total == 0
  {
    var row := StructuralRow("pass",
      Metadata(None, Some(map["white_isolated_pawns" := 1, "black_pawn_islands" := 3]), None, None), "white");
    var ps := map["white_isolated_pawns" := 1, "black_pawn_islands" := 3];
    assert [row][..0] == [];
    assert CountRows([row], SideToMove) == CountRow(NoCounts, row, SideToMove);
    assert GetOr(ps, "white_isolated_pawns", 0) == 1;
    assert GetOr(ps, "black_pawn_islands", 1) == 3;
    assert GetOr(ps, "white_doubled_pawns", 0) == 0 && GetOr(ps, "black_doubled_pawns", 0) == 0;
  }

  datatype StructureReport = StructureReport(name: string, total: nat, correct: nat, accuracy: real)

  function Report(name: string, t: Tally): StructureReport
  {
    StructureReport(name, t.total, t.correct, Accuracy(t))
  }

  datatype StructuralAnalysis = StructuralAnalysis(
    pawnStructure: seq<StructureReport>,
    centerControl: seq<StructureReport>,
    kingSafety: seq<StructureReport>)

  method AnalyzePawns(c: StructuralCounts, row: StructuralRow) returns (r: StructuralCounts)
    ensures r == CountPawns(c, row)
  {
    r := c;
    var pass := row.result == "pass";
    var ps := row.metadata.pawnStructure;
    if Truthy(ps) {
      if IsolatedPawns(ps.value) { r := r.(isolated := Bump(r.isolated, pass)); }
      if DoubledPawns(ps.value) { r := r.(doubled := Bump(r.doubled, pass)); }
      if SeveralPawnIslands(ps.value) { r := r.(islands := Bump(r.islands, pass)); }
      if PassedPawns(ps.value) { r := r.(passed := Bump(r.passed, pass)); }
    }
  }

  method AnalyzeCenter(c: StructuralCounts, row: StructuralRow) returns (r: StructuralCounts)
    ensures r == CountCenter(c, row)
  {
    r := c;
    var pass := row.result == "pass";
    var cc := row.metadata.centerControl;
    if Truthy(cc) {
      var white := GetOr(cc.value, "white", 0);
      var black := GetOr(cc.value, "black", 0);
      if white > black + 2 {
        r := r.(whiteStrong := Bump(r.whiteStrong, pass));
      } else if black > white + 2 {
        r := r.(blackStrong := Bump(r.blackStrong, pass));
      } else {
        r := r.(balanced := Bump(r.balanced, pass));
      }
    }
  }

  method AnalyzeKing(c: StructuralCounts, row: StructuralRow, rule: KingRule) returns (r: StructuralCounts)
    ensures r == CountKing(c, row, rule)
  {
    r := c;
    var pass := row.result == "pass";
    var ks := row.metadata.kingSafety;
    if Truthy(ks) {
      var king := KingOf(ks.value, InspectedSide(rule, row));
      if Exposed(king) {
        r := r.(exposed := Bump(r.exposed, pass));
      } else {
        r := r.(sheltered := Bump(r.sheltered, pass));
      }
    }
  }

  /** The three reports in the order the source builds them. */
  function Reports(c: StructuralCounts): StructuralAnalysis
  {
    StructuralAnalysis(
      [Report("isolated_pawns", c.isolated), Report("doubled_pawns", c.doubled),
       Report("pawn_islands", c.islands), Report("passed_pawns", c.passed)],
      [Report("white_strong", c.whiteStrong), Report("black_strong", c.blackStrong),
       Report("equal", c.balanced)],
      [Report("exposed", c.exposed), Report("sheltered", c.sheltered)])
  }

  /** The loop over the joined rows that fills the three dictionaries. */
  method CountStructures(rows: seq<StructuralRow>, rule: KingRule) returns (counts: StructuralCounts)
    ensures counts == CountRows(rows, rule)
  {
    counts := NoCounts;
    var i := 0;
    while i < |rows|
      invariant 0 <= i <= |rows|
      invariant counts == CountRows(rows[..i], rule)
    {
      assert rows[..i + 1][..i] == rows[..i];
      counts := AnalyzePawns(counts, rows[i]);
      counts := AnalyzeCenter(counts, rows[i]);
      counts := AnalyzeKing(counts, rows[i], rule);
      i := i + 1;
    }
    assert rows[..|rows|] == rows;
  }

  /** `get_structural_analysis` as written: the king inspected is the one
      metadata `turn` selects, which for imported positions is black. */
  method GetStructuralAnalysisAsWritten(db: Database, userId: int) returns (r: StructuralAnalysis)
    ensures r == Reports(CountRows(StructuralRows(db.userMoves, db.positions, userId), AsWritten))
  {
    var rows := StructuralRows(db.userMoves, db.positions, userId);
    var counts := CountStructures(rows, AsWritten);
    return Reports(counts);
  }

  /** `get_structural_analysis`, inspecting the king of the side to move. */
  method GetStructuralAnalysis(db: Database, userId: int) returns (r: StructuralAnalysis)
    ensures r == Reports(CountRows(StructuralRows(db.userMoves, db.positions, userId), SideToMove))
  {
    var rows := StructuralRows(db.userMoves, db.positions, userId);
    var counts := CountStructures(rows, SideToMove);
    return Reports(counts);
  }

  /** A white-to-move position whose white king has no defenders and whose
      black king is sheltered: the report as written counts it as sheltered,
      the corrected one as exposed. */
  lemma KingSideCounterexample()
    ensures var ks := map["white" := map["defender_count" := 0],
                          "black" := map["defender_count" := 3, "pawn_shield" := 2, "open_files" := 0]];
      var row := StructuralRow("pass", Metadata(Some(ks), None, None, None), "white");
      var written := Reports(CountRows([row], AsWritten)).kingSafety;
      var corrected := Reports(CountRows([row], SideToMove)).kingSafety;
      && !Exposed(KingOf(ks, KingSideAsWritten(row)))
      && Exposed(KingOf(ks, KingSide(row)))
      && written[0].total == 0 && written[1].total == 1
      && corrected[0].total == 1 && corrected[1].total == 0
  {
    var ks := map["white" := map["defender_count" := 0],
                  "black" := map["defender_count" := 3, "pawn_shield" := 2, "open_files" := 0]];
    var row := StructuralRow("pass", Metadata(Some(ks), None, None, None), "white");
    assert [row][..0] == [];
    assert CountRows([row], AsWritten) == CountRow(NoCounts, row, AsWritten);
    assert CountRows([row], SideToMove) == CountRow(NoCounts, row, SideToMove);
    assert GetOr(ks["black"], "defender_count", 0) == 3;
    assert GetOr(ks["black"], "pawn_shield", 0) == 2;
    assert GetOr(ks["black"], "open_files", 0) == 0;
    assert GetOr(ks["white"], "defender_count", 0) == 0;
  }

  /** The two reports differ only in the king-safety counters. */
  lemma {:induction false} KingRuleOnlyAffectsKingSafety(rows: seq<StructuralRow>)
    ensures var w := Reports(CountRows(rows, AsWritten));
      var c := Reports(CountRows(rows, SideToMove));
      w.pawnStructure == c.pawnStructure && w.centerControl == c.centerControl
  {
    if rows != [] {
      var init := rows[..|rows| - 1];
      var last := rows[|rows| - 1];
      KingRuleOnlyAffectsKingSafety(init);
      CountRowFields(CountRows(init, AsWritten), last, AsWritten);
      CountRowFields(CountRows(init, SideToMove), last, SideToMove);
    }
  }

  // ---------------------------------------------------------------------
  // get_centipawn_loss_analysis
  // ---------------------------------------------------------------------

  /** A row of `user_moves JOIN positions JOIN moves`. */
  datatype LossRow = LossRow(fullmoveNumber: int, centipawnLoss: int, result: string)

  function LossRowsOf(um: UserMove, p: Position, moves: seq<Move>): seq<LossRow>
  {
    if moves == [] then []
    else
      LossRowsOf(um, p, moves[..|moves| - 1])
      + (if moves[|moves| - 1].id == um.moveId
         then [LossRow(p.fullmoveNumber, moves[|moves| - 1].centipawnLoss, um.result)] else [])
  }

  function LossRows(userMoves: seq<UserMove>, positions: map<int, Position>, moves: seq<Move>, userId: int): seq<LossRow>
  {
    if userMoves == [] then []
    else
      var um := userMoves[|userMoves| - 1];
      LossRows(userMoves[..|userMoves| - 1], positions, moves, userId)
      + (if um.userId == userId && um.positionId in positions then LossRowsOf(um, positions[um.positionId], moves) else [])
  }

  /** The per-phase dictionary `{'moves', 'total_loss', 'correct', 'total'}`. */
  datatype PhaseStats = PhaseStats(moves: nat, totalLoss: int, correct: nat, total: nat)

  function PhaseTally(rows: seq<LossRow>, p: Phase): PhaseStats
  {
    if rows == [] then PhaseStats(0, 0, 0, 0)
    else
      var prev := PhaseTally(rows[..|rows| - 1], p);
      var row := rows[|rows| - 1];
      if PhaseOf(row.fullmoveNumber) == p then
        PhaseStats(prev.moves + 1, prev.totalLoss + row.centipawnLoss,
                   prev.correct + (if row.result == "pass" then 1 else 0), prev.total + 1)
      else prev
  }

  function TotalLoss(rows: seq<LossRow>): int
  {
    if rows == [] then 0 else TotalLoss(rows[..|rows| - 1]) + rows[|rows| - 1].centipawnLoss
  }

  /** Every row lands in exactly one phase: the phase totals add up to the
      row count and the phase losses to the total loss; in each phase
      `moves` equals `total` and no more are correct than counted. */
  lemma {:induction false} PhasesPartitionRows(rows: seq<LossRow>)
    ensures var o := PhaseTally(rows, Opening);
      var m := PhaseTally(rows, MiddleGame);
      var e := PhaseTally(rows, Endgame);
      && o.total + m.total + e.total == |rows|
      && o.totalLoss + m.totalLoss + e.totalLoss == TotalLoss(rows)
      && o.moves == o.total && m.moves == m.total && e.moves == e.total
      && o.correct <= o.total && m.correct <= m.total && e.correct <= e.total
  {
    if rows != [] {
      PhasesPartitionRows(rows[..|rows| - 1]);
    }
  }

  datatype PhaseReport = PhaseReport(phase: string, moves: nat, avgCentipawnLoss: real, accuracy: real)

  function PhaseName(p: Phase): string
  {
    match p
    case Opening => "opening"
    case MiddleGame => "middle_game"
    case Endgame => "endgame"
  }

  /** `total_loss / moves if moves > 0 else 0`, and the accuracy alike. */
  function PhaseReportOf(p: Phase, s: PhaseStats): (r: PhaseReport)
    ensures r.phase == PhaseName(p) && r.moves == s.moves
    ensures s.moves == 0 ==> r.avgCentipawnLoss == 0.0
    ensures s.moves > 0 ==> r.avgCentipawnLoss * (s.moves as real) == s.totalLoss as real
    ensures s.total == 0 ==> r.accuracy == 0.0
    ensures s.total > 0 ==> r.accuracy * (s.total as real) == (s.correct as real) * 100.0
  {
    PhaseReport(PhaseName(p), s.moves,
                if s.moves > 0 then (s.totalLoss as real) / (s.moves as real) else 0.0,
                Accuracy(Tally(s.total, s.correct)))
  }

  /** The loop over the joined rows that fills the `phases` dictionary. */
  method TallyPhases(rows: seq<LossRow>) returns (phases: map<Phase, PhaseStats>)
    ensures forall p: Phase :: p in phases && phases[p] == PhaseTally(rows, p)
  {
    phases := map[Opening := PhaseStats(0, 0, 0, 0),
                  MiddleGame := PhaseStats(0, 0, 0, 0),
                  Endgame := PhaseStats(0, 0, 0, 0)];
    var i := 0;
    forall p: Phase ensures p in phases && phases[p] == PhaseTally(rows[..0], p) {
      assert rows[..0] == [];
      match p {
        case Opening =>
        case MiddleGame =>
        case Endgame =>
      }
    }
    while i < |rows|
      invariant 0 <= i <= |rows|
      invariant forall p: Phase :: p in phases && phases[p] == PhaseTally(rows[..i], p)
    {
      assert rows[..i + 1][..i] == rows[..i];
      var moveNumber := rows[i].fullmoveNumber;
      var phase := if moveNumber <= 15 then Opening else if moveNumber <= 32 then MiddleGame else Endgame;
      assert phase == PhaseOf(moveNumber);
      var s := phases[phase];
      var updated := PhaseStats(s.moves + 1, s.totalLoss + rows[i].centipawnLoss,
                                s.correct + (if rows[i].result == "pass" then 1 else 0), s.total + 1);
      assert updated == PhaseTally(rows[..i + 1], phase);
      phases := phases[phase := updated];
      i := i + 1;
    }
    assert rows[..|rows|] == rows;
  }

  /** `get_centipawn_loss_analysis`. */
  method GetCentipawnLossAnalysis(db: Database, userId: int) returns (r: seq<PhaseReport>)
    ensures var rows := LossRows(db.userMoves, db.positions, db.moves, userId);
      r == [PhaseReportOf(Opening, PhaseTally(rows, Opening)),
            PhaseReportOf(MiddleGame, PhaseTally(rows, MiddleGame)),
            PhaseReportOf(Endgame, PhaseTally(rows, Endgame))]
  {
    var rows := LossRows(db.userMoves, db.positions, db.moves, userId);
    var phases := TallyPhases(rows);
    r := [];
    var order := [Opening, MiddleGame, Endgame];
    var k := 0;
    while k < 3
      invariant 0 <= k <= 3
      invariant r == seq(k, m requires 0 <= m < k => PhaseReportOf(order[m], phases[order[m]]))
    {
      r := r + [PhaseReportOf(order[k], phases[order[k]])];
      k := k + 1;
    }
  }
}
