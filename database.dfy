/** The JSONL import of database.py: `load_positions_from_jsonl` as it is
    finally bound (the second definition, line 171), reading already
    decoded lines and inserting into the positions and moves tables with
    INSERT OR IGNORE. */
module Database {
  import opened Common
  import opened Tables

  // ---------------------------------------------------------------------
  // Decoded input
  // ---------------------------------------------------------------------

  /** One element of a record's `top_moves` list. Anything that is not a
      JSON object makes `move_data.get` raise. The `...Spaced` fields are
      the alternative keys with a space after the underscore
      (`'centipawn_ loss'`). */
  datatype MoveEntry =
    | NotAnObject
    | MoveObject(
        move: Field<string>,
        uci: Field<string>,
        score: Field<int>,
        depth: Field<int>,
        centipawnLoss: Field<int>,
        centipawnLossSpaced: Field<int>,
        classification: Field<string>,
        pv: Field<string>,
        principalVariation: Field<string>,
        tactics: Field<seq<string>>)

  /** The keys of a position record that the core reads. */
  datatype PositionRecord = PositionRecord(
    id: Field<int>,
    fen: Field<string>,
    turn: Field<string>,
    fullmoveNumber: Field<int>,
    timestamp: Field<string>,
    positionClassification: Field<seq<string>>,
    kingSafety: Field<map<string, map<string, int>>>,
    pawnStructure: Field<map<string, int>>,
    centerControl: Field<map<string, int>>,
    topMoves: Field<seq<MoveEntry>>,
    topMovesSpaced: Field<seq<MoveEntry>>)

  /** A line of the file after `json.loads`: a decoding error, a JSON value
      that is not an object, or an object. */
  datatype Line = Malformed | NonObject | Record(rec: PositionRecord)

  // ---------------------------------------------------------------------
  // One record
  // ---------------------------------------------------------------------

  /** Python truthiness of the four required values: a missing key, a
      `null`, 0 and "" are all false. */
  predicate HasRequiredFields(rec: PositionRecord)
  {
    && rec.id.Value? && rec.id.v != 0
    && rec.fen.Value? && rec.fen.v != ""
    && rec.turn.Value? && rec.turn.v != ""
    && rec.fullmoveNumber.Value? && rec.fullmoveNumber.v != 0
  }

  /** The metadata object written at import. It has the keys material,
      mobility, king_safety, pawn_structure, center_control,
      piece_development and castling_rights, each defaulting to {}; it has
      no `turn` key. */
  function ImportedMetadata(rec: PositionRecord): (m: Metadata)
    ensures m.turn == None
  {
    Metadata(
      rec.kingSafety.Get(Some(map[])),
      rec.pawnStructure.Get(Some(map[])),
      rec.centerControl.Get(Some(map[])),
      None)
  }

  function PositionRow(rec: PositionRecord): Position
    requires HasRequiredFields(rec)
  {
    Position(
      rec.fen.v, rec.turn.v, rec.fullmoveNumber.v,
      rec.timestamp.Get(None),
      rec.positionClassification.Get(Some([])),
      ImportedMetadata(rec))
  }

  /** `top_moves`, falling back to `'top_ moves'` and then to []. A `null`
      gives None, on which `enumerate` raises. */
  function TopMoves(rec: PositionRecord): Option<seq<MoveEntry>>
  {
    rec.topMoves.Get(rec.topMovesSpaced.Get(Some([])))
  }

  /** INSERT OR IGNORE into positions: ignored when the primary key id or
      the UNIQUE fen is taken. The flag is `cursor.rowcount > 0`. */
  function InsertPosition(positions: map<int, Position>, id: int, row: Position): (r: (map<int, Position>, bool))
    ensures r.1 <==> id !in positions && row.fen !in Fens(positions)
    ensures r.1 ==> r.0 == positions[id := row]
    ensures !r.1 ==> r.0 == positions
    ensures forall k | k in positions :: k in r.0 && r.0[k] == positions[k]
  {
    if id in positions || row.fen in Fens(positions) then (positions, false)
    else (positions[id := row], true)
  }

  /** The row a `top_moves` entry yields at 1-based `rank`, or None when a
      NOT NULL column would be NULL (the OR IGNORE then skips it).
      centipawn_loss falls back to `'centipawn_ loss'` and then to 0; the
      principal variation is `pv`, else `principal_variation`, else "". */
  function MoveRowOf(entry: MoveEntry, positionId: int, rank: int, id: int): (r: Option<Move>)
    requires entry.MoveObject?
    ensures r.Some? <==>
      && entry.move.Value? && entry.uci.Value? && entry.score.Value? && entry.depth.Value?
      && entry.classification.Value?
      && entry.centipawnLoss.Get(entry.centipawnLossSpaced.Get(Some(0))).Some?
    ensures r.Some? ==>
      && r.value.id == id && r.value.positionId == positionId && r.value.rank == rank
      && r.value.move == entry.move.v && r.value.uci == entry.uci.v && r.value.score == entry.score.v
      && r.value.depth == entry.depth.v && r.value.classification == entry.classification.v
    ensures r.Some? && entry.centipawnLoss.Value? ==> r.value.centipawnLoss == entry.centipawnLoss.v
    ensures r.Some? && entry.centipawnLoss.Absent? && entry.centipawnLossSpaced.Value? ==>
      r.value.centipawnLoss == entry.centipawnLossSpaced.v
    ensures r.Some? && entry.centipawnLoss.Absent? && entry.centipawnLossSpaced.Absent? ==>
      r.value.centipawnLoss == 0
    ensures r.Some? && entry.pv.Null? ==> r.value.principalVariation == None
    ensures r.Some? && entry.pv.Value? ==> r.value.principalVariation == Some(entry.pv.v)
    ensures r.Some? && entry.pv.Absent? && entry.principalVariation.Value? ==>
      r.value.principalVariation == Some(entry.principalVariation.v)
    ensures r.Some? && entry.pv.Absent? && entry.principalVariation.Null? ==>
      r.value.principalVariation == None
    ensures r.Some? && entry.pv.Absent? && entry.principalVariation.Absent? ==>
      r.value.principalVariation == Some("")
    ensures r.Some? && entry.tactics.Value? ==> r.value.tactics == Some(entry.tactics.v)
    ensures r.Some? && entry.tactics.Null? ==> r.value.tactics == None
    ensures r.Some? && entry.tactics.Absent? ==> r.value.tactics == Some([])
  {
    var cpl := entry.centipawnLoss.Get(entry.centipawnLossSpaced.Get(Some(0)));
    var pv := entry.pv.Get(entry.principalVariation.Get(Some("")));
    if entry.move.Value? && entry.uci.Value? && entry.score.Value? && entry.depth.Value?
       && entry.classification.Value? && cpl.Some?
    then
      Some(Move(id, positionId, entry.move.v, entry.uci.v, entry.score.v, entry.depth.v, cpl.value,
                entry.classification.v, pv, entry.tactics.Get(Some([])), rank))
    else None
  }

  /** INSERT OR IGNORE into moves: skipped for a NULL in a NOT NULL column
      or a taken (position_id, move) pair; otherwise appended with the next
      AUTOINCREMENT id. */
  function InsertMove(c: Catalog, positionId: int, rank: int, entry: MoveEntry): (r: Catalog)
    requires entry.MoveObject?
    ensures r.positions == c.positions
    ensures r == c || (|r.moves| == |c.moves| + 1 && r == c.(moves := c.moves + [r.moves[|c.moves|]], moveSeq := c.moveSeq + 1))
    ensures |r.moves| > |c.moves| ==>
      && r.moves[|c.moves|].rank == rank && r.moves[|c.moves|].positionId == positionId
      && entry.move == Value(r.moves[|c.moves|].move)
  {
    match MoveRowOf(entry, positionId, rank, c.moveSeq + 1)
    case None => c
    case Some(row) =>
      if HasMovePair(c.moves, positionId, row.move) then c
      else c.(moves := c.moves + [row], moveSeq := c.moveSeq + 1)
  }

  /** The first `k` iterations of the loop over `top_moves`; the flag says
      whether an entry that is not an object has raised, which ends the
      loop for this record. */
  function LoadMoves(c: Catalog, positionId: int, entries: seq<MoveEntry>, k: nat): (r: (Catalog, bool))
    requires k <= |entries|
    ensures r.0.positions == c.positions
  {
    if k == 0 then (c, false)
    else
      var prev := LoadMoves(c, positionId, entries, k - 1);
      if prev.1 then prev
      else if entries[k - 1].NotAnObject? then (prev.0, true)
      else (InsertMove(prev.0, positionId, k, entries[k - 1]), false)
  }

  datatype LineOutcome = LineOutcome(catalog: Catalog, loaded: nat, errors: nat)

  /** One iteration of the loop over lines. A skipped record counts as an
      error and changes nothing. A record whose move list raises counts as
      an error too, but what it already inserted stays: there is no
      rollback. */
  function LoadLine(c: Catalog, line: Line): (r: LineOutcome)
    ensures r.loaded <= 1 && r.errors <= 1
    ensures !line.Record? ==> r == LineOutcome(c, 0, 1)
    ensures line.Record? && !HasRequiredFields(line.rec) ==> r == LineOutcome(c, 0, 1)
    ensures r.loaded == 1 <==>
      line.Record? && HasRequiredFields(line.rec) && line.rec.id.v !in c.positions
      && line.rec.fen.v !in Fens(c.positions)
    ensures line.Record? && HasRequiredFields(line.rec) ==>
      line.rec.id.v in r.catalog.positions || line.rec.fen.v in Fens(r.catalog.positions)
  {
    match line
    case Malformed => LineOutcome(c, 0, 1)
    case NonObject => LineOutcome(c, 0, 1)
    case Record(rec) =>
      if !HasRequiredFields(rec) then LineOutcome(c, 0, 1)
      else
        var ins := InsertPosition(c.positions, rec.id.v, PositionRow(rec));
        var c1 := c.(positions := ins.0);
        var loaded := if ins.1 then 1 else 0;
        match TopMoves(rec)
        case None => LineOutcome(c1, loaded, 1)
        case Some(entries) =>
          var moved := LoadMoves(c1, rec.id.v, entries, |entries|);
          LineOutcome(moved.0, loaded, if moved.1 then 1 else 0)
  }

  /** The whole loop over lines, as the counters stand after the last one. */
  function LoadLines(c: Catalog, lines: seq<Line>): LineOutcome
  {
    if lines == [] then LineOutcome(c, 0, 0)
    else
      var prev := LoadLines(c, lines[..|lines| - 1]);
      var last := LoadLine(prev.catalog, lines[|lines| - 1]);
      LineOutcome(last.catalog, prev.loaded + last.loaded, prev.errors + last.errors)
  }

  // ---------------------------------------------------------------------
  // The imperative loader
  // ---------------------------------------------------------------------

  /** One `INSERT OR IGNORE INTO moves`. */
  method InsertMoveRow(db: Database, positionId: int, rank: int, entry: MoveEntry)
    requires entry.MoveObject?
    modifies db
    ensures db.CatalogState() == InsertMove(old(db.CatalogState()), positionId, rank, entry)
    ensures db.userMoves == old(db.userMoves) && db.userMoveSeq == old(db.userMoveSeq)
    ensures db.settings == old(db.settings) && db.users == old(db.users) && db.userSeq == old(db.userSeq)
  {
    var row := MoveRowOf(entry, positionId, rank, db.moveSeq + 1);
    if row.Some? && !HasMovePair(db.moves, positionId, row.value.move) {
      db.moves := db.moves + [row.value];
      db.moveSeq := db.moveSeq + 1;
    }
  }

  /** The inner loop over `top_moves` for one record. */
  method InsertTopMoves(db: Database, positionId: int, entries: seq<MoveEntry>) returns (raised: bool)
    requires db.Valid()
    modifies db
    ensures db.Valid()
    ensures (db.CatalogState(), raised) == LoadMoves(old(db.CatalogState()), positionId, entries, |entries|)
    ensures db.userMoves == old(db.userMoves) && db.userMoveSeq == old(db.userMoveSeq)
    ensures db.settings == old(db.settings) && db.users == old(db.users) && db.userSeq == old(db.userSeq)
  {
    ghost var start := db.CatalogState();
    raised := false;
    var j := 0;
    while j < |entries|
      invariant 0 <= j <= |entries|
      invariant db.Valid()
      invariant LoadMoves(start, positionId, entries, j) == (db.CatalogState(), false)
      invariant db.userMoves == old(db.userMoves) && db.userMoveSeq == old(db.userMoveSeq)
      invariant db.settings == old(db.settings) && db.users == old(db.users) && db.userSeq == old(db.userSeq)
    {
      var entry := entries[j];
      if entry.NotAnObject? {
        raised := true;
        RaisedStays(start, positionId, entries, j + 1, |entries|);
        return;
      }
      InsertMoveRow(db, positionId, j + 1, entry);
      LoadMovesValid(start, positionId, entries, j + 1);
      j := j + 1;
    }
  }

  /** One iteration of the loop over lines: the position insert, then the
      loop over its `top_moves`. */
  method LoadOneLine(db: Database, line: Line) returns (loaded: nat, failed: nat)
    requires db.Valid()
    modifies db
    ensures db.Valid()
    ensures LoadLine(old(db.CatalogState()), line) == LineOutcome(db.CatalogState(), loaded, failed)
    ensures db.userMoves == old(db.userMoves) && db.userMoveSeq == old(db.userMoveSeq)
    ensures db.settings == old(db.settings) && db.users == old(db.users) && db.userSeq == old(db.userSeq)
  {
    loaded, failed := 0, 0;
    match line {
      case Malformed =>
        failed := 1;
      case NonObject =>
        failed := 1;
      case Record(rec) =>
        if !HasRequiredFields(rec) {
          failed := 1;
        } else {
          var row := PositionRow(rec);
          if rec.id.v !in db.positions && row.fen !in Fens(db.positions) {
            db.positions := db.positions[rec.id.v := row];
            loaded := 1;
          }
          var top := TopMoves(rec);
          if top.None? {
            failed := 1;
          } else {
            var raised := InsertTopMoves(db, rec.id.v, top.value);
            if raised {
              failed := 1;
            }
          }
        }
    }
  }

  /** `load_positions_from_jsonl`: returns `positions_loaded`, the number
      of position rows the loop inserted. The error counter is only
      printed by the source. */
  method LoadPositionsFromJsonl(db: Database, lines: seq<Line>) returns (positionsLoaded: nat)
    requires db.Valid()
    modifies db
    ensures db.Valid()
    ensures db.CatalogState() == LoadLines(old(db.CatalogState()), lines).catalog
    ensures positionsLoaded == LoadLines(old(db.CatalogState()), lines).loaded
    ensures db.userMoves == old(db.userMoves) && db.userMoveSeq == old(db.userMoveSeq)
    ensures db.settings == old(db.settings) && db.users == old(db.users) && db.userSeq == old(db.userSeq)
  {
    ghost var start := db.CatalogState();
    positionsLoaded := 0;
    var errors := 0;
    var i := 0;
    while i < |lines|
      invariant 0 <= i <= |lines|
      invariant db.Valid()
      invariant LoadLines(start, lines[..i]) == LineOutcome(db.CatalogState(), positionsLoaded, errors)
      invariant db.userMoves == old(db.userMoves) && db.userMoveSeq == old(db.userMoveSeq)
      invariant db.settings == old(db.settings) && db.users == old(db.users) && db.userSeq == old(db.userSeq)
    {
      assert lines[..i + 1][..i] == lines[..i];
      var loaded, failed := LoadOneLine(db, lines[i]);
      positionsLoaded := positionsLoaded + loaded;
      errors := errors + failed;
      i := i + 1;
    }
    assert lines[..|lines|] == lines;
  }

  // ---------------------------------------------------------------------
  // Properties
  // ---------------------------------------------------------------------

  /** Once an entry has raised, later iterations change nothing. */
  lemma {:induction false} RaisedStays(c: Catalog, positionId: int, entries: seq<MoveEntry>, j: nat, k: nat)
    requires j <= k <= |entries|
    requires LoadMoves(c, positionId, entries, j).1
    ensures LoadMoves(c, positionId, entries, k) == LoadMoves(c, positionId, entries, j)
    decreases k
  {
    if k > j { RaisedStays(c, positionId, entries, j, k - 1); }
  }

  /** The loop over `top_moves` raises exactly when some entry before the
      bound is not an object. */
  lemma {:induction false} RaisesIff(c: Catalog, positionId: int, entries: seq<MoveEntry>, k: nat)
    requires k <= |entries|
    ensures LoadMoves(c, positionId, entries, k).1 <==> exists i | 0 <= i < k :: entries[i].NotAnObject?
  {
    if k > 0 { RaisesIff(c, positionId, entries, k - 1); }
  }

  /** The move loop keeps the rows it started with, in place. */
  lemma {:induction false} LoadMovesPrefix(c: Catalog, positionId: int, entries: seq<MoveEntry>, k: nat)
    requires k <= |entries|
    ensures var r := LoadMoves(c, positionId, entries, k).0;
      |c.moves| <= |r.moves| && r.moves[..|c.moves|] == c.moves
  {
    if k > 0 {
      LoadMovesPrefix(c, positionId, entries, k - 1);
      var prev := LoadMoves(c, positionId, entries, k - 1).0;
      var r := LoadMoves(c, positionId, entries, k).0;
      if r != prev {
        assert r.moves == prev.moves + [r.moves[|prev.moves|]];
        assert r.moves[..|c.moves|] == prev.moves[..|c.moves|];
      }
    }
  }

  /** `m` is the row stored for the entry at index `m.rank - 1`. */
  predicate FromEntry(m: Move, positionId: int, entries: seq<MoveEntry>)
  {
    && 1 <= m.rank <= |entries|
    && m.positionId == positionId
    && entries[m.rank - 1].MoveObject?
    && entries[m.rank - 1].move == Value(m.move)
  }

  /** Every row the move loop adds belongs to the position and carries the
      1-based index of the entry it came from as its rank. */
  lemma {:induction false} RanksAreIndices(c: Catalog, positionId: int, entries: seq<MoveEntry>, k: nat)
    requires k <= |entries|
    ensures var r := LoadMoves(c, positionId, entries, k).0;
      && |c.moves| <= |r.moves| && r.moves[..|c.moves|] == c.moves
      && forall i | |c.moves| <= i < |r.moves| ::
           r.moves[i].rank <= k && FromEntry(r.moves[i], positionId, entries)
  {
    LoadMovesPrefix(c, positionId, entries, k);
    if k > 0 {
      RanksAreIndices(c, positionId, entries, k - 1);
      var p := LoadMoves(c, positionId, entries, k - 1);
      var prev := p.0;
      var r := LoadMoves(c, positionId, entries, k).0;
      if r != prev {
        assert !p.1 && entries[k - 1].MoveObject?;
        assert r == InsertMove(prev, positionId, k, entries[k - 1]);
        assert r.moves == prev.moves + [r.moves[|prev.moves|]];
        assert FromEntry(r.moves[|prev.moves|], positionId, entries);
        forall i | |c.moves| <= i < |r.moves|
          ensures r.moves[i].rank <= k && FromEntry(r.moves[i], positionId, entries)
        {
          if i < |prev.moves| {
            assert r.moves[i] == prev.moves[i];
          }
        }
      }
    }
  }

  /** The loop over `top_moves` keeps the schema's constraints. */
  lemma {:induction false} LoadMovesValid(c: Catalog, positionId: int, entries: seq<MoveEntry>, k: nat)
    requires k <= |entries|
    requires CatalogValid(c)
    ensures CatalogValid(LoadMoves(c, positionId, entries, k).0)
  {
    if k > 0 { LoadMovesValid(c, positionId, entries, k - 1); }
  }

  /** Positions never change or vanish during a load, and the table grows
      by exactly the returned count. */
  lemma {:induction false} LoadCountsInsertedPositions(c: Catalog, lines: seq<Line>)
    ensures var r := LoadLines(c, lines);
      && (forall k | k in c.positions :: k in r.catalog.positions && r.catalog.positions[k] == c.positions[k])
      && |r.catalog.positions| == |c.positions| + r.loaded
  {
    if lines != [] {
      var prev := LoadLines(c, lines[..|lines| - 1]);
      LoadCountsInsertedPositions(c, lines[..|lines| - 1]);
      LoadLinePositions(prev.catalog, lines[|lines| - 1]);
    }
  }

  /** One line keeps every position and adds exactly the one it counts. */
  lemma LoadLinePositions(c: Catalog, line: Line)
    ensures var r := LoadLine(c, line);
      && (forall k | k in c.positions :: k in r.catalog.positions && r.catalog.positions[k] == c.positions[k])
      && |r.catalog.positions| == |c.positions| + r.loaded
  {
    if line.Record? && HasRequiredFields(line.rec) {
      var id := line.rec.id.v;
      var ins := InsertPosition(c.positions, id, PositionRow(line.rec));
      if ins.1 {
        assert ins.0.Keys == c.positions.Keys + {id};
      }
    }
  }

  /** Importing keeps the schema's constraints. */
  lemma {:induction false} LoadLinesValid(c: Catalog, lines: seq<Line>)
    requires CatalogValid(c)
    ensures CatalogValid(LoadLines(c, lines).catalog)
  {
    if lines != [] {
      var prev := LoadLines(c, lines[..|lines| - 1]);
      LoadLinesValid(c, lines[..|lines| - 1]);
      var line := lines[|lines| - 1];
      if line.Record? && HasRequiredFields(line.rec) {
        var ins := InsertPosition(prev.catalog.positions, line.rec.id.v, PositionRow(line.rec));
        var c1 := prev.catalog.(positions := ins.0);
        assert CatalogValid(c1);
        if TopMoves(line.rec).Some? {
          var e := TopMoves(line.rec).value;
          LoadMovesValid(c1, line.rec.id.v, e, |e|);
        }
      }
    }
  }

  /** An exception from a `top_moves` entry counts one error, yet the
      position and the move rows inserted before it persist. */
  lemma RaisingRecordKeepsEarlierRows(c: Catalog, rec: PositionRecord, entries: seq<MoveEntry>, j: nat)
    requires HasRequiredFields(rec) && TopMoves(rec) == Some(entries)
    requires j < |entries| && entries[j].NotAnObject?
    requires forall i | 0 <= i < j :: entries[i].MoveObject?
    ensures var r := LoadLine(c, Record(rec));
      var c1 := c.(positions := InsertPosition(c.positions, rec.id.v, PositionRow(rec)).0);
      && r.errors == 1
      && r.catalog == LoadMoves(c1, rec.id.v, entries, j).0
      && (rec.id.v in r.catalog.positions || rec.fen.v in Fens(r.catalog.positions))
  {
    var c1 := c.(positions := InsertPosition(c.positions, rec.id.v, PositionRow(rec)).0);
    RaisesIff(c1, rec.id.v, entries, j);
    assert LoadMoves(c1, rec.id.v, entries, j + 1).1;
    RaisedStays(c1, rec.id.v, entries, j + 1, |entries|);
  }

  // --- re-importing the same lines changes nothing ----------------------

  /** `big` holds every position of `small` unchanged and every
      (position_id, move) pair of `small`. */
  ghost predicate Extends(big: Catalog, small: Catalog)
  {
    && (forall k | k in small.positions :: k in big.positions && big.positions[k] == small.positions[k])
    && (forall i | 0 <= i < |small.moves| :: HasMovePair(big.moves, small.moves[i].positionId, small.moves[i].move))
  }

  lemma ExtendsTransitive(a: Catalog, b: Catalog, c: Catalog)
    requires Extends(a, b) && Extends(b, c)
    ensures Extends(a, c)
  {
    forall i | 0 <= i < |c.moves|
      ensures HasMovePair(a.moves, c.moves[i].positionId, c.moves[i].move)
    {
      var j :| 0 <= j < |b.moves| && b.moves[j].positionId == c.moves[i].positionId && b.moves[j].move == c.moves[i].move;
    }
  }

  lemma {:induction false} LoadMovesExtends(c: Catalog, positionId: int, entries: seq<MoveEntry>, k: nat)
    requires k <= |entries|
    ensures Extends(LoadMoves(c, positionId, entries, k).0, c)
  {
    if k > 0 {
      LoadMovesExtends(c, positionId, entries, k - 1);
      var prev := LoadMoves(c, positionId, entries, k - 1);
      if !prev.1 && entries[k - 1].MoveObject? {
        var next := InsertMove(prev.0, positionId, k, entries[k - 1]);
        assert Extends(next, prev.0) by {
          forall i | 0 <= i < |prev.0.moves|
            ensures HasMovePair(next.moves, prev.0.moves[i].positionId, prev.0.moves[i].move)
          {
            assert next.moves[i] == prev.0.moves[i];
          }
        }
        ExtendsTransitive(next, prev.0, c);
      }
    }
  }

  lemma LoadLineExtends(c: Catalog, line: Line)
    ensures Extends(LoadLine(c, line).catalog, c)
  {
    if line.Record? && HasRequiredFields(line.rec) {
      var rec := line.rec;
      var c1 := c.(positions := InsertPosition(c.positions, rec.id.v, PositionRow(rec)).0);
      assert Extends(c1, c);
      if TopMoves(rec).Some? {
        var e := TopMoves(rec).value;
        LoadMovesExtends(c1, rec.id.v, e, |e|);
        ExtendsTransitive(LoadLine(c, line).catalog, c1, c);
      }
    }
  }

  lemma {:induction false} LoadLinesExtends(c: Catalog, lines: seq<Line>, m: nat)
    requires m <= |lines|
    ensures Extends(LoadLines(c, lines).catalog, LoadLines(c, lines[..m]).catalog)
    decreases |lines|
  {
    if m == |lines| {
      assert lines[..m] == lines;
    } else {
      var init := lines[..|lines| - 1];
      assert init[..m] == lines[..m];
      LoadLinesExtends(c, init, m);
      LoadLineExtends(LoadLines(c, init).catalog, lines[|lines| - 1]);
      ExtendsTransitive(LoadLines(c, lines).catalog, LoadLines(c, init).catalog, LoadLines(c, lines[..m]).catalog);
    }
  }

  /** After loading, every entry the loop reached and could store has its
      (position_id, move) pair in the table. */
  lemma {:induction false} LoadMovesStoresPairs(c: Catalog, positionId: int, entries: seq<MoveEntry>, k: nat, j: nat)
    requires j < k <= |entries|
    requires forall i | 0 <= i <= j :: entries[i].MoveObject?
    requires MoveRowOf(entries[j], positionId, j + 1, 0).Some?
    ensures HasMovePair(LoadMoves(c, positionId, entries, k).0.moves, positionId, entries[j].move.v)
    decreases k
  {
    RaisesIff(c, positionId, entries, j);
    var prev := LoadMoves(c, positionId, entries, k - 1);
    if k - 1 == j {
      var next := InsertMove(prev.0, positionId, k, entries[j]);
      assert MoveRowOf(entries[j], positionId, k, prev.0.moveSeq + 1).Some?;
      if !HasMovePair(prev.0.moves, positionId, entries[j].move.v) {
        assert next.moves[|next.moves| - 1].move == entries[j].move.v;
      }
    } else {
      LoadMovesStoresPairs(c, positionId, entries, k - 1, j);
      LoadMovesExtends(prev.0, positionId, entries, k);
      if !prev.1 && entries[k - 1].MoveObject? {
        var next := InsertMove(prev.0, positionId, k, entries[k - 1]);
        var w :| 0 <= w < |prev.0.moves| && prev.0.moves[w].positionId == positionId && prev.0.moves[w].move == entries[j].move.v;
        assert next.moves[w] == prev.0.moves[w];
      }
    }
  }

  /** On a catalogue that already holds every pair the loop could store,
      the loop changes nothing. */
  lemma {:induction false} LoadMovesNoOp(c: Catalog, positionId: int, entries: seq<MoveEntry>, k: nat)
    requires k <= |entries|
    requires forall j | 0 <= j < k && (forall i | 0 <= i <= j :: entries[i].MoveObject?)
               && MoveRowOf(entries[j], positionId, j + 1, 0).Some? ::
               HasMovePair(c.moves, positionId, entries[j].move.v)
    ensures LoadMoves(c, positionId, entries, k).0 == c
  {
    if k > 0 {
      LoadMovesNoOp(c, positionId, entries, k - 1);
      var prev := LoadMoves(c, positionId, entries, k - 1);
      if !prev.1 && entries[k - 1].MoveObject? {
        RaisesIff(c, positionId, entries, k - 1);
        assert forall i | 0 <= i <= k - 1 :: entries[i].MoveObject?;
        var row := MoveRowOf(entries[k - 1], positionId, k, c.moveSeq + 1);
        if row.Some? {
          assert MoveRowOf(entries[k - 1], positionId, k, 0).Some?;
        }
      }
    }
  }

  /** A line loaded into a catalogue that already extends the result of
      loading it once changes nothing. */
  lemma LoadLineNoOp(s: Catalog, c: Catalog, line: Line)
    requires Extends(c, LoadLine(s, line).catalog)
    ensures LoadLine(c, line).catalog == c
    ensures LoadLine(c, line).loaded == 0
  {
    if line.Record? && HasRequiredFields(line.rec) {
      var rec := line.rec;
      var id := rec.id.v;
      var row := PositionRow(rec);
      var s1 := s.(positions := InsertPosition(s.positions, id, row).0);
      var after := LoadLine(s, line).catalog;
      assert id in c.positions || row.fen in Fens(c.positions) by {
        if id !in after.positions {
          var k :| k in after.positions && after.positions[k].fen == row.fen;
          assert k in c.positions && c.positions[k].fen == row.fen;
        }
      }
      if TopMoves(rec).Some? {
        var e := TopMoves(rec).value;
        forall j | 0 <= j < |e| && (forall i | 0 <= i <= j :: e[i].MoveObject?)
                   && MoveRowOf(e[j], id, j + 1, 0).Some?
          ensures HasMovePair(c.moves, id, e[j].move.v)
        {
          LoadMovesStoresPairs(s1, id, e, |e|, j);
          var w :| 0 <= w < |after.moves| && after.moves[w].positionId == id && after.moves[w].move == e[j].move.v;
        }
        LoadMovesNoOp(c, id, e, |e|);
      }
    }
  }

  lemma {:induction false} LoadLinesPrefixNoOp(c0: Catalog, lines: seq<Line>, m: nat)
    requires m <= |lines|
    ensures var full := LoadLines(c0, lines).catalog;
      LoadLines(full, lines[..m]).catalog == full && LoadLines(full, lines[..m]).loaded == 0
  {
    var full := LoadLines(c0, lines).catalog;
    if m > 0 {
      LoadLinesPrefixNoOp(c0, lines, m - 1);
      assert lines[..m][..m - 1] == lines[..m - 1];
      LoadLinesExtends(c0, lines, m);
      assert lines[..m - 1] + [lines[m - 1]] == lines[..m];
      var s := LoadLines(c0, lines[..m - 1]).catalog;
      assert LoadLines(c0, lines[..m]).catalog == LoadLine(s, lines[m - 1]).catalog by {
        assert lines[..m][..|lines[..m]| - 1] == lines[..m - 1];
      }
      LoadLineNoOp(s, full, lines[m - 1]);
    }
  }

  /** Loading the same lines a second time leaves both tables as they are
      and reports no new positions. */
  lemma ReloadChangesNothing(c: Catalog, lines: seq<Line>)
    ensures var once := LoadLines(c, lines);
      LoadLines(once.catalog, lines).catalog == once.catalog && LoadLines(once.catalog, lines).loaded == 0
  {
    LoadLinesPrefixNoOp(c, lines, |lines|);
    assert lines[..|lines|] == lines;
  }
}
