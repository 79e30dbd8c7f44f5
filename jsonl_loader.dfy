/** jsonl_loader.py: the file check run before an import, the import that
    reports how many positions it added, and the guarded clearing of the
    catalogue. A file is given as an existence flag, its path and its
    lines already decoded. */
module JsonlLoader {
  import opened Common
  import opened Tables
  import opened Database

  // ---------------------------------------------------------------------
  // validate_jsonl_file
  // ---------------------------------------------------------------------

  /** The keys every record must have (presence only: a `null` counts). */
  const RequiredKeys: set<string> := {"id", "fen", "top_moves", "turn", "fullmove_number"}

  /** `required_fields - set(position_data.keys())`. Only `top_moves`
      satisfies the check, not the `'top_ moves'` spelling the loader
      also accepts. */
  function MissingFields(rec: PositionRecord): (r: set<string>)
    ensures r <= RequiredKeys
    ensures r == {} <==>
      rec.id.Present() && rec.fen.Present() && rec.topMoves.Present()
      && rec.turn.Present() && rec.fullmoveNumber.Present()
  {
    (if rec.id.Absent? then {"id"} else {})
    + (if rec.fen.Absent? then {"fen"} else {})
    + (if rec.topMoves.Absent? then {"top_moves"} else {})
    + (if rec.turn.Absent? then {"turn"} else {})
    + (if rec.fullmoveNumber.Absent? then {"fullmove_number"} else {})
  }

  /** An entry of the `errors` list, with its 1-based line number. The
      decoder's own message and the order in which the missing names are
      joined are not modelled. */
  datatype LineError = InvalidJson(lineNumber: nat) | MissingRequired(lineNumber: nat, fields: set<string>)

  /** The message returned beside the verdict. */
  datatype ValidationMessage =
    | FileMissing            // "File does not exist"
    | WrongExtension         // "File must have .jsonl extension"
    | InvalidLines(invalidCount: nat, firstErrors: seq<LineError>, more: Option<nat>)
    | NoValidPositions       // "File contains no valid positions"
    | Validated(validCount: nat)
    | ValidationFailed       // the outer `except Exception`

  predicate LineValid(line: Line)
  {
    line.Record? && MissingFields(line.rec) == {}
  }

  /** Calling `.keys()` on a decoded value that is not an object raises
      outside the per-line handler, which ends the whole check. */
  predicate HasNonObject(lines: seq<Line>)
  {
    exists i | 0 <= i < |lines| :: lines[i].NonObject?
  }

  function ValidCount(lines: seq<Line>): (n: nat)
    ensures n <= |lines|
  {
    if lines == [] then 0
    else ValidCount(lines[..|lines| - 1]) + (if LineValid(lines[|lines| - 1]) then 1 else 0)
  }

  /** The error, if any, that line number `n` appends. */
  function ErrorOf(line: Line, n: nat): (r: Option<LineError>)
    ensures r.Some? ==> r.value.lineNumber == n && !LineValid(line)
    ensures r.None? <==> LineValid(line) || line.NonObject?
  {
    match line
    case Malformed => Some(InvalidJson(n))
    case NonObject => None
    case Record(rec) => if MissingFields(rec) == {} then None else Some(MissingRequired(n, MissingFields(rec)))
  }

  function LineErrors(lines: seq<Line>): seq<LineError>
  {
    if lines == [] then []
    else
      var prev := LineErrors(lines[..|lines| - 1]);
      match ErrorOf(lines[|lines| - 1], |lines|)
      case None => prev
      case Some(e) => prev + [e]
  }

  /** Without a non-object line, every line is either valid or leaves one
      error, so valid and invalid lines add up to the line count. */
  lemma {:induction false} ValidPlusInvalid(lines: seq<Line>)
    requires !HasNonObject(lines)
    ensures ValidCount(lines) + |LineErrors(lines)| == |lines|
  {
    if lines != [] {
      var init := lines[..|lines| - 1];
      assert !HasNonObject(init) by {
        forall i | 0 <= i < |init| ensures !init[i].NonObject? { assert init[i] == lines[i]; }
      }
      ValidPlusInvalid(init);
      assert !lines[|lines| - 1].NonObject?;
    }
  }

  /** Each error names an invalid line, in line order. */
  ghost predicate ErrorsInLineOrder(errs: seq<LineError>, lines: seq<Line>)
  {
    && (forall k | 0 <= k < |errs| ::
          1 <= errs[k].lineNumber <= |lines| && !LineValid(lines[errs[k].lineNumber - 1]))
    && (forall k, m | 0 <= k < m < |errs| :: errs[k].lineNumber < errs[m].lineNumber)
  }

  /** Errors appear in line order, each naming an invalid line. */
  lemma {:induction false} ErrorsNameInvalidLines(lines: seq<Line>)
    ensures ErrorsInLineOrder(LineErrors(lines), lines)
  {
    if lines != [] {
      var init := lines[..|lines| - 1];
      ErrorsNameInvalidLines(init);
      var errs := LineErrors(lines);
      var prev := LineErrors(init);
      var last := ErrorOf(lines[|lines| - 1], |lines|);
      assert errs == if last.Some? then prev + [last.value] else prev;
      forall k | 0 <= k < |errs|
        ensures 1 <= errs[k].lineNumber <= |lines| && !LineValid(lines[errs[k].lineNumber - 1])
      {
        if k < |prev| {
          assert errs[k] == prev[k];
          assert 1 <= prev[k].lineNumber <= |init|;
          assert lines[prev[k].lineNumber - 1] == init[prev[k].lineNumber - 1];
        }
      }
      forall k, m | 0 <= k < m < |errs|
        ensures errs[k].lineNumber < errs[m].lineNumber
      {
        if m < |prev| {
          assert errs[k] == prev[k] && errs[m] == prev[m];
        } else {
          assert errs[k] == prev[k];
        }
      }
    }
  }

  function Min(a: nat, b: nat): nat { if a <= b then a else b }

  /** `validate_jsonl_file`. */
  method ValidateJsonlFile(exists_: bool, path: string, lines: seq<Line>) returns (ok: bool, message: ValidationMessage)
    ensures !exists_ ==> !ok && message == FileMissing
    ensures exists_ && !EndsWith(Lower(path), ".jsonl") ==> !ok && message == WrongExtension
    ensures exists_ && EndsWith(Lower(path), ".jsonl") && HasNonObject(lines) ==>
      !ok && message == ValidationFailed
    ensures exists_ && EndsWith(Lower(path), ".jsonl") && !HasNonObject(lines) ==>
      var errs := LineErrors(lines);
      var valid := ValidCount(lines);
      if |errs| > 0 then
        && message == InvalidLines(|errs|, errs[..Min(3, |errs|)], if |errs| > 3 then Some(|errs| - 3) else None)
        && message.invalidCount + valid == |lines|
      else if valid == 0 then message == NoValidPositions
      else message == Validated(valid)
    ensures ok <==> exists_ && EndsWith(Lower(path), ".jsonl") && !HasNonObject(lines) && ValidCount(lines) > 0
  {
    if !exists_ {
      return false, FileMissing;
    }
    if !EndsWith(Lower(path), ".jsonl") {
      return false, WrongExtension;
    }
    var valid := 0;
    var invalid := 0;
    var errors: seq<LineError> := [];
    var i := 0;
    while i < |lines|
      invariant 0 <= i <= |lines|
      invariant forall k | 0 <= k < i :: !lines[k].NonObject?
      invariant valid == ValidCount(lines[..i])
      invariant errors == LineErrors(lines[..i])
      invariant invalid == |errors|
    {
      assert lines[..i + 1][..i] == lines[..i];
      var n := i + 1;
      match lines[i] {
        case Malformed =>
          invalid := invalid + 1;
          errors := errors + [InvalidJson(n)];
        case NonObject =>
          return false, ValidationFailed;
        case Record(rec) =>
          var missing := MissingFields(rec);
          if missing != {} {
            invalid := invalid + 1;
            errors := errors + [MissingRequired(n, missing)];
          } else {
            valid := valid + 1;
          }
      }
      i := i + 1;
    }
    assert lines[..|lines|] == lines;
    ValidPlusInvalid(lines);
    if invalid > 0 {
      var more := if |errors| > 3 then Some(|errors| - 3) else None;
      return valid > 0, InvalidLines(invalid, errors[..Min(3, |errors|)], more);
    }
    if valid == 0 {
      return false, NoValidPositions;
    }
    return true, Validated(valid);
  }

  // ---------------------------------------------------------------------
  // import_positions
  // ---------------------------------------------------------------------

  /** The result dictionary; `totalPositions` is None where the source
      leaves the key out. The message text is left out. */
  datatype ImportResult = ImportResult(success: bool, imported: int, totalPositions: Option<nat>)

  /** `import_positions`: validates, then loads and reports the growth of
      the positions table. */
  method ImportPositions(db: Tables.Database, exists_: bool, path: string, lines: seq<Line>) returns (r: ImportResult)
    requires db.Valid()
    modifies db
    ensures db.Valid()
    ensures var ok := exists_ && EndsWith(Lower(path), ".jsonl") && !HasNonObject(lines) && ValidCount(lines) > 0;
      && (!ok ==> r == ImportResult(false, 0, None) && db.CatalogState() == old(db.CatalogState()))
      && (ok ==>
            && db.CatalogState() == LoadLines(old(db.CatalogState()), lines).catalog
            && r.success
            && r.imported == |db.positions| - |old(db.positions)|
            && r.imported == LoadLines(old(db.CatalogState()), lines).loaded
            && r.totalPositions == Some(|db.positions|))
    ensures db.userMoves == old(db.userMoves) && db.userMoveSeq == old(db.userMoveSeq)
    ensures db.settings == old(db.settings) && db.users == old(db.users) && db.userSeq == old(db.userSeq)
  {
    var isValid, _ := ValidateJsonlFile(exists_, path, lines);
    if !isValid {
      return ImportResult(false, 0, None);
    }
    ghost var start := db.CatalogState();
    var beforeCount := |db.positions|;
    var _ := LoadPositionsFromJsonl(db, lines);
    var afterCount := |db.positions|;
    LoadCountsInsertedPositions(start, lines);
    return ImportResult(true, afterCount - beforeCount, Some(afterCount));
  }

  // ---------------------------------------------------------------------
  // clear_positions
  // ---------------------------------------------------------------------

  function RefusalMessage(userMovesCount: nat): string
  {
    "Cannot clear positions: " + IntToString(userMovesCount) + " user moves would be lost. Export user data first."
  }

  /** `clear_positions`: refuses while any attempt is recorded; otherwise
      deletes every move and position. The AUTOINCREMENT counter of moves
      survives the DELETE. */
  method ClearPositions(db: Tables.Database) returns (ok: bool, message: string)
    requires db.Valid()
    modifies db
    ensures db.Valid()
    ensures ok <==> old(db.userMoves) == []
    ensures !ok ==> db.CatalogState() == old(db.CatalogState()) && message == RefusalMessage(|db.userMoves|)
    ensures ok ==> (db.positions == map[] && db.moves == [] && db.moveSeq == old(db.moveSeq)
      && message == "All positions and moves cleared successfully.")
    ensures db.userMoves == old(db.userMoves) && db.userMoveSeq == old(db.userMoveSeq)
    ensures db.settings == old(db.settings) && db.users == old(db.users) && db.userSeq == old(db.userSeq)
  {
    var userMovesCount := |db.userMoves|;
    if userMovesCount > 0 {
      return false, RefusalMessage(userMovesCount);
    }
    db.moves := [];
    db.positions := map[];
    return true, "All positions and moves cleared successfully.";
  }

  /** The refusal names the number of attempts that block the clear. */
  lemma RefusalNamesCount(n: nat)
    ensures var m := RefusalMessage(n);
      m[24..24 + |IntToString(n)|] == IntToString(n)
      && ParseInt(m[24..24 + |IntToString(n)|]) == Some(n)
  {
    ParseIntToString(n);
  }
}
