# Chess trainer core, modelled in Dafny

This project models the logic of a chess-move trainer: a catalogue of
analysed positions imported from JSONL files, a training loop, and reports
over the log of attempts. The trainer stores everything in SQLite. Here the
database is one class, `Tables.Database`. Each table is a field: `positions`
(a map keyed by id), `moves`, `user_moves`, `user_settings` (a map keyed by
user id) and `users`. Each AUTOINCREMENT counter is a field too. The schema's
primary keys, UNIQUE columns and rising AUTOINCREMENT ids form the class
invariant `Valid()`. Each SQL statement that changes state is a method that
keeps `Valid()`. The method ties the new state to a function of the old
state. Queries are functions over the table contents. JSON lines are given
already decoded (`Database.Line`). A file is given as an existence flag, a
path and its lines.

The modules follow the program's files:

- `Tables`: rows, the database class and its invariant (`init_db` in database.py).
- `Database`: `load_positions_from_jsonl`, the insert-or-ignore import loop.
- `JsonlLoader`: the file check, the counted import and the guarded clear.
- `Training`: move validation, position lookup, the sequential cursor and the attempt log.
- `Insights`: the counting loops of the tactical, structural and centipawn-loss reports.
- `ChessUtils`: FEN field splitting, board expansion, square lookup and position categories.
- `Analysis`: the filtered-attempts query builder and the comparative-analysis factor check.
- `Settings`, `Auth`: settings updates, registration and login.
- `Ui`: the accuracy colour bands.
- `Common`, `Sorting`: shared helpers and a stable sort that stands in for `list.sort`.

database.py defines `load_positions_from_jsonl` twice. Only the second
definition (line 171) is modelled, because it replaces the first. settings.py
defines `import_positions_from_jsonl` twice as well. The second definition
(line 127) is the one in force, and the two bodies are the same.

## Model

| member | source | states |
|---|---|---|
| Tables.Database.constructor | database.py:18-100 | a freshly created database has every table empty, every AUTOINCREMENT counter at 0 (so the first row of each table gets id 1), and satisfies the key, uniqueness and AUTOINCREMENT constraints |
| Common.PhaseOf | insights.py:387-393 | the phase is opening exactly for move numbers ≤ 15, middle game exactly for 16–32, endgame exactly above 32 |
| Common.Split | chess_utils.py:17 | `str.split` on one character: at least one part, and no part contains the separator |
| Common.JoinSplit | chess_utils.py:17 | joining the parts with the separator gives the string back, so splitting loses no character |
| Sorting.SortBy | insights.py:49 | the result is ordered by the key and is a permutation of the input |
| Sorting.SortByStable | insights.py:49 | the elements that share a key keep their input order, as Python's sort does, also with `reverse=True` |
| Database.ImportedMetadata | database.py:203-211 | the metadata written at import never has a `turn` key |
| Database.InsertPosition | database.py:213-221 | INSERT OR IGNORE inserts exactly when both the id and the fen are new; otherwise the table is unchanged; existing rows are never altered |
| Database.MoveRowOf | database.py:225-244 | a move row exists exactly when no NOT NULL column would be NULL; it carries the position id, the 1-based rank and the next id; move, uci, score, depth and classification are copied from the entry; centipawn_loss is the entry's `centipawn_loss`, else its `'centipawn_ loss'`, else 0; the principal variation is `pv`, else `principal_variation`, else "", with a JSON null stored as NULL; tactics default to [] |
| Database.LoadLine | database.py:182-253 | an undecodable line, a non-object or a record with a falsy id, fen, turn or fullmove_number counts one error and changes nothing; the line counts as loaded exactly when its id and fen are both new; afterwards its id or its fen is in the table |
| Database.InsertMoveRow | database.py:240-244 | one INSERT OR IGNORE leaves the catalogue that `InsertMove` specifies: the row is appended with the next id exactly when it has no NULL and its (position_id, move) pair is new |
| Database.InsertTopMoves | database.py:224-244 | the move loop leaves the catalogue that `LoadMoves` specifies and keeps the schema constraints; no other table changes |
| Database.LoadOneLine | database.py:182-253 | one pass of the loop leaves the catalogue and adds to the counters exactly what `LoadLine` specifies, and keeps the schema constraints |
| Database.LoadPositionsFromJsonl | database.py:171-259 | the catalogue after the loop is `LoadLines` of the old one; the returned count is its `loaded` counter; users, settings and attempts are unchanged |
| Database.RaisesIff | database.py:225-253 | the move loop raises exactly when some entry before that point is not an object |
| Database.RaisedStays | database.py:250-253 | once an entry has raised, later entries change nothing for that record |
| Database.RanksAreIndices | database.py:224-225 | every move row the loop adds has rank = 1 + the index of its entry in `top_moves` |
| Database.LoadMovesValid | database.py:52-67 | the move loop keeps unique (position_id, move) pairs and rising ids |
| Database.LoadLinesValid | database.py:37-67 | a whole import keeps the schema's constraints |
| Database.LoadCountsInsertedPositions | database.py:219-221 | existing positions are never changed or removed, and the table grows by exactly the returned count |
| Database.RaisingRecordKeepsEarlierRows | database.py:246-255 | a record whose move list raises counts one error, yet its position and the moves stored before the failure persist |
| Database.LoadMovesExtends | database.py:240-244 | the move loop only adds rows |
| Database.LoadLineExtends | database.py:213-244 | one record only adds rows |
| Database.LoadLinesExtends | database.py:182-253 | the catalogue after later lines extends the catalogue after earlier ones |
| Database.LoadMovesStoresPairs | database.py:240-244 | every entry the loop reached and could store has its (position_id, move) pair in the table afterwards |
| Database.LoadMovesNoOp | database.py:240-244 | on a table already holding every pair, the move loop changes nothing |
| Database.LoadLineNoOp | database.py:213-244 | a line loaded into a catalogue that already holds its result changes nothing and counts no position |
| Database.LoadLinesPrefixNoOp | database.py:182-253 | lines already loaded change nothing when they are loaded again on top of the full import |
| Database.ReloadChangesNothing | database.py:213-244 | importing the same lines again leaves both tables unchanged and reports 0 positions |
| JsonlLoader.MissingFields | jsonl_loader.py:21-30 | the missing set is a subset of the five required keys and is empty exactly when every key is present, whatever its value |
| JsonlLoader.ErrorOf | jsonl_loader.py:28-40 | an error carries its 1-based line number and only invalid lines produce one; a non-object produces none |
| JsonlLoader.ValidPlusInvalid | jsonl_loader.py:22-40 | without a non-object line, valid lines plus errors equal the number of lines |
| JsonlLoader.ErrorsNameInvalidLines | jsonl_loader.py:27-40 | errors name invalid lines in strictly increasing line order |
| JsonlLoader.ValidateJsonlFile | jsonl_loader.py:6-55 | a missing file, a non-.jsonl name (case-insensitive) and a non-object line each fail with their message; otherwise the first three errors are shown, with the remainder counted when there are more than three; the verdict is true exactly when at least one line is valid |
| JsonlLoader.ImportPositions | jsonl_loader.py:57-92 | a failing check returns (false, 0) and changes no table; otherwise it loads, and `imported` = count after − count before = the loader's count |
| JsonlLoader.ClearPositions | jsonl_loader.py:151-176 | it succeeds exactly when there are no attempts; a refusal names the count and changes nothing; success empties moves and positions but keeps the AUTOINCREMENT counter, users, settings and attempts |
| JsonlLoader.RefusalNamesCount | jsonl_loader.py:165-167 | the refusal message contains the decimal count of attempts, which parses back to it |
| Training.FindMove | training.py:121-126 | the lookup finds a row for that position and move, and finds none exactly when no such row exists |
| Training.TopMove | training.py:129-134 | the lookup finds a rank-1 row of the position, and finds none exactly when there is none |
| Training.FindMoveUnique | training.py:121-126 | with unique (position_id, move) pairs, the lookup returns that very row |
| Training.Thresholds | training.py:115-118 | without a settings row the thresholds are 3 and 10; otherwise they are the row's columns |
| Training.ValidateMove | training.py:106-161 | "move not found" exactly when the move or the rank-1 move is missing; otherwise it reports the move's columns and \|score − top score\|; success holds exactly when rank ≤ top-N and the difference ≤ the threshold; "pass" exactly on success; the message is "Move ranked #r", plus the score suffix exactly when the rank qualified and the move still failed; the comparison raises exactly when the move and the rank-1 move exist and top_n is not an integer, or the rank qualified and the score threshold is not an integer |
| Training.DefaultThresholdsApply | training.py:115-145 | a user without settings passes exactly when rank ≤ 3 and difference ≤ 10 |
| Training.TopMovePasses | training.py:142-160 | submitting the rank-1 move gives difference 0, and passes with message "Move ranked #1" when top-N ≥ 1 and the threshold ≥ 0 |
| Training.MovesOf | training.py:46-53 | exactly the rows of that position, taken from the table |
| Training.PositionById | training.py:22-67 | None exactly for an unknown id; otherwise the position with its moves, sorted by rank, a permutation of that position's rows |
| Training.LastAttempted | training.py:77-83 | the highest attempted position id, or 0 when the user has no attempts, or when that highest id is 0 |
| Training.NextAfter | training.py:86-92 | the smallest position id above the last attempted id; None when there is none, or when that id is 0 |
| Training.SequentialPositionAsWritten | training.py:69-104 | the next position when one follows; otherwise the closed-connection failure, and never "no position" |
| Training.SequentialPosition | training.py:96-104 | the corrected cursor: the same as written whenever a next id exists; otherwise it wraps to the smallest id, or gives "no position" on an empty table or a falsy smallest id |
| Training.WrapAroundFails | training.py:94-100 | with a single position already attempted, the code as written fails while the intended wrap returns that position |
| Training.WithAnalysis | training.py:189-193 | the update keeps the table's length |
| Training.WithAnalysisChangesOnlyThatRow | training.py:189-193 | only rows with that id change, and only in `openai_analysis` |
| Training.LastAnalysisWins | training.py:182-198 | a second analysis for the same row replaces the first |
| Training.AnalysisOfNewRow | training.py:170-193 | attaching analysis to the newest row changes only that row |
| Training.RecordUserMove | training.py:163-180 | appends exactly one attempt with a fresh id, above every earlier one, and returns that id; existing rows and other tables are unchanged |
| Training.SaveOpenaiAnalysis | training.py:182-198 | rewrites only that row's analysis, adds no row and returns true |
| Training.PositionCategory | training.py:200-209 | "opening" exactly for ≤ 15, "middle game" exactly for 16–32, "endgame" exactly above 32 |
| Insights.Bump | insights.py:33-35 | one occurrence adds 1 to total, and 1 to correct exactly on a pass |
| Insights.Accuracy | insights.py:40 | 0 when total is 0; otherwise accuracy × total = correct × 100 |
| Insights.AccuracyIsPercentage | insights.py:40 | when correct ≤ total, the accuracy lies in [0, 100] |
| Insights.RowOccurrences | insights.py:29-30 | one occurrence per listed tactic |
| Insights.CorrectAtMostTotal | insights.py:28-35 | a tactic's total is the number of its occurrences, and its correct count never exceeds its total |
| Insights.FirstSeenIsExact | insights.py:30-32 | the counter keys are exactly the tactics that occur, each once |
| Insights.Stats | insights.py:38-46 | one entry per counted tactic |
| Insights.CountsStep | insights.py:30-35 | one loop step keeps the counters equal to the counts over the occurrences seen so far |
| Insights.NeverSeenCountsZero | insights.py:31-32 | a tactic that has not occurred has zero counts |
| Insights.CountRowTactics | insights.py:30-35 | the inner loop over a row's tactics leaves the counters equal to the counts over the occurrences seen so far |
| Insights.GetTacticalAnalysis | insights.py:4-52 | fails exactly when some joined row holds a JSON null tactics list; otherwise it returns the per-tactic stats, sorted by descending total |
| Insights.StatsOfCounters | insights.py:38-46 | the loop over the counters, in key order, builds exactly `Stats` of the occurrences |
| Insights.StatsAreOccurringCounters | insights.py:38-46 | each entry names an occurring tactic and carries its exact counts and accuracy |
| Insights.TacticReportShape | insights.py:38-49 | the report lists exactly the occurring tactics, non-increasing in total, each with correct ≤ total and total > 0 |
| Insights.CenterBucketOf | insights.py:127-142 | white_strong exactly when white > black + 2, black_strong exactly when black > white + 2, equal otherwise |
| Insights.KingSide | insights.py:149-150 | the corrected side: white exactly when the side to move is white |
| Insights.ImportedRowsInspectBlackKing | insights.py:149-150 | with imported metadata (no `turn`), the code as written always inspects the black king |
| Insights.CenterPartition | insights.py:127-142 | the three centre buckets together count exactly the rows with non-empty center_control |
| Insights.KingPartition | insights.py:145-163 | exposed plus sheltered counts exactly the rows with non-empty king_safety, both for the king the code as written inspects and for the corrected one |
| Insights.PawnFeaturesIndependent | insights.py:97-124 | each pawn feature counts exactly the rows that have it, independently of the others; missing island counts default to 1 and do not count |
| Insights.OneRowSeveralFeatures | insights.py:97-124 | one row can count under several pawn features at once |
| Insights.AnalyzePawns | insights.py:97-124 | the pawn step of the loop equals `CountPawns` |
| Insights.AnalyzeCenter | insights.py:127-142 | the centre step equals `CountCenter` |
| Insights.AnalyzeKing | insights.py:145-163 | the king step equals `CountKing` for the given choice of king: the one metadata `turn` selects, or the side to move |
| Insights.CountStructures | insights.py:89-163 | the loop over the joined rows leaves the counters equal to `CountRows` of those rows |
| Insights.GetStructuralAnalysisAsWritten | insights.py:54-202 | the three reports hold the loop's counters in the source's order, with the king chosen by metadata `turn`, as the code is written |
| Insights.GetStructuralAnalysis | insights.py:54-202 | the three reports hold the loop's counters in the source's order, with king safety read from the king of the side to move |
| Insights.KingSideCounterexample | insights.py:145-163 | a white-to-move position with an exposed white king and a sheltered black king: the report as written counts it as sheltered, the corrected report as exposed |
| Insights.KingRuleOnlyAffectsKingSafety | insights.py:97-142 | the report as written and the corrected report have the same pawn-structure and center-control entries |
| Insights.PhasesPartitionRows | insights.py:382-400 | the phase totals add up to the number of rows; per phase, moves = total, and total_loss sums that phase's losses |
| Insights.TallyPhases | insights.py:382-400 | the loop leaves each phase's dictionary equal to the tally of the rows in that phase |
| Insights.PhaseReportOf | insights.py:402-413 | the average loss and the accuracy are 0 when their denominator is 0; otherwise average × moves = total_loss and accuracy × total = 100 × correct |
| Insights.GetCentipawnLossAnalysis | insights.py:354-417 | returns opening, middle_game and endgame reports, in that order, over the phase tallies of the joined rows |
| ChessUtils.Padded | chess_utils.py:19-31 | fewer than six fields are kept and completed with the trailing defaults 'w', 'KQkq', '-', '0', '1'; six or more are left as they are |
| ChessUtils.PadFields | chess_utils.py:19-31 | the padding loop produces `Padded` of the fields |
| ChessUtils.ParseFen | chess_utils.py:5-40 | succeeds exactly when both clock fields parse as integers; the result is the first six padded fields in order, with the clocks converted |
| ChessUtils.SplitJoin | chess_utils.py:17 | splitting fields joined by a separator they do not contain gives them back |
| ChessUtils.ParseFenOfFields | chess_utils.py:17-40 | a six-field FEN built from space-free fields and decimal clocks parses back to those fields |
| ChessUtils.ExpandChar | chess_utils.py:53-58 | a digit d stands for d empty squares; any other character for one square holding it |
| ChessUtils.FenToBoard | chess_utils.py:42-61 | one row per '/'-separated segment of the first field, each expanded character by character |
| ChessUtils.ExpandEncodeRow | chess_utils.py:50-59 | expanding the run-length FEN writing of a rank gives the squares back |
| ChessUtils.PyIndex | chess_utils.py:97 | Python indexing: a negative index counts from the end; IndexError exactly outside [−len, len) |
| ChessUtils.GetPieceAtSquare | chess_utils.py:82-97 | on an 8×8 board with a square in a–h (any case) and ranks 1–8, it reads board[8 − rank][file index]; a square shorter than two characters gives IndexError, a non-digit rank ValueError, an unknown file KeyError |
| ChessUtils.FileIsCaseInsensitive | chess_utils.py:90 | the file letter's case does not matter |
| ChessUtils.IsCapture | chess_utils.py:99-109 | a capture exactly when the square at uci[2:4] is non-empty; lookup errors propagate |
| ChessUtils.EnPassantNotDetected | chess_utils.py:103-109 | an en passant capture onto an empty square is reported as no capture |
| ChessUtils.UciToSan | chess_utils.py:63-80 | uci[:2] + "-" + uci[2:4] for a move of at least four characters; never longer than five |
| ChessUtils.UciToSanDropsPromotion | chess_utils.py:77-80 | removing the dash gives the first four characters back, so a promotion letter is dropped |
| ChessUtils.CategorizePosition | chess_utils.py:125-140 | "opening" exactly for ≤ 15; after that, "endgame" exactly with no 'Q' or 'q' and at most 10 letters, "middlegame" otherwise |
| ChessUtils.EndgameClosedUnderRemoval | chess_utils.py:134-138 | removing material from an endgame position leaves it an endgame |
| Analysis.MarkersCountPlaceholders | analysis.py:152-176 | each appended clause contains exactly the number of `?` markers counted for it |
| Analysis.Normalize | analysis.py:131 | `filters or {}`: None gives the empty map, any dictionary is kept |
| Analysis.ParamOf | analysis.py:151-177 | a filter contributes its value exactly when the key is present and truthy |
| Analysis.CategoryClause | analysis.py:163-169 | 'opening', 'middle game' and 'endgame' each add their parameterless range; any other value adds nothing |
| Analysis.PlaceholdersMatchParams | analysis.py:148-177 | the number of `?` markers equals the number of parameters, and the first parameter is the user id |
| Analysis.FalsyFiltersAddNothing | analysis.py:131-177 | with only falsy values (or no dictionary), the query is the base plus the ordering, and the only parameter is the user id |
| Analysis.NoneIsEmpty | analysis.py:131 | no dictionary behaves exactly like an empty one |
| Analysis.OrderingBeforeLimit | analysis.py:171-177 | the timestamp ordering appears once, after every filter; only the optional LIMIT follows it |
| Analysis.GetFilteredUserMoves | analysis.py:120-179 | the clauses and parameters built by appending are those of `FilteredQuery`, and the markers match the parameters |
| Analysis.ComparativeAnalysis | analysis.py:212-262 | the error exactly when either factor is not one of the five names; the time-bucket branch is never reached; otherwise the placeholder message naming both factors |
| Settings.GetUserSettings | settings.py:4-15 | None exactly when the user has no settings row; otherwise that row |
| Settings.Whitelisted | settings.py:28-29 | keeps exactly the given keys that are among the four column names, with their values |
| Settings.UpdateTouchesOnlyGivenColumns | settings.py:28-36 | only that user's row changes, and only in the columns whose keys were given; other users' rows are unchanged and no row is created |
| Settings.UnknownKeysIgnored | settings.py:28-29 | a key outside the whitelist has no effect |
| Settings.UpdateColumns | settings.py:32-36 | the loop of one UPDATE per whitelisted key leaves that user's row with every given column written and the others kept, whatever the order of the keys; other rows are unchanged and no row is created |
| Settings.UpdateUserSettings | settings.py:17-40 | the settings table becomes `UpdatedSettings` of the old one and the call returns true, even without a row |
| Settings.InitializeDefaultSettings | settings.py:115-124 | the defaults name exactly the four columns |
| Settings.DefaultsMatchSchema | settings.py:115-124 | writing the in-code defaults gives the schema's column defaults (true, 3, 10, 'default') |
| Settings.ImportPositionsFromJsonl | settings.py:127-164 | refuses a missing file and a name not ending in lower-case ".jsonl" without touching tables; otherwise it loads, and `imported` = after − before |
| Settings.ExtensionCheckIsCaseSensitive | settings.py:138 | an upper-case ".JSONL" passes the validating check but not the legacy one |
| Auth.FindUser | auth.py:55-56 | the first row with the email, and none exactly when no row has it |
| Auth.AuthenticateIff | auth.py:55-66 | with unique emails, login succeeds exactly for a stored (email, hash) pair, and yields that row's id |
| Auth.RegisterUser | auth.py:12-44 | a known email returns false and adds nothing; otherwise it appends one user with the next id and the hashed password, adds a default settings row under that id, and returns true |
| Auth.LoginUser | auth.py:46-76 | returns what `Authenticate` gives; on failure nothing changes; on success only that user's last_login changes |
| Auth.LoginAfterRegister | auth.py:27-66 | after registering, login with the same password returns the new id, and a password with a different hash is refused |
| Auth.UpdateUserSettings | auth.py:91-111 | the same whitelisted update as the one in settings.py |
| Ui.ColorMetric | ui.py:7-23 | for accuracy: green exactly at ≥ 90, lightgreen for 70–89, orange for 50–69, salmon for 30–49, red below 30; blue for any other metric type |
| Ui.ColorMetricMonotone | ui.py:11-21 | a higher value never gets a lower band |

## Left out

- SQLite row order is not modelled. In joins and unordered SELECTs, rows are taken in table order. When several rows share a rank, `ORDER BY rank` is modelled as a stable sort.
- `Training.TopMove` takes the first rank-1 row. SQLite may return any of several rank-1 rows.
- SQLite type affinity and dynamic typing are not modelled. Values are stored as Python hands them over (`Tables.Stored`), and numeric columns hold integers. A text value in an INTEGER column, a float score and byte strings are not modelled.
- Floats are not modelled. Accuracies and averages are exact reals.
- Integers are unbounded. Python's sqlite3 binds only signed 64-bit integers and raises OverflowError for any value outside [−2^63, 2^63 − 1]; that error is not modelled. In the source, such a value as a record's id or fullmove_number makes the INSERT at database.py:214-217 raise, and the record counts as one error. As a move's score, depth or centipawn_loss it raises at database.py:240-244 and ends that record's move loop. As a settings value it raises out of settings.py:33-36 uncaught, and nothing is committed. `Database.LoadLine`, `Database.MoveRowOf`, `Settings.UpdateColumns` and `Training.RecordUserMove` store such values as given.
- `Common.ParseInt` covers ASCII digits with an optional sign. Python's `int()` also accepts surrounding whitespace, underscores and Unicode digits. Likewise `isdigit`, `isalpha` and `lower` cover ASCII only.
- JSON decoding and file reading are not modelled. Lines arrive decoded, and a file is an existence flag plus its lines. The decoder's message text and the order in which missing key names are joined are not modelled either.
- The exception branches that only return a message are not modelled: jsonl_loader.py:94-95 and 178-185. Nothing in the model raises there.
- These metadata parts are written by the import but never read by the modelled reports: material, mobility, piece_development and castling_rights. The same goes for position_impact on moves.
- Values inside pawn_structure, center_control and king_safety are integers. A JSON null or a string there is not modelled.
- `Training.PositionView` holds the whole position row, and each move keeps its `position_id`. The SELECTs at training.py:30-33 and 46-52 return neither the position's `timestamp` nor the moves' `position_id`.
- Timestamps (`timestamp` and `created_at` columns, and `datetime.now`) are not modelled. `Auth.LoginUser` takes the time as a parameter. `ORDER BY um.timestamp DESC` appears only as a clause.
- `Analysis.GetFilteredUserMoves` builds the query and its parameters. Running the query is not modelled.
- The password hash is a function parameter. SHA-256 itself is not modelled.
- auth.py's `get_user_settings` (auth.py:78-89) is identical to settings.py's and is modelled once, by `Settings.GetUserSettings`.
- `Settings.GetUserSettings` returns the row without the `user_id` key that `dict(row)` includes.
- These functions are not part of this model: `get_random_position` (ORDER BY RANDOM()), the SQL aggregates (`get_user_performance_summary`, `get_user_calendar_data`, `get_time_analysis`, `get_progress_calendar`, `get_variation_comparison`, `get_position_stats`, `get_db_stats`), and the placeholder helpers that return constants.
- app.py, chess_board.py and openai_integration.py are not part of this model, nor are the plotting functions of ui.py. Together they are the Streamlit UI, SVG rendering and a remote service.
- `Training.SequentialPosition` and `Insights.KingSide` are not the code as written. They are the corrected members described under Findings.
- `Insights.GetStructuralAnalysis` counts king safety with the corrected king side, the king of the side to move. The report as the code computes it, which always inspects the black king for imported positions, is `Insights.GetStructuralAnalysisAsWritten`. The corrected member reads the position's `turn` column, which the SELECT at insights.py:61-69 does not fetch.
- `ChessUtils.EncodeRow` splits empty runs longer than 9 into several digits. Ranks on a real board never have such runs.

## Findings

| source | as written | input that shows it | evidently intended | confidence | as-written member | corrected member |
|---|---|---|---|---|---|---|
| training.py:94-100 | the wrap-around query runs on the cursor of the connection closed at line 94, so it raises | one position with id 1, which user 7 has already attempted | after the last position, wrap to the smallest id, as the comment at line 96 says | not executed | Training.SequentialPositionAsWritten, Training.WrapAroundFails | Training.SequentialPosition |
| insights.py:149-150 | the king side comes from metadata `turn`, a key the import never writes (database.py:203-211), so the black king is always inspected | a white-to-move position whose white king has no defenders and whose black king is sheltered: it counts as sheltered | inspect the king of the side to move | not executed | Insights.KingSideAsWritten, Insights.GetStructuralAnalysisAsWritten, Insights.ImportedRowsInspectBlackKing, Insights.KingSideCounterexample | Insights.KingSide, Insights.GetStructuralAnalysis |
