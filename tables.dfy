/** The SQLite database of the trainer, held in memory: one class whose
    fields are the tables created by `init_db` (database.py), with the
    primary-key, uniqueness and AUTOINCREMENT constraints of that schema as
    its invariant. Rows whose JSON columns the application decodes on
    reading are kept already decoded. */
module Tables {
  import opened Common

  /** A scalar as Python hands it to sqlite3. */
  datatype PyValue = PyBool(b: bool) | PyInt(i: int) | PyText(s: string) | PyNone

  /** A value as SQLite stores it (REAL and BLOB are not modelled). */
  datatype SqlValue = SqlInt(i: int) | SqlText(s: string) | SqlNull

  /** sqlite3 stores a Python bool as the integer 0 or 1. */
  function Stored(v: PyValue): (r: SqlValue)
    ensures v.PyInt? ==> r == SqlInt(v.i)
    ensures v.PyBool? ==> r == SqlInt(if v.b then 1 else 0)
    ensures v.PyText? ==> r == SqlText(v.s)
    ensures v.PyNone? ==> r == SqlNull
  {
    match v
    case PyBool(b) => SqlInt(if b then 1 else 0)
    case PyInt(i) => SqlInt(i)
    case PyText(s) => SqlText(s)
    case PyNone => SqlNull
  }

  /** The parts of a position's `metadata` JSON column that the reports
      read. `None` is a JSON `null`; `turn` is the optional top-level key
      that the reports look up. */
  datatype Metadata = Metadata(
    kingSafety: Option<map<string, map<string, int>>>,
    pawnStructure: Option<map<string, int>>,
    centerControl: Option<map<string, int>>,
    turn: Option<string>)

  /** A row of `positions`, keyed by its id in `Database.positions`. */
  datatype Position = Position(
    fen: string,
    turn: string,
    fullmoveNumber: int,
    timestamp: Option<string>,
    classification: Option<seq<string>>,
    metadata: Metadata)

  /** A row of `moves`. */
  datatype Move = Move(
    id: int,
    positionId: int,
    move: string,
    uci: string,
    score: int,
    depth: int,
    centipawnLoss: int,
    classification: string,
    principalVariation: Option<string>,
    tactics: Option<seq<string>>,
    rank: int)

  /** A row of `user_moves`: one attempt at a position. */
  datatype UserMove = UserMove(
    id: int,
    userId: int,
    positionId: int,
    moveId: int,
    timeTaken: real,
    result: string,
    openaiAnalysis: Option<string>)

  /** A row of `users`; `created_at` is left out. */
  datatype User = User(id: int, email: string, passwordHash: string, lastLogin: Option<string>)

  /** A row of `user_settings`, keyed by user id in `Database.settings`. */
  datatype SettingsRow = SettingsRow(
    randomPositions: SqlValue,
    topNThreshold: SqlValue,
    scoreDifferenceThreshold: SqlValue,
    theme: SqlValue)

  /** The column defaults of `user_settings`. */
  const DefaultSettingsRow := SettingsRow(SqlInt(1), SqlInt(3), SqlInt(10), SqlText("default"))

  /** The position catalogue: the `positions` and `moves` tables and the
      AUTOINCREMENT counter of `moves`. */
  datatype Catalog = Catalog(positions: map<int, Position>, moves: seq<Move>, moveSeq: int)

  /** Ids in table order rise strictly and never pass the counter. */
  ghost predicate IdsBelow<T>(rows: seq<T>, id: T -> int, seqNo: int)
  {
    && (forall i, j | 0 <= i < j < |rows| :: id(rows[i]) < id(rows[j]))
    && (forall i | 0 <= i < |rows| :: id(rows[i]) <= seqNo)
  }

  function MoveId(m: Move): int { m.id }
  function UserMoveId(u: UserMove): int { u.id }
  function UserId(u: User): int { u.id }

  /** The set of fens in the positions table. */
  function Fens(positions: map<int, Position>): set<string>
  {
    set k | k in positions :: positions[k].fen
  }

  /** UNIQUE(fen) on positions. */
  ghost predicate FenUnique(positions: map<int, Position>)
  {
    forall a, b | a in positions && b in positions && a != b :: positions[a].fen != positions[b].fen
  }

  /** True when some row of `moves` has this (position_id, move) pair. */
  predicate HasMovePair(moves: seq<Move>, positionId: int, move: string)
  {
    exists i | 0 <= i < |moves| :: moves[i].positionId == positionId && moves[i].move == move
  }

  /** UNIQUE(position_id, move) on moves. */
  ghost predicate MovePairsUnique(moves: seq<Move>)
  {
    forall i, j | 0 <= i < j < |moves| ::
      moves[i].positionId != moves[j].positionId || moves[i].move != moves[j].move
  }

  ghost predicate CatalogValid(c: Catalog)
  {
    && FenUnique(c.positions)
    && IdsBelow(c.moves, MoveId, c.moveSeq)
    && MovePairsUnique(c.moves)
  }

  /** Some row of `users` has this email. */
  predicate HasEmail(users: seq<User>, email: string)
  {
    exists i | 0 <= i < |users| :: users[i].email == email
  }

  ghost predicate EmailsUnique(users: seq<User>)
  {
    forall i, j | 0 <= i < j < |users| :: users[i].email != users[j].email
  }

  class Database {
    var positions: map<int, Position>
    var moves: seq<Move>
    /** The `sqlite_sequence` entry of AUTOINCREMENT table `moves`. */
    var moveSeq: int
    var userMoves: seq<UserMove>
    var userMoveSeq: int
    var settings: map<int, SettingsRow>
    var users: seq<User>
    var userSeq: int

    /** The schema's constraints: primary keys and UNIQUE columns hold, and
        AUTOINCREMENT ids rise. A settings row only exists for an id that
        `users` has handed out. */
    ghost predicate Valid()
      reads this
    {
      && CatalogValid(CatalogState())
      && IdsBelow(userMoves, UserMoveId, userMoveSeq)
      && IdsBelow(users, UserId, userSeq)
      && EmailsUnique(users)
      && (forall k | k in settings :: k <= userSeq)
    }

    function CatalogState(): Catalog
      reads this
    {
      Catalog(positions, moves, moveSeq)
    }

    /** A freshly initialised database: every table empty, and every
        AUTOINCREMENT counter at 0, so the first row of each gets id 1. */
    constructor ()
      ensures Valid()
      ensures positions == map[] && moves == [] && userMoves == [] && settings == map[] && users == []
      ensures moveSeq == 0 && userMoveSeq == 0 && userSeq == 0
    {
      positions, moves, moveSeq := map[], [], 0;
      userMoves, userMoveSeq := [], 0;
      settings := map[];
      users, userSeq := [], 0;
    }
  }
}
