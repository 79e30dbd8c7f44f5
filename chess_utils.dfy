/** chess_utils.py: helpers over FEN text (the notation of section 16.1 of
    the PGN Standard, six space-separated fields per section 16.1.3) and
    over the grid of squares built from its piece-placement field. */
module ChessUtils {
  import opened Common

  // ---------------------------------------------------------------------
  // parse_fen
  // ---------------------------------------------------------------------

  /** The fields a short FEN is padded with: active colour, castling,
      en passant, halfmove clock and fullmove number. */
  const DefaultFields: seq<string> := ["w", "KQkq", "-", "0", "1"]

  /** The field appended to a list of n fields. */
  function DefaultField(n: nat): (f: string)
    requires 1 <= n <= 5
    ensures f == DefaultFields[n - 1]
  {
    if n == 1 then "w"
    else if n == 2 then "KQkq"
    else if n == 3 then "-"
    else if n == 4 then "0"
    else "1"
  }

  /** `parts` after the padding loop: defaults are appended one at a time
      until there are six fields. */
  function Padded(parts: seq<string>): (r: seq<string>)
    requires |parts| >= 1
    ensures |r| == if |parts| < 6 then 6 else |parts|
    ensures r[..|parts|] == parts
    ensures |parts| >= 6 ==> r == parts
    ensures forall k | |parts| <= k < 6 :: r[k] == DefaultFields[k - 1]
    decreases 6 - |parts|
  {
    if |parts| < 6 then
      var r := Padded(parts + [DefaultField(|parts|)]);
      assert r[..|parts|] == r[..|parts| + 1][..|parts|];
      r
    else parts
  }

  datatype FenFields = FenFields(
    position: string,
    activeColor: string,
    castling: string,
    enPassant: string,
    halfmoveClock: int,
    fullmoveNumber: int)

  /** `int(parts[4])` or `int(parts[5])` raising ValueError. */
  datatype FenError = ClockNotANumber

  /** The padding loop of `parse_fen`. */
  method PadFields(fields: seq<string>) returns (parts: seq<string>)
    requires |fields| >= 1
    ensures parts == Padded(fields)
  {
    parts := fields;
    if |parts| >= 6 {
      return;
    }
    while |parts| < 6
      invariant |fields| <= |parts| <= 6
      invariant Padded(parts) == Padded(fields)
      decreases 6 - |parts|
    {
      var next;
      if |parts| == 1 {
        next := "w";
      } else if |parts| == 2 {
        next := "KQkq";
      } else if |parts| == 3 {
        next := "-";
      } else if |parts| == 4 {
        next := "0";
      } else {
        next := "1";
      }
      assert next == DefaultField(|parts|);
      parts := parts + [next];
    }
  }

  /** `parse_fen`. */
  method ParseFen(fen: string) returns (r: Result<FenFields, FenError>)
    ensures var parts := Padded(Split(fen, ' '));
      && (r.Ok? <==> ParseInt(parts[4]).Some? && ParseInt(parts[5]).Some?)
      && (r.Ok? ==> r.value == FenFields(parts[0], parts[1], parts[2], parts[3],
                                         ParseInt(parts[4]).value, ParseInt(parts[5]).value))
  {
    var parts := PadFields(Split(fen, ' '));
    var halfmove := ParseInt(parts[4]);
    if halfmove.None? {
      return Err(ClockNotANumber);
    }
    var fullmove := ParseInt(parts[5]);
    if fullmove.None? {
      return Err(ClockNotANumber);
    }
    return Ok(FenFields(parts[0], parts[1], parts[2], parts[3], halfmove.value, fullmove.value));
  }

  /** Splitting joined fields that hold no separator gives the fields back. */
  lemma {:induction false} SplitJoin(parts: seq<string>, sep: char)
    requires |parts| >= 1
    requires forall k | 0 <= k < |parts| :: sep !in parts[k]
    ensures Split(Join(parts, sep), sep) == parts
    decreases |parts|
  {
    if |parts| == 1 {
      SplitNoSeparator(parts[0], sep);
    } else {
      SplitJoin(parts[1..], sep);
      SplitAfterPiece(parts[0], sep, Join(parts[1..], sep));
      assert parts == [parts[0]] + parts[1..];
    }
  }

  lemma {:induction false} SplitAfterPiece(x: string, sep: char, y: string)
    requires sep !in x
    ensures Split(x + [sep] + y, sep) == [x] + Split(y, sep)
    decreases |x|
  {
    if x == [] {
      assert x + [sep] + y == [sep] + y;
      assert ([sep] + y)[1..] == y;
    } else {
      assert sep !in x[1..] by {
        forall k | 0 <= k < |x[1..]| ensures x[1..][k] != sep { assert x[1..][k] == x[k + 1]; }
      }
      SplitAfterPiece(x[1..], sep, y);
      assert (x + [sep] + y)[1..] == x[1..] + [sep] + y;
      assert [x[0]] + x[1..] == x;
    }
  }

  /** A complete FEN whose fields hold no space and whose clocks are
      written in decimal parses back to those fields. */
  lemma ParseFenOfFields(position: string, active: string, castling: string, enPassant: string,
                         halfmove: int, fullmove: int)
    requires ' ' !in position && ' ' !in active && ' ' !in castling && ' ' !in enPassant
    ensures var fen := Join([position, active, castling, enPassant, IntToString(halfmove), IntToString(fullmove)], ' ');
      var parts := Padded(Split(fen, ' '));
      && parts == [position, active, castling, enPassant, IntToString(halfmove), IntToString(fullmove)]
      && ParseInt(parts[4]) == Some(halfmove) && ParseInt(parts[5]) == Some(fullmove)
  {
    var fields := [position, active, castling, enPassant, IntToString(halfmove), IntToString(fullmove)];
    assert ' ' !in IntToString(halfmove) && ' ' !in IntToString(fullmove);
    SplitJoin(fields, ' ');
    ParseIntToString(halfmove);
    ParseIntToString(fullmove);
  }

  // ---------------------------------------------------------------------
  // fen_to_board
  // ---------------------------------------------------------------------

  /** The squares one character stands for: a digit d gives d empty
      squares, anything else one square holding that character. */
  function ExpandChar(c: char): (r: seq<string>)
    ensures IsDigit(c) ==> |r| == DigitValue(c) && forall k | 0 <= k < |r| :: r[k] == ""
    ensures !IsDigit(c) ==> r == [[c]]
  {
    if IsDigit(c) then seq(DigitValue(c), _ => "") else [[c]]
  }

  /** One rank of the board. */
  function ExpandRow(row: string): seq<string>
  {
    if row == [] then [] else ExpandChar(row[0]) + ExpandRow(row[1..])
  }

  lemma {:induction false} ExpandRowAppend(a: string, b: string)
    ensures ExpandRow(a + b) == ExpandRow(a) + ExpandRow(b)
    decreases |a|
  {
    if a != [] {
      assert (a + b)[1..] == a[1..] + b;
      ExpandRowAppend(a[1..], b);
    } else {
      assert a + b == b;
    }
  }

  /** The board of a FEN: one row per '/'-separated segment of its first
      field. */
  function Board(fen: string): seq<seq<string>>
  {
    var rows := Split(Split(fen, ' ')[0], '/');
    seq(|rows|, k requires 0 <= k < |rows| => ExpandRow(rows[k]))
  }

  /** `fen_to_board`. */
  method FenToBoard(fen: string) returns (board: seq<seq<string>>)
    ensures board == Board(fen)
  {
    var position := Split(fen, ' ')[0];
    var rows := Split(position, '/');
    board := [];
    var i := 0;
    while i < |rows|
      invariant 0 <= i <= |rows|
      invariant board == seq(i, k requires 0 <= k < i => ExpandRow(rows[k]))
    {
      var row := rows[i];
      var boardRow: seq<string> := [];
      var j := 0;
      while j < |row|
        invariant 0 <= j <= |row|
        invariant boardRow == ExpandRow(row[..j])
      {
        var c := row[j];
        ExpandRowAppend(row[..j], [c]);
        assert row[..j + 1] == row[..j] + [c];
        assert ExpandRow([c]) == ExpandChar(c) by {
          assert [c][1..] == [];
        }
        if IsDigit(c) {
          boardRow := boardRow + seq(DigitValue(c), _ => "");
        } else {
          boardRow := boardRow + [[c]];
        }
        j := j + 1;
      }
      assert row[..|row|] == row;
      board := board + [boardRow];
      i := i + 1;
    }
  }

  /** A square as `fen_to_board` produces it: empty, or one character that
      is not a digit. */
  predicate IsSquare(s: string) { s == "" || (|s| == 1 && !IsDigit(s[0])) }

  /** The number of leading empty squares, at most 9. */
  function LeadingEmpty(squares: seq<string>): (n: nat)
    ensures n <= 9 && n <= |squares|
    ensures forall k | 0 <= k < n :: squares[k] == ""
    ensures n < 9 && n < |squares| ==> squares[n] != ""
  {
    if squares == [] || squares[0] != "" then 0
    else if LeadingEmpty(squares[1..]) == 9 then 9
    else 1 + LeadingEmpty(squares[1..])
  }

  /** FEN's run-length writing of one rank: each run of empty squares as a
      digit (runs longer than 9 split), each piece as its letter. */
  function EncodeRow(squares: seq<string>): string
    requires forall k | 0 <= k < |squares| :: IsSquare(squares[k])
    decreases |squares|
  {
    if squares == [] then ""
    else
      var n := LeadingEmpty(squares);
      if n > 0 then [DigitChar(n)] + EncodeRow(squares[n..])
      else squares[0] + EncodeRow(squares[1..])
  }

  /** Expanding an encoded rank gives the squares back. */
  lemma {:induction false} ExpandEncodeRow(squares: seq<string>)
    requires forall k | 0 <= k < |squares| :: IsSquare(squares[k])
    ensures ExpandRow(EncodeRow(squares)) == squares
    decreases |squares|
  {
    if squares != [] {
      var n := LeadingEmpty(squares);
      if n > 0 {
        var rest := squares[n..];
        ExpandEncodeRow(rest);
        var d := DigitChar(n);
        ExpandRowAppend([d], EncodeRow(rest));
        assert ExpandRow([d]) == ExpandChar(d) by { assert [d][1..] == []; }
        assert ExpandChar(d) == squares[..n];
        assert squares == squares[..n] + rest;
      } else {
        var rest := squares[1..];
        ExpandEncodeRow(rest);
        var c := squares[0][0];
        assert squares[0] == [c];
        ExpandRowAppend([c], EncodeRow(rest));
        assert ExpandRow([c]) == ExpandChar(c) by { assert [c][1..] == []; }
        assert squares == [squares[0]] + rest;
      }
    }
  }

  // ---------------------------------------------------------------------
  // get_piece_at_square, is_capture, uci_to_san
  // ---------------------------------------------------------------------

  /** The exceptions a lookup can raise. */
  datatype LookupError = IndexError | ValueError | KeyError

  /** Python's `s[i]`, where a negative `i` counts from the end. */
  function PyIndex<T>(s: seq<T>, i: int): (r: Result<T, LookupError>)
    ensures 0 <= i < |s| ==> r == Ok(s[i])
    ensures -|s| <= i < 0 ==> r == Ok(s[|s| + i])
    ensures r.Err? <==> i < -|s| || |s| <= i
  {
    if 0 <= i < |s| then Ok(s[i])
    else if -|s| <= i < 0 then Ok(s[|s| + i])
    else Err(IndexError)
  }

  /** `file_to_col[file]`. */
  function FileColumn(file: char): Option<nat>
  {
    if 'a' <= file <= 'h' then Some(file as int - 'a' as int) else None
  }

  /** `get_piece_at_square`: the file letter, lower-cased, selects the
      column, and the rank digit r selects row 8 - r (so rank 9 reads the
      last row through Python's negative indexing). */
  function GetPieceAtSquare(board: seq<seq<string>>, square: string): (r: Result<string, LookupError>)
    ensures |square| >= 2 && IsDigit(square[1]) && FileColumn(LowerChar(square[0])).Some? &&
            |board| == 8 && (forall k | 0 <= k < 8 :: |board[k]| == 8) &&
            1 <= DigitValue(square[1]) <= 8 ==>
      r == Ok(board[8 - DigitValue(square[1])][FileColumn(LowerChar(square[0])).value])
    ensures |square| < 2 ==> r == Err(IndexError)
    ensures |square| >= 2 && !IsDigit(square[1]) ==> r == Err(ValueError)
    ensures |square| >= 2 && IsDigit(square[1]) && FileColumn(LowerChar(square[0])).None? ==> r == Err(KeyError)
  {
    if |square| < 1 then Err(IndexError)
    else
      var file := LowerChar(square[0]);
      if |square| < 2 then Err(IndexError)
      else if !IsDigit(square[1]) then Err(ValueError)
      else
        var rank := DigitValue(square[1]);
        match FileColumn(file)
        case None => Err(KeyError)
        case Some(col) =>
          match PyIndex(board, 8 - rank)
          case Err(e) => Err(e)
          case Ok(row) => PyIndex(row, col)
  }

  /** The file letter is case-insensitive. */
  lemma FileIsCaseInsensitive(board: seq<seq<string>>, square: string)
    requires |square| >= 1
    ensures GetPieceAtSquare(board, square) == GetPieceAtSquare(board, [LowerChar(square[0])] + square[1..])
  {
    var lowered := [LowerChar(square[0])] + square[1..];
    assert lowered[1..] == square[1..];
    assert LowerChar(lowered[0]) == LowerChar(square[0]);
  }

  /** `is_capture`: a move captures when its destination square holds
      anything. */
  function IsCapture(board: seq<seq<string>>, uci: string): (r: Result<bool, LookupError>)
    ensures r.Ok? <==> GetPieceAtSquare(board, Slice(uci, 2, 4)).Ok?
    ensures r.Ok? ==> (r.value <==> GetPieceAtSquare(board, Slice(uci, 2, 4)).value != "")
  {
    match GetPieceAtSquare(board, Slice(uci, 2, 4))
    case Err(e) => Err(e)
    case Ok(piece) => Ok(piece != "")
  }

  /** An en passant capture lands on an empty square, so it is not
      reported as a capture. */
  lemma EnPassantNotDetected()
    ensures var empty := seq(8, _ => "");
      var board := seq(8, k => if k == 3 then ["", "", "", "P", "p", "", "", ""] else empty);
      IsCapture(board, "d5e6") == Ok(false)
  {
    var empty := seq(8, _ => "");
    var board := seq(8, k => if k == 3 then ["", "", "", "P", "p", "", "", ""] else empty);
    assert Slice("d5e6", 2, 4) == "e6";
    assert board[2][4] == "";
  }

  /** `uci_to_san`: the from and to squares joined by '-'. */
  function UciToSan(uci: string, fen: string): (r: string)
    ensures |uci| >= 4 ==> r == uci[..2] + "-" + uci[2..4]
    ensures |r| <= 5
  {
    Slice(uci, 0, 2) + "-" + Slice(uci, 2, 4)
  }

  /** On a move of at least four characters, removing the dash gives its
      first four back; a promotion letter is dropped. */
  lemma UciToSanDropsPromotion(uci: string, fen: string)
    requires |uci| >= 4
    ensures var san := UciToSan(uci, fen);
      |san| == 5 && san[2] == '-' && san[..2] + san[3..] == uci[..4]
  {
    var san := UciToSan(uci, fen);
    assert san[..2] == uci[..2];
    assert san[3..] == uci[2..4];
  }

  // ---------------------------------------------------------------------
  // categorize_position
  // ---------------------------------------------------------------------

  /** `sum(1 for c in s if c.isalpha())`, for ASCII letters. */
  function LetterCount(s: string): (n: nat)
    ensures n <= |s|
  {
    if s == [] then 0 else LetterCount(s[..|s| - 1]) + (if IsAsciiLetter(s[|s| - 1]) then 1 else 0)
  }

  lemma {:induction false} LetterCountAppend(s: string, t: string)
    ensures LetterCount(s + t) == LetterCount(s) + LetterCount(t)
    decreases |t|
  {
    if t == [] {
      assert s + t == s;
    } else {
      assert (s + t)[..|s + t| - 1] == s + t[..|t| - 1];
      LetterCountAppend(s, t[..|t| - 1]);
    }
  }

  /** `categorize_position`. */
  function CategorizePosition(fullmoveNumber: int, materialBalance: string): (c: string)
    ensures c == "opening" <==> fullmoveNumber <= 15
    ensures c == "endgame" <==>
      fullmoveNumber > 15 && 'Q' !in materialBalance && 'q' !in materialBalance && LetterCount(materialBalance) <= 10
    ensures c == "middlegame" <==>
      fullmoveNumber > 15 && ('Q' in materialBalance || 'q' in materialBalance || LetterCount(materialBalance) > 10)
  {
    if fullmoveNumber <= 15 then "opening"
    else
      var queensPresent := 'Q' in materialBalance || 'q' in materialBalance;
      var numPieces := LetterCount(materialBalance);
      if !queensPresent && numPieces <= 10 then "endgame" else "middlegame"
  }

  /** Taking material away from an endgame leaves it an endgame. */
  lemma EndgameClosedUnderRemoval(fullmoveNumber: int, kept: string, removed: string)
    requires CategorizePosition(fullmoveNumber, kept + removed) == "endgame"
    ensures CategorizePosition(fullmoveNumber, kept) == "endgame"
  {
    LetterCountAppend(kept, removed);
    assert forall k | 0 <= k < |kept| :: (kept + removed)[k] == kept[k];
  }
}
