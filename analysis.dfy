/** analysis.py: the SQL text and parameter list that
    `get_filtered_user_moves` builds from a filter dictionary, and the
    factor check of `get_comparative_analysis`. */
module Analysis {
  import opened Common
  import opened Tables

  /** The pieces the query is assembled from, in the order the builder may
      append them. */
  datatype Clause =
    | Base                 // SELECT ... JOIN ... WHERE um.user_id = ?
    | MoveNumberEquals     // " AND p.fullmove_number = ?"
    | TurnEquals           // " AND p.turn = ?"
    | ResultEquals         // " AND um.result = ?"
    | OpeningRange         // " AND p.fullmove_number <= 15"
    | MiddleGameRange      // " AND p.fullmove_number > 15 AND p.fullmove_number <= 32"
    | EndgameRange         // " AND p.fullmove_number > 32"
    | OrderByTimestamp     // " ORDER BY um.timestamp DESC"
    | Limit                // " LIMIT ?"

  /** The text of the clauses that follow the base query. */
  function ClauseText(c: Clause): string
    requires c != Base
  {
    match c
    case MoveNumberEquals => " AND p.fullmove_number = ?"
    case TurnEquals => " AND p.turn = ?"
    case ResultEquals => " AND um.result = ?"
    case OpeningRange => " AND p.fullmove_number <= 15"
    case MiddleGameRange => " AND p.fullmove_number > 15" + " AND p.fullmove_number <= 32"
    case EndgameRange => " AND p.fullmove_number > 32"
    case OrderByTimestamp => " ORDER BY um.timestamp DESC"
    case Limit => " LIMIT ?"
  }

  /** The number of `?` markers a clause contains. */
  function Markers(c: Clause): nat
  {
    match c
    case Base => 1
    case MoveNumberEquals => 1
    case TurnEquals => 1
    case ResultEquals => 1
    case Limit => 1
    case _ => 0
  }

  function CountChar(s: string, x: char): nat
  {
    if s == [] then 0 else CountChar(s[..|s| - 1], x) + (if s[|s| - 1] == x then 1 else 0)
  }

  lemma {:induction false} CountCharOfNoMarker(s: string)
    requires '?' !in s
    ensures CountChar(s, '?') == 0
    decreases |s|
  {
    if s != [] {
      assert s[..|s| - 1] + [s[|s| - 1]] == s;
      assert '?' !in s[..|s| - 1];
      CountCharOfNoMarker(s[..|s| - 1]);
    }
  }

  lemma {:induction false} CountCharAppend(a: string, b: string, x: char)
    ensures CountChar(a + b, x) == CountChar(a, x) + CountChar(b, x)
    decreases |b|
  {
    if b != [] {
      assert (a + b)[..|a + b| - 1] == a + b[..|b| - 1];
      CountCharAppend(a, b[..|b| - 1], x);
    } else {
      assert a + b == a;
    }
  }

  /** `Markers` counts the `?` characters of each appended clause. */
  lemma MarkersCountPlaceholders(c: Clause)
    requires c != Base
    ensures CountChar(ClauseText(c), '?') == Markers(c)
  {
    var t := ClauseText(c);
    match c {
      case MoveNumberEquals => CountCharOfNoMarker(" AND p.fullmove_number = ");
        assert t[..|t| - 1] == " AND p.fullmove_number = ";
      case TurnEquals => CountCharOfNoMarker(" AND p.turn = ");
        assert t[..|t| - 1] == " AND p.turn = ";
      case ResultEquals => CountCharOfNoMarker(" AND um.result = ");
        assert t[..|t| - 1] == " AND um.result = ";
      case Limit => CountCharOfNoMarker(" LIMIT ");
        assert t[..|t| - 1] == " LIMIT ";
      case OpeningRange => CountCharOfNoMarker(" AND p.fullmove_number <= 15");
      case MiddleGameRange =>
        CountCharOfNoMarker(" AND p.fullmove_number > 15");
        CountCharOfNoMarker(" AND p.fullmove_number <= 32");
        CountCharAppend(" AND p.fullmove_number > 15", " AND p.fullmove_number <= 32", '?');
      case EndgameRange => CountCharOfNoMarker(" AND p.fullmove_number > 32");
      case OrderByTimestamp => CountCharOfNoMarker(" ORDER BY um.timestamp DESC");
    }
  }

  function QueryMarkers(query: seq<Clause>): nat
  {
    if query == [] then 0 else QueryMarkers(query[..|query| - 1]) + Markers(query[|query| - 1])
  }

  /** Python truthiness of a filter value: `0`, `''`, `False` and `None`
      are false. */
  predicate Truthy(v: PyValue)
  {
    match v
    case PyBool(b) => b
    case PyInt(i) => i != 0
    case PyText(s) => s != ""
    case PyNone => false
  }

  /** `'key' in filters and filters['key']`. */
  predicate Given(filters: map<string, PyValue>, key: string)
  {
    key in filters && Truthy(filters[key])
  }

  /** `filters or {}`. */
  function Normalize(filters: Option<map<string, PyValue>>): (r: map<string, PyValue>)
    ensures filters.None? ==> r == map[]
    ensures filters.Some? ==> r == filters.value
  {
    match filters
    case None => map[]
    case Some(f) => if f == map[] then map[] else f
  }

  /** The parameter a filter contributes, if it is given. */
  function ParamOf(filters: map<string, PyValue>, key: string): (r: seq<PyValue>)
    ensures Given(filters, key) ==> r == [filters[key]]
    ensures !Given(filters, key) ==> r == []
  {
    if Given(filters, key) then [filters[key]] else []
  }

  /** The category clause for a given category value, if any. */
  function CategoryClause(filters: map<string, PyValue>): (r: seq<Clause>)
    ensures |r| <= 1
    ensures r == [OpeningRange] <==> Given(filters, "category") && filters["category"] == PyText("opening")
    ensures r == [MiddleGameRange] <==> Given(filters, "category") && filters["category"] == PyText("middle game")
    ensures r == [EndgameRange] <==> Given(filters, "category") && filters["category"] == PyText("endgame")
  {
    if Given(filters, "category") then
      if filters["category"] == PyText("opening") then [OpeningRange]
      else if filters["category"] == PyText("middle game") then [MiddleGameRange]
      else if filters["category"] == PyText("endgame") then [EndgameRange]
      else []
    else []
  }

  function ClauseIf(b: bool, c: Clause): seq<Clause> { if b then [c] else [] }

  /** The query and parameters that `get_filtered_user_moves` hands to
      `cursor.execute`: each given filter adds its clause and parameter in
      a fixed order, the category adds a parameterless range, and the
      ordering comes after every filter and before the limit. */
  function FilteredQuery(userId: int, filters: Option<map<string, PyValue>>): (seq<Clause>, seq<PyValue>)
  {
    var f := Normalize(filters);
    ([Base]
     + ClauseIf(Given(f, "move_number"), MoveNumberEquals)
     + ClauseIf(Given(f, "color"), TurnEquals)
     + ClauseIf(Given(f, "result"), ResultEquals)
     + CategoryClause(f)
     + [OrderByTimestamp]
     + ClauseIf(Given(f, "limit"), Limit),
     [PyInt(userId)] + ParamOf(f, "move_number") + ParamOf(f, "color")
     + ParamOf(f, "result") + ParamOf(f, "limit"))
  }

  lemma {:induction false} QueryMarkersAppend(a: seq<Clause>, b: seq<Clause>)
    ensures QueryMarkers(a + b) == QueryMarkers(a) + QueryMarkers(b)
    decreases |b|
  {
    if b == [] {
      assert a + b == a;
    } else {
      assert (a + b)[..|a + b| - 1] == a + b[..|b| - 1];
      QueryMarkersAppend(a, b[..|b| - 1]);
    }
  }

  lemma QueryMarkersSingle(c: Clause)
    ensures QueryMarkers([c]) == Markers(c)
  {
    assert [c][..0] == [];
  }

  lemma QueryMarkersClauseIf(b: bool, c: Clause)
    ensures QueryMarkers(ClauseIf(b, c)) == if b then Markers(c) else 0
  {
    if b {
      QueryMarkersSingle(c);
    }
  }

  /** The category range has no `?` marker. */
  lemma CategoryClauseMarkers(f: map<string, PyValue>)
    ensures QueryMarkers(CategoryClause(f)) == 0
  {
    var c := CategoryClause(f);
    if c != [] {
      QueryMarkersSingle(c[0]);
      assert c == [c[0]];
    }
  }

  /** Every `?` in the query has exactly one parameter, and the first is
      the user id. */
  lemma PlaceholdersMatchParams(userId: int, filters: Option<map<string, PyValue>>)
    ensures var (query, params) := FilteredQuery(userId, filters);
      QueryMarkers(query) == |params| && params[0] == PyInt(userId)
  {
    var f := Normalize(filters);
    var c1 := ClauseIf(Given(f, "move_number"), MoveNumberEquals);
    var c2 := ClauseIf(Given(f, "color"), TurnEquals);
    var c3 := ClauseIf(Given(f, "result"), ResultEquals);
    var c4 := CategoryClause(f);
    var c6 := ClauseIf(Given(f, "limit"), Limit);
    QueryMarkersSingle(Base);
    QueryMarkersSingle(OrderByTimestamp);
    QueryMarkersClauseIf(Given(f, "move_number"), MoveNumberEquals);
    QueryMarkersClauseIf(Given(f, "color"), TurnEquals);
    QueryMarkersClauseIf(Given(f, "result"), ResultEquals);
    QueryMarkersClauseIf(Given(f, "limit"), Limit);
    CategoryClauseMarkers(f);
    var q1 := [Base] + c1;
    QueryMarkersAppend([Base], c1);
    var q2 := q1 + c2;
    QueryMarkersAppend(q1, c2);
    var q3 := q2 + c3;
    QueryMarkersAppend(q2, c3);
    var q4 := q3 + c4;
    QueryMarkersAppend(q3, c4);
    var q5 := q4 + [OrderByTimestamp];
    QueryMarkersAppend(q4, [OrderByTimestamp]);
    QueryMarkersAppend(q5, c6);
    var p1 := ParamOf(f, "move_number");
    var p2 := ParamOf(f, "color");
    var p3 := ParamOf(f, "result");
    var p6 := ParamOf(f, "limit");
    assert FilteredQuery(userId, filters) == (q5 + c6, [PyInt(userId)] + p1 + p2 + p3 + p6);
    assert |p1| == QueryMarkers(c1) && |p2| == QueryMarkers(c2);
    assert |p3| == QueryMarkers(c3) && |p6| == QueryMarkers(c6);
    assert QueryMarkers(q5 + c6) == 1 + |p1| + |p2| + |p3| + |p6|;
  }

  /** With no given filter (a missing dictionary, an empty one, or values
      that are all falsy) the query is the base selection in timestamp
      order with the user id as its only parameter. */
  lemma FalsyFiltersAddNothing(userId: int, filters: Option<map<string, PyValue>>)
    requires filters.Some? ==> forall key | key in filters.value :: !Truthy(filters.value[key])
    ensures FilteredQuery(userId, filters) == ([Base, OrderByTimestamp], [PyInt(userId)])
    ensures FilteredQuery(userId, filters) == FilteredQuery(userId, None)
  {
    var f := Normalize(filters);
    assert !Given(f, "move_number") && !Given(f, "color") && !Given(f, "result");
    assert !Given(f, "category") && !Given(f, "limit");
    assert CategoryClause(f) == [];
    assert [Base] + [] + [] + [] + [] + [OrderByTimestamp] + [] == [Base, OrderByTimestamp];
    assert [PyInt(userId)] + [] + [] + [] + [] == [PyInt(userId)];
  }

  /** A missing dictionary behaves exactly like an empty one. */
  lemma NoneIsEmpty(userId: int)
    ensures FilteredQuery(userId, None) == FilteredQuery(userId, Some(map[]))
  {
  }

  /** The ordering clause appears exactly once, after all filters, and only
      the limit may follow it. */
  lemma OrderingBeforeLimit(userId: int, filters: Option<map<string, PyValue>>)
    ensures var query := FilteredQuery(userId, filters).0;
      var n := |query|;
      && n >= 2
      && (query[n - 1] == OrderByTimestamp || (query[n - 1] == Limit && query[n - 2] == OrderByTimestamp))
      && (forall k | 0 <= k < n && query[k] == OrderByTimestamp :: k == n - 1 || k == n - 2)
      && (forall k | 0 <= k < n && query[k] == Limit :: k == n - 1)
  {
    var f := Normalize(filters);
    var filtersPart := [Base]
      + ClauseIf(Given(f, "move_number"), MoveNumberEquals)
      + ClauseIf(Given(f, "color"), TurnEquals)
      + ClauseIf(Given(f, "result"), ResultEquals)
      + CategoryClause(f);
    assert forall k | 0 <= k < |filtersPart| :: filtersPart[k] != OrderByTimestamp && filtersPart[k] != Limit;
    var query := filtersPart + [OrderByTimestamp] + ClauseIf(Given(f, "limit"), Limit);
    assert query == FilteredQuery(userId, filters).0;
    assert forall k | 0 <= k < |filtersPart| :: query[k] == filtersPart[k];
  }

  /** `get_filtered_user_moves`, up to `cursor.execute`: builds the query
      text by appending and the parameter list by `append`. */
  method GetFilteredUserMoves(userId: int, filters: Option<map<string, PyValue>>)
    returns (query: seq<Clause>, params: seq<PyValue>)
    ensures (query, params) == FilteredQuery(userId, filters)
    ensures QueryMarkers(query) == |params|
  {
    var f := Normalize(filters);
    query := [Base];
    params := [PyInt(userId)];
    if "move_number" in f && Truthy(f["move_number"]) {
      query := query + [MoveNumberEquals];
      params := params + [f["move_number"]];
    }
    assert query == [Base] + ClauseIf(Given(f, "move_number"), MoveNumberEquals);
    assert params == [PyInt(userId)] + ParamOf(f, "move_number");
    ghost var q1, p1 := query, params;
    if "color" in f && Truthy(f["color"]) {
      query := query + [TurnEquals];
      params := params + [f["color"]];
    }
    assert query == q1 + ClauseIf(Given(f, "color"), TurnEquals);
    assert params == p1 + ParamOf(f, "color");
    ghost var q2, p2 := query, params;
    if "result" in f && Truthy(f["result"]) {
      query := query + [ResultEquals];
      params := params + [f["result"]];
    }
    assert query == q2 + ClauseIf(Given(f, "result"), ResultEquals);
    assert params == p2 + ParamOf(f, "result");
    ghost var q3 := query;
    if "category" in f && Truthy(f["category"]) {
      if f["category"] == PyText("opening") {
        query := query + [OpeningRange];
      } else if f["category"] == PyText("middle game") {
        query := query + [MiddleGameRange];
      } else if f["category"] == PyText("endgame") {
        query := query + [EndgameRange];
      }
    }
    assert query == q3 + CategoryClause(f);
    query := query + [OrderByTimestamp];
    ghost var q5, p5 := query, params;
    if "limit" in f && Truthy(f["limit"]) {
      query := query + [Limit];
      params := params + [f["limit"]];
    }
    assert query == q5 + ClauseIf(Given(f, "limit"), Limit);
    assert params == p5 + ParamOf(f, "limit");
    PlaceholdersMatchParams(userId, filters);
  }

  // ---------------------------------------------------------------------
  // get_comparative_analysis
  // ---------------------------------------------------------------------

  const ValidFactors: seq<string> := ["time_taken", "center_control", "pawn_structure", "king_safety", "material"]

  datatype Comparison =
    | InvalidFactors                 // {"error": "Invalid factors for comparison"}
    | TimeBuckets                    // the time_taken/result bucket query
    | Placeholder(message: string)   // {"message": ...}

  /** `get_comparative_analysis`: the bucket query is reached only for the
      pair (time_taken, result), which the factor check already rejects. */
  function ComparativeAnalysis(factor1: string, factor2: string): (r: Comparison)
    ensures r == InvalidFactors <==> factor1 !in ValidFactors || factor2 !in ValidFactors
    ensures !r.TimeBuckets?
    ensures r.Placeholder? ==>
      r.message == "Comparison between " + factor1 + " and " + factor2
                   + " would require extracting position metadata"
  {
    if factor1 !in ValidFactors || factor2 !in ValidFactors then InvalidFactors
    else if factor1 == "time_taken" && factor2 == "result" then TimeBuckets
    else Placeholder("Comparison between " + factor1 + " and " + factor2
                     + " would require extracting position metadata")
  }
}
