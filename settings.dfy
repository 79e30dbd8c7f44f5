/** settings.py: reading and whitelisted updating of a user's settings
    row, the in-code defaults, and the legacy import entry point. */
module Settings {
  import opened Common
  import opened Tables
  import opened Database

  /** `get_user_settings`: the row, or None when the user has none. */
  function GetUserSettings(settings: map<int, SettingsRow>, userId: int): (r: Option<SettingsRow>)
    ensures r.None? <==> userId !in settings
    ensures r.Some? ==> r.value == settings[userId]
  {
    if userId in settings then Some(settings[userId]) else None
  }

  // ---------------------------------------------------------------------
  // update_user_settings
  // ---------------------------------------------------------------------

  /** The column names the update interpolates into its SQL. */
  const ValidKeys: set<string> := {"random_positions", "top_n_threshold", "score_difference_threshold", "theme"}

  /** `{k: v for k, v in settings_dict.items() if k in valid_keys}`. */
  function Whitelisted(updates: map<string, PyValue>): (r: map<string, PyValue>)
    ensures r.Keys <= ValidKeys
    ensures forall k | k in updates && k in ValidKeys :: k in r && r[k] == updates[k]
    ensures forall k | k in r :: k in updates
  {
    map k | k in updates && k in ValidKeys :: updates[k]
  }

  /** `UPDATE user_settings SET key = ?` on one row. */
  function SetColumn(row: SettingsRow, key: string, value: PyValue): (r: SettingsRow)
    requires key in ValidKeys
  {
    if key == "random_positions" then row.(randomPositions := Stored(value))
    else if key == "top_n_threshold" then row.(topNThreshold := Stored(value))
    else if key == "score_difference_threshold" then row.(scoreDifferenceThreshold := Stored(value))
    else row.(theme := Stored(value))
  }

  /** A row after every whitelisted column has been written. */
  function Applied(row: SettingsRow, updates: map<string, PyValue>): SettingsRow
  {
    SettingsRow(
      if "random_positions" in updates then Stored(updates["random_positions"]) else row.randomPositions,
      if "top_n_threshold" in updates then Stored(updates["top_n_threshold"]) else row.topNThreshold,
      if "score_difference_threshold" in updates then Stored(updates["score_difference_threshold"])
      else row.scoreDifferenceThreshold,
      if "theme" in updates then Stored(updates["theme"]) else row.theme)
  }

  /** The settings table after an update: only that user's row changes,
      and only if it exists. */
  function UpdatedSettings(settings: map<int, SettingsRow>, userId: int, updates: map<string, PyValue>): map<int, SettingsRow>
  {
    if userId in settings then settings[userId := Applied(settings[userId], Whitelisted(updates))] else settings
  }

  /** Writing one more column on top of some already written. */
  lemma SetColumnStep(row: SettingsRow, done: map<string, PyValue>, key: string, value: PyValue)
    requires key in ValidKeys && key !in done
    ensures SetColumn(Applied(row, done), key, value) == Applied(row, done[key := value])
  {
  }

  /** Each column holds the written value when its key was given and
      keeps its old value otherwise; keys outside the whitelist are
      dropped. */
  lemma UpdateTouchesOnlyGivenColumns(settings: map<int, SettingsRow>, userId: int, updates: map<string, PyValue>)
    ensures var after := UpdatedSettings(settings, userId, updates);
      && after.Keys == settings.Keys
      && (forall u | u in settings && u != userId :: after[u] == settings[u])
      && (userId in settings ==>
            var old_ := settings[userId];
            var new_ := after[userId];
            && new_.randomPositions == (if "random_positions" in updates then Stored(updates["random_positions"]) else old_.randomPositions)
            && new_.topNThreshold == (if "top_n_threshold" in updates then Stored(updates["top_n_threshold"]) else old_.topNThreshold)
            && new_.scoreDifferenceThreshold ==
                 (if "score_difference_threshold" in updates then Stored(updates["score_difference_threshold"])
                  else old_.scoreDifferenceThreshold)
            && new_.theme == (if "theme" in updates then Stored(updates["theme"]) else old_.theme))
  {
  }

  /** A key outside the whitelist has no effect at all. */
  lemma UnknownKeysIgnored(settings: map<int, SettingsRow>, userId: int, updates: map<string, PyValue>,
                           key: string, value: PyValue)
    requires key !in ValidKeys
    ensures UpdatedSettings(settings, userId, updates[key := value]) == UpdatedSettings(settings, userId, updates)
  {
    assert Whitelisted(updates[key := value]) == Whitelisted(updates);
  }

  /** The settings table after one `UPDATE user_settings SET key = ?
      WHERE user_id = ?`. */
  function ColumnUpdated(settings: map<int, SettingsRow>, userId: int, key: string, value: PyValue): map<int, SettingsRow>
    requires key in ValidKeys
  {
    if userId in settings then settings[userId := SetColumn(settings[userId], key, value)] else settings
  }

  /** The settings table once the columns in `done` have been written. */
  function PartlyUpdated(settings: map<int, SettingsRow>, userId: int, done: map<string, PyValue>): map<int, SettingsRow>
  {
    if userId in settings then settings[userId := Applied(settings[userId], done)] else settings
  }

  lemma PartlyUpdatedStep(settings: map<int, SettingsRow>, userId: int, done: map<string, PyValue>,
                          key: string, value: PyValue)
    requires key in ValidKeys && key !in done
    ensures ColumnUpdated(PartlyUpdated(settings, userId, done), userId, key, value)
         == PartlyUpdated(settings, userId, done[key := value])
  {
    if userId in settings {
      SetColumnStep(settings[userId], done, key, value);
    }
  }

  /** The loop of one UPDATE per whitelisted key, over the settings
      table. Keys are taken in an unspecified order: each statement writes
      a different column, so the order does not matter. */
  method UpdateColumns(settings: map<int, SettingsRow>, userId: int, validated: map<string, PyValue>)
    returns (result: map<int, SettingsRow>)
    requires validated.Keys <= ValidKeys
    ensures result == PartlyUpdated(settings, userId, validated)
  {
    result := settings;
    var remaining := validated.Keys;
    ghost var done: map<string, PyValue> := map[];
    while remaining != {}
      invariant remaining <= validated.Keys
      invariant done.Keys == validated.Keys - remaining
      invariant forall k | k in done :: done[k] == validated[k]
      invariant result == PartlyUpdated(settings, userId, done)
      decreases |remaining|
    {
      ghost var picked := PickMember(remaining);
      var key :| key in remaining;
      var value := validated[key];
      PartlyUpdatedStep(settings, userId, done, key, value);
      result := ColumnUpdated(result, userId, key, value);
      done := done[key := value];
      remaining := remaining - {key};
    }
    assert done == validated;
  }

  /** `update_user_settings`: one UPDATE per whitelisted key. An UPDATE
      matching no row creates none, and the call still reports success. */
  method UpdateUserSettings(db: Tables.Database, userId: int, updates: map<string, PyValue>) returns (ok: bool)
    requires db.Valid()
    modifies db
    ensures db.Valid()
    ensures ok
    ensures db.settings == UpdatedSettings(old(db.settings), userId, updates)
    ensures db.CatalogState() == old(db.CatalogState())
    ensures db.userMoves == old(db.userMoves) && db.userMoveSeq == old(db.userMoveSeq)
    ensures db.users == old(db.users) && db.userSeq == old(db.userSeq)
  {
    var validated := Whitelisted(updates);
    var updated := UpdateColumns(db.settings, userId, validated);
    assert updated.Keys == db.settings.Keys;
    db.settings := updated;
    return true;
  }

  /** `initialize_default_settings`. */
  function InitializeDefaultSettings(): (r: map<string, PyValue>)
    ensures r.Keys == ValidKeys
  {
    map["random_positions" := PyBool(true), "top_n_threshold" := PyInt(3),
        "score_difference_threshold" := PyInt(10), "theme" := PyText("default")]
  }

  /** Writing the in-code defaults gives the schema's column defaults. */
  lemma DefaultsMatchSchema(row: SettingsRow)
    ensures Applied(row, Whitelisted(InitializeDefaultSettings())) == DefaultSettingsRow
  {
    var d := InitializeDefaultSettings();
    assert Whitelisted(d) == d;
  }

  // ---------------------------------------------------------------------
  // import_positions_from_jsonl (the definition at line 127)
  // ---------------------------------------------------------------------

  datatype LegacyImport =
    | Refused(error: string)                  // {"error": ..., "imported": 0}
    | Imported(imported: int, totalPositions: nat)

  /** The legacy import: no validation of the lines, a case-sensitive
      extension check, then the loader and a count difference. */
  method ImportPositionsFromJsonl(db: Tables.Database, exists_: bool, path: string, lines: seq<Line>)
    returns (r: LegacyImport)
    requires db.Valid()
    modifies db
    ensures db.Valid()
    ensures !exists_ ==> r == Refused("File not found") && db.CatalogState() == old(db.CatalogState())
    ensures exists_ && !EndsWith(path, ".jsonl") ==>
      r == Refused("File must be a JSONL file") && db.CatalogState() == old(db.CatalogState())
    ensures exists_ && EndsWith(path, ".jsonl") ==>
      && db.CatalogState() == LoadLines(old(db.CatalogState()), lines).catalog
      && r == Imported(|db.positions| - |old(db.positions)|, |db.positions|)
      && r.imported == LoadLines(old(db.CatalogState()), lines).loaded
    ensures db.userMoves == old(db.userMoves) && db.userMoveSeq == old(db.userMoveSeq)
    ensures db.settings == old(db.settings) && db.users == old(db.users) && db.userSeq == old(db.userSeq)
  {
    if !exists_ {
      return Refused("File not found");
    }
    if !EndsWith(path, ".jsonl") {
      return Refused("File must be a JSONL file");
    }
    ghost var start := db.CatalogState();
    var beforeCount := |db.positions|;
    var _ := LoadPositionsFromJsonl(db, lines);
    var afterCount := |db.positions|;
    LoadCountsInsertedPositions(start, lines);
    return Imported(afterCount - beforeCount, afterCount);
  }

  /** The two import paths disagree on upper-case extensions: the
      validating one lower-cases the name, the legacy one does not. */
  lemma ExtensionCheckIsCaseSensitive()
    ensures EndsWith(Lower("games.JSONL"), ".jsonl")
    ensures !EndsWith("games.JSONL", ".jsonl")
  {
    assert Lower("games.JSONL") == "games.jsonl";
  }
}
