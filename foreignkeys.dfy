/** `get_foreign_keys` (src/gpt_request.py): the foreign keys of one table, by column. */
module ForeignKeys {
  import opened Wrappers
  import opened Catalog

  /** From-column to (referenced table, referenced column). */
  type ForeignKeyMap = map<SqlValue, (SqlValue, SqlValue)>

  /** A row of `PRAGMA foreign_key_list` is used only when it has at least five fields. */
  predicate IsComplete(row: Row)
  {
    |row| >= 5
  }

  /** The map the loop has built after reading `rows`, in order. */
  function MapOf(rows: seq<Row>): ForeignKeyMap
  {
    if rows == [] then map[]
    else
      var m := MapOf(rows[..|rows| - 1]);
      var row := rows[|rows| - 1];
      if IsComplete(row) then m[row[3] := (row[2], row[4])] else m
  }

  /** `get_foreign_keys(conn, table)`, given what the pragma query returned. */
  method GetForeignKeys(query: Result<seq<Row>, Error>) returns (fkMap: ForeignKeyMap)
    ensures query.Err? ==> fkMap == map[]
    ensures query.Ok? ==> fkMap == MapOf(query.value)
  {
    if query.Err? {
      return map[];
    }
    var rows := query.value;
    fkMap := map[];
    var i := 0;
    while i < |rows|
      invariant 0 <= i <= |rows|
      invariant fkMap == MapOf(rows[..i])
    {
      var row := rows[i];
      assert rows[..i + 1][..i] == rows[..i];
      if |row| >= 5 {
        var fromCol := row[3];
        var refTable := row[2];
        var refColumn := row[4];
        fkMap := fkMap[fromCol := (refTable, refColumn)];
      }
      i := i + 1;
    }
    assert rows[..|rows|] == rows;
  }

  /** The rows that have at least five fields, in order. */
  function CompleteRows(rows: seq<Row>): seq<Row>
  {
    if rows == [] then []
    else
      var rest := CompleteRows(rows[..|rows| - 1]);
      if IsComplete(rows[|rows| - 1]) then rest + [rows[|rows| - 1]] else rest
  }

  /** Rows with fewer than five fields contribute nothing. */
  lemma {:induction false} ShortRowsIgnored(rows: seq<Row>)
    ensures MapOf(rows) == MapOf(CompleteRows(rows))
  {
    if rows != [] {
      var init := rows[..|rows| - 1];
      ShortRowsIgnored(init);
      var rest := CompleteRows(init);
      if IsComplete(rows[|rows| - 1]) {
        assert (rest + [rows[|rows| - 1]])[..|rest|] == rest;
      }
    }
  }

  /** A column has an entry exactly when some complete row declares it as a from-column. */
  lemma {:induction false} MapOfDomain(rows: seq<Row>, col: SqlValue)
    ensures col in MapOf(rows) <==> exists i :: 0 <= i < |rows| && IsComplete(rows[i]) && rows[i][3] == col
  {
    if rows != [] {
      var init := rows[..|rows| - 1];
      MapOfDomain(init, col);
      assert forall i :: 0 <= i < |init| ==> init[i] == rows[i];
    }
  }

  /** The LAST complete row for a column decides its entry: a later declaration overwrites an
      earlier one. */
  lemma {:induction false} MapOfLastWins(rows: seq<Row>, i: nat)
    requires i < |rows| && IsComplete(rows[i])
    requires forall j :: i < j < |rows| && IsComplete(rows[j]) ==> rows[j][3] != rows[i][3]
    ensures rows[i][3] in MapOf(rows) && MapOf(rows)[rows[i][3]] == (rows[i][2], rows[i][4])
  {
    var init := rows[..|rows| - 1];
    if i < |rows| - 1 {
      assert forall j :: i < j < |init| ==> init[j] == rows[j];
      MapOfLastWins(init, i);
    }
  }
}
