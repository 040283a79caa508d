/** The SQLite catalog as plain input data: what the schema builder's queries return. */
module Catalog {
  import opened Wrappers
  import opened Strings
  import Descriptions

  /** A value SQLite returns: NULL, an INTEGER or TEXT. */
  datatype SqlValue = Null | Integer(i: int) | Text(s: string)

  /** A result row (a Python tuple). */
  type Row = seq<SqlValue>

  /** The text of an exception. */
  type Error = string

  /** The text Python prints for a cell value: `None` for NULL, the decimal digits of an
      integer, a text as it is. */
  function Str(v: SqlValue): string
  {
    match v
    case Null => "None"
    case Integer(i) => IntToString(i)
    case Text(s) => s
  }

  /** A row of `PRAGMA table_info`, reduced to the fields the builder reads: the second
      field, the name; the third, the declared type (empty when none); and the sixth, the
      primary-key position (0 when the column is not part of the key). */
  datatype ColumnRow = ColumnRow(name: string, declaredType: string, pk: int)

  /** A row of `sqlite_master`: its `type` and `name` columns. */
  datatype MasterRow = MasterRow(kind: string, name: string)

  /** One database file, seen through the queries the builder issues, together with the
      description files beside it. Each query either returns its rows or raises
      `sqlite3.Error` with a message. */
  datatype Database = Database(
    master: seq<MasterRow>,
    // the columns of a table, as the table-info pragma lists them
    tableInfo: string -> Result<seq<ColumnRow>, Error>,
    // the rows of a table's foreign-key-list pragma: id, seq, target table, from, to, and three more
    foreignKeyList: string -> Result<seq<Row>, Error>,
    // the distinct non-NULL values of a column, in the order SQLite returns them, before the limit
    distinctValues: (string, string) -> Result<seq<SqlValue>, Error>,
    // the entries of the database_description directory beside the file, None when absent
    descriptionDir: Option<seq<Descriptions.DescFile>>)

  /** A name SQLite keeps for itself, as the builder's LIKE pattern tests it: `sqlite` in
      any ASCII letter case, then at least one more character. */
  predicate IsInternalName(name: string)
  {
    |name| >= 7 && Lower(name[..6]) == "sqlite"
  }

  /** The names of the user tables: the catalog's table entries, in catalog order, without
      the internal ones. */
  function UserTables(master: seq<MasterRow>): (names: seq<string>)
    ensures |names| <= |master|
    ensures forall n :: n in names <==> exists k :: 0 <= k < |master| && master[k] == MasterRow("table", n) && !IsInternalName(n)
  {
    if master == [] then []
    else
      var rest := UserTables(master[1..]);
      assert forall k :: 1 <= k < |master| ==> master[k] == master[1..][k - 1];
      if master[0].kind == "table" && !IsInternalName(master[0].name) then [master[0].name] + rest else rest
  }
}
