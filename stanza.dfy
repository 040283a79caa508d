/** One table's stanza of the schema prompt (`build_table_prompt`), and the foreign-key
    relations it appends to the caller's list. */
module Stanza {
  import opened Wrappers
  import opened Strings
  import opened Catalog
  import opened ForeignKeys
  import opened Descriptions

  /** The caller's `fk_relations` list; the builder only ever appends to it. */
  class RelationList {
    var items: seq<string>

    constructor ()
      ensures items == []
    {
      items := [];
    }

    method Append(r: string)
      modifies this
      ensures items == old(items) + [r]
    {
      items := items + [r];
    }
  }

  function Min(a: nat, b: nat): nat
  {
    if a <= b then a else b
  }

  predicate NoNulls(values: seq<SqlValue>)
  {
    forall j :: 0 <= j < |values| ==> values[j] != Null
  }

  /** The loop of `fetch_column_examples`: NULLs are skipped, every other value is
      rendered with `str()`, in the order the query returned them. */
  function ExampleStrings(values: seq<SqlValue>): (r: seq<string>)
    ensures |r| <= |values|
    ensures NoNulls(values) ==>
              |r| == |values| && forall j :: 0 <= j < |values| ==> r[j] == Str(values[j])
  {
    if values == [] then []
    else
      var rest := ExampleStrings(values[1..]);
      assert forall j :: 1 <= j < |values| ==> values[1..][j - 1] == values[j];
      if values[0] == Null then rest else [Str(values[0])] + rest
  }

  /** `fetch_column_examples(conn, table, column, limit)`: the first `limit` distinct
      non-null values, or nothing when the query fails. */
  function FetchColumnExamples(db: Database, table: string, column: string, limit: nat): (r: seq<string>)
    ensures |r| <= limit
    ensures db.distinctValues(table, column).Err? ==> r == []
    ensures db.distinctValues(table, column).Ok? && NoNulls(db.distinctValues(table, column).value) ==>
              |r| == Min(limit, |db.distinctValues(table, column).value|) &&
              forall j :: 0 <= j < |r| ==> r[j] == Str(db.distinctValues(table, column).value[j])
  {
    match db.distinctValues(table, column)
    case Err(_) => []
    case Ok(values) => ExampleStrings(values[..Min(limit, |values|)])
  }

  /** The foreign keys of a table, as the builder reads them. */
  function ForeignKeysOf(db: Database, table: string): ForeignKeyMap
  {
    match db.foreignKeyList(table)
    case Err(_) => map[]
    case Ok(rows) => MapOf(rows)
  }

  /** The descriptions of a table, looked up by its lower-cased name; none when it has no file. */
  function TableDescMap(descriptions: DescriptionMap, table: string): TableDescriptions
  {
    if Lower(table) in descriptions then descriptions[Lower(table)] else map[]
  }

  /** The column's declared type, or "UNKNOWN" when SQLite reports an empty one. */
  function ColumnType(col: ColumnRow): (ty: string)
    ensures ty != ""
    ensures col.declaredType != "" ==> ty == col.declaredType
    ensures col.declaredType == "" ==> ty == "UNKNOWN"
  {
    if col.declaredType != "" then col.declaredType else "UNKNOWN"
  }

  /** The column's description, stripped and with its whitespace runs collapsed. */
  function CleanDescription(descMap: TableDescriptions, column: string): (d: string)
    ensures forall i :: 0 <= i < |d| ==> d[i] == ' ' || !IsSpace(d[i])
    ensures d == [] || (!IsSpace(d[0]) && !IsSpace(d[|d| - 1]))
  {
    var raw := if Lower(column) in descMap then descMap[Lower(column)] else "";
    var stripped := Strip(raw);
    WordsAreWords(stripped);
    JoinWordsCollapsed(Words(stripped));
    if stripped != "" then Collapse(stripped) else stripped
  }

  /** The cleaned description has every whitespace run collapsed into one blank between
      two non-blank characters. */
  lemma CleanDescriptionCollapsed(descMap: TableDescriptions, column: string)
    ensures Collapsed(CleanDescription(descMap, column))
    ensures Words(CleanDescription(descMap, column))
         == Words(if Lower(column) in descMap then descMap[Lower(column)] else "")
    ensures CleanDescription(descMap, column)
         == Collapse(if Lower(column) in descMap then descMap[Lower(column)] else "")
  {
    var raw := if Lower(column) in descMap then descMap[Lower(column)] else "";
    var stripped := Strip(raw);
    WordsOfStrip(raw);
    if stripped != "" {
      CollapseIsCollapsed(stripped);
      WordsOfCollapse(stripped);
    } else {
      assert Words(stripped) == [];
    }
  }

  /** `d` is `desc` cut at `i`: a prefix of what precedes `i`, shorn only of commas and
      blanks, and not ending in either. */
  predicate CutAt(d: string, desc: string, i: nat)
  {
    i <= |desc| && IsPrefix(d, desc[..i])
    && (forall k :: |d| <= k < i ==> desc[k] == ',' || desc[k] == ' ')
    && (d == [] || (d[|d| - 1] != ',' && d[|d| - 1] != ' '))
  }

  /** With a foreign key, the description is cut before its first case-insensitive
      "maps to" and loses the commas and blanks that then end it. */
  function TrimmedDescription(desc: string, hasForeignKey: bool): (d: string)
    ensures IsPrefix(d, desc)
    ensures !hasForeignKey ==> d == desc
  {
    if desc != "" && hasForeignKey then
      var mapsIdx := Find(Lower(desc), "maps to");
      if mapsIdx != -1 then RStripChars(desc[..mapsIdx], {',', ' '}) else desc
    else desc
  }

  /** The foreign key of a column, looked up by its name: the map is keyed by the value
      SQLite reported, so a TEXT from-column matches the column's name. */
  function ForeignKeyOf(fkMap: ForeignKeyMap, column: string): Option<(SqlValue, SqlValue)>
  {
    if Text(column) in fkMap then Some(fkMap[Text(column)]) else None
  }

  /** The relation the builder records for a column with a foreign key. */
  function RelationText(table: string, column: string, target: (SqlValue, SqlValue)): string
  {
    table + "." + column + " = " + Str(target.0) + "." + Str(target.1)
  }

  /** The head of an entry: the column's name, a colon and a blank, then its type. */
  function EntryHead(col: ColumnRow): string
  {
    col.name + ": " + ColumnType(col)
  }

  /** The parts of an entry: name and type, then the primary-key marker, then the description. */
  function ColumnParts(col: ColumnRow, desc: string): (parts: seq<string>)
    ensures parts != [] && parts[0] == EntryHead(col)
  {
    [EntryHead(col)] + (if col.pk != 0 then ["Primary Key"] else []) + (if desc != "" then [desc] else [])
  }

  function MapsToText(target: Option<(SqlValue, SqlValue)>): string
  {
    match target
    case None => ""
    case Some(t) => "\n   Maps to " + Str(t.0) + "(" + Str(t.1) + ")"
  }

  function ExamplesText(examples: seq<string>): string
  {
    var joined := if examples != [] then Join(", ", examples) else "";
    if joined != "" then ", Examples: [" + joined + "]" else ""
  }

  function EntryText(partsText: string, mapsTo: string, examplesText: string, isLast: bool): string
  {
    "  (" + partsText + mapsTo + examplesText + ")" + (if isLast then "" else ",")
  }

  /** The text of the column's entry, as the loop builds it. */
  function ColumnEntry(col: ColumnRow, descMap: TableDescriptions, target: Option<(SqlValue, SqlValue)>, examples: seq<string>, isLast: bool): string
  {
    var desc := TrimmedDescription(CleanDescription(descMap, col.name), target.Some?);
    EntryText(Join(", ", ColumnParts(col, desc)), MapsToText(target), ExamplesText(examples), isLast)
  }

  /** The entry of the `i`-th column, the last one without the trailing comma. */
  function ColumnEntryAt(db: Database, table: string, cols: seq<ColumnRow>, descMap: TableDescriptions, fkMap: ForeignKeyMap, limit: nat, i: nat): string
    requires i < |cols|
  {
    var col := cols[i];
    ColumnEntry(col, descMap, ForeignKeyOf(fkMap, col.name), FetchColumnExamples(db, table, col.name, limit), i == |cols| - 1)
  }

  /** `ColumnEntryAt` as a function of the index (the empty text past the last column,
      where it is never asked for). */
  function EntryOf(db: Database, table: string, cols: seq<ColumnRow>, descMap: TableDescriptions, fkMap: ForeignKeyMap, limit: nat): nat -> string
  {
    (i: nat) => if i < |cols| then ColumnEntryAt(db, table, cols, descMap, fkMap, limit, i) else ""
  }

  /** The entries of the first `n` columns, in catalog order. */
  function ColumnLines(db: Database, table: string, cols: seq<ColumnRow>, descMap: TableDescriptions, fkMap: ForeignKeyMap, limit: nat, n: nat): (lines: seq<string>)
    requires n <= |cols|
    ensures |lines| == n
  {
    Lines(EntryOf(db, table, cols, descMap, fkMap, limit), n)
  }

  /** The relations recorded for the first `n` columns, in order. */
  function RelationsOf(table: string, cols: seq<ColumnRow>, fkMap: ForeignKeyMap, n: nat): (rels: seq<string>)
    requires n <= |cols|
    ensures |rels| <= n
  {
    if n == 0 then []
    else
      var col := cols[n - 1];
      var target := ForeignKeyOf(fkMap, col.name);
      RelationsOf(table, cols, fkMap, n - 1) + (if target.Some? then [RelationText(table, col.name, target.value)] else [])
  }

  /** The string `build_table_prompt` returns. */
  function TableStanza(db: Database, table: string, descriptions: DescriptionMap, limit: nat): string
  {
    match db.tableInfo(table)
    case Err(_) => ""
    case Ok(cols) =>
      if cols == [] then ""
      else
        var lines := ColumnLines(db, table, cols, TableDescMap(descriptions, table), ForeignKeysOf(db, table), limit, |cols|);
        "# Table: " + table + "\n[\n" + Join("\n\n", lines) + "\n]"
  }

  /** What `build_table_prompt` appends to `fk_relations`. */
  function TableRelations(db: Database, table: string): seq<string>
  {
    match db.tableInfo(table)
    case Err(_) => []
    case Ok(cols) => RelationsOf(table, cols, ForeignKeysOf(db, table), |cols|)
  }

  lemma AppendAssociative(a: seq<string>, b: seq<string>, c: seq<string>)
    ensures a + b + c == a + (b + c)
  {
  }

  /** `build_table_prompt`: the stanza of one table, appending the table's foreign-key
      relations to the caller's list. */
  method BuildTablePrompt(db: Database, table: string, descriptions: DescriptionMap, sampleLimit: nat, fkRelations: RelationList)
    returns (tableBlock: string)
    modifies fkRelations
    ensures tableBlock == TableStanza(db, table, descriptions, sampleLimit)
    ensures fkRelations.items == old(fkRelations.items) + TableRelations(db, table)
  {
    var info := db.tableInfo(table);
    if info.Err? {
      return "";
    }
    var columnsInfo := info.value;
    if columnsInfo == [] {
      return "";
    }
    var fkMap := GetForeignKeys(db.foreignKeyList(table));
    var tableDescMap := TableDescMap(descriptions, table);
    var columnLines := ColumnLoop(db, table, columnsInfo, tableDescMap, fkMap, sampleLimit, fkRelations);
    tableBlock := "# Table: " + table + "\n[\n" + Join("\n\n", columnLines) + "\n]";
  }

  /** The column loop of `build_table_prompt`: one entry per column, in catalog order, and
      the relations of the columns with a foreign key. */
  method ColumnLoop(db: Database, table: string, columnsInfo: seq<ColumnRow>, tableDescMap: TableDescriptions,
                    fkMap: ForeignKeyMap, sampleLimit: nat, fkRelations: RelationList)
    returns (columnLines: seq<string>)
    modifies fkRelations
    ensures columnLines == ColumnLines(db, table, columnsInfo, tableDescMap, fkMap, sampleLimit, |columnsInfo|)
    ensures fkRelations.items == old(fkRelations.items) + RelationsOf(table, columnsInfo, fkMap, |columnsInfo|)
  {
    ghost var before := fkRelations.items;
    columnLines := [];
    for idx := 0 to |columnsInfo|
      invariant columnLines == ColumnLines(db, table, columnsInfo, tableDescMap, fkMap, sampleLimit, idx)
      invariant fkRelations.items == before + RelationsOf(table, columnsInfo, fkMap, idx)
    {
      ghost var rels := fkRelations.items;
      var line := ColumnStep(db, table, columnsInfo, idx, tableDescMap, fkMap, sampleLimit, fkRelations);
      LinesNext(EntryOf(db, table, columnsInfo, tableDescMap, fkMap, sampleLimit), idx);
      AppendAssociative(before, RelationsOf(table, columnsInfo, fkMap, idx), fkRelations.items[|rels|..]);
      columnLines := columnLines + [line];
    }
  }

  /** One pass of the column loop: the relation is recorded and the entry rendered. */
  method ColumnStep(db: Database, table: string, columnsInfo: seq<ColumnRow>, idx: nat, tableDescMap: TableDescriptions,
                    fkMap: ForeignKeyMap, sampleLimit: nat, fkRelations: RelationList)
    returns (line: string)
    requires idx < |columnsInfo|
    modifies fkRelations
    ensures line == ColumnEntryAt(db, table, columnsInfo, tableDescMap, fkMap, sampleLimit, idx)
    ensures |old(fkRelations.items)| <= |fkRelations.items|
    ensures fkRelations.items == old(fkRelations.items) + fkRelations.items[|old(fkRelations.items)|..]
    ensures RelationsOf(table, columnsInfo, fkMap, idx + 1) == RelationsOf(table, columnsInfo, fkMap, idx) + fkRelations.items[|old(fkRelations.items)|..]
  {
    var col := columnsInfo[idx];
    var fkInfo := ForeignKeyOf(fkMap, col.name);
    if fkInfo.Some? {
      fkRelations.Append(RelationText(table, col.name, fkInfo.value));
    }
    var examples := FetchColumnExamples(db, table, col.name, sampleLimit);
    line := RenderColumn(col, tableDescMap, fkInfo, examples, idx == |columnsInfo| - 1);
  }

  /** The description steps of the column loop. */
  method ColumnDescription(tableDescMap: TableDescriptions, column: string, hasForeignKey: bool) returns (description: string)
    ensures description == TrimmedDescription(CleanDescription(tableDescMap, column), hasForeignKey)
  {
    description := CleanDescription(tableDescMap, column);
    if description != "" && hasForeignKey {
      var mapsIdx := Find(Lower(description), "maps to");
      if mapsIdx != -1 {
        description := RStripChars(description[..mapsIdx], {',', ' '});
      }
    }
  }

  /** The `parts` list of one column entry. */
  method ColumnPartsList(col: ColumnRow, tableDescMap: TableDescriptions, hasForeignKey: bool) returns (parts: seq<string>)
    ensures parts == ColumnParts(col, TrimmedDescription(CleanDescription(tableDescMap, col.name), hasForeignKey))
  {
    parts := [col.name + ": " + ColumnType(col)];
    if col.pk != 0 {
      parts := parts + ["Primary Key"];
    }
    var description := ColumnDescription(tableDescMap, col.name, hasForeignKey);
    if description != "" {
      parts := parts + [description];
    }
  }

  /** The body of the column loop: one entry, built piece by piece. */
  method RenderColumn(col: ColumnRow, tableDescMap: TableDescriptions, fkInfo: Option<(SqlValue, SqlValue)>, examples: seq<string>, isLast: bool)
    returns (line: string)
    ensures line == ColumnEntry(col, tableDescMap, fkInfo, examples, isLast)
  {
    var parts := ColumnPartsList(col, tableDescMap, fkInfo.Some?);
    var partsText := Join(", ", parts);
    var examplesStr := if examples != [] then Join(", ", examples) else "";
    line := "  (" + partsText;
    if fkInfo.Some? {
      var mapsTo := "\n   Maps to " + Str(fkInfo.value.0) + "(" + Str(fkInfo.value.1) + ")";
      line := line + mapsTo;
    }
    assert line == "  (" + partsText + MapsToText(fkInfo);
    if examplesStr != "" {
      var examplesPart := ", Examples: [" + examplesStr + "]";
      line := line + examplesPart;
    }
    assert line == "  (" + partsText + MapsToText(fkInfo) + ExamplesText(examples);
    line := line + ")";
    if !isLast {
      line := line + ",";
    }
  }

  lemma EntryTextShape(partsText: string, mapsTo: string, examplesText: string, isLast: bool)
    ensures IsPrefix("  (" + partsText, EntryText(partsText, mapsTo, examplesText, isLast))
    ensures IsSuffix(if isLast then ")" else "),", EntryText(partsText, mapsTo, examplesText, isLast))
  {
    var x := "  (" + partsText;
    assert IsPrefix(x, x);
    PrefixConcat(x, x, mapsTo);
    PrefixConcat(x, x + mapsTo, examplesText);
    var y := x + mapsTo + examplesText + ")";
    PrefixConcat(x, x + mapsTo + examplesText, ")");
    if isLast {
      assert EntryText(partsText, mapsTo, examplesText, isLast) == y;
    } else {
      PrefixConcat(x, y, ",");
      assert EntryText(partsText, mapsTo, examplesText, isLast) == y + ",";
    }
  }

  lemma PartsTextShape(col: ColumnRow, desc: string)
    ensures IsPrefix(EntryHead(col), Join(", ", ColumnParts(col, desc)))
    ensures col.pk != 0 ==> IsPrefix(EntryHead(col) + ", Primary Key", Join(", ", ColumnParts(col, desc)))
  {
    var parts := ColumnParts(col, desc);
    var head := EntryHead(col);
    JoinFirst(", ", parts);
    if col.pk != 0 {
      assert parts[1] == "Primary Key";
      var tail := Join(", ", parts[1..]);
      JoinFirst(", ", parts[1..]);
      PrefixPrepend(", ", "Primary Key", tail);
      assert ", " + "Primary Key" == ", Primary Key";
      PrefixPrepend(head, ", Primary Key", ", " + tail);
      ConcatAssociative(head, ", ", tail);
    }
  }

  /** Every entry opens with the column's name and type (the primary-key marker next when
      the flag is set) and closes with `)`, followed by `,` unless it is the last. */
  lemma EntryShape(col: ColumnRow, descMap: TableDescriptions, target: Option<(SqlValue, SqlValue)>, examples: seq<string>, isLast: bool)
    ensures IsPrefix("  (" + EntryHead(col), ColumnEntry(col, descMap, target, examples, isLast))
    ensures col.pk != 0 ==> IsPrefix("  (" + EntryHead(col) + ", Primary Key", ColumnEntry(col, descMap, target, examples, isLast))
    ensures IsSuffix(if isLast then ")" else "),", ColumnEntry(col, descMap, target, examples, isLast))
  {
    var desc := TrimmedDescription(CleanDescription(descMap, col.name), target.Some?);
    var head := EntryHead(col);
    var partsText := Join(", ", ColumnParts(col, desc));
    var entry := EntryText(partsText, MapsToText(target), ExamplesText(examples), isLast);
    EntryTextShape(partsText, MapsToText(target), ExamplesText(examples), isLast);
    PartsTextShape(col, desc);
    PrefixPrepend("  (", head, partsText);
    PrefixTransitive("  (" + head, "  (" + partsText, entry);
    if col.pk != 0 {
      PrefixPrepend("  (", head + ", Primary Key", partsText);
      ConcatAssociative("  (", head, ", Primary Key");
      PrefixTransitive("  (" + head + ", Primary Key", "  (" + partsText, entry);
    }
  }

  /** "Primary Key" is one of the entry's parts exactly when the flag is set, unless the
      description itself reads "Primary Key". */
  lemma PrimaryKeyPart(col: ColumnRow, desc: string)
    ensures "Primary Key" in ColumnParts(col, desc)[1..] <==> col.pk != 0 || desc == "Primary Key"
    ensures |ColumnParts(col, desc)| == 1 + (if col.pk != 0 then 1 else 0) + (if desc != "" then 1 else 0)
  {
    var parts := ColumnParts(col, desc);
    if col.pk != 0 {
      assert parts[1] == "Primary Key";
    }
    if desc == "Primary Key" {
      assert parts[|parts| - 1] == desc;
    }
  }

  /** After the cut, the description holds no case-insensitive "maps to"; a description
      without one is left as it is. */
  lemma TrimmedDescriptionCut(desc: string)
    ensures !Contains(Lower(TrimmedDescription(desc, true)), "maps to")
    ensures !Contains(Lower(desc), "maps to") ==> TrimmedDescription(desc, true) == desc
  {
    var r := TrimmedDescription(desc, true);
    var idx := Find(Lower(desc), "maps to");
    if desc != "" && idx != -1 {
      assert |r| <= idx;
      forall j | 0 <= j
        ensures !OccursAt(Lower(r), "maps to", j)
      {
        if j + 7 <= |r| {
          assert j < idx;
          assert !OccursAt(Lower(desc), "maps to", j);
          var window := Lower(r)[j..j + 7];
          var original := Lower(desc)[j..j + 7];
          forall k | 0 <= k < 7
            ensures window[k] == original[k]
          {
            assert r[j + k] == desc[j + k];
          }
          assert window == original;
        }
      }
    }
  }

  /** With a foreign key, the description is cut exactly at the first case-insensitive
      "maps to": what remains precedes it, and only commas and blanks were dropped between. */
  lemma TrimmedDescriptionFirstCut(desc: string, i: nat)
    requires FirstAt(Lower(desc), "maps to", i)
    ensures CutAt(TrimmedDescription(desc, true), desc, i)
  {
    FindIsFirst(Lower(desc), "maps to", i);
  }

  /** The description in an entry has no line break, since collapsing turns every
      whitespace run into one blank. */
  lemma DescriptionHasNoNewline(descMap: TableDescriptions, column: string, hasForeignKey: bool)
    ensures '\n' !in TrimmedDescription(CleanDescription(descMap, column), hasForeignKey)
  {
    var d := CleanDescription(descMap, column);
    var t := TrimmedDescription(d, hasForeignKey);
    forall i | 0 <= i < |t|
      ensures t[i] != '\n'
    {
      assert t[i] == d[i];
    }
  }

  lemma EntryTextNewline(partsText: string, target: Option<(SqlValue, SqlValue)>, examplesText: string, isLast: bool)
    requires '\n' !in partsText && '\n' !in examplesText
    ensures '\n' in EntryText(partsText, MapsToText(target), examplesText, isLast) <==> target.Some?
    ensures target.Some? ==> Contains(EntryText(partsText, MapsToText(target), examplesText, isLast), MapsToText(target))
  {
    var mapsTo := MapsToText(target);
    var x := "  (" + partsText;
    var closing := ")" + (if isLast then "" else ",");
    var e := EntryText(partsText, mapsTo, examplesText, isLast);
    assert e == x + mapsTo + examplesText + closing;
    assert e[|x|..|x| + |mapsTo|] == mapsTo;
    if target.Some? {
      assert mapsTo[0] == '\n';
      ContainsAt(e, mapsTo, |x|);
    }
  }

  lemma ExamplesTextNewline(examples: seq<string>)
    requires forall k :: 0 <= k < |examples| ==> '\n' !in examples[k]
    ensures '\n' !in ExamplesText(examples)
  {
    if examples != [] {
      JoinAvoids('\n', ", ", examples);
    }
  }

  /** The name, type, marker and description part of an entry hold no line break when
      neither the name nor the type does. */
  lemma PartsTextNoNewline(col: ColumnRow, descMap: TableDescriptions, hasForeignKey: bool)
    requires '\n' !in col.name && '\n' !in ColumnType(col)
    ensures '\n' !in Join(", ", ColumnParts(col, TrimmedDescription(CleanDescription(descMap, col.name), hasForeignKey)))
  {
    var desc := TrimmedDescription(CleanDescription(descMap, col.name), hasForeignKey);
    var parts := ColumnParts(col, desc);
    DescriptionHasNoNewline(descMap, col.name, hasForeignKey);
    assert '\n' !in EntryHead(col);
    assert forall k :: 0 <= k < |parts| ==> '\n' !in parts[k];
    JoinAvoids('\n', ", ", parts);
  }

  /** When neither the name, the type nor an example holds a line break, an entry spans
      more than one line exactly when the column has a foreign key, and that second line
      names the referenced table and column. */
  lemma MapsToExactlyWithForeignKey(col: ColumnRow, descMap: TableDescriptions, target: Option<(SqlValue, SqlValue)>, examples: seq<string>, isLast: bool)
    requires '\n' !in col.name && '\n' !in ColumnType(col)
    requires forall k :: 0 <= k < |examples| ==> '\n' !in examples[k]
    ensures '\n' in ColumnEntry(col, descMap, target, examples, isLast) <==> target.Some?
    ensures target.Some? ==> Contains(ColumnEntry(col, descMap, target, examples, isLast), "\n   Maps to " + Str(target.value.0) + "(" + Str(target.value.1) + ")")
  {
    var partsText := Join(", ", ColumnParts(col, TrimmedDescription(CleanDescription(descMap, col.name), target.Some?)));
    PartsTextNoNewline(col, descMap, target.Some?);
    ExamplesTextNewline(examples);
    EntryTextNewline(partsText, target, ExamplesText(examples), isLast);
  }

  /** Relations are appended column by column: those of a shorter prefix of the columns
      come first. */
  lemma {:induction false} RelationsGrow(table: string, cols: seq<ColumnRow>, fkMap: ForeignKeyMap, n: nat, m: nat)
    requires n <= m <= |cols|
    ensures IsPrefixSeq(RelationsOf(table, cols, fkMap, n), RelationsOf(table, cols, fkMap, m))
    decreases m - n
  {
    if n < m {
      RelationsGrow(table, cols, fkMap, n, m - 1);
    }
  }

  predicate IsPrefixSeq(p: seq<string>, s: seq<string>)
  {
    |p| <= |s| && s[..|p|] == p
  }

  /** A relation is recorded exactly for the columns that have a foreign key, and names
      the table, the column and the target. */
  lemma {:induction false} RelationsOfMembers(table: string, cols: seq<ColumnRow>, fkMap: ForeignKeyMap, n: nat, r: string)
    requires n <= |cols|
    ensures r in RelationsOf(table, cols, fkMap, n) <==>
              exists i :: 0 <= i < n && ForeignKeyOf(fkMap, cols[i].name).Some? && r == RelationText(table, cols[i].name, ForeignKeyOf(fkMap, cols[i].name).value)
  {
    if n > 0 {
      RelationsOfMembers(table, cols, fkMap, n - 1, r);
    }
  }

  /** Each line opens with the name and type of its column, and closes its entry, with a
      comma unless it is the last column's. */
  predicate EntriesShaped(cols: seq<ColumnRow>, lines: seq<string>)
    requires |lines| <= |cols|
  {
    forall i :: 0 <= i < |lines| ==>
      IsPrefix("  (" + EntryHead(cols[i]), lines[i]) && IsSuffix(if i == |cols| - 1 then ")" else "),", lines[i])
  }

  /** The entries of a stanza, one per column in catalog order, each of the right shape. */
  lemma ColumnLinesShape(db: Database, table: string, cols: seq<ColumnRow>, descMap: TableDescriptions, fkMap: ForeignKeyMap, limit: nat, n: nat)
    requires n <= |cols|
    ensures EntriesShaped(cols, ColumnLines(db, table, cols, descMap, fkMap, limit, n))
  {
    var lines := ColumnLines(db, table, cols, descMap, fkMap, limit, n);
    forall i | 0 <= i < n
      ensures IsPrefix("  (" + EntryHead(cols[i]), lines[i])
      ensures IsSuffix(if i == |cols| - 1 then ")" else "),", lines[i])
    {
      var col := cols[i];
      assert lines[i] == ColumnEntryAt(db, table, cols, descMap, fkMap, limit, i);
      EntryShape(col, descMap, ForeignKeyOf(fkMap, col.name), FetchColumnExamples(db, table, col.name, limit), i == |cols| - 1);
    }
  }

  lemma StanzaTextShape(table: string, lines: seq<string>)
    requires lines != [] && IsSuffix(")", lines[|lines| - 1])
    ensures IsPrefix("# Table: " + table + "\n[\n", "# Table: " + table + "\n[\n" + Join("\n\n", lines) + "\n]")
    ensures IsSuffix(")" + "\n]", "# Table: " + table + "\n[\n" + Join("\n\n", lines) + "\n]")
  {
    var body := Join("\n\n", lines);
    JoinLast("\n\n", lines);
    SuffixTransitive(")", lines[|lines| - 1], body);
    WrappedShape("# Table: " + table + "\n[\n", body, "\n]", ")");
  }

  /** A stanza is empty exactly when the column query fails or finds no columns; otherwise
      it opens with the table header and closes the last entry and the bracket. A table
      that yields no stanza records no relation. */
  lemma StanzaShape(db: Database, table: string, descriptions: DescriptionMap, limit: nat)
    ensures TableStanza(db, table, descriptions, limit) == "" <==> db.tableInfo(table).Err? || db.tableInfo(table).value == []
    ensures TableStanza(db, table, descriptions, limit) != "" ==>
              IsPrefix("# Table: " + table + "\n[\n", TableStanza(db, table, descriptions, limit)) &&
              IsSuffix(")" + "\n]", TableStanza(db, table, descriptions, limit))
    ensures TableStanza(db, table, descriptions, limit) == "" ==> TableRelations(db, table) == []
  {
    if db.tableInfo(table).Ok? && db.tableInfo(table).value != [] {
      var cols := db.tableInfo(table).value;
      var lines := ColumnLines(db, table, cols, TableDescMap(descriptions, table), ForeignKeysOf(db, table), limit, |cols|);
      ColumnLinesShape(db, table, cols, TableDescMap(descriptions, table), ForeignKeysOf(db, table), limit, |cols|);
      StanzaTextShape(table, lines);
    }
  }
}
