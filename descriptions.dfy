/** `load_column_descriptions` (src/gpt_request.py): human-written column descriptions read
    from the CSV files in the `database_description` directory beside a database. Opening and decoding a
    file is abstracted: each file gives, for each encoding tried, the rows the CSV reader
    delivered before the attempt ended and how it ended. */
module Descriptions {
  import opened Wrappers
  import opened Strings

  /** The three fields of one CSV row that are read; `None` when the header lacks the field
      or the row is too short to fill it. */
  datatype DescRow = DescRow(columnDescription: Option<string>, originalColumnName: Option<string>, columnName: Option<string>)

  /** How reading under one encoding ended: the whole file was read, a `UnicodeDecodeError`
      was raised, or an `OSError` or `csv.Error` was raised. */
  datatype ReadEnd = Completed | DecodeError | ReadError

  /** The rows delivered before the attempt ended (all of them when it completed). */
  datatype Attempt = Attempt(rows: seq<DescRow>, end: ReadEnd)

  datatype Encoding = Utf8Sig | Utf8 | Latin1

  /** The encodings tried, in order. */
  const Encodings: seq<Encoding> := [Utf8Sig, Utf8, Latin1]

  /** One directory entry: its name and what reading it under each encoding yields. */
  datatype DescFile = DescFile(fileName: string, read: Encoding -> Attempt)

  /** Lower-cased column name to description, for one table. */
  type TableDescriptions = map<string, string>

  /** Lower-cased table name to that table's descriptions. */
  type DescriptionMap = map<string, TableDescriptions>

  /** A field's text, or the empty text when the field is missing. */
  function OrEmpty(field: Option<string>): string
  {
    if field.Some? then field.value else ""
  }

  /** The stripped description a row carries. */
  function RowDescription(row: DescRow): string
  {
    Strip(OrEmpty(row.columnDescription))
  }

  /** The column-name candidates of a row, original name first. */
  function Candidates(row: DescRow): seq<string>
  {
    [Strip(OrEmpty(row.originalColumnName)), Strip(OrEmpty(row.columnName))]
  }

  /** Each non-empty candidate, lower-cased, mapped to the description `d`, in order. */
  function AddCandidates(m: TableDescriptions, cands: seq<string>, d: string): TableDescriptions
  {
    if cands == [] then m
    else
      var m' := AddCandidates(m, cands[..|cands| - 1], d);
      var c := cands[|cands| - 1];
      if c == "" then m' else m'[Lower(c) := d]
  }

  /** One row merged into a table's map. */
  function AddRow(m: TableDescriptions, row: DescRow): TableDescriptions
  {
    AddCandidates(m, Candidates(row), RowDescription(row))
  }

  /** Rows merged into a table's map, in order. */
  function MergeRows(m: TableDescriptions, rows: seq<DescRow>): TableDescriptions
  {
    if rows == [] then m else AddRow(MergeRows(m, rows[..|rows| - 1]), rows[|rows| - 1])
  }

  /** The attempts from encoding `e` on, starting from the map `m` the earlier attempts left:
      whether some attempt completed, and the map then held. A decode error moves on to the
      next encoding keeping what was merged so far; a read error empties the map and stops. */
  function ReadFrom(read: Encoding -> Attempt, e: nat, m: TableDescriptions): (bool, TableDescriptions)
    requires e <= |Encodings|
    decreases |Encodings| - e
  {
    if e == |Encodings| then (false, m)
    else
      var attempt := read(Encodings[e]);
      var m' := MergeRows(m, attempt.rows);
      match attempt.end
      case Completed => (true, m')
      case DecodeError => ReadFrom(read, e + 1, m')
      case ReadError => (false, map[])
  }

  /** The name ends in `.csv`, in any letter case. */
  predicate IsCsv(fileName: string)
  {
    IsSuffix(".csv", Lower(fileName))
  }

  /** The name without its extension, for a name that ends in `.csv`: the extension is cut
      off unless every character before it is a dot. */
  function Stem(fileName: string): string
    requires IsCsv(fileName)
  {
    var root := fileName[..|fileName| - 4];
    if exists i :: 0 <= i < |root| && root[i] != '.' then root else fileName
  }

  /** The table a description file is for. */
  function TableKey(fileName: string): string
    requires IsCsv(fileName)
  {
    Lower(Stem(fileName))
  }

  /** What one directory entry stores: its table and map when it is a `.csv` file, some
      encoding completed and the map then held is non-empty; nothing otherwise. */
  function Stored(f: DescFile): (r: Option<(string, TableDescriptions)>)
    ensures r.Some? <==> IsCsv(f.fileName) && ReadFrom(f.read, 0, map[]).0 && ReadFrom(f.read, 0, map[]).1 != map[]
    ensures r.Some? ==> r.value.0 == TableKey(f.fileName) && r.value.1 == ReadFrom(f.read, 0, map[]).1
  {
    if !IsCsv(f.fileName) then None
    else
      var (decoded, m) := ReadFrom(f.read, 0, map[]);
      if decoded && m != map[] then Some((TableKey(f.fileName), m)) else None
  }

  /** The description map after the directory entries `files`, in order. */
  function LoadFiles(files: seq<DescFile>): DescriptionMap
  {
    if files == [] then map[]
    else
      var d := LoadFiles(files[..|files| - 1]);
      var stored := Stored(files[|files| - 1]);
      if stored.Some? then d[stored.value.0 := stored.value.1] else d
  }

  /** What `load_column_descriptions` returns: nothing when the directory does not exist. */
  function DescriptionsOf(dir: Option<seq<DescFile>>): DescriptionMap
  {
    if dir.None? then map[] else LoadFiles(dir.value)
  }

  /** The inner loop over one row's candidates: each non-empty one, lower-cased, is mapped
      to the row's description. */
  method MergeRow(tableDesc: TableDescriptions, row: DescRow) returns (merged: TableDescriptions)
    ensures merged == AddRow(tableDesc, row)
  {
    merged := tableDesc;
    var description := RowDescription(row);
    var candidates := Candidates(row);
    for c := 0 to |candidates|
      invariant merged == AddCandidates(tableDesc, candidates[..c], description)
    {
      assert candidates[..c + 1][..c] == candidates[..c];
      var colName := candidates[c];
      if colName != "" {
        merged := merged[Lower(colName) := description];
      }
    }
    assert candidates[..|candidates|] == candidates;
  }

  /** The loop over the rows one attempt delivers, in order. */
  method MergeAttemptRows(tableDesc: TableDescriptions, rows: seq<DescRow>) returns (merged: TableDescriptions)
    ensures merged == MergeRows(tableDesc, rows)
  {
    merged := tableDesc;
    for r := 0 to |rows|
      invariant merged == MergeRows(tableDesc, rows[..r])
    {
      assert rows[..r + 1][..r] == rows[..r];
      merged := MergeRow(merged, rows[r]);
    }
    assert rows[..|rows|] == rows;
  }

  /** The loop over the encodings for one file: each attempt merges the rows it delivered;
      a completed attempt sets `decoded` and stops, a decode error moves on, and an `OSError`
      or `csv.Error` empties the map and stops. */
  method ReadDescriptionFile(file: DescFile) returns (decoded: bool, tableDesc: TableDescriptions)
    ensures (decoded, tableDesc) == ReadFrom(file.read, 0, map[])
  {
    tableDesc := map[];
    decoded := false;
    var stopped := false;
    var e := 0;
    while e < |Encodings| && !stopped
      invariant 0 <= e <= |Encodings|
      invariant ReadFrom(file.read, 0, map[]) == if stopped then (decoded, tableDesc) else ReadFrom(file.read, e, tableDesc)
      invariant !stopped ==> !decoded
      decreases |Encodings| - e, if stopped then 0 else 1
    {
      var attempt := file.read(Encodings[e]);
      tableDesc := MergeAttemptRows(tableDesc, attempt.rows);
      match attempt.end {
        case Completed =>
          decoded := true;
          stopped := true;
        case DecodeError =>
          e := e + 1;
        case ReadError =>
          tableDesc := map[];
          stopped := true;
      }
    }
  }

  /** `load_column_descriptions(db_path)`, given the listing of `database_description` (`None`
      when it is not a directory). */
  method LoadColumnDescriptions(dir: Option<seq<DescFile>>) returns (descriptions: DescriptionMap)
    ensures descriptions == DescriptionsOf(dir)
  {
    descriptions := map[];
    if dir.None? {
      return;
    }
    var files := dir.value;
    for f := 0 to |files|
      invariant descriptions == LoadFiles(files[..f])
    {
      assert files[..f + 1][..f] == files[..f];
      var file := files[f];
      if !IsCsv(file.fileName) {
        continue;
      }
      var tableName := TableKey(file.fileName);
      var decoded, tableDesc := ReadDescriptionFile(file);
      if decoded && tableDesc != map[] {
        descriptions := descriptions[tableName := tableDesc];
      }
    }
    assert files[..|files|] == files;
  }

  /** The keys a row writes: its non-empty candidates, lower-cased. */
  function RowKeys(row: DescRow): set<string>
  {
    var cs := Candidates(row);
    (if cs[0] != "" then {Lower(cs[0])} else {}) + (if cs[1] != "" then {Lower(cs[1])} else {})
  }

  /** The keys some row of `rows` writes. */
  function KeysOf(rows: seq<DescRow>): set<string>
  {
    if rows == [] then {} else KeysOf(rows[..|rows| - 1]) + RowKeys(rows[|rows| - 1])
  }

  /** A row maps each key it names to its description and leaves every other key alone. */
  lemma AddRowEffect(m: TableDescriptions, row: DescRow)
    ensures AddRow(m, row).Keys == m.Keys + RowKeys(row)
    ensures forall k :: k in RowKeys(row) ==> AddRow(m, row)[k] == RowDescription(row)
    ensures forall k :: k in m && k !in RowKeys(row) ==> AddRow(m, row)[k] == m[k]
  {
    var cs := Candidates(row);
    var d := RowDescription(row);
    assert cs[..1] == [cs[0]] && cs[..1][..0] == [];
    var m1 := if cs[0] == "" then m else m[Lower(cs[0]) := d];
    assert AddCandidates(m, cs[..1], d) == m1;
    assert AddRow(m, row) == if cs[1] == "" then m1 else m1[Lower(cs[1]) := d];
  }

  /** The empty string is never a key. */
  lemma EmptyNameNeverKey(row: DescRow)
    ensures "" !in RowKeys(row)
  {
  }

  /** After merging rows, the keys are the earlier keys and those some row names. */
  lemma {:induction false} MergeRowsDomain(m: TableDescriptions, rows: seq<DescRow>)
    ensures MergeRows(m, rows).Keys == m.Keys + KeysOf(rows)
  {
    if rows != [] {
      var init := rows[..|rows| - 1];
      MergeRowsDomain(m, init);
      AddRowEffect(MergeRows(m, init), rows[|rows| - 1]);
    }
  }

  /** Merging one more row: the keys it names take its description, and every other key
      keeps what the earlier rows gave it. */
  lemma MergeRowsStep(m: TableDescriptions, rows: seq<DescRow>, k: string)
    requires rows != []
    ensures var before := MergeRows(m, rows[..|rows| - 1]);
            var last := rows[|rows| - 1];
            (k in RowKeys(last) ==> k in MergeRows(m, rows) && MergeRows(m, rows)[k] == RowDescription(last)) &&
            (k !in RowKeys(last) && k in before ==> k in MergeRows(m, rows) && MergeRows(m, rows)[k] == before[k])
  {
    AddRowEffect(MergeRows(m, rows[..|rows| - 1]), rows[|rows| - 1]);
  }

  /** The last row that names a key decides its description. */
  lemma {:induction false} MergeRowsLastWins(m: TableDescriptions, rows: seq<DescRow>, i: nat, k: string)
    requires i < |rows| && k in RowKeys(rows[i])
    requires forall j :: i < j < |rows| ==> k !in RowKeys(rows[j])
    ensures k in MergeRows(m, rows) && MergeRows(m, rows)[k] == RowDescription(rows[i])
  {
    var init := rows[..|rows| - 1];
    MergeRowsStep(m, rows, k);
    if i < |rows| - 1 {
      assert k !in RowKeys(rows[|rows| - 1]);
      assert forall j :: i < j < |init| ==> init[j] == rows[j];
      MergeRowsLastWins(m, init, i, k);
    }
  }

  /** Attempt `k` is the first one, from encoding `e` on, that did not end in a decode error. */
  predicate FirstUndecodedEnd(read: Encoding -> Attempt, e: nat, k: nat)
  {
    e <= k < |Encodings| && read(Encodings[k]).end != DecodeError
    && forall j :: e <= j < k ==> read(Encodings[j]).end == DecodeError
  }

  /** Some attempt completes exactly when the first attempt that is not a decode error is a
      completion; if that attempt is a read error, the map is emptied and nothing is kept. */
  lemma {:induction false} ReadFromOutcome(read: Encoding -> Attempt, e: nat, m: TableDescriptions)
    requires e <= |Encodings|
    ensures ReadFrom(read, e, m).0 <==> exists k: nat :: FirstUndecodedEnd(read, e, k) && read(Encodings[k]).end == Completed
    ensures forall k: nat :: FirstUndecodedEnd(read, e, k) && read(Encodings[k]).end == ReadError ==> ReadFrom(read, e, m) == (false, map[])
    decreases |Encodings| - e
  {
    if e < |Encodings| {
      var attempt := read(Encodings[e]);
      if attempt.end == DecodeError {
        ReadFromOutcome(read, e + 1, MergeRows(m, attempt.rows));
        FirstUndecodedEndSkips(read, e);
      } else {
        FirstUndecodedEndHere(read, e);
      }
    }
  }

  /** After a decode error the search for the first other outcome moves on by one. */
  lemma FirstUndecodedEndSkips(read: Encoding -> Attempt, e: nat)
    requires e < |Encodings| && read(Encodings[e]).end == DecodeError
    ensures forall k: nat :: FirstUndecodedEnd(read, e, k) <==> FirstUndecodedEnd(read, e + 1, k)
  {
  }

  /** An attempt that is not a decode error is the first such from its own encoding on. */
  lemma FirstUndecodedEndHere(read: Encoding -> Attempt, e: nat)
    requires e < |Encodings| && read(Encodings[e]).end != DecodeError
    ensures FirstUndecodedEnd(read, e, e)
    ensures forall k: nat :: FirstUndecodedEnd(read, e, k) ==> k == e
  {
  }

  /** A file that completes under no encoding before a read error contributes nothing, even
      the rows read before the failure. */
  lemma NeverDecodedContributesNothing(files: seq<DescFile>, f: DescFile)
    requires !ReadFrom(f.read, 0, map[]).0
    ensures LoadFiles(files + [f]) == LoadFiles(files)
  {
    assert (files + [f])[..|files|] == files;
  }

  /** Entry `f` stores a map for table `t`. */
  predicate Contributes(f: DescFile, t: string)
  {
    Stored(f).Some? && Stored(f).value.0 == t
  }

  /** The last entry either stores its map for `t` or leaves `t` as the earlier entries left it. */
  lemma LoadFilesStep(files: seq<DescFile>, t: string)
    requires files != []
    ensures Contributes(files[|files| - 1], t) ==>
      t in LoadFiles(files) && LoadFiles(files)[t] == Stored(files[|files| - 1]).value.1
    ensures !Contributes(files[|files| - 1], t) ==>
      (t in LoadFiles(files) <==> t in LoadFiles(files[..|files| - 1]))
      && (t in LoadFiles(files) ==> LoadFiles(files)[t] == LoadFiles(files[..|files| - 1])[t])
  {
  }

  /** The last entry that contributes to a table decides that table's map. */
  lemma {:induction false} LastContributorWins(files: seq<DescFile>, i: nat, t: string)
    requires i < |files| && Contributes(files[i], t)
    requires forall j :: i < j < |files| ==> !Contributes(files[j], t)
    ensures t in LoadFiles(files) && LoadFiles(files)[t] == ReadFrom(files[i].read, 0, map[]).1
    decreases |files|
  {
    LoadFilesStep(files, t);
    if i < |files| - 1 {
      var init := files[..|files| - 1];
      assert !Contributes(files[|files| - 1], t);
      assert init[i] == files[i];
      assert forall j :: i < j < |init| ==> init[j] == files[j];
      LastContributorWins(init, i, t);
    }
  }

  /** Entry `i` is the last one that contributes to table `t`: some encoding of it completed
      and the map stored for `t` is the one it read. */
  predicate DecidedBy(files: seq<DescFile>, t: string, i: int)
  {
    0 <= i < |files| && Contributes(files[i], t) && ReadFrom(files[i].read, 0, map[]).0
    && t in LoadFiles(files) && LoadFiles(files)[t] == ReadFrom(files[i].read, 0, map[]).1
    && forall j :: i < j < |files| ==> !Contributes(files[j], t)
  }

  /** An entry that does not contribute to `t` leaves the entry that decided `t` in place. */
  lemma DecidedByExtend(files: seq<DescFile>, t: string, i: int)
    requires files != [] && !Contributes(files[|files| - 1], t)
    requires DecidedBy(files[..|files| - 1], t, i)
    ensures DecidedBy(files, t, i)
  {
    var last := |files| - 1;
    var init := files[..last];
    LoadFilesStep(files, t);
    assert init[i] == files[i];
    forall j | i < j < |files|
      ensures !Contributes(files[j], t)
    {
      if j < last {
        assert init[j] == files[j];
      } else {
        assert files[j] == files[last];
      }
    }
  }

  /** Every stored table holds at least one description and was decided by the last `.csv`
      entry that contributes to it. */
  lemma {:induction false} StoredTablesNonEmpty(files: seq<DescFile>, t: string)
    requires t in LoadFiles(files)
    ensures LoadFiles(files)[t] != map[]
    ensures exists i :: 0 <= i < |files| && IsCsv(files[i].fileName) && TableKey(files[i].fileName) == t
    ensures exists i :: DecidedBy(files, t, i)
    decreases |files|
  {
    var last := |files| - 1;
    var i: int;
    if Contributes(files[last], t) {
      LastContributorWins(files, last, t);
      i := last;
    } else {
      LoadFilesStep(files, t);
      StoredTablesNonEmpty(files[..last], t);
      i :| DecidedBy(files[..last], t, i);
      DecidedByExtend(files, t, i);
    }
    assert DecidedBy(files, t, i);
    assert Contributes(files[i], t);
  }
}
