/** The whole schema prompt (`generate_schema_prompt`): one stanza per table in sorted
    name order, then the deduplicated foreign-key relations. */
module Schema {
  import opened Wrappers
  import opened Strings
  import opened Ordering
  import opened Catalog
  import opened Descriptions
  import opened Stanza

  /** The heading of the foreign-key section, with its full-width brackets. */
  const ForeignKeyHeader: string := "\U{3010}Foreign keys\U{3011}\n"

  /** The non-empty strings among the first `n` items, in order. */
  function NonEmpty(items: seq<string>, n: nat): (kept: seq<string>)
    requires n <= |items|
    ensures |kept| <= n
    ensures forall k :: 0 <= k < |kept| ==> kept[k] != ""
  {
    if n == 0 then []
    else if items[n - 1] != "" then NonEmpty(items, n - 1) + [items[n - 1]]
    else NonEmpty(items, n - 1)
  }

  /** The positions of the non-empty strings among the first `n` items, in order. */
  function KeptPositions(items: seq<string>, n: nat): (positions: seq<nat>)
    requires n <= |items|
    ensures forall k :: 0 <= k < |positions| ==> positions[k] < n && items[positions[k]] != ""
  {
    if n == 0 then []
    else if items[n - 1] != "" then KeptPositions(items, n - 1) + [n - 1]
    else KeptPositions(items, n - 1)
  }

  /** The lists among the first `n`, concatenated in order. */
  function Flatten(lists: seq<seq<string>>, n: nat): seq<string>
    requires n <= |lists|
  {
    if n == 0 then [] else Flatten(lists, n - 1) + lists[n - 1]
  }

  /** The kept items are exactly the items at the kept positions, which increase and
      miss no non-empty item. */
  lemma {:induction false} NonEmptyPositions(items: seq<string>, n: nat)
    requires n <= |items|
    ensures |NonEmpty(items, n)| == |KeptPositions(items, n)|
    ensures forall k :: 0 <= k < |NonEmpty(items, n)| ==> NonEmpty(items, n)[k] == items[KeptPositions(items, n)[k]]
    ensures forall k, l :: 0 <= k < l < |KeptPositions(items, n)| ==> KeptPositions(items, n)[k] < KeptPositions(items, n)[l]
    ensures forall i :: 0 <= i < n && items[i] != "" ==> i in KeptPositions(items, n)
  {
    if n > 0 {
      NonEmptyPositions(items, n - 1);
      var kept := NonEmpty(items, n - 1);
      var positions := KeptPositions(items, n - 1);
      if items[n - 1] != "" {
        var kept' := kept + [items[n - 1]];
        var positions' := positions + [n - 1];
        forall k | 0 <= k < |kept'|
          ensures kept'[k] == items[positions'[k]]
        {
          if k < |kept| {
            assert kept'[k] == kept[k] && positions'[k] == positions[k];
          }
        }
      }
    }
  }

  lemma {:induction false} FlattenMembers(lists: seq<seq<string>>, n: nat, r: string)
    requires n <= |lists|
    ensures r in Flatten(lists, n) <==> exists k :: 0 <= k < n && r in lists[k]
  {
    if n > 0 {
      FlattenMembers(lists, n - 1, r);
    }
  }

  /** The user tables in `sorted` order. */
  function SortedTables(db: Database): (tables: seq<string>)
    ensures Sorted(tables)
  {
    Sort(UserTables(db.master))
  }

  lemma SortedTablesMembers(db: Database, t: string)
    ensures t in SortedTables(db) <==> t in UserTables(db.master)
  {
    assert t in SortedTables(db) <==> t in multiset(SortedTables(db));
  }

  /** The stanza of every table, in table order. */
  function Stanzas(db: Database, descriptions: DescriptionMap, limit: nat, tables: seq<string>): (stanzas: seq<string>)
    ensures |stanzas| == |tables|
  {
    seq(|tables|, i requires 0 <= i < |tables| => TableStanza(db, tables[i], descriptions, limit))
  }

  /** What every table appends to the relation list, in table order. */
  function RelationLists(db: Database, tables: seq<string>): (lists: seq<seq<string>>)
    ensures |lists| == |tables|
  {
    seq(|tables|, i requires 0 <= i < |tables| => TableRelations(db, tables[i]))
  }

  /** All relations recorded while the schema is built, in order. */
  function Relations(db: Database): seq<string>
  {
    var tables := SortedTables(db);
    Flatten(RelationLists(db, tables), |tables|)
  }

  /** The table stanzas the schema holds, in order. */
  function TableSections(db: Database, limit: nat): seq<string>
  {
    var tables := SortedTables(db);
    NonEmpty(Stanzas(db, DescriptionsOf(db.descriptionDir), limit, tables), |tables|)
  }

  /** The tables whose stanza is in the schema, in order. */
  function EmittedTables(db: Database, limit: nat): seq<string>
  {
    var tables := SortedTables(db);
    var positions := KeptPositions(Stanzas(db, DescriptionsOf(db.descriptionDir), limit, tables), |tables|);
    seq(|positions|, k requires 0 <= k < |positions| => tables[positions[k]])
  }

  /** The closing section: every relation once, in sorted order. */
  function ForeignKeySection(relations: seq<string>): string
  {
    ForeignKeyHeader + Join("\n", SortUnique(relations))
  }

  /** The sections `generate_schema_prompt` joins. */
  function SchemaSections(db: Database, limit: nat): seq<string>
  {
    TableSections(db, limit) + (if Relations(db) != [] then [ForeignKeySection(Relations(db))] else [])
  }

  /** The text `generate_schema_prompt(db_path, sample_limit)` returns. */
  function SchemaText(db: Database, limit: nat): string
  {
    Join("\n\n", SchemaSections(db, limit))
  }

  /** `generate_schema_prompt`: the stanzas of the tables in sorted order, then the sorted
      distinct foreign-key relations, sections separated by a blank line. */
  method GenerateSchemaPrompt(db: Database, sampleLimit: nat) returns (prompt: string)
    ensures prompt == SchemaText(db, sampleLimit)
  {
    var tables := SortedTables(db);
    var descriptions := LoadColumnDescriptions(db.descriptionDir);
    ghost var stanzas := Stanzas(db, descriptions, sampleLimit, tables);
    ghost var lists := RelationLists(db, tables);
    var schemaSections := [];
    var fkRelations := new RelationList();
    for i := 0 to |tables|
      invariant schemaSections == NonEmpty(stanzas, i)
      invariant fkRelations.items == Flatten(lists, i)
    {
      var tablePrompt := BuildTablePrompt(db, tables[i], descriptions, sampleLimit, fkRelations);
      assert tablePrompt == stanzas[i] && lists[i] == TableRelations(db, tables[i]);
      if tablePrompt != "" {
        schemaSections := schemaSections + [tablePrompt];
      }
    }
    assert schemaSections == TableSections(db, sampleLimit);
    assert fkRelations.items == Relations(db);
    if fkRelations.items != [] {
      var uniqueFk := SortUnique(fkRelations.items);
      var fkSection := ForeignKeyHeader + Join("\n", uniqueFk);
      schemaSections := schemaSections + [fkSection];
    } else {
      assert schemaSections + [] == schemaSections;
    }
    prompt := Join("\n\n", schemaSections);
  }

  /** A database without user tables gets the empty schema. */
  lemma NoTablesNoSchema(db: Database, limit: nat)
    requires UserTables(db.master) == []
    ensures SchemaText(db, limit) == ""
  {
    assert SortedTables(db) == [];
  }

  /** The schema holds one stanza per emitted table, in order. */
  lemma SectionsOfEmittedTables(db: Database, limit: nat)
    ensures |TableSections(db, limit)| == |EmittedTables(db, limit)|
    ensures forall k :: 0 <= k < |TableSections(db, limit)| ==>
              TableSections(db, limit)[k] == TableStanza(db, EmittedTables(db, limit)[k], DescriptionsOf(db.descriptionDir), limit)
  {
    var tables := SortedTables(db);
    var stanzas := Stanzas(db, DescriptionsOf(db.descriptionDir), limit, tables);
    NonEmptyPositions(stanzas, |tables|);
  }

  /** Table stanzas come out in sorted name order. */
  lemma EmittedTablesSorted(db: Database, limit: nat)
    ensures Sorted(EmittedTables(db, limit))
  {
    var tables := SortedTables(db);
    var stanzas := Stanzas(db, DescriptionsOf(db.descriptionDir), limit, tables);
    var positions := KeptPositions(stanzas, |tables|);
    var emitted := EmittedTables(db, limit);
    NonEmptyPositions(stanzas, |tables|);
    forall k, l | 0 <= k < l < |emitted|
      ensures AtMost(emitted[k], emitted[l])
    {
      assert positions[k] < positions[l];
      assert emitted[k] == tables[positions[k]] && emitted[l] == tables[positions[l]];
    }
  }

  lemma EmittedTablesComplete(db: Database, limit: nat, t: string)
    requires t in UserTables(db.master) && TableStanza(db, t, DescriptionsOf(db.descriptionDir), limit) != ""
    ensures t in EmittedTables(db, limit)
  {
    var tables := SortedTables(db);
    var stanzas := Stanzas(db, DescriptionsOf(db.descriptionDir), limit, tables);
    var positions := KeptPositions(stanzas, |tables|);
    SortedTablesMembers(db, t);
    var i :| 0 <= i < |tables| && tables[i] == t;
    assert stanzas[i] != "";
    NonEmptyPositions(stanzas, |tables|);
    assert i in positions;
    var k :| 0 <= k < |positions| && positions[k] == i;
    assert EmittedTables(db, limit)[k] == t;
  }

  lemma EmittedTablesSound(db: Database, limit: nat, t: string)
    requires t in EmittedTables(db, limit)
    ensures t in UserTables(db.master) && TableStanza(db, t, DescriptionsOf(db.descriptionDir), limit) != ""
  {
    var tables := SortedTables(db);
    var stanzas := Stanzas(db, DescriptionsOf(db.descriptionDir), limit, tables);
    var positions := KeptPositions(stanzas, |tables|);
    var emitted := EmittedTables(db, limit);
    var k :| 0 <= k < |emitted| && emitted[k] == t;
    assert stanzas[positions[k]] != "";
    SortedTablesMembers(db, t);
  }

  /** A table is emitted exactly when it is a user table whose stanza is not empty. */
  lemma EmittedTablesMembers(db: Database, limit: nat, t: string)
    ensures t in EmittedTables(db, limit) <==> t in UserTables(db.master) && TableStanza(db, t, DescriptionsOf(db.descriptionDir), limit) != ""
  {
    if t in EmittedTables(db, limit) {
      EmittedTablesSound(db, limit, t);
    }
    if t in UserTables(db.master) && TableStanza(db, t, DescriptionsOf(db.descriptionDir), limit) != "" {
      EmittedTablesComplete(db, limit, t);
    }
  }

  /** The foreign-key section closes the schema exactly when some relation was recorded,
      and lists every recorded relation once, in strictly increasing order, and nothing
      else. */
  lemma ForeignKeySectionListing(db: Database, limit: nat)
    ensures Relations(db) != [] ==>
              SchemaSections(db, limit)[|SchemaSections(db, limit)| - 1] == ForeignKeyHeader + Join("\n", SortUnique(Relations(db)))
    ensures StrictlySorted(SortUnique(Relations(db)))
    ensures forall r :: r in SortUnique(Relations(db)) <==>
              exists k :: 0 <= k < |SortedTables(db)| && r in TableRelations(db, SortedTables(db)[k])
  {
    var tables := SortedTables(db);
    var lists := RelationLists(db, tables);
    forall r
      ensures r in SortUnique(Relations(db)) <==> exists k :: 0 <= k < |tables| && r in TableRelations(db, tables[k])
    {
      assert r in SortUnique(Relations(db)) <==> r in Elements(SortUnique(Relations(db)));
      FlattenMembers(lists, |tables|, r);
      if r in Relations(db) {
        var k :| 0 <= k < |tables| && r in lists[k];
        assert r in TableRelations(db, tables[k]);
      }
      if exists k :: 0 <= k < |tables| && r in TableRelations(db, tables[k]) {
        var k :| 0 <= k < |tables| && r in TableRelations(db, tables[k]);
        assert r in lists[k];
      }
    }
  }

  /** Every table section opens with its `# Table:` heading. */
  lemma TableSectionHeaded(db: Database, limit: nat, k: nat)
    requires k < |TableSections(db, limit)|
    ensures IsPrefix("# Table: ", TableSections(db, limit)[k])
  {
    SectionsOfEmittedTables(db, limit);
    var t := EmittedTables(db, limit)[k];
    var descriptions := DescriptionsOf(db.descriptionDir);
    var section := TableSections(db, limit)[k];
    assert section != "" && section == TableStanza(db, t, descriptions, limit);
    StanzaShape(db, t, descriptions, limit);
    PrefixTransitive("# Table: ", "# Table: " + t + "\n[\n", section);
  }

  /** Without relations every section is a table stanza. */
  lemma NoRelationsNoForeignKeySection(db: Database, limit: nat)
    requires Relations(db) == []
    ensures forall k :: 0 <= k < |SchemaSections(db, limit)| ==> IsPrefix("# Table: ", SchemaSections(db, limit)[k])
  {
    var sections := TableSections(db, limit);
    assert SchemaSections(db, limit) == sections;
    forall k | 0 <= k < |sections|
      ensures IsPrefix("# Table: ", sections[k])
    {
      TableSectionHeaded(db, limit, k);
    }
  }
}
