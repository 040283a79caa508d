/** The batch runner of `gpt_request.py`: splitting the evaluation items
    (`decouple_question_schema`), normalising each completion into a tagged `SELECT` line
    (`collect_response_from_gpt`) and indexing the results (`generate_sql_file`). */
module Batch {
  import opened Wrappers
  import opened Strings
  import opened Prompts

  /** The separator between a prediction and its database id. */
  const BirdTag: string := "\t----- bird -----\t"

  /** One evaluation item: its question, its database id and the optional `evidence`. */
  datatype EvalItem = EvalItem(question: string, dbId: string, evidence: Option<string>)

  /** `os.path.join(a, b)` on POSIX paths: an absolute `b` replaces `a`; otherwise `b` is
      appended, after a `/` unless `a` is empty or already ends with one. */
  function PathJoin(a: string, b: string): string
  {
    if b != [] && b[0] == '/' then b
    else if a == [] || a[|a| - 1] == '/' then a + b
    else a + "/" + b
  }

  /** The last component of a path: what follows its last `/`. */
  function Basename(path: string): (name: string)
    ensures IsSuffix(name, path) && '/' !in name
  {
    AfterLast(path, '/')
  }

  /** The database file of an item: `<root>/<db_id>/<db_id>.sqlite`. */
  function DbPathOf(root: string, dbId: string): string
  {
    PathJoin(PathJoin(root, dbId), dbId + ".sqlite")
  }

  /** The database id read back from a database path: its base name with every
      `.sqlite` removed. */
  function DbIdOf(path: string): (dbId: string)
    ensures '/' !in dbId
  {
    var name := Basename(path);
    RemoveAllKeepsAbsent(name, ".sqlite", '/');
    RemoveAll(name, ".sqlite")
  }

  lemma {:induction false} RemoveAllKeepsAbsent(s: string, pat: string, c: char)
    requires pat != [] && c !in s
    ensures c !in RemoveAll(s, pat)
    decreases |s|
  {
    if s != [] {
      if IsPrefix(pat, s) {
        RemoveAllKeepsAbsent(s[|pat|..], pat, c);
      } else {
        RemoveAllKeepsAbsent(s[1..], pat, c);
      }
    }
  }

  /** The text recorded for one completion call: the completion itself, or
      `error:<message>` when the call raised. */
  function ResponseText(reply: Result<string, string>): string
  {
    match reply
    case Ok(text) => text
    case Err(message) => "error:" + message
  }

  /** The SQL part of a normalised line: `SELECT` is put in front unless the stripped,
      upper-cased text already starts with it, and the outcome is stripped. */
  function NormalizedSql(sqlText: string): string
  {
    var sql := if !IsPrefix("SELECT", Upper(Strip(sqlText))) then "SELECT" + sqlText else sqlText;
    Strip(sql)
  }

  /** The line stored for one completion: its SQL part, the tag and the database id. */
  function Normalize(sqlText: string, dbId: string): string
  {
    NormalizedSql(sqlText) + BirdTag + dbId
  }

  /** Whether a knowledge list was passed and is non-empty (Python truthiness). */
  predicate KnowledgeGiven(knowledgeList: Option<seq<Option<string>>>)
  {
    knowledgeList.Some? && knowledgeList.value != []
  }

  /** The knowledge passed along with the `i`-th question: that item's entry when a
      knowledge list was given, none otherwise. */
  function ItemKnowledge(knowledgeList: Option<seq<Option<string>>>, i: nat): (k: Option<string>)
    requires KnowledgeGiven(knowledgeList) ==> i < |knowledgeList.value|
    ensures KnowledgeGiven(knowledgeList) ==> k == knowledgeList.value[i]
    ensures !KnowledgeGiven(knowledgeList) ==> k == None
  {
    if KnowledgeGiven(knowledgeList) then knowledgeList.value[i] else None
  }

  /** The database path of each item, as a function of its index (the empty text past the
      last item, where it is never asked for). */
  function DbPathAt(dbRootPath: string, datasets: seq<EvalItem>): nat -> string
  {
    (i: nat) => if i < |datasets| then DbPathOf(dbRootPath, datasets[i].dbId) else ""
  }

  /** `decouple_question_schema`: the questions, database paths and evidence of the items,
      in item order. */
  method DecoupleQuestionSchema(datasets: seq<EvalItem>, dbRootPath: string)
    returns (questionList: seq<string>, dbPathList: seq<string>, knowledgeList: seq<Option<string>>)
    ensures |questionList| == |dbPathList| == |knowledgeList| == |datasets|
    ensures forall i :: 0 <= i < |datasets| ==>
              questionList[i] == datasets[i].question &&
              dbPathList[i] == DbPathOf(dbRootPath, datasets[i].dbId) &&
              knowledgeList[i] == datasets[i].evidence
  {
    questionList, dbPathList, knowledgeList := [], [], [];
    for k := 0 to |datasets|
      invariant |questionList| == |knowledgeList| == k
      invariant dbPathList == Lines(DbPathAt(dbRootPath, datasets), k)
      invariant forall i :: 0 <= i < k ==> questionList[i] == datasets[i].question && knowledgeList[i] == datasets[i].evidence
    {
      var data := datasets[k];
      questionList := questionList + [data.question];
      var curDbPath := DbPathOf(dbRootPath, data.dbId);
      LinesNext(DbPathAt(dbRootPath, datasets), k);
      dbPathList := dbPathList + [curDbPath];
      knowledgeList := knowledgeList + [data.evidence];
    }
    forall i | 0 <= i < |datasets|
      ensures dbPathList[i] == DbPathOf(dbRootPath, datasets[i].dbId)
    {
      assert dbPathList[i] == DbPathAt(dbRootPath, datasets)(i);
    }
  }

  /** The prompt sent for the `i`-th question: the combined prompt for that question, its
      database and its knowledge (the empty text past the end of the lists, where it is never asked for). */
  function PromptOf(schemaOf: string -> string, dbPathList: seq<string>, questionList: seq<string>,
                    knowledgeList: Option<seq<Option<string>>>): nat -> string
  {
    (i: nat) =>
      if i < |questionList| && i < |dbPathList| && (KnowledgeGiven(knowledgeList) ==> i < |knowledgeList.value|)
      then PromptWithSchema(schemaOf(dbPathList[i]), questionList[i], ItemKnowledge(knowledgeList, i))
      else ""
  }

  /** The prompts sent for the first `n` questions, in order. */
  function PromptsSent(schemaOf: string -> string, dbPathList: seq<string>, questionList: seq<string>,
                       knowledgeList: Option<seq<Option<string>>>, n: nat): (prompts: seq<string>)
    requires n <= |questionList| && n <= |dbPathList|
    requires KnowledgeGiven(knowledgeList) ==> n <= |knowledgeList.value|
    ensures |prompts| == n
    ensures forall i :: 0 <= i < n ==>
              prompts[i] == PromptWithSchema(schemaOf(dbPathList[i]), questionList[i], ItemKnowledge(knowledgeList, i))
  {
    Lines(PromptOf(schemaOf, dbPathList, questionList, knowledgeList), n)
  }

  /** The line stored for the `i`-th reply: the reply normalised and tagged with the id of
      the `i`-th database (the empty text past the end of the lists, where it is never asked for). */
  function LineOf(replies: seq<Result<string, string>>, dbPathList: seq<string>): nat -> string
  {
    (i: nat) => if i < |replies| && i < |dbPathList| then Normalize(ResponseText(replies[i]), DbIdOf(dbPathList[i])) else ""
  }

  /** The lines stored for the first `n` replies, in order. */
  function StoredLines(replies: seq<Result<string, string>>, dbPathList: seq<string>, n: nat): (lines: seq<string>)
    requires n <= |replies| && n <= |dbPathList|
    ensures |lines| == n
    ensures forall i :: 0 <= i < n ==> lines[i] == Normalize(ResponseText(replies[i]), DbIdOf(dbPathList[i]))
  {
    Lines(LineOf(replies, dbPathList), n)
  }

  /** The loop of `collect_response_from_gpt`: `schemaOf(path)` stands for the schema text
      built from the database file at `path` (`Schema.SchemaText` of its catalog at sample
      limit 3) and `replies[i]` for the outcome of the completion call on the `i`-th prompt.
      Besides the responses it returns the prompts it sent. */
  method CollectResponses(dbPathList: seq<string>, questionList: seq<string>,
                          knowledgeList: Option<seq<Option<string>>>,
                          schemaOf: string -> string, replies: seq<Result<string, string>>)
    returns (responses: seq<string>, prompts: seq<string>)
    requires |dbPathList| >= |questionList| && |replies| >= |questionList|
    requires KnowledgeGiven(knowledgeList) ==> |knowledgeList.value| >= |questionList|
    ensures responses == StoredLines(replies, dbPathList, |questionList|)
    ensures prompts == PromptsSent(schemaOf, dbPathList, questionList, knowledgeList, |questionList|)
  {
    responses, prompts := [], [];
    for i := 0 to |questionList|
      invariant responses == StoredLines(replies, dbPathList, i)
      invariant prompts == PromptsSent(schemaOf, dbPathList, questionList, knowledgeList, i)
    {
      var sql := ItemResponse(dbPathList[i], replies[i]);
      var prompt := ItemPrompt(schemaOf(dbPathList[i]), questionList[i], knowledgeList, i);
      LinesNext(LineOf(replies, dbPathList), i);
      LinesNext(PromptOf(schemaOf, dbPathList, questionList, knowledgeList), i);
      responses := responses + [sql];
      prompts := prompts + [prompt];
    }
  }

  /** The prompt of one iteration of `collect_response_from_gpt` (lines 264-267). */
  method ItemPrompt(schema: string, question: string, knowledgeList: Option<seq<Option<string>>>, i: nat)
    returns (prompt: string)
    requires KnowledgeGiven(knowledgeList) ==> i < |knowledgeList.value|
    ensures prompt == PromptWithSchema(schema, question, ItemKnowledge(knowledgeList, i))
  {
    if KnowledgeGiven(knowledgeList) {
      prompt := PromptWithSchema(schema, question, knowledgeList.value[i]);
    } else {
      prompt := PromptWithSchema(schema, question, None);
    }
  }

  /** The stored line of one iteration of `collect_response_from_gpt` (lines 260 and
      269-276). */
  method ItemResponse(dbPath: string, reply: Result<string, string>) returns (sql: string)
    ensures sql == Normalize(ResponseText(reply), DbIdOf(dbPath))
  {
    var dbId := RemoveAll(Basename(dbPath), ".sqlite");
    var sqlText := ResponseText(reply);
    sql := NormalizeResponse(sqlText, dbId);
  }

  /** Lines 274-275 of `collect_response_from_gpt`: one reply made into a stored line. */
  method NormalizeResponse(sqlText: string, dbId: string) returns (sql: string)
    ensures sql == Normalize(sqlText, dbId)
  {
    sql := if !IsPrefix("SELECT", Upper(Strip(sqlText))) then "SELECT" + sqlText else sqlText;
    sql := Strip(sql) + BirdTag + dbId;
  }

  /** `generate_sql_file(sql_lst)`: the responses keyed by their position. */
  function SqlFileMap(sqlList: seq<string>): map<int, string>
  {
    map i | 0 <= i < |sqlList| :: sqlList[i]
  }

  /** The keys are exactly the positions, and reading the values in key order gives the
      list back. */
  lemma SqlFileMapReadBack(sqlList: seq<string>)
    ensures forall i :: i in SqlFileMap(sqlList) <==> 0 <= i < |sqlList|
    ensures seq(|sqlList|, i requires 0 <= i < |sqlList| => SqlFileMap(sqlList)[i]) == sqlList
  {
  }

  /** Every normalised SQL part starts with `SELECT` in any letter case and carries no
      surrounding whitespace. */
  lemma NormalizedSqlShape(sqlText: string)
    ensures IsPrefix("SELECT", Upper(NormalizedSql(sqlText)))
    ensures Strip(NormalizedSql(sqlText)) == NormalizedSql(sqlText)
  {
    var stripped := Strip(sqlText);
    if !IsPrefix("SELECT", Upper(stripped)) {
      var sql := "SELECT" + sqlText;
      StripKeepsPrefix("SELECT", sql);
      UpperFixesPrefix("SELECT", Strip(sql));
      StripIdempotent(sql);
    } else {
      StripIdempotent(sqlText);
    }
  }

  /** `SELECT` is put in front exactly when the stripped reply does not already start
      with it (in any letter case); otherwise the reply is only stripped. */
  lemma SelectAddedOnlyWhenMissing(sqlText: string)
    ensures NormalizedSql(sqlText) == Strip(sqlText) <==> IsPrefix("SELECT", Upper(Strip(sqlText)))
  {
    NormalizedSqlShape(sqlText);
  }

  /** Every stored line starts with `SELECT` in any letter case and ends with the tag
      followed by its database id. */
  lemma NormalizeShape(sqlText: string, dbId: string)
    ensures IsPrefix("SELECT", Upper(Normalize(sqlText, dbId)))
    ensures IsSuffix(BirdTag + dbId, Normalize(sqlText, dbId))
  {
    var sql := NormalizedSql(sqlText);
    NormalizedSqlShape(sqlText);
    UpperAppend(sql, BirdTag + dbId);
    PrefixConcat("SELECT", Upper(sql), Upper(BirdTag + dbId));
    ConcatAssociative(sql, BirdTag, dbId);
  }

  /** Normalising the SQL part of a stored line again gives the same line. */
  lemma NormalizeIdempotent(sqlText: string, dbId: string)
    ensures Normalize(NormalizedSql(sqlText), dbId) == Normalize(sqlText, dbId)
  {
    NormalizedSqlShape(sqlText);
  }

  /** A database id without a tab is read back as the text after the last tab. */
  lemma DbIdReadBack(sqlText: string, dbId: string)
    requires '\t' !in dbId
    ensures AfterLast(Normalize(sqlText, dbId), '\t') == dbId
  {
    var head := NormalizedSql(sqlText) + BirdTag;
    assert head[|head| - 1] == '\t';
    AfterLastOf(head, dbId, '\t');
  }

  /** A failed call is stored as `SELECTerror:<message>` followed by the tag. */
  lemma ErrorPlaceholder(message: string, dbId: string)
    ensures IsPrefix("SELECTerror:", Normalize(ResponseText(Err(message)), dbId))
  {
    var text := "error:" + message;
    StripKeepsPrefix("error:", text);
    assert Upper(Strip(text))[0] == 'E';
    var sql := "SELECT" + text;
    assert sql == "SELECTerror:" + message;
    StripKeepsPrefix("SELECTerror:", sql);
    PrefixConcat("SELECTerror:", NormalizedSql(text), BirdTag);
    PrefixConcat("SELECTerror:", NormalizedSql(text) + BirdTag, dbId);
  }

  /** A reply without surrounding whitespace whose first letter is not an `s` gets
      `SELECT` glued to its front with no space between: a reply continuing the
      `SELECT ` cue as `id FROM t` is stored as `SELECTid FROM t`. */
  lemma SelectGluedOn(sqlText: string, dbId: string)
    requires sqlText != [] && !IsSpace(sqlText[0]) && !IsSpace(sqlText[|sqlText| - 1])
    requires UpperChar(sqlText[0]) != 'S'
    ensures Normalize(sqlText, dbId) == "SELECT" + sqlText + BirdTag + dbId
  {
    StripNoEdgeSpace(sqlText);
    assert Upper(sqlText)[0] != 'S';
    var sql := "SELECT" + sqlText;
    assert sql[0] == 'S' && sql[|sql| - 1] == sqlText[|sqlText| - 1];
    StripNoEdgeSpace(sql);
  }

  /** The test for `SELECT` ignores letter case: a reply that starts with a lower-case
      `select` after its leading blanks is stored stripped, with nothing put in front. */
  lemma SelectReplyKept(sqlText: string, dbId: string)
    requires IsPrefix("select", Strip(sqlText))
    ensures Normalize(sqlText, dbId) == Strip(sqlText) + BirdTag + dbId
  {
    var stripped := Strip(sqlText);
    var rest := stripped[6..];
    assert stripped == "select" + rest;
    UpperAppend("select", rest);
    assert Upper("select") == "SELECT";
  }

  /** `os.path.join` ends with the name joined, right after a `/` or at the very start. */
  lemma PathJoinShape(a: string, b: string)
    ensures var p := PathJoin(a, b);
            IsSuffix(b, p) && (|p| == |b| || p[|p| - |b| - 1] == '/')
  {
    var p := PathJoin(a, b);
    if !(b != [] && b[0] == '/') && !(a == [] || a[|a| - 1] == '/') {
      assert p == (a + "/") + b;
    }
    assert p[|p| - |b|..] == b;
  }

  /** The base name of a joined path is the last name joined, when it holds no `/`. */
  lemma BasenameOfJoin(a: string, b: string)
    requires '/' !in b
    ensures Basename(PathJoin(a, b)) == b
  {
    var p := PathJoin(a, b);
    PathJoinShape(a, b);
    var x := p[..|p| - |b|];
    assert p == x + b;
    AfterLastOf(x, b, '/');
  }

  /** The database id read back from an item's database path is the item's own id, when
      the id holds no `/` and no `.`. */
  lemma DbIdRoundTrip(root: string, dbId: string)
    requires '/' !in dbId && '.' !in dbId
    ensures DbIdOf(DbPathOf(root, dbId)) == dbId
  {
    BasenameOfJoin(PathJoin(root, dbId), dbId + ".sqlite");
    RemoveAllTrailing(dbId, ".sqlite");
  }

  /** Each stored line names the database of the item it answers. */
  lemma ResponseNamesItsDatabase(item: EvalItem, root: string, reply: Result<string, string>)
    requires '/' !in item.dbId && '.' !in item.dbId
    ensures IsSuffix(BirdTag + item.dbId, Normalize(ResponseText(reply), DbIdOf(DbPathOf(root, item.dbId))))
  {
    DbIdRoundTrip(root, item.dbId);
    NormalizeShape(ResponseText(reply), item.dbId);
  }
}
