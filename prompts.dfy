/** The question comment and the combined completion prompt (`generate_comment_prompt`,
    `generate_combined_prompts_one`). */
module Prompts {
  import opened Wrappers
  import opened Strings
  import opened Catalog
  import opened Schema

  /** The instruction line used when no external knowledge is given (split after its first
      word so that its opening characters are cheap to read off). */
  const PatternNoKnowledge: string := "-- Using" + " valid SQLite, answer the following questions for the tables provided above."

  /** The instruction line used with external knowledge. */
  const PatternKnowledge: string := "-- Using valid SQLite and understanding External Knowledge, answer the following questions for the tables provided above. Return only the SQL query. Do not provide any explanation."

  const KnowledgeLead: string := "-- External Knowledge: "

  /** Python truthiness of the `knowledge` argument: given and not empty. */
  predicate Truthy(knowledge: Option<string>)
  {
    knowledge.Some? && knowledge.value != ""
  }

  /** `generate_comment_prompt`: the question as an SQL comment, preceded by the external
      knowledge when some is given. */
  function CommentPrompt(question: string, knowledge: Option<string>): (comment: string)
  {
    var questionPrompt := "-- " + question;
    if Truthy(knowledge) then
      KnowledgeLead + knowledge.value + "\n" + PatternKnowledge + "\n" + questionPrompt
    else
      PatternNoKnowledge + "\n" + questionPrompt
  }

  /** The combined prompt around a given schema text: the schema, a blank line, the
      comment and the `SELECT ` cue. */
  function PromptWithSchema(schema: string, question: string, knowledge: Option<string>): string
  {
    schema + "\n\n" + CommentPrompt(question, knowledge) + "\nSELECT "
  }

  /** `generate_combined_prompts_one(db_path, question, knowledge)`, with the schema built
      at the default sample limit of 3. */
  function CombinedPrompt(db: Database, question: string, knowledge: Option<string>): string
  {
    PromptWithSchema(SchemaText(db, 3), question, knowledge)
  }

  /** The comment always ends with the question line, and it carries the knowledge line
      exactly when the knowledge is truthy. */
  lemma CommentShape(question: string, knowledge: Option<string>)
    ensures IsSuffix("-- " + question, CommentPrompt(question, knowledge))
    ensures IsPrefix(KnowledgeLead, CommentPrompt(question, knowledge)) <==> Truthy(knowledge)
    ensures !Truthy(knowledge) ==> IsPrefix(PatternNoKnowledge + "\n", CommentPrompt(question, knowledge))
  {
    var c := CommentPrompt(question, knowledge);
    var q := "-- " + question;
    if Truthy(knowledge) {
      var head := KnowledgeLead + knowledge.value + "\n" + PatternKnowledge + "\n";
      assert c == head + q;
      assert c[..|KnowledgeLead|] == KnowledgeLead;
    } else {
      assert c == PatternNoKnowledge + "\n" + q;
      assert PatternNoKnowledge[3] == 'U';
      assert KnowledgeLead[3] == 'E';
      assert c[3] == PatternNoKnowledge[3];
    }
  }

  /** In `lead + line + "\n" + a + "\n" + b`, a `line` without line breaks is exactly the
      text between `lead` and the first line break after it. */
  lemma LineAfterLead(lead: string, line: string, a: string, b: string)
    requires '\n' !in line
    ensures var c := lead + line + "\n" + a + "\n" + b;
            var n := |lead| + |line|;
            n < |c| && c[n] == '\n' && c[|lead|..n] == line &&
            forall i :: |lead| <= i < n ==> c[i] != '\n'
  {
    var c := lead + line + "\n" + a + "\n" + b;
    var n := |lead| + |line|;
    assert c[n] == "\n"[0];
    assert c[|lead|..n] == line;
  }

  /** With truthy knowledge that holds no line break, the knowledge is the text of the
      first line after its lead, so it can be read back from the comment. */
  lemma KnowledgeReadBack(question: string, knowledge: Option<string>)
    requires Truthy(knowledge) && '\n' !in knowledge.value
    ensures var c := CommentPrompt(question, knowledge);
            var n := |KnowledgeLead| + |knowledge.value|;
            n < |c| && c[n] == '\n' && c[|KnowledgeLead|..n] == knowledge.value &&
            forall i :: |KnowledgeLead| <= i < n ==> c[i] != '\n'
  {
    LineAfterLead(KnowledgeLead, knowledge.value, PatternKnowledge, "-- " + question);
  }

  /** The combined prompt opens with the schema and a blank line and ends with the
      question line and the `SELECT ` cue. */
  lemma CombinedShape(db: Database, question: string, knowledge: Option<string>)
    ensures IsPrefix(SchemaText(db, 3) + "\n\n", CombinedPrompt(db, question, knowledge))
    ensures IsSuffix("-- " + question + "\nSELECT ", CombinedPrompt(db, question, knowledge))
  {
    var schema := SchemaText(db, 3) + "\n\n";
    var comment := CommentPrompt(question, knowledge);
    CommentShape(question, knowledge);
    assert IsPrefix(schema, schema);
    PrefixConcat(schema, schema, comment);
    PrefixConcat(schema, schema + comment, "\nSELECT ");
    SuffixExtend("-- " + question, comment, "\nSELECT ");
    SuffixConcat("-- " + question + "\nSELECT ", schema, comment + "\nSELECT ");
    ConcatAssociative(schema, comment, "\nSELECT ");
  }
}
