/** The interactive refinement loop of `interactive_request.py`: the prediction is run
    against the gold query, feedback is gathered, and the model is asked again with the
    previous attempt and the feedback in its prompt. */
module Interactive {
  import opened Wrappers
  import opened Strings
  import opened Catalog
  import opened Prompts

  /** The rows a query returned, as a set: order and repetition do not count. */
  function RowSet(rows: seq<Row>): (s: set<Row>)
    ensures forall r :: r in s <==> r in rows
  {
    set r | r in rows
  }

  /** How `execute_and_compare` ends. */
  datatype Outcome = PredictedError(error: Error) | GoldError(error: Error) | ResultsMatch | ResultsDiffer

  /** `execute_and_compare` with `execute` standing for running a query on the database:
      the predicted query runs first, and the gold query only when it succeeded. */
  function Compare(execute: string -> Result<seq<Row>, Error>, predictedSql: string, goldSql: string): Outcome
  {
    match execute(predictedSql)
    case Err(e) => PredictedError(e)
    case Ok(predRes) =>
      match execute(goldSql)
      case Err(e) => GoldError(e)
      case Ok(goldRes) => if RowSet(predRes) == RowSet(goldRes) then ResultsMatch else ResultsDiffer
  }

  /** The message `execute_and_compare` returns for an outcome. */
  function OutcomeMessage(outcome: Outcome): string
  {
    match outcome
    case PredictedError(e) => "Predicted SQL Execution Error: " + e
    case GoldError(e) => "Gold SQL Execution Error: " + e
    case ResultsMatch => "Execution results match "
    case ResultsDiffer => "Execution results differ "
  }

  /** `execute_and_compare(predicted_sql, gold_sql, db_path)`: whether the results match,
      and the message. */
  function ExecuteAndCompare(execute: string -> Result<seq<Row>, Error>, predictedSql: string, goldSql: string)
    : (r: (bool, string))
    ensures r.0 <==> Compare(execute, predictedSql, goldSql) == ResultsMatch
  {
    var outcome := Compare(execute, predictedSql, goldSql);
    (outcome == ResultsMatch, OutcomeMessage(outcome))
  }

  /** Two query results that `execute_and_compare` cannot tell apart: the same error, or
      rows forming the same set. */
  predicate SameForComparison(a: Result<seq<Row>, Error>, b: Result<seq<Row>, Error>)
  {
    (a.Err? && b == a) || (a.Ok? && b.Ok? && RowSet(a.value) == RowSet(b.value))
  }

  /** A match is reported exactly when both queries run and return the same set of rows. */
  lemma MatchExactly(execute: string -> Result<seq<Row>, Error>, predictedSql: string, goldSql: string)
    ensures ExecuteAndCompare(execute, predictedSql, goldSql).0 <==>
              execute(predictedSql).Ok? && execute(goldSql).Ok? &&
              RowSet(execute(predictedSql).value) == RowSet(execute(goldSql).value)
  {
  }

  /** A failing prediction is reported before anything about the gold query, and then the
      gold query's result plays no part; a gold failure is reported only after the
      prediction ran. Either failure is a non-match. */
  lemma ErrorPrecedence(execute: string -> Result<seq<Row>, Error>, other: string -> Result<seq<Row>, Error>,
                        predictedSql: string, goldSql: string)
    ensures execute(predictedSql).Err? ==>
              Compare(execute, predictedSql, goldSql) == PredictedError(execute(predictedSql).error)
    ensures execute(predictedSql).Err? && other(predictedSql) == execute(predictedSql) ==>
              Compare(other, predictedSql, goldSql) == Compare(execute, predictedSql, goldSql)
    ensures Compare(execute, predictedSql, goldSql).GoldError? <==>
              execute(predictedSql).Ok? && execute(goldSql).Err?
    ensures Compare(execute, predictedSql, goldSql).PredictedError? || Compare(execute, predictedSql, goldSql).GoldError? ==>
              !ExecuteAndCompare(execute, predictedSql, goldSql).0
  {
  }

  /** Row order and repeated rows never change the outcome. */
  lemma SetSemantics(execute: string -> Result<seq<Row>, Error>, other: string -> Result<seq<Row>, Error>,
                     predictedSql: string, goldSql: string)
    requires SameForComparison(execute(predictedSql), other(predictedSql))
    requires SameForComparison(execute(goldSql), other(goldSql))
    ensures ExecuteAndCompare(other, predictedSql, goldSql) == ExecuteAndCompare(execute, predictedSql, goldSql)
  {
  }

  /** Rearranged rows, and rows repeated, form the same set. */
  lemma RowSetIgnoresOrderAndRepeats(rows: seq<Row>, other: seq<Row>, i: nat)
    requires i < |rows|
    ensures multiset(rows) == multiset(other) ==> RowSet(rows) == RowSet(other)
    ensures RowSet(rows + [rows[i]]) == RowSet(rows)
  {
    if multiset(rows) == multiset(other) {
      forall r ensures r in rows <==> r in other {
        assert r in rows <==> r in multiset(rows);
        assert r in other <==> r in multiset(other);
      }
    }
  }

  /** The rule `auto_feedback` applies. */
  datatype Hint = ForgotWhere | MissedGroupBy | NeedsJoin | Generic

  /** The rules of `auto_feedback`, tried in order on the lower-cased queries. */
  function HintFor(predSql: string, goldSql: string): Hint
  {
    var pred := Lower(predSql);
    var gold := Lower(goldSql);
    if !Contains(pred, "where") && Contains(gold, "where") then ForgotWhere
    else if Contains(gold, "group by") && !Contains(pred, "group by") then MissedGroupBy
    else if Contains(gold, "join") && !Contains(pred, "join") then NeedsJoin
    else Generic
  }

  function HintText(hint: Hint): string
  {
    match hint
    case ForgotWhere => "You forgot the WHERE condition."
    case MissedGroupBy => "You missed the GROUP BY clause."
    case NeedsJoin => "You should include a JOIN operation."
    case Generic => "The SQL result is incorrect. Please refine conditions or joins."
  }

  /** `auto_feedback`: the hint of the first rule that applies to the two queries. */
  function AutoFeedback(predSql: string, goldSql: string): string
  {
    HintText(HintFor(predSql, goldSql))
  }

  /** The keyword a hint is about. */
  function HintKeyword(hint: Hint): string
  {
    match hint
    case ForgotWhere => "where"
    case MissedGroupBy => "group by"
    case NeedsJoin => "join"
    case Generic => ""
  }

  /** A specific hint is given only for a keyword the gold query has and the prediction
      lacks (in any letter case), and each earlier rule did not apply. */
  lemma HintRules(predSql: string, goldSql: string)
    ensures var hint := HintFor(predSql, goldSql);
            hint != Generic ==>
              Contains(Lower(goldSql), HintKeyword(hint)) && !Contains(Lower(predSql), HintKeyword(hint))
    ensures var pred := Lower(predSql); var gold := Lower(goldSql);
            HintFor(predSql, goldSql) == Generic <==>
              (Contains(pred, "where") || !Contains(gold, "where")) &&
              (!Contains(gold, "group by") || Contains(pred, "group by")) &&
              (!Contains(gold, "join") || Contains(pred, "join"))
    ensures var pred := Lower(predSql); var gold := Lower(goldSql);
            HintFor(predSql, goldSql) == NeedsJoin ==>
              (Contains(pred, "where") || !Contains(gold, "where")) &&
              (!Contains(gold, "group by") || Contains(pred, "group by"))
    ensures var pred := Lower(predSql); var gold := Lower(goldSql);
            HintFor(predSql, goldSql) == MissedGroupBy ==> Contains(pred, "where") || !Contains(gold, "where")
  {
  }

  /** A prediction equal to the gold query only ever gets the generic message. */
  lemma SameQueryGenericHint(sql: string)
    ensures HintFor(sql, sql) == Generic
    ensures AutoFeedback(sql, sql) == "The SQL result is incorrect. Please refine conditions or joins."
  {
  }

  /** The rules ignore letter case. */
  lemma HintIgnoresCase(predSql: string, goldSql: string)
    ensures HintFor(Upper(predSql), Lower(goldSql)) == HintFor(predSql, goldSql)
  {
    LowerOfUpper(predSql);
    LowerOfLower(goldSql);
  }

  /** One left-to-right pass that deletes every code fence: "```sql" in any letter case,
      or a bare "```". */
  function StripFences(s: string): (r: string)
    ensures |r| <= |s|
    decreases |s|
  {
    if s == [] then []
    else if |s| >= 6 && Lower(s[..6]) == "```sql" then StripFences(s[6..])
    else if IsPrefix("```", s) then StripFences(s[3..])
    else [s[0]] + StripFences(s[1..])
  }

  /** The prediction read from a reply: the reply stripped (as `call_llm` returns it), its
      fences removed and the outcome stripped again. */
  function CleanReply(content: string): string
  {
    Strip(StripFences(Strip(content)))
  }

  /** Text without backticks passes through the fence removal unchanged. */
  lemma {:induction false} NoFenceUnchanged(s: string)
    requires '`' !in s
    ensures StripFences(s) == s
    decreases |s|
  {
    if s != [] {
      assert s[0] != '`';
      if |s| >= 6 {
        assert Lower(s[..6])[0] == LowerChar(s[0]);
      }
      NoFenceUnchanged(s[1..]);
      assert [s[0]] + s[1..] == s;
    }
  }

  /** A backtick-free text followed by a closing fence loses the fence. */
  lemma {:induction false} ClosingFenceRemoved(s: string)
    requires '`' !in s
    ensures StripFences(s + "```") == s
    decreases |s|
  {
    if s == [] {
      assert s + "```" == "```";
      assert IsPrefix("```", "```");
      assert "```"[3..] == [];
    } else {
      var t := s + "```";
      assert t[0] == s[0] && s[0] != '`';
      if |t| >= 6 {
        assert Lower(t[..6])[0] == LowerChar(t[0]);
      }
      assert t[1..] == s[1..] + "```";
      ClosingFenceRemoved(s[1..]);
      assert [s[0]] + s[1..] == s;
    }
  }

  /** A reply fenced as a `sql` code block in any letter case gives back the stripped
      query inside it. */
  lemma FencedReply(open: string, query: string)
    requires |open| == 6 && Lower(open) == "```sql" && '`' !in query
    ensures CleanReply(open + query + "```") == Strip(query)
  {
    var content := open + query + "```";
    assert open[0] == '`' by { assert Lower(open)[0] == LowerChar(open[0]); }
    assert content[0] == '`' && content[|content| - 1] == '`';
    StripNoEdgeSpace(content);
    assert content[..6] == open;
    assert content[6..] == query + "```";
    ClosingFenceRemoved(query);
  }

  /** The instruction closing every interactive prompt. */
  function BaseInstruction(question: string): string
  {
    CommentPrompt(question, None) + "\n-- Return only the SQL query."
  }

  /** The feedback history, one line "- <feedback>" per entry, or the single line
      "- (none)" when there is none. */
  function FeedbackBlock(history: seq<string>): string
  {
    if history != [] then Join("\n", seq(|history|, i requires 0 <= i < |history| => "- " + history[i]))
    else "- (none)"
  }

  /** `build_interactive_prompt`: the schema, then the base instruction; once there is a
      prediction, the previous query, the feedback so far and the request to refine come
      between the two. */
  function BuildInteractivePrompt(schemaPrompt: string, question: string, history: seq<string>, predSql: string): string
  {
    var base := BaseInstruction(question);
    if predSql == "" then schemaPrompt + "\n\n" + base
    else
      var previous := "-- Previous SQL (incorrect):\n" + predSql;
      var feedback := "-- User feedback:\n" + FeedbackBlock(history);
      schemaPrompt + "\n\n" + previous + "\n\n" + feedback + "\n\n" + "-- Refine the SQL query accordingly." + "\n\n" + base + "\n"
  }

  /** A single feedback is one bullet line, and each further feedback adds one line at
      the end, in history order. */
  lemma FeedbackLines(history: seq<string>, fb: string)
    ensures FeedbackBlock([fb]) == "- " + fb
    ensures history != [] ==> FeedbackBlock(history + [fb]) == FeedbackBlock(history) + "\n" + "- " + fb
  {
    var bullets := seq(|history|, i requires 0 <= i < |history| => "- " + history[i]);
    var h := history + [fb];
    assert seq(|h|, i requires 0 <= i < |h| => "- " + h[i]) == bullets + ["- " + fb];
    if history != [] {
      JoinAppend("\n", bullets, "- " + fb);
    }
  }

  /** A prompt with no previous prediction does not depend on the feedback gathered. */
  lemma FirstPromptIgnoresHistory(schemaPrompt: string, question: string, history: seq<string>, other: seq<string>)
    ensures BuildInteractivePrompt(schemaPrompt, question, history, "") == BuildInteractivePrompt(schemaPrompt, question, other, "")
    ensures IsSuffix("-- " + question + "\n-- Return only the SQL query.", BuildInteractivePrompt(schemaPrompt, question, history, ""))
  {
    var base := BaseInstruction(question);
    CommentShape(question, None);
    SuffixExtend("-- " + question, CommentPrompt(question, None), "\n-- Return only the SQL query.");
    SuffixConcat("-- " + question + "\n-- Return only the SQL query.", schemaPrompt + "\n\n", base);
    ConcatAssociative(schemaPrompt, "\n\n", base);
  }

  /** Every interactive prompt opens with the schema and a blank line and closes with the
      base instruction, followed by a line break when a previous prediction is shown. */
  lemma InteractivePromptFrame(schemaPrompt: string, question: string, history: seq<string>, predSql: string)
    ensures IsPrefix(schemaPrompt + "\n\n", BuildInteractivePrompt(schemaPrompt, question, history, predSql))
    ensures IsSuffix(BaseInstruction(question) + (if predSql == "" then "" else "\n"),
                     BuildInteractivePrompt(schemaPrompt, question, history, predSql))
  {
    var head := schemaPrompt + "\n\n";
    var base := BaseInstruction(question);
    var p := BuildInteractivePrompt(schemaPrompt, question, history, predSql);
    if predSql == "" {
      assert p == head + base;
    } else {
      var previous := "-- Previous SQL (incorrect):\n" + predSql;
      var feedback := "-- User feedback:\n" + FeedbackBlock(history);
      var middle := head + previous + "\n\n" + feedback + "\n\n" + "-- Refine the SQL query accordingly." + "\n\n";
      assert p == middle + base + "\n";
      ConcatAssociative(middle, base, "\n");
      assert IsPrefix(head, head);
      PrefixConcat(head, head, previous);
      PrefixConcat(head, head + previous, "\n\n");
      PrefixConcat(head, head + previous + "\n\n", feedback);
      PrefixConcat(head, head + previous + "\n\n" + feedback, "\n\n");
      PrefixConcat(head, head + previous + "\n\n" + feedback + "\n\n", "-- Refine the SQL query accordingly.");
      PrefixConcat(head, head + previous + "\n\n" + feedback + "\n\n" + "-- Refine the SQL query accordingly.", "\n\n");
      PrefixConcat(head, middle, base);
      PrefixConcat(head, middle + base, "\n");
    }
  }

  /** `s` occurs in any text that starts with `a + s`. */
  lemma ContainsAfter(a: string, s: string, text: string)
    requires IsPrefix(a + s, text)
    ensures Contains(text, s)
  {
    assert text[|a|..|a| + |s|] == (a + s)[|a|..];
    ContainsAt(text, s, |a|);
  }

  /** A prompt with a previous prediction shows that prediction under its heading and the
      feedback block under its own. */
  lemma RetryPromptSections(schemaPrompt: string, question: string, history: seq<string>, predSql: string)
    requires predSql != ""
    ensures Contains(BuildInteractivePrompt(schemaPrompt, question, history, predSql), "-- Previous SQL (incorrect):\n" + predSql)
    ensures Contains(BuildInteractivePrompt(schemaPrompt, question, history, predSql), "-- User feedback:\n" + FeedbackBlock(history))
  {
    var head := schemaPrompt + "\n\n";
    var base := BaseInstruction(question);
    var previous := "-- Previous SQL (incorrect):\n" + predSql;
    var feedback := "-- User feedback:\n" + FeedbackBlock(history);
    var p := BuildInteractivePrompt(schemaPrompt, question, history, predSql);
    var upToFeedback := head + previous + "\n\n" + feedback;
    assert p == upToFeedback + "\n\n" + "-- Refine the SQL query accordingly." + "\n\n" + base + "\n";
    assert IsPrefix(upToFeedback, upToFeedback);
    PrefixConcat(upToFeedback, upToFeedback, "\n\n");
    PrefixConcat(upToFeedback, upToFeedback + "\n\n", "-- Refine the SQL query accordingly.");
    PrefixConcat(upToFeedback, upToFeedback + "\n\n" + "-- Refine the SQL query accordingly.", "\n\n");
    PrefixConcat(upToFeedback, upToFeedback + "\n\n" + "-- Refine the SQL query accordingly." + "\n\n", base);
    PrefixConcat(upToFeedback, upToFeedback + "\n\n" + "-- Refine the SQL query accordingly." + "\n\n" + base, "\n");
    ContainsAfter(head + previous + "\n\n", feedback, p);
    assert IsPrefix(head + previous, head + previous);
    PrefixConcat(head + previous, head + previous, "\n\n");
    PrefixConcat(head + previous, head + previous + "\n\n", feedback);
    PrefixTransitive(head + previous, upToFeedback, p);
    ContainsAfter(head, previous, p);
  }

  /** Everything the interactive loop works with: the schema text of the database
      (`Schema.SchemaText` of its catalog at sample limit 3), the question, the gold query,
      and three oracles: `reply(step, prompt)` for the content of the chat completion,
      `execute` for running a query on the database, and `userInput(step)` for the two
      lines typed at a step (the feedback mode, then the manual feedback). */
  datatype Setup = Setup(
    schemaPrompt: string,
    question: string,
    goldSql: string,
    reply: (nat, string) -> string,
    execute: string -> Result<seq<Row>, Error>,
    userInput: nat -> (string, string))

  /** The loop's variables after some steps: the last prediction and comparison message,
      the feedback gathered, how many steps ran and whether the last one matched. */
  datatype Session = Session(predSql: string, message: string, history: seq<string>, steps: nat, matched: bool)

  /** The feedback recorded at a non-matching step: the typed text when the mode answer
      is `y`, the rule-based hint otherwise. */
  function StepFeedback(c: Setup, step: nat, predSql: string): string
  {
    var (mode, text) := c.userInput(step);
    if Lower(Strip(mode)) == "y" then Strip(text) else AutoFeedback(predSql, c.goldSql)
  }

  /** One pass of the loop body of `interactive_loop`. */
  function Step(c: Setup, s: Session): Session
  {
    var prompt := BuildInteractivePrompt(c.schemaPrompt, c.question, s.history, if s.steps != 0 then s.predSql else "");
    var predSql := CleanReply(c.reply(s.steps, prompt));
    var (same, message) := ExecuteAndCompare(c.execute, predSql, c.goldSql);
    if same then Session(predSql, message, s.history, s.steps + 1, true)
    else Session(predSql, message, s.history + [StepFeedback(c, s.steps, predSql)], s.steps + 1, false)
  }

  /** The loop's variables before the first pass. */
  const Start: Session := Session("", "", [], 0, false)

  /** A bounded loop that stops at its first match: the session after `k` passes of
      `next`, none taken after a match. */
  function Run(next: Session -> Session, k: nat): Session
  {
    if k == 0 then Start
    else
      var s := Run(next, k - 1);
      if s.matched then s else next(s)
  }

  /** One pass counts one more step; it keeps the feedback when it matches and adds one
      entry otherwise. */
  predicate Advance(s: Session, t: Session)
  {
    t.steps == s.steps + 1 &&
    (t.matched ==> t.history == s.history) &&
    (!t.matched ==> |t.history| == |s.history| + 1 && t.history[..|s.history|] == s.history)
  }

  ghost predicate Advances(next: Session -> Session)
  {
    forall s :: Advance(s, next(s))
  }

  lemma {:induction false} RunCount(next: Session -> Session, k: nat)
    requires Advances(next)
    ensures Run(next, k).steps <= k
    ensures !Run(next, k).matched ==> Run(next, k).steps == k
    ensures Run(next, k).matched ==> Run(next, k).steps >= 1
    ensures |Run(next, k).history| == if Run(next, k).matched then Run(next, k).steps - 1 else Run(next, k).steps
  {
    if k > 0 {
      RunCount(next, k - 1);
      var s := Run(next, k - 1);
      if !s.matched {
        assert Advance(s, next(s));
      }
    }
  }

  lemma {:induction false} RunFrozen(next: Session -> Session, j: nat, k: nat)
    requires j <= k && Run(next, j).matched
    ensures Run(next, k) == Run(next, j)
    decreases k
  {
    if j < k {
      RunFrozen(next, j, k - 1);
    }
  }

  lemma {:induction false} RunStopsAtFirstMatch(next: Session -> Session, k: nat)
    requires Advances(next)
    requires Run(next, k).matched
    ensures forall j :: 0 <= j < Run(next, k).steps ==> !Run(next, j).matched
  {
    if k > 0 {
      var prev := Run(next, k - 1);
      if prev.matched {
        RunStopsAtFirstMatch(next, k - 1);
      } else {
        RunCount(next, k - 1);
        assert Advance(prev, next(prev));
        forall j | 0 <= j < Run(next, k).steps
          ensures !Run(next, j).matched
        {
          if j < k - 1 && Run(next, j).matched {
            RunFrozen(next, j, k - 1);
          }
        }
      }
    }
  }

  lemma {:induction false} RunHistoryGrows(next: Session -> Session, j: nat, k: nat)
    requires Advances(next)
    requires j <= k
    ensures |Run(next, j).history| <= |Run(next, k).history|
    ensures Run(next, k).history[..|Run(next, j).history|] == Run(next, j).history
    decreases k
  {
    if j < k {
      RunHistoryGrows(next, j, k - 1);
      var a := Run(next, j).history;
      var prev := Run(next, k - 1);
      var b := prev.history;
      var h := Run(next, k).history;
      if !prev.matched {
        assert Advance(prev, next(prev));
      }
      assert |b| <= |h| && h[..|b|] == b;
      assert h[..|a|] == h[..|b|][..|a|];
    }
  }

  /** `Step` counts one more step and adds feedback exactly when it does not match. */
  lemma StepAdvances(c: Setup)
    ensures Advances(s => Step(c, s))
  {
    forall s ensures Advance(s, Step(c, s)) {
      var t := Step(c, s);
      if !t.matched {
        assert t.history[..|s.history|] == s.history;
      }
    }
  }

  /** The session after `k` passes of the loop of `interactive_loop`. */
  function Sessions(c: Setup, k: nat): Session
  {
    Run(s => Step(c, s), k)
  }

  /** At most `k` steps run (one reply requested per step); a session that has not matched
      ran all `k`; the feedback history holds one entry per step that did not match, so a
      match at step `n` leaves `n - 1` entries and running out of steps leaves `k`. */
  lemma StepCount(c: Setup, k: nat)
    ensures Sessions(c, k).steps <= k
    ensures !Sessions(c, k).matched ==> Sessions(c, k).steps == k && |Sessions(c, k).history| == k
    ensures Sessions(c, k).matched ==> Sessions(c, k).steps >= 1 && |Sessions(c, k).history| == Sessions(c, k).steps - 1
  {
    StepAdvances(c);
    RunCount(s => Step(c, s), k);
  }

  /** Once a step matches, nothing changes any more. */
  lemma FrozenAfterMatch(c: Setup, j: nat, k: nat)
    requires j <= k && Sessions(c, j).matched
    ensures Sessions(c, k) == Sessions(c, j)
  {
    RunFrozen(s => Step(c, s), j, k);
  }

  /** The loop stops at the first matching step: no earlier pass had matched. */
  lemma StopsAtFirstMatch(c: Setup, k: nat)
    requires Sessions(c, k).matched
    ensures forall j :: 0 <= j < Sessions(c, k).steps ==> !Sessions(c, j).matched
  {
    StepAdvances(c);
    RunStopsAtFirstMatch(s => Step(c, s), k);
  }

  /** Feedback is only ever added: earlier histories are prefixes of later ones. */
  lemma HistoryGrows(c: Setup, j: nat, k: nat)
    requires j <= k
    ensures |Sessions(c, j).history| <= |Sessions(c, k).history|
    ensures Sessions(c, k).history[..|Sessions(c, j).history|] == Sessions(c, j).history
  {
    StepAdvances(c);
    RunHistoryGrows(s => Step(c, s), j, k);
  }

  /** What `interactive_loop` returns. */
  datatype InteractiveResult = InteractiveResult(
    question: string, predSql: string, goldSql: string, executionResult: string, feedbackHistory: seq<string>)

  /** The loop of `interactive_loop` continued from session `s`, stopping after `maxIter`
      steps or at the first match. */
  function LoopFrom(c: Setup, maxIter: nat, s: Session): Session
    decreases maxIter - s.steps
  {
    if s.steps >= maxIter || s.matched then s else LoopFrom(c, maxIter, Step(c, s))
  }

  /** Continuing from the session after `k` steps gives the session after `maxIter`. */
  lemma {:induction false} LoopFromSessions(c: Setup, maxIter: nat, k: nat)
    requires k <= maxIter
    ensures LoopFrom(c, maxIter, Sessions(c, k)) == Sessions(c, maxIter)
    decreases maxIter - k
  {
    StepCount(c, k);
    var s := Sessions(c, k);
    if s.matched {
      FrozenAfterMatch(c, k, maxIter);
    } else if k < maxIter {
      assert Sessions(c, k + 1) == Step(c, s);
      LoopFromSessions(c, maxIter, k + 1);
    }
  }

  /** `interactive_loop(client, question, db_path, gold_sql, max_iter)`. At least one step
      must run, or the comparison message would be unbound at the return. */
  method InteractiveLoop(c: Setup, maxIter: nat) returns (result: InteractiveResult)
    requires maxIter >= 1
    ensures result.question == c.question && result.goldSql == c.goldSql
    ensures result.predSql == Sessions(c, maxIter).predSql
    ensures result.executionResult == Sessions(c, maxIter).message
    ensures result.feedbackHistory == Sessions(c, maxIter).history
  {
    var feedbackHistory: seq<string> := [];
    var predSql := "";
    var message := "";
    var step := 0;
    LoopFromSessions(c, maxIter, 0);
    ghost var final := LoopFrom(c, maxIter, Start);
    while step < maxIter
      invariant step <= maxIter
      invariant LoopFrom(c, maxIter, Session(predSql, message, feedbackHistory, step, false)) == final
    {
      var same;
      same, predSql, message, feedbackHistory := Pass(c, step, feedbackHistory, predSql, message);
      if same {
        break;
      }
      step := step + 1;
    }
    result := InteractiveResult(c.question, predSql, c.goldSql, message, feedbackHistory);
  }

  /** Lines 96-129 of `interactive_loop`: one pass of the loop body, which compares the
      new prediction and, when it does not match, records the step's feedback. */
  method Pass(c: Setup, step: nat, feedbackHistory: seq<string>, lastSql: string, lastMessage: string)
    returns (same: bool, predSql: string, message: string, newHistory: seq<string>)
    ensures Step(c, Session(lastSql, lastMessage, feedbackHistory, step, false)) == Session(predSql, message, newHistory, step + 1, same)
  {
    same, predSql, message := LoopStep(c, step, feedbackHistory, lastSql);
    newHistory := feedbackHistory;
    if !same {
      var feedback := GatherFeedback(c, step, predSql);
      newHistory := feedbackHistory + [feedback];
    }
  }

  /** Lines 97-104 of `interactive_loop`: prompt, reply and comparison of one step. */
  method LoopStep(c: Setup, step: nat, feedbackHistory: seq<string>, lastSql: string)
    returns (same: bool, predSql: string, message: string)
    ensures var s := Step(c, Session(lastSql, "", feedbackHistory, step, false));
      predSql == s.predSql && message == s.message && same == s.matched
  {
    var prompt := BuildInteractivePrompt(c.schemaPrompt, c.question, feedbackHistory, if step != 0 then lastSql else "");
    predSql := CleanReply(c.reply(step, prompt));
    var outcome := ExecuteAndCompare(c.execute, predSql, c.goldSql);
    same, message := outcome.0, outcome.1;
  }

  /** Lines 122-127 of `interactive_loop`: the feedback of a non-matching step. */
  method GatherFeedback(c: Setup, step: nat, predSql: string) returns (feedback: string)
    ensures feedback == StepFeedback(c, step, predSql)
  {
    var (mode, text) := c.userInput(step);
    var feedbackMode := Lower(Strip(mode));
    if feedbackMode == "y" {
      feedback := Strip(text);
    } else {
      feedback := AutoFeedback(predSql, c.goldSql);
    }
  }
}
