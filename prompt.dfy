/**
 * `craft_fitness_prompt`: the text sent to the chat model for one question.
 * It is made of a fixed instruction, a summary of every earlier turn, the
 * user's preferences, the question, and a line of "relevant insights": three
 * values sampled from every category one of whose content values equals the
 * question, ignoring case.
 */
module Prompt {
  import opened Base
  import opened Text
  import opened Tables

  datatype Goal = WeightLoss | BuildMuscle | Endurance | GeneralFitness

  datatype Experience = Beginner | Intermediate | Advanced

  /** The sidebar answers: goal, experience level and free-text restrictions. */
  datatype Preferences = Preferences(goal: Goal, experience: Experience, restrictions: string)

  /** The option text the sidebar shows for, and returns as, a goal. */
  function GoalLabel(g: Goal): string
  {
    match g
    case WeightLoss => "Weight Loss"
    case BuildMuscle => "Build Muscle"
    case Endurance => "Endurance"
    case GeneralFitness => "General Fitness"
  }

  function ExperienceLabel(e: Experience): string
  {
    match e
    case Beginner => "Beginner"
    case Intermediate => "Intermediate"
    case Advanced => "Advanced"
  }

  /** One exchange of the conversation: a question and the reply shown for it. */
  datatype Turn = Turn(query: string, response: string)

  const Intro := "You are a helpful fitness expert. "
  const SummaryHeader := "You previously mentioned the following: "
  const QuestionLead := " Please answer the following question: "
  const InsightsLead := "\nHere are some potentially relevant insights from the dataset: "
  const NoData := "No specific data found."
  const InsightsSeparator := ", "

  /** The values taken from a matching category. */
  const SampleSize := 3

  function TurnLine(t: Turn): string
  {
    "- You asked: " + t.query + ". I responded: " + t.response + "\n"
  }

  function TurnLines(history: seq<Turn>): (lines: seq<string>)
    ensures |lines| == |history| && forall k :: 0 <= k < |history| ==> lines[k] == TurnLine(history[k])
  {
    seq(|history|, k requires 0 <= k < |history| => TurnLine(history[k]))
  }

  /** Empty for a new conversation, otherwise a header and one line per earlier turn, oldest first. */
  function HistorySummary(history: seq<Turn>): string
  {
    if history == [] then "" else SummaryHeader + Concat(TurnLines(history))
  }

  function PreferencesSentence(p: Preferences): string
  {
    "Your goals are " + GoalLabel(p.goal) + ", your experience level is " + ExperienceLabel(p.experience)
    + ", and you noted the following restrictions: " + p.restrictions + "."
  }

  /** The exception pandas raises while relevant content is gathered. */
  datatype PromptError =
    | MissingColumn(column: string)   // a KeyError: the table has no such column
    | SampleLargerThanPopulation      // a ValueError from sampling more rows than there are

  function LowerAll(col: seq<string>): (r: seq<string>)
    ensures |r| == |col| && forall k :: 0 <= k < |col| ==> r[k] == Lower(col[k])
  {
    seq(|col|, k requires 0 <= k < |col| => Lower(col[k]))
  }

  /** `query.lower() in df["content"].str.lower().values`. */
  predicate Matches(query: string, col: seq<string>)
  {
    Lower(query) in LowerAll(col)
  }

  /** A category matches when some value equals the query up to case; an infix is not enough. */
  lemma MatchesExactly(query: string, col: seq<string>)
    ensures Matches(query, col) <==> exists k :: 0 <= k < |col| && Lower(col[k]) == Lower(query)
  {
    if Matches(query, col) {
      var k :| 0 <= k < |col| && LowerAll(col)[k] == Lower(query);
    }
  }

  /** One random draw of `sample(3)`: three distinct row positions. */
  predicate ValidDraw(draw: seq<nat>, rows: nat)
  {
    && |draw| == SampleSize
    && (forall k :: 0 <= k < |draw| ==> draw[k] < rows)
    && (forall k, m :: 0 <= k < m < |draw| ==> draw[k] != draw[m])
  }

  /** The draw for a category is valid whenever that category can be sampled. */
  predicate DrawFits(frame: ContentFrame, draw: seq<nat>)
  {
    |frame.rows| >= SampleSize ==> ValidDraw(draw, |frame.rows|)
  }

  predicate DrawsFit(datasets: Dict<ContentFrame>, draws: seq<seq<nat>>)
  {
    |draws| == |datasets| && forall i :: 0 <= i < |datasets| ==> DrawFits(datasets[i].value, draws[i])
  }

  function Sample(col: seq<string>, draw: seq<nat>): (r: seq<string>)
    requires forall k :: 0 <= k < |draw| ==> draw[k] < |col|
    ensures |r| == |draw| && forall k :: 0 <= k < |draw| ==> r[k] == col[draw[k]]
  {
    seq(|draw|, k requires 0 <= k < |draw| => col[draw[k]])
  }

  /** What one category adds to the relevant content, or the exception it raises. */
  function Contribution(query: string, frame: ContentFrame, draw: seq<nat>): Result<seq<string>, PromptError>
    requires DrawFits(frame, draw)
  {
    match ContentColumn(frame)
    case None => Err(MissingColumn("content"))
    case Some(col) =>
      if !Matches(query, col) then Ok([])
      else if |col| < SampleSize then Err(SampleLargerThanPopulation)
      else Ok(Sample(col, draw))
  }

  /** The relevant content gathered from the first `n` categories, in dictionary order. */
  function RelevantUpTo(query: string, datasets: Dict<ContentFrame>, draws: seq<seq<nat>>, n: nat)
    : Result<seq<string>, PromptError>
    requires DrawsFit(datasets, draws) && n <= |datasets|
  {
    if n == 0 then Ok([])
    else
      match RelevantUpTo(query, datasets, draws, n - 1)
      case Err(e) => Err(e)
      case Ok(acc) =>
        match Contribution(query, datasets[n - 1].value, draws[n - 1])
        case Err(e) => Err(e)
        case Ok(c) => Ok(acc + c)
  }

  function Insights(relevant: seq<string>): string
  {
    if relevant == [] then NoData else Join(relevant, InsightsSeparator)
  }

  /** The preferences and the question, as they follow the summary. */
  function QuestionPart(query: string, p: Preferences): string
  {
    " " + PreferencesSentence(p) + QuestionLead + query + "."
  }

  /** The insights line, appended when the insights text is not empty. */
  function InsightsLine(insights: string): string
  {
    if insights != "" then InsightsLead + insights else ""
  }

  function PromptText(query: string, history: seq<Turn>, p: Preferences, insights: string): string
  {
    Intro + HistorySummary(history) + QuestionPart(query, p) + InsightsLine(insights)
  }

  /** The prompt for `query`, or the exception raised while composing it. */
  function ComposePrompt(query: string, datasets: Dict<ContentFrame>, history: seq<Turn>,
                         p: Preferences, draws: seq<seq<nat>>): Result<string, PromptError>
    requires DrawsFit(datasets, draws)
  {
    match RelevantUpTo(query, datasets, draws, |datasets|)
    case Err(e) => Err(e)
    case Ok(relevant) => Ok(PromptText(query, history, p, Insights(relevant)))
  }

  /** Once a category has raised, so has every longer prefix. */
  lemma {:induction false} ErrorPersists(query: string, datasets: Dict<ContentFrame>,
                                         draws: seq<seq<nat>>, n: nat, m: nat)
    requires DrawsFit(datasets, draws) && n <= m <= |datasets|
    requires RelevantUpTo(query, datasets, draws, n).Err?
    ensures RelevantUpTo(query, datasets, draws, m) == RelevantUpTo(query, datasets, draws, n)
    decreases m - n
  {
    if n < m {
      ErrorPersists(query, datasets, draws, n, m - 1);
    }
  }

  /** The first loop of `craft_fitness_prompt`: the history summary, grown one turn at a time. */
  method SummarizeHistory(history: seq<Turn>) returns (historySummary: string)
    ensures historySummary == HistorySummary(history)
  {
    historySummary := "";
    if |history| > 0 {
      historySummary := SummaryHeader;
      for i := 0 to |history|
        invariant historySummary == SummaryHeader + Concat(TurnLines(history[..i]))
      {
        var lines := TurnLines(history[..i + 1]);
        assert lines[..i] == TurnLines(history[..i]);
        assert Concat(lines) == Concat(TurnLines(history[..i])) + TurnLine(history[i]);
        historySummary := historySummary + TurnLine(history[i]);
      }
      assert history[..|history|] == history;
    }
  }

  /**
   * The second loop of `craft_fitness_prompt`: the sampled values of every
   * matching category, in dictionary order, or the first exception raised.
   */
  method GatherRelevant(query: string, datasets: Dict<ContentFrame>, draws: seq<seq<nat>>)
    returns (result: Result<seq<string>, PromptError>)
    requires DrawsFit(datasets, draws)
    ensures result == RelevantUpTo(query, datasets, draws, |datasets|)
  {
    var relevantContent: seq<string> := [];
    for i := 0 to |datasets|
      invariant RelevantUpTo(query, datasets, draws, i) == Ok(relevantContent)
    {
      var df := datasets[i].value;
      var column := ContentColumn(df);
      if column.None? {
        ErrorPersists(query, datasets, draws, i + 1, |datasets|);
        return Err(MissingColumn("content"));
      }
      if Lower(query) in LowerAll(column.value) {
        if |column.value| < SampleSize {
          ErrorPersists(query, datasets, draws, i + 1, |datasets|);
          return Err(SampleLargerThanPopulation);
        }
        assert Contribution(query, df, draws[i]) == Ok(Sample(column.value, draws[i]));
        relevantContent := relevantContent + Sample(column.value, draws[i]);
      } else {
        assert Contribution(query, df, draws[i]) == Ok([]);
        assert relevantContent + [] == relevantContent;
      }
    }
    return Ok(relevantContent);
  }

  /**
   * `craft_fitness_prompt`. The random draws of `sample(3)` are passed in,
   * one per category in dictionary order.
   */
  method CraftFitnessPrompt(query: string, datasets: Dict<ContentFrame>, history: seq<Turn>,
                            userPreferences: Preferences, draws: seq<seq<nat>>)
    returns (result: Result<string, PromptError>)
    requires DrawsFit(datasets, draws)
    ensures result == ComposePrompt(query, datasets, history, userPreferences, draws)
  {
    var historySummary := SummarizeHistory(history);
    var preferencesStr := PreferencesSentence(userPreferences);
    var relevant := GatherRelevant(query, datasets, draws);
    if relevant.Err? {
      return Err(relevant.error);
    }
    var relevantContent := relevant.value;
    var relevantExercises := if |relevantContent| > 0 then Join(relevantContent, InsightsSeparator) else NoData;
    var question := " " + preferencesStr + QuestionLead + query + ".";
    var prompt := Intro + historySummary + question;
    ghost var head := prompt;
    if relevantExercises != "" {
      prompt := prompt + InsightsLead + relevantExercises;
      assert prompt == head + (InsightsLead + relevantExercises);
    }
    assert relevantExercises == Insights(relevantContent);
    assert prompt == head + InsightsLine(relevantExercises);
    assert prompt == PromptText(query, history, userPreferences, relevantExercises);
    assert ComposePrompt(query, datasets, history, userPreferences, draws) == Ok(PromptText(query, history, userPreferences, Insights(relevantContent)));
    return Ok(prompt);
  }

  /** The summary is empty exactly for an empty history, and lists every turn, oldest first. */
  lemma SummaryListsEveryTurn(history: seq<Turn>, i: nat)
    requires i < |history|
    ensures HistorySummary(history) != ""
    ensures OccursAt(HistorySummary(history), TurnLine(history[i]),
                     |SummaryHeader| + |Concat(TurnLines(history)[..i])|)
  {
    var lines := TurnLines(history);
    ConcatHoldsPiece(lines, i);
    var at := |Concat(lines[..i])|;
    var whole := Concat(lines);
    assert HistorySummary(history) == SummaryHeader + whole;
    assert (SummaryHeader + whole)[|SummaryHeader| + at..|SummaryHeader| + at + |lines[i]|]
           == whole[at..at + |lines[i]|];
  }

  /**
   * The prompt mentions every earlier turn as "You asked: <query>. I
   * responded: <response>".
   */
  lemma PromptMentionsEveryTurn(query: string, datasets: Dict<ContentFrame>, history: seq<Turn>,
                                p: Preferences, draws: seq<seq<nat>>, i: nat)
    requires DrawsFit(datasets, draws) && i < |history|
    requires ComposePrompt(query, datasets, history, p, draws).Ok?
    ensures Contains(ComposePrompt(query, datasets, history, p, draws).value,
                     "You asked: " + history[i].query + ". I responded: " + history[i].response)
  {
    var relevant := RelevantUpTo(query, datasets, draws, |datasets|).value;
    PromptTextMentionsTurn(query, history, p, Insights(relevant), i);
  }

  lemma PromptTextMentionsTurn(query: string, history: seq<Turn>, p: Preferences, insights: string, i: nat)
    requires i < |history|
    ensures Contains(PromptText(query, history, p, insights),
                     "You asked: " + history[i].query + ". I responded: " + history[i].response)
  {
    var prompt := PromptText(query, history, p, insights);
    var summary := HistorySummary(history);
    var needle := "You asked: " + history[i].query + ". I responded: " + history[i].response;
    var lineAt := |SummaryHeader| + |Concat(TurnLines(history)[..i])|;
    SummaryListsEveryTurn(history, i);
    MentionInLine(history[i]);
    OccursWithin(summary, TurnLine(history[i]), needle, lineAt, 2);
    SummaryInPrompt(query, history, p, insights);
    OccursWithin(prompt, summary, needle, |Intro|, lineAt + 2);
    OccurrenceContains(prompt, needle, |Intro| + lineAt + 2);
  }

  lemma MentionInLine(t: Turn)
    ensures OccursAt(TurnLine(t), "You asked: " + t.query + ". I responded: " + t.response, 2)
  {
    var needle := "You asked: " + t.query + ". I responded: " + t.response;
    assert TurnLine(t) == "- " + needle + "\n";
    assert TurnLine(t)[..2 + |needle|] == "- " + needle;
    OccursAfterPrefix(TurnLine(t), "- ", needle);
  }

  lemma SummaryInPrompt(query: string, history: seq<Turn>, p: Preferences, insights: string)
    ensures OccursAt(PromptText(query, history, p, insights), HistorySummary(history), |Intro|)
  {
    var summary, question, line := HistorySummary(history), QuestionPart(query, p), InsightsLine(insights);
    AppendAssoc(Intro + summary, question, line);
    OccursInMiddle(Intro, summary, question + line);
  }

  /** Composing succeeds exactly when no category raises. */
  lemma {:induction false} RelevantOkIff(query: string, datasets: Dict<ContentFrame>,
                                         draws: seq<seq<nat>>, n: nat)
    requires DrawsFit(datasets, draws) && n <= |datasets|
    ensures RelevantUpTo(query, datasets, draws, n).Ok? <==>
            forall i :: 0 <= i < n ==> Contribution(query, datasets[i].value, draws[i]).Ok?
  {
    if n > 0 {
      RelevantOkIff(query, datasets, draws, n - 1);
      if RelevantUpTo(query, datasets, draws, n - 1).Err? {
        var i :| 0 <= i < n - 1 && Contribution(query, datasets[i].value, draws[i]).Err?;
      }
    }
  }

  /** A category raises when it has no content column, or when it matches with fewer than three rows. */
  lemma ContributionRaises(query: string, frame: ContentFrame, draw: seq<nat>)
    requires DrawFits(frame, draw)
    ensures Contribution(query, frame, draw).Err? <==>
            frame.rows == [] || (Matches(query, ContentColumn(frame).value) && |frame.rows| < SampleSize)
  {
  }

  /**
   * A category contributes only when a value equals the query up to case,
   * and then exactly three values of its own content column, at distinct
   * rows; otherwise nothing.
   */
  lemma MatchContributesThree(query: string, frame: ContentFrame, draw: seq<nat>)
    requires DrawFits(frame, draw) && Contribution(query, frame, draw).Ok?
    ensures var c := Contribution(query, frame, draw).value;
            var col := ContentColumn(frame).value;
            && (c != [] <==> exists k :: 0 <= k < |col| && Lower(col[k]) == Lower(query))
            && (c != [] ==> |c| == SampleSize && forall k :: 0 <= k < |c| ==> c[k] == col[draw[k]])
            && (c != [] ==> forall k, m :: 0 <= k < m < |c| ==> draw[k] != draw[m])
  {
    MatchesExactly(query, ContentColumn(frame).value);
  }

  /** The gathered content is a whole number of samples of three. */
  lemma {:induction false} RelevantInThrees(query: string, datasets: Dict<ContentFrame>,
                                            draws: seq<seq<nat>>, n: nat)
    requires DrawsFit(datasets, draws) && n <= |datasets|
    requires RelevantUpTo(query, datasets, draws, n).Ok?
    ensures |RelevantUpTo(query, datasets, draws, n).value| % SampleSize == 0
  {
    if n > 0 {
      RelevantInThrees(query, datasets, draws, n - 1);
      MatchContributesThree(query, datasets[n - 1].value, draws[n - 1]);
    }
  }

  /**
   * "No specific data found." is used exactly when no category has a value
   * equal to the query up to case.
   */
  lemma {:induction false} NoDataIffNoMatch(query: string, datasets: Dict<ContentFrame>,
                                            draws: seq<seq<nat>>, n: nat)
    requires DrawsFit(datasets, draws) && n <= |datasets|
    requires RelevantUpTo(query, datasets, draws, n).Ok?
    ensures forall i :: 0 <= i < n ==> ContentColumn(datasets[i].value).Some?
    ensures RelevantUpTo(query, datasets, draws, n).value == [] <==>
            forall i :: 0 <= i < n ==> !Matches(query, ContentColumn(datasets[i].value).value)
  {
    if n > 0 {
      NoDataIffNoMatch(query, datasets, draws, n - 1);
      MatchContributesThree(query, datasets[n - 1].value, draws[n - 1]);
      MatchesExactly(query, ContentColumn(datasets[n - 1].value).value);
    }
  }

  /** Every gathered value comes from the content column of a matching category. */
  lemma {:induction false} RelevantFromMatches(query: string, datasets: Dict<ContentFrame>,
                                               draws: seq<seq<nat>>, n: nat, v: string)
    requires DrawsFit(datasets, draws) && n <= |datasets|
    requires RelevantUpTo(query, datasets, draws, n).Ok?
    requires v in RelevantUpTo(query, datasets, draws, n).value
    ensures exists i :: 0 <= i < n && ContentColumn(datasets[i].value).Some?
                        && Matches(query, ContentColumn(datasets[i].value).value)
                        && v in ContentColumn(datasets[i].value).value
  {
    var acc := RelevantUpTo(query, datasets, draws, n - 1).value;
    var c := Contribution(query, datasets[n - 1].value, draws[n - 1]).value;
    assert RelevantUpTo(query, datasets, draws, n).value == acc + c;
    if v in acc {
      RelevantFromMatches(query, datasets, draws, n - 1, v);
    } else {
      var col := ContentColumn(datasets[n - 1].value).value;
      var k :| 0 <= k < |c| && c[k] == v;
      assert v == col[draws[n - 1][k]];
    }
  }

  /** Joining two or more values gives a non-empty text. */
  lemma JoinNonEmpty(xs: seq<string>, sep: string)
    requires |xs| >= 2 && sep != ""
    ensures Join(xs, sep) != ""
  {
  }

  /**
   * When composing succeeds the prompt is the instruction, the summary, the
   * preferences, the question and, always, the insights line, whose text is
   * never empty.
   */
  lemma InsightsAlwaysAppended(query: string, datasets: Dict<ContentFrame>, history: seq<Turn>,
                               p: Preferences, draws: seq<seq<nat>>)
    requires DrawsFit(datasets, draws)
    requires RelevantUpTo(query, datasets, draws, |datasets|).Ok?
    ensures var relevant := RelevantUpTo(query, datasets, draws, |datasets|).value;
            && Insights(relevant) != ""
            && ComposePrompt(query, datasets, history, p, draws)
               == Ok(Intro + HistorySummary(history) + QuestionPart(query, p) + InsightsLead + Insights(relevant))
  {
    var relevant := RelevantUpTo(query, datasets, draws, |datasets|).value;
    RelevantInThrees(query, datasets, draws, |datasets|);
    if relevant != [] {
      JoinNonEmpty(relevant, InsightsSeparator);
    }
    var insights := Insights(relevant);
    var front := Intro + HistorySummary(history) + QuestionPart(query, p);
    assert InsightsLine(insights) == InsightsLead + insights;
    AppendAssoc(front, InsightsLead, insights);
  }

  /** The value "cardio" is matched by "cardio" in any case, but not by its prefix "card". */
  lemma CardioExample()
    ensures Matches("cardio", ["cardio", "strength"])
    ensures Matches("CarDio", ["cardio", "strength"])
    ensures !Matches("card", ["cardio", "strength"])
  {
    var col := ["cardio", "strength"];
    assert Lower("cardio") == "cardio";
    assert Lower("CarDio") == "cardio";
    assert LowerAll(col)[0] == "cardio";
    MatchesExactly("card", col);
    assert |Lower("card")| == 4;
  }

  /** With no tables and no history the prompt says "No specific data found." */
  lemma EmptyTablesExample(query: string, p: Preferences)
    ensures ComposePrompt(query, [], [], p, [])
            == Ok(Intro + QuestionPart(query, p) + InsightsLead + NoData)
  {
    assert Intro + HistorySummary([]) == Intro;
    assert Insights([]) == NoData && NoData != "";
    var front := Intro + QuestionPart(query, p);
    assert InsightsLine(NoData) == InsightsLead + NoData;
    AppendAssoc(front, InsightsLead, NoData);
  }
}
