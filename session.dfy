/**
 * One question through the chat session: `process_query` composes the
 * prompt and asks the chat model, appending the turn to the history only
 * when both succeed; the session driver then looks up a curated reference
 * answer and appends a metric for the question, answered or not. The
 * lookup runs outside `process_query`'s exception handler, so when it
 * raises, the turn is already in the history and no metric is appended.
 */
module Session {
  import opened Base
  import opened Text
  import opened Tables
  import opened Prompt

  const ErrorLead := "An error occurred: "
  const ErrorTail := ". Please try rephrasing your question."
  const NoReference := "No reference available."

  /** The reply shown when composing or the chat call raised. */
  function ErrorReply(description: string): (reply: string)
    ensures ErrorDescription(reply) == Some(description)
  {
    var reply := ErrorLead + description + ErrorTail;
    assert reply[..|ErrorLead|] == ErrorLead;
    assert reply[|reply| - |ErrorTail|..] == ErrorTail;
    assert reply[|ErrorLead|..|reply| - |ErrorTail|] == description;
    reply
  }

  /** The exception text embedded in an error reply, if `reply` has that form. */
  function ErrorDescription(reply: string): Option<string>
  {
    if |reply| >= |ErrorLead| + |ErrorTail| && reply[..|ErrorLead|] == ErrorLead
       && reply[|reply| - |ErrorTail|..] == ErrorTail
    then Some(reply[|ErrorLead|..|reply| - |ErrorTail|])
    else None
  }

  /** A reply that has the error form is the error reply of the text it embeds. */
  lemma ErrorDescriptionInverse(reply: string)
    requires ErrorDescription(reply).Some?
    ensures ErrorReply(ErrorDescription(reply).value) == reply
  {
    var d := ErrorDescription(reply).value;
    assert reply == reply[..|ErrorLead|] + d + reply[|reply| - |ErrorTail|..];
  }

  /** `str(e)` for the exceptions composing a prompt can raise. */
  function Describe(e: PromptError): string
  {
    match e
    case MissingColumn(column) => "'" + column + "'"
    case SampleLargerThanPopulation => "Cannot take a larger sample than population when 'replace=False'"
  }

  /** The chat model's `predict`: a reply, or the text of the exception it raised. */
  type Predict = string -> Result<string, string>

  /** What `process_query` yields: the model's reply, or the text of the exception. */
  function QueryOutcome(query: string, datasets: Dict<ContentFrame>, userPreferences: Preferences,
                        predict: Predict, history: seq<Turn>, draws: seq<seq<nat>>): Result<string, string>
    requires DrawsFit(datasets, draws)
  {
    match ComposePrompt(query, datasets, history, userPreferences, draws)
    case Err(e) => Err(Describe(e))
    case Ok(prompt) => predict(prompt)
  }

  /** The shown reply for an outcome: the model's reply, or an error reply. */
  function ShownReply(outcome: Result<string, string>): (reply: string)
    ensures outcome.Err? ==> ErrorDescription(reply) == Some(outcome.error)
  {
    match outcome
    case Ok(response) => response
    case Err(description) => ErrorReply(description)
  }

  /** The conversation history, a list that `process_query` appends to in place. */
  class TurnLog {
    var turns: seq<Turn>

    constructor ()
      ensures turns == []
    {
      turns := [];
    }
  }

  /**
   * `process_query`: on success the turn (query, reply) is appended and the
   * reply returned; on any exception the history is left alone and the
   * error reply returned. (The history list itself, which Python also
   * returns, is the `history` object.)
   */
  method ProcessQuery(query: string, datasets: Dict<ContentFrame>, userPreferences: Preferences,
                      predict: Predict, history: TurnLog, draws: seq<seq<nat>>)
    returns (response: string)
    requires DrawsFit(datasets, draws)
    modifies history
    ensures var outcome := QueryOutcome(query, datasets, userPreferences, predict, old(history.turns), draws);
            && response == ShownReply(outcome)
            && history.turns == old(history.turns) + (if outcome.Ok? then [Turn(query, outcome.value)] else [])
  {
    var prompt := CraftFitnessPrompt(query, datasets, history.turns, userPreferences, draws);
    if prompt.Err? {
      assert history.turns + [] == history.turns;
      return ErrorReply(Describe(prompt.error));
    }
    var predicted := predict(prompt.value);
    if predicted.Err? {
      assert history.turns + [] == history.turns;
      return ErrorReply(predicted.error);
    }
    history.turns := history.turns + [Turn(query, predicted.value)];
    return predicted.value;
  }

  /** A curated entry whose question contains the query, ignoring case. */
  predicate Mentions(entry: CuratedEntry, query: string)
  {
    Contains(Lower(entry.userInput), Lower(query))
  }

  /**
   * `get_reference_from_curated` for a non-empty curated table: the answer
   * of the first entry in table order whose question contains the query,
   * ignoring case, or the placeholder when none does.
   */
  function GetReference(query: string, curated: seq<CuratedEntry>): (r: string)
    ensures (forall i :: 0 <= i < |curated| ==> !Mentions(curated[i], query)) ==> r == NoReference
    ensures forall i :: 0 <= i < |curated| && Mentions(curated[i], query)
                        && (forall j :: 0 <= j < i ==> !Mentions(curated[j], query))
                        ==> r == curated[i].chatbotResponse
  {
    if curated == [] then NoReference
    else if Mentions(curated[0], query) then curated[0].chatbotResponse
    else
      var r := GetReference(query, curated[1..]);
      assert forall i :: 1 <= i < |curated| ==> curated[1..][i - 1] == curated[i];
      r
  }

  /**
   * `get_reference_from_curated` as written: the curated table is a data
   * frame built from the loaded entries, and one built from no entries has
   * no `user_input` column, so the lookup raises a KeyError instead of
   * returning the placeholder.
   */
  function GetReferenceAsWritten(query: string, curated: seq<CuratedEntry>): (r: Result<string, string>)
    ensures r.Err? <==> curated == []
  {
    if curated == [] then Err("'user_input'") else Ok(GetReference(query, curated))
  }

  /** With no curated entries the code raises where the placeholder was intended. */
  lemma EmptyCuratedRaises(query: string)
    ensures GetReferenceAsWritten(query, []).Err?
    ensures GetReference(query, []) == NoReference
  {
  }

  /** On a non-empty table the code as written and the corrected lookup agree. */
  lemma AsWrittenAgrees(query: string, curated: seq<CuratedEntry>)
    requires curated != []
    ensures GetReferenceAsWritten(query, curated) == Ok(GetReference(query, curated))
  {
  }

  /** The lookup ignores case, and a query no question contains gets the placeholder. */
  lemma ReferenceExample()
    ensures GetReference("sQUATs", [CuratedEntry("Squats", "Keep your back straight.")])
            == "Keep your back straight."
    ensures GetReference("lunges", [CuratedEntry("Squats", "Keep your back straight.")])
            == NoReference
  {
    var e := CuratedEntry("Squats", "Keep your back straight.");
    assert Lower(e.userInput) == "squats";
    assert Lower("sQUATs") == "squats";
    assert IsPrefix("squats", "squats");
    assert Lower("lunges") == "lunges";
    ContainsAt("squats", "lunges");
    assert forall i :: OccursAt("squats", "lunges", i) ==> i == 0;
  }

  /** What one interaction records: the BLEU score and the word error rate. */
  datatype Metric = Metric(bleu: real, wer: real)

  /** The scoring of a reply against a reference (BLEU and WER, from nltk and jiwer). */
  type Score = (string, string) -> Metric

  /**
   * The session state of the chat page: the shared history list and the
   * list of metrics, one per question whose reference lookup succeeded.
   */
  class ChatSession {
    const history: TurnLog
    var metrics: seq<Metric>

    /**
     * The history has not outgrown the metrics. Every handled question adds
     * at most one turn, and a metric unless the reference lookup raised.
     */
    predicate Valid()
      reads this, history
    {
      |history.turns| <= |metrics|
    }

    constructor ()
      ensures Valid() && fresh(history)
      ensures history.turns == [] && metrics == []
    {
      history := new TurnLog();
      metrics := [];
    }

    /**
     * The page's reaction to a submitted input: nothing for an empty input;
     * otherwise `process_query`, then the reference lookup. When the lookup
     * raises, the exception ends the page run: its text is returned as an
     * error and no metric is appended, though the turn may already be in
     * the history. Otherwise one metric scores the shown reply against the
     * reference and the reply is returned.
     */
    method HandleInput(userInput: string, datasets: Dict<ContentFrame>, userPreferences: Preferences,
                       predict: Predict, curated: seq<CuratedEntry>, score: Score, draws: seq<seq<nat>>)
      returns (response: Option<Result<string, string>>)
      requires DrawsFit(datasets, draws)
      modifies this, history
      ensures old(Valid()) && curated != [] ==> Valid()
      ensures userInput == "" ==> response == None && metrics == old(metrics)
                                  && history.turns == old(history.turns)
      ensures userInput != "" ==>
                var outcome := QueryOutcome(userInput, datasets, userPreferences, predict,
                                            old(history.turns), draws);
                var reply := ShownReply(outcome);
                && history.turns == old(history.turns) + (if outcome.Ok? then [Turn(userInput, outcome.value)] else [])
                && match GetReferenceAsWritten(userInput, curated)
                   case Err(e) => response == Some(Err(e)) && metrics == old(metrics)
                   case Ok(reference) => response == Some(Ok(reply)) && metrics == old(metrics) + [score(reference, reply)]
    {
      if userInput == "" {
        return None;
      }
      var reply := ProcessQuery(userInput, datasets, userPreferences, predict, history, draws);
      var reference := GetReferenceAsWritten(userInput, curated);
      if reference.Err? {
        return Some(Err(reference.error));
      }
      var bleuAndWer := score(reference.value, reply);
      metrics := metrics + [bleuAndWer];
      return Some(Ok(reply));
    }
  }

  /**
   * A question the chat model fails on, asked in a new session with curated
   * entries, leaves the history empty and records one metric.
   */
  method FailedQueryDiverges(query: string, userPreferences: Preferences, score: Score)
    returns (turns: nat, scored: nat)
    requires query != ""
    ensures turns == 0 && scored == 1
  {
    var session := new ChatSession();
    var failing: Predict := prompt => Err("Connection error.");
    var curated := [CuratedEntry("Squats", "Keep your back straight.")];
    var _ := session.HandleInput(query, [], userPreferences, failing, curated, score, []);
    turns, scored := |session.history.turns|, |session.metrics|;
  }

  /**
   * A question the chat model answers, asked in a new session with no
   * curated entries, is added to the history, and then the reference
   * lookup raises: the history outgrows the metrics.
   */
  method HistoryOutgrowsMetrics(query: string, userPreferences: Preferences, score: Score)
    returns (turns: nat, scored: nat, raised: bool)
    requires query != ""
    ensures turns == 1 && scored == 0 && raised
  {
    var session := new ChatSession();
    var answering: Predict := prompt => Ok("Start with three sets of ten.");
    var response := session.HandleInput(query, [], userPreferences, answering, [], score, []);
    turns, scored := |session.history.turns|, |session.metrics|;
    raised := response.Some? && response.value.Err?;
  }
}
