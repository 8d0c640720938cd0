# Fitness Knowledge Bot — a Dafny model of its deterministic core

The Fitness Knowledge Bot is a Streamlit chat page that answers fitness
questions with a chat model. It grounds the answers in text extracted from
PDFs and scores each reply against curated reference answers. Around the UI
and the library calls, the application keeps a small set of deterministic
rules, and this project models them and proves their properties:

- **Ingestion** (`DataProcessing`): PDF page texts are concatenated. The
  text is split on `"\n"`. Every line that is not blank once stripped
  becomes a row `(file_name, content)`. The table is saved under
  `os.path.splitext(name)[0] + ".parquet"`, and only names ending in
  `.pdf` are processed.
- **Loading** (`Loading`): `.parquet` files become an insertion-ordered
  dictionary keyed by the file name with every `".parquet"` removed. The
  `entries` lists of the `.json` files that have that key are concatenated.
- **Prompt composition** (`Prompt`): a fixed instruction, then a summary of
  every earlier turn, the user's preferences and the question. Last comes
  an insights line, made of three sampled content values from every
  category one of whose values equals the question, ignoring case. When no
  category matches, the line says "No specific data found.".
- **A session turn** (`Session`): `process_query` appends the turn to the
  history only when both composing and the chat call succeed. Otherwise it
  returns a fixed-format error reply. The page then looks up a curated
  reference answer and appends one metric for the question, scoring the
  shown reply against that reference. The lookup is outside
  `process_query`'s exception handler: when no curated entries were loaded
  it raises, the page run ends, and no metric is appended, although the
  turn may already be in the history.
- **Category selection** (`ResponseGen`): `get_relevant_content` takes one
  content value from the first category whose name occurs in the
  lower-cased query.
- **Templates** (`WorkoutPlans`): a workout plan and diet tips, each a
  sentence about the user followed by one of two fixed lists, chosen by
  `lifestyle.lower() == "active"`.

The string operations these rules use are in `Text`, with Python's meaning:
`str.lower` folded to ASCII, `str.strip` with Python's whitespace set,
`split`, `join`, `in`, `endswith`, `replace(old, "")`, POSIX
`os.path.splitext` and `rfind`. The data shapes are in `Tables`:
content rows and tables, Python's insertion-ordered `dict` as a sequence of
items with distinct keys, and curated entries. A table built from an empty
list of records has no columns at all. So looking up `content` on it
raises a KeyError, and the model keeps that error path.

Things the program does not decide itself are parameters:
- a directory listing is a sequence of files in listing order;
- a PDF is the list of its page texts;
- the random rows of `sample(3)` are given draws, three distinct valid
  rows per category, and the row of `sample(1)` is a given pick, one valid
  row per category;
- the chat model's `predict` is a function that returns a reply or the
  text of an exception;
- the BLEU/WER scoring is a function from a reference and a reply to a
  metric.

The model follows the code in these places:
- A failed turn is not appended to the history (app.py:151 runs only on
  success), while a metric is still appended when the reference lookup
  succeeds, so the metrics list can grow longer than the history
  (`Session.FailedQueryDiverges`). When the lookup raises, the turn is
  kept and no metric is added, so the history can also grow longer than
  the metrics (`Session.HistoryOutgrowsMetrics`).
  `Session.ChatSession.Valid`, `|history| <= |metrics|`, is guaranteed
  to be kept only for inputs handled with curated entries loaded.
- A matching category contributes exactly three sampled values. With
  fewer than three rows, `sample(3)` raises, and the whole prompt fails
  (`Prompt.ContributionRaises`).
- The condition `if relevant_exercises:` (app.py:74) always holds, so the
  insights line is always appended (`Prompt.InsightsAlwaysAppended`).
- `st.session_state.reference` (app.py:168, 184) is read into a local
  that app.py:185 overwrites, so its value is never used and it plays no
  part in the model.

## Model

| member | source | states |
|---|---|---|
| Text.Lower | app.py:67 | `str.lower()` on ASCII letters, defined character by character; `Text.LowerHasNoUpper` proves the result has the same length and no upper-case letter |
| Text.LowerChar | app.py:67 | one character of `lower()`: an upper-case ASCII letter becomes the letter 32 code points above it, every other character is unchanged, and the result is never an upper-case letter |
| Text.LowerHasNoUpper | app.py:67 | `lower()` keeps the length of the text and leaves no upper-case letter in it |
| Text.IsSpace | data_processing.py:25-26 | the characters for which `str.isspace` holds, the ones `strip()` removes |
| Text.Blank | data_processing.py:26 | the lines the filter `if content.strip()` drops; `Text.BlankIff` ties it to `strip()` |
| Text.BlankIff | data_processing.py:26 | a line is blank exactly when it strips to `""`, and exactly when every character is whitespace |
| Text.Strip | data_processing.py:25-26 | `strip()` leaves no whitespace at either end, is never longer than its input, and is empty exactly when the line is all whitespace |
| Text.StripIsSlice | data_processing.py:25-26 | the stripped line is an infix of the line with only whitespace on either side of it |
| Text.Split | data_processing.py:26 | `split("\n")` gives at least one piece and no piece holds the separator |
| Text.JoinSplit | data_processing.py:26 | joining the pieces of `split(sep)` with `sep` gives back the text |
| Text.SplitJoin | data_processing.py:26 | splitting the join of separator-free pieces gives back the pieces |
| Text.Contains | response_gen.py:19 | Python's `in` on strings; `Text.ContainsAt` ties it to an occurrence at some position |
| Text.EndsWith | data_processing.py:21 | `str.endswith`: the suffix is the text's last characters; also the `.parquet` and `.json` tests of app.py |
| Text.Concat | data_processing.py:9-10 | what a `+=` loop over pieces builds, here and at app.py:59-60: the pieces concatenated in order; `Text.ConcatAppend` and `Text.ConcatHoldsPiece` characterise it |
| Text.ConcatAppend | app.py:59-60 | concatenating two lists of pieces one after the other gives the two concatenations one after the other |
| Text.Join | app.py:70 | `sep.join(xs)`; `Text.JoinSplit` and `Text.SplitJoin` relate it to `split`, and `Prompt.JoinNonEmpty` shows it non-empty for two or more values |
| Text.ContainsAt | response_gen.py:19 | Python's `p in s` holds exactly when `p` occurs in `s` at some position |
| Text.ConcatHoldsPiece | app.py:59-60 | each piece of a concatenation sits right after the pieces before it |
| Text.LastIndexOf | data_processing.py:28 | `rfind`: -1 exactly when the character is absent, otherwise the position of its last occurrence |
| Text.SplitExtRoot | data_processing.py:28 | `os.path.splitext(p)[0]` on POSIX, defined by the last `/` and the last `.`; `Text.SplitExtRootShape` and `Text.SplitExtRootOfName` characterise it |
| Text.SplitExtRootShape | data_processing.py:28 | the root is a prefix of the path, what it drops holds no `/`, and a path whose last component has no dot is its own root |
| Text.SplitExtRootOfName | data_processing.py:28 | `splitext(stem + ext)[0]` is `stem` for a plain file name whose stem is not all dots |
| Text.RemoveAll | app.py:31 | `replace(pat, "")` never lengthens the text |
| Text.RemoveAllAbsent | app.py:31 | `replace(pat, "")` leaves alone a text in which the pattern's first character does not occur |
| Text.RemoveAllTrailing | app.py:31 | `replace(pat, "")` on `stem + pat` gives `stem` when the stem cannot start an occurrence of `pat` |
| Tables.DistinctKeys | app.py:28-33 | the keys of a `dict` are pairwise distinct |
| Tables.KeySet | app.py:28-33 | the keys of a `dict`: exactly the keys of its items |
| Tables.Get | app.py:32 | looking a key up in a `dict`: nothing exactly when the key is absent, otherwise the value of an item with that key |
| Tables.IndexOfKey | app.py:32 | the position of a key among the items, -1 exactly when it is absent, with no earlier item holding it |
| Tables.ContentColumn | data_processing.py:25-27 | a table built from no records has no `content` column; otherwise the column is the rows' contents in row order |
| Tables.Put | app.py:32 | `d[k] = v` keeps keys distinct and adds `k` to them; `k` then maps to `v` and every other key is unchanged; an existing key keeps its position, and a new key goes at the end |
| DataProcessing.WellFormedRow | data_processing.py:25-26 | a row carries the PDF's name and a non-empty content with no whitespace at either end |
| DataProcessing.RowsOf | data_processing.py:25-26 | the list comprehension over the lines, one row per line that strips to non-empty text; `DataProcessing.RowsAreKeptLines` and `DataProcessing.RowsWellFormed` characterise it |
| DataProcessing.Rows | data_processing.py:25-26 | the rows of a document's text split on `"\n"`, characterised through `DataProcessing.RowsOf` |
| DataProcessing.ExtractTextFromPdf | data_processing.py:5-11 | the extracted text is the concatenation of the page texts in page order |
| DataProcessing.KeptIndices | data_processing.py:25-26 | the kept line positions are in range, strictly increasing, and each one strips to a non-empty line |
| DataProcessing.KeptComplete | data_processing.py:25-26 | no non-blank line is left out |
| DataProcessing.RowsAreKeptLines | data_processing.py:25-26 | the rows are exactly the stripped non-blank lines, in line order, each tagged with the PDF's name |
| DataProcessing.RowsWellFormed | data_processing.py:25-26 | every row carries the PDF's name and a non-empty content with no surrounding whitespace; there are at most as many rows as lines |
| DataProcessing.NoneKeptIffBlank | data_processing.py:25-26 | no line is kept exactly when every line is blank |
| DataProcessing.BlankDocumentHasNoColumn | data_processing.py:25-27 | the saved table lacks a `content` column exactly when every line of the document is blank |
| DataProcessing.OutputName | data_processing.py:28 | the output name ends in `.parquet` and what precedes that is a prefix of the PDF's name |
| DataProcessing.OutputNameOfPdf | data_processing.py:28 | `stem.pdf` is saved as `stem.parquet` |
| DataProcessing.HiddenPdfName | data_processing.py:28 | `.pdf` has no extension to `splitext` and is saved as `.pdf.parquet`, the same name as `.pdf.pdf` |
| DataProcessing.FrameOf | data_processing.py:23-27 | the table for one PDF: the rows of its page texts concatenated; `DataProcessing.RowsAreKeptLines` gives its rows |
| DataProcessing.SaveOneWrites | data_processing.py:27-29 | handling a PDF writes its table under its parquet name |
| DataProcessing.SaveOneKeeps | data_processing.py:21-29 | handling a file leaves every other name with its table |
| DataProcessing.PdfOutputs | data_processing.py:21-28 | the parquet names of the listed `.pdf` files; `DataProcessing.SavedNames` shows they are exactly the names the folder gains |
| DataProcessing.SaveOne | data_processing.py:21-29 | handling one file adds exactly its parquet name to the folder when it ends in `.pdf`, and nothing otherwise; every other name keeps its table |
| DataProcessing.SaveAll | data_processing.py:20-29 | handling a listing in order never removes a name from the folder; `DataProcessing.SavedNames` and `DataProcessing.SavedRows` give its names and tables |
| DataProcessing.ProcessAndSaveData | data_processing.py:13-29 | the output folder is the result of writing each listed `.pdf`, in listing order, under its parquet name |
| DataProcessing.SavedNames | data_processing.py:20-29 | the folder gains exactly the parquet names of the listed PDFs, and files not ending in `.pdf` produce nothing |
| DataProcessing.SavedRows | data_processing.py:20-29 | a PDF's file holds that PDF's rows unless a later PDF is saved under the same name |
| Loading.Category | app.py:31 | a category is never longer than its file name |
| Loading.DotFreeCategory | app.py:31 | a file name without a dot is its own category |
| Loading.CategoryOfPlainName | app.py:31 | a file `stem.parquet` with no dot in the stem has the category `stem` |
| Loading.CategoriesCollide | app.py:31 | every `.parquet` is removed, so `a.parquet.parquet` and `a.parquet` share the category `a` |
| Loading.IsParquet | app.py:30 | the table files: names ending in `.parquet` |
| Loading.ParquetCategories | app.py:29-31 | the categories of the listed `.parquet` files; `Loading.ParquetKeys` shows they are exactly the dictionary's keys |
| Loading.HasEntries | app.py:120-123 | a `.json` file whose document has an `entries` list |
| Loading.ParquetDict | app.py:28-33 | the loaded dictionary has distinct keys |
| Loading.LoadParquetData | app.py:24-33 | the loop builds the dictionary of the listing's `.parquet` files in listing order; `load_parquet_files` in response_gen.py is the same loader |
| Loading.ParquetKeys | response_gen.py:8-11 | the keys are exactly the categories of the `.parquet` files |
| Loading.ParquetLastWins | app.py:29-32 | a category holds the table of the last file with that category |
| Loading.CuratedEntries | app.py:118-125 | the `entries` lists of the `.json` files that have one, in listing order; `Loading.CuratedMembers`, `Loading.CuratedAppend` and `Loading.CuratedIgnoresOthers` characterise it |
| Loading.LoadCuratedData | app.py:114-125 | the loop builds the concatenation of the `entries` lists of the `.json` files that have one, in listing order |
| Loading.CuratedAppend | app.py:119-124 | loading two listings in turn concatenates their entries |
| Loading.CuratedIgnoresOthers | app.py:120-123 | files that are not `.json`, or that lack `entries`, contribute nothing |
| Loading.CuratedMembers | app.py:118-125 | an entry is loaded exactly when some `.json` file with `entries` lists it |
| Prompt.GoalLabel | app.py:40-43 | the four goal options, as the sidebar shows and returns them |
| Prompt.ExperienceLabel | app.py:44-46 | the three experience options, as the sidebar shows and returns them |
| Prompt.TurnLine | app.py:60 | one turn's line of the summary; `Prompt.MentionInLine` places "You asked: q. I responded: r" at its position 2 |
| Prompt.TurnLines | app.py:59-60 | one line per turn of the history, in order |
| Prompt.MentionInLine | app.py:60 | "You asked: q. I responded: r" starts at position 2 of the turn's line |
| Prompt.PreferencesSentence | app.py:62 | the preferences sentence, built from the goal's and the experience's option texts and the restrictions |
| Prompt.LowerAll | app.py:67 | `df["content"].str.lower()`: the same number of values, each lowered |
| Prompt.Matches | app.py:67 | the test `query.lower() in df["content"].str.lower().values`; `Prompt.MatchesExactly` makes it equality with some lowered value |
| Prompt.ValidDraw | app.py:68 | a draw of `sample(3)` is three distinct row positions within the table |
| Prompt.DrawFits | app.py:68 | a category's draw is valid whenever the category has at least three rows |
| Prompt.DrawsFit | app.py:66-68 | one draw per category, in dictionary order, each one fitting its category |
| Prompt.Sample | app.py:68 | `sample(3).values` for a given draw: one value per drawn row, each the value at that row |
| Prompt.MatchesExactly | app.py:67 | a category matches exactly when one of its values equals the query up to case; an infix is not enough |
| Prompt.CardioExample | app.py:67 | "cardio" and "CarDio" match the value "cardio", "card" does not |
| Prompt.Contribution | app.py:66-68 | what one category adds, or the exception it raises; `Prompt.ContributionRaises` and `Prompt.MatchContributesThree` characterise it |
| Prompt.RelevantUpTo | app.py:65-68 | the content gathered from the first `n` categories in dictionary order, stopping at the first exception; `Prompt.RelevantOkIff`, `Prompt.RelevantInThrees` and `Prompt.RelevantFromMatches` characterise it |
| Prompt.ErrorPersists | app.py:66-68 | once a category raises, composing fails with that error |
| Prompt.RelevantOkIff | app.py:66-68 | gathering succeeds exactly when no category raises |
| Prompt.ContributionRaises | app.py:67-68 | a category raises exactly when it has no `content` column, or when it matches with fewer than three rows |
| Prompt.MatchContributesThree | app.py:67-68 | a category contributes something exactly when it matches, and then three values of its own column at distinct rows |
| Prompt.RelevantInThrees | app.py:65-68 | the gathered content is a whole number of samples of three |
| Prompt.RelevantFromMatches | app.py:65-68 | every gathered value comes from the content column of a matching category |
| Prompt.NoDataIffNoMatch | app.py:65-70 | "No specific data found." is used exactly when no category matches |
| Prompt.Insights | app.py:70 | the fallback text when nothing was gathered, otherwise the gathered values joined with `", "`; `Prompt.NoDataIffNoMatch` and `Prompt.InsightsAlwaysAppended` characterise it |
| Prompt.JoinNonEmpty | app.py:70 | joining two or more values with a non-empty separator gives a non-empty text |
| Prompt.QuestionPart | app.py:72 | what follows the summary in the f-string: a space, the preferences sentence and the question |
| Prompt.InsightsLine | app.py:74-75 | the appended insights line; nothing exactly when the insights text is empty |
| Prompt.PromptText | app.py:72-75 | the prompt for given insights: instruction, summary, question part, insights line; `Prompt.SummaryInPrompt` and `Prompt.PromptTextMentionsTurn` characterise it |
| Prompt.SummaryInPrompt | app.py:72 | the history summary sits right after the fixed instruction |
| Prompt.PromptTextMentionsTurn | app.py:56-72 | every earlier turn is mentioned as "You asked: q. I responded: r", whatever the insights |
| Prompt.HistorySummary | app.py:56-60 | empty for no history, otherwise the header and one line per turn; `Prompt.SummaryListsEveryTurn` proves every turn's line is there, in order |
| Prompt.SummarizeHistory | app.py:56-60 | the first loop builds the history summary: empty without history, otherwise the header and one line per turn |
| Prompt.SummaryListsEveryTurn | app.py:56-60 | a non-empty history gives a non-empty summary holding every turn's line, oldest first, each at its place |
| Prompt.PromptMentionsEveryTurn | app.py:52-77 | the prompt mentions every earlier turn as "You asked: q. I responded: r", with no window |
| Prompt.GatherRelevant | app.py:65-68 | the second loop gathers the samples of every matching category in dictionary order, or stops at the first exception |
| Prompt.ComposePrompt | app.py:52-77 | the prompt, or the first exception gathering raises; `Prompt.InsightsAlwaysAppended`, `Prompt.NoDataIffNoMatch` and `Prompt.PromptMentionsEveryTurn` characterise it |
| Prompt.CraftFitnessPrompt | app.py:52-77 | the composed prompt, or the exception raised while composing it |
| Prompt.InsightsAlwaysAppended | app.py:62-75 | a composed prompt is the instruction, the summary, the preferences sentence, the question, and always a non-empty insights line |
| Prompt.EmptyTablesExample | app.py:56-75 | with no tables and no history, the prompt ends with "No specific data found." |
| Session.ErrorReply | app.py:153-154 | the error reply embeds the exception text, and embedding can be inverted |
| Session.ErrorDescription | app.py:154 | the exception text inside a reply of the error form, or nothing; `Session.ErrorReply` and `Session.ErrorDescriptionInverse` make it the inverse of the error reply |
| Session.ErrorDescriptionInverse | app.py:154 | every reply of the error form is the error reply of the text it embeds |
| Session.Describe | app.py:154 | the `{e}` text of the KeyError for the missing `content` column and of the ValueError of `sample` |
| Session.QueryOutcome | app.py:146-154 | the chat model's reply to the composed prompt, or the text of the exception composing or the chat call raised; `Session.ProcessQuery` and `Session.ShownReply` use it |
| Session.ShownReply | app.py:148-154 | a failed outcome is shown as the error reply of its exception text |
| Session.ProcessQuery | app.py:144-154 | on success the reply is returned and exactly one turn is appended to history; on an exception history is unchanged and the error reply is returned |
| Session.GetReference | app.py:133-140 | the answer of the first entry, in table order, whose question contains the query ignoring case; the placeholder when there is none |
| Session.GetReferenceAsWritten | app.py:133-140 | the lookup raises exactly when no curated entries were loaded |
| Session.EmptyCuratedRaises | app.py:114-140 | with no curated entries the code raises, while the placeholder is returned by the intended lookup |
| Session.AsWrittenAgrees | app.py:133-140 | on a non-empty table the code as written and the corrected lookup agree |
| Session.Mentions | app.py:137 | an entry is mentioned when its question, lower-cased, contains the lower-cased query; `Session.ReferenceExample` shows a hit and a miss |
| Session.ReferenceExample | app.py:137-140 | "sQUATs" finds the "Squats" answer; "lunges" gets the placeholder |
| Session.TurnLog.constructor | app.py:167 | a new history is empty |
| Session.ChatSession.Valid | app.py:185-192 | the history has not outgrown the metrics; `Session.ChatSession.HandleInput` keeps it whenever curated entries are loaded |
| Session.ChatSession.constructor | app.py:165-168 | a new session has an empty history and no metrics |
| Session.ChatSession.HandleInput | app.py:177-192 | an empty input changes nothing; otherwise `process_query` runs and appends its turn on success; then, when the curated lookup raises, its exception is returned and no metric is appended, and otherwise the shown reply is scored against the reference, exactly one metric is appended and the reply is returned; with curated entries loaded, `|history| <= |metrics|` is kept |
| Session.FailedQueryDiverges | app.py:148-192 | with curated entries loaded, a first question on which the chat model fails leaves the history empty and records one metric |
| Session.HistoryOutgrowsMetrics | app.py:133-192 | with no curated entries, a first question the chat model answers is added to the history, then the lookup raises and no metric is recorded |
| ResponseGen.CategoryNamed | response_gen.py:19 | the test `category in user_query.lower()`; `ResponseGen.UpperCaseNameNeverNamed` and `ResponseGen.EmptyNameAlwaysNamed` show its edge cases |
| ResponseGen.PicksFit | response_gen.py:20 | the given row of `sample(1)`: one per category, within the table whenever the category has rows |
| ResponseGen.Pick | response_gen.py:20 | the chosen category raises exactly when it has no `content` column; otherwise the value is one of its column's values |
| ResponseGen.SearchFrom | response_gen.py:17-21 | the search from a position yields `None` exactly when no category from there on is named in the query |
| ResponseGen.SearchFindsFirst | response_gen.py:17-20 | when some category is named, the search yields what the first named category, in dictionary order, yields |
| ResponseGen.GetRelevantContent | response_gen.py:14-21 | `None` exactly when no category name occurs in the lower-cased query |
| ResponseGen.RelevantValueFromNamedCategory | response_gen.py:17-20 | a returned value belongs to the content column of a category named in the query |
| ResponseGen.UpperCaseNameNeverNamed | response_gen.py:19 | a category name with an upper-case letter never occurs in the lower-cased query |
| ResponseGen.EmptyNameAlwaysNamed | response_gen.py:19 | the empty category, the one of a file named just `.parquet`, occurs in every query |
| WorkoutPlans.IsActive | workout_plans.py:5 | the test `lifestyle.lower() == "active"`, the same one workout_plans.py:14 makes; `WorkoutPlans.ActiveSpellings` and `WorkoutPlans.PlanChoiceIgnoresCase` characterise it |
| WorkoutPlans.PlanPrefix | workout_plans.py:4 | the plan's opening sentence about the user; `WorkoutPlans.PlanShape` proves every plan starts with it |
| WorkoutPlans.TipsPrefix | workout_plans.py:13 | the tips' opening sentence about the user; `WorkoutPlans.TipsShape` proves all tips start with it |
| WorkoutPlans.CreateWorkoutPlan | workout_plans.py:1-9 | the plan text; `WorkoutPlans.PlanShape` and `WorkoutPlans.PlanChoiceIgnoresCase` characterise it |
| WorkoutPlans.ProvideDietTips | workout_plans.py:11-18 | the tips text; `WorkoutPlans.TipsShape` and `WorkoutPlans.PlanChoiceIgnoresCase` characterise it |
| WorkoutPlans.PlanShape | workout_plans.py:1-9 | the plan starts with the sentence about the user and ends with the intensive list exactly when the lifestyle is "active" ignoring case, and with the moderate list otherwise |
| WorkoutPlans.PlansDiffer | workout_plans.py:6-8 | no text ends with both lists |
| WorkoutPlans.PlanChoiceIgnoresCase | workout_plans.py:1-18 | lifestyles equal up to case get the same plan list and the same tip list |
| WorkoutPlans.ActiveSpellings | workout_plans.py:5 | "active", "Active" and "ACTIVE" are active; "sedentary" is not |
| WorkoutPlans.TipsShape | workout_plans.py:11-18 | the tips start with the sentence about the user, end with the active or the non-active list, and always say "- Stay hydrated" |

## Left out

- The Streamlit UI is left out: the sidebar widgets of `gather_user_preferences` (app.py:38-48) and the rendering of the transcript and metrics (app.py:194-203). The preferences are a `Prompt.Preferences` value, and `Prompt.GoalLabel` and `Prompt.ExperienceLabel` give the option texts.
- Chat model access is left out: `initialize_chat`, the system prompt, LangChain's three-turn memory window, and `generate_openai_response`. These are foreign network calls. `predict` is a parameter that may fail.
- BLEU and WER are left out (app.py:105-111, 127-131). They are floating-point library computations, so the scoring is a parameter.
- Concrete I/O is left out: PDF reading, parquet and JSON reading and writing, `os.listdir` ordering, `os.makedirs`, environment variables and `print`. Listings are given sequences, PDFs are page lists, and the output folder is a map from names to tables.
- A JSON file whose top level is not an object is not modelled. Every JSON document is an optional `entries` list of well-formed entries.
- Sampling randomness is abstract. The rows `sample` picks are given draws. The model fixes only that they are distinct and in range.
- Session.Mentions: pandas' `str.contains` treats the query as a regular expression. The model matches it as a plain substring, which agrees for queries without regular-expression metacharacters.
- Text.Lower: Python's `str.lower()` is Unicode-aware. The model folds only ASCII letters. `Text.IsSpace` is Python's whitespace set.
- WorkoutPlans.CreateWorkoutPlan: `age` is taken as the text Python formats it as, because the format of a number is not part of these rules.
- Text.SplitExtRoot models only POSIX paths, with `/` as the separator.

## Findings

| source | as written | input that shows it | evidently intended | confidence | as-written member | corrected member |
|---|---|---|---|---|---|---|
| app.py:133-140 | `get_reference_from_curated` indexes `curated_data["user_input"]`, but a data frame built from no entries has no columns, so the lookup raises a KeyError | a curated folder with no `.json` file that has `entries`, and any query | "No reference available." when nothing matches, including when there is no curated data | not executed | Session.GetReferenceAsWritten (with Session.EmptyCuratedRaises) | Session.GetReference |
