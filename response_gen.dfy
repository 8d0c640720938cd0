/**
 * `get_relevant_content`: one random content value of the first category
 * whose name occurs in the lower-cased query.
 */
module ResponseGen {
  import opened Base
  import opened Text
  import opened Tables
  import opened Prompt

  /** The category is named in the query: `category in user_query.lower()`. */
  predicate CategoryNamed(query: string, category: string)
  {
    Contains(Lower(query), category)
  }

  /** A row position for every category that has rows: the draw of `sample(1)`. */
  predicate PicksFit(datasets: Dict<ContentFrame>, picks: seq<nat>)
  {
    |picks| == |datasets| && forall i :: 0 <= i < |datasets| ==> (datasets[i].value.rows != [] ==> picks[i] < |datasets[i].value.rows|)
  }

  /** What the category at `i` yields once it is chosen. */
  function Pick(datasets: Dict<ContentFrame>, picks: seq<nat>, i: nat): (r: Result<Option<string>, PromptError>)
    requires PicksFit(datasets, picks) && i < |datasets|
    ensures r.Err? <==> ContentColumn(datasets[i].value).None?
    ensures r.Ok? ==> r.value.Some? && r.value.value in ContentColumn(datasets[i].value).value
  {
    match ContentColumn(datasets[i].value)
    case None => Err(MissingColumn("content"))
    case Some(col) => Ok(Some(col[picks[i]]))
  }

  /**
   * The search from the category at `from` on: the first category named in
   * the query is chosen, and `None` means no category from there on is named.
   */
  function SearchFrom(query: string, datasets: Dict<ContentFrame>, picks: seq<nat>, from: nat)
    : (r: Result<Option<string>, PromptError>)
    requires PicksFit(datasets, picks) && from <= |datasets|
    ensures r == Ok(None) <==> forall i :: from <= i < |datasets| ==> !CategoryNamed(query, datasets[i].key)
    decreases |datasets| - from
  {
    if from == |datasets| then Ok(None)
    else if CategoryNamed(query, datasets[from].key) then Pick(datasets, picks, from)
    else SearchFrom(query, datasets, picks, from + 1)
  }

  /** The search yields what the first category named from `from` on yields. */
  lemma {:induction false} SearchFindsFirst(query: string, datasets: Dict<ContentFrame>, picks: seq<nat>,
                                            from: nat, i: nat)
    requires PicksFit(datasets, picks) && from <= i < |datasets|
    requires CategoryNamed(query, datasets[i].key)
    requires forall j :: from <= j < i ==> !CategoryNamed(query, datasets[j].key)
    ensures SearchFrom(query, datasets, picks, from) == Pick(datasets, picks, i)
    decreases i - from
  {
    if from < i {
      SearchFindsFirst(query, datasets, picks, from + 1, i);
    }
  }

  /**
   * `get_relevant_content`: a value of the content of the first category,
   * in dictionary order, whose name occurs in the lower-cased query, or
   * `None` when there is none. `picks` holds the random row of `sample(1)`
   * for each category.
   */
  function GetRelevantContent(userQuery: string, datasets: Dict<ContentFrame>, picks: seq<nat>)
    : (r: Result<Option<string>, PromptError>)
    requires PicksFit(datasets, picks)
    ensures r == Ok(None) <==> forall i :: 0 <= i < |datasets| ==> !CategoryNamed(userQuery, datasets[i].key)
  {
    SearchFrom(userQuery, datasets, picks, 0)
  }

  /** `v` is a content value of the category at `i`, whose name occurs in `query`. */
  predicate ValueOfNamed(query: string, datasets: Dict<ContentFrame>, i: int, v: string)
  {
    0 <= i < |datasets| && CategoryNamed(query, datasets[i].key)
    && ContentColumn(datasets[i].value).Some? && v in ContentColumn(datasets[i].value).value
  }

  /** The value returned belongs to the content column of a category named in the query. */
  lemma RelevantValueFromNamedCategory(userQuery: string, datasets: Dict<ContentFrame>, picks: seq<nat>)
    requires PicksFit(datasets, picks)
    requires GetRelevantContent(userQuery, datasets, picks).Ok?
    requires GetRelevantContent(userQuery, datasets, picks).value.Some?
    ensures exists i :: ValueOfNamed(userQuery, datasets, i, GetRelevantContent(userQuery, datasets, picks).value.value)
  {
    var r := GetRelevantContent(userQuery, datasets, picks);
    assert r != Ok(None);
    var i := FirstNamed(userQuery, datasets, 0);
    SearchFindsFirst(userQuery, datasets, picks, 0, i);
    assert ValueOfNamed(userQuery, datasets, i, r.value.value);
  }

  /** The index of the first category named in the query, when there is one. */
  function FirstNamed(query: string, datasets: Dict<ContentFrame>, from: nat): (i: nat)
    requires from <= |datasets|
    requires exists i :: from <= i < |datasets| && CategoryNamed(query, datasets[i].key)
    ensures from <= i < |datasets| && CategoryNamed(query, datasets[i].key)
    ensures forall j :: from <= j < i ==> !CategoryNamed(query, datasets[j].key)
    decreases |datasets| - from
  {
    if CategoryNamed(query, datasets[from].key) then from else FirstNamed(query, datasets, from + 1)
  }

  /**
   * Category names are not lower-cased, so a name with an upper-case letter
   * never occurs in the lower-cased query.
   */
  lemma UpperCaseNameNeverNamed(query: string, category: string)
    requires HasUpperAscii(category)
    ensures !CategoryNamed(query, category)
  {
    ContainsAt(Lower(query), category);
    LowerHasNoUpper(query);
    var k :| 0 <= k < |category| && IsUpperAscii(category[k]);
    forall i | 0 <= i && i + |category| <= |Lower(query)|
      ensures !OccursAt(Lower(query), category, i)
    {
      assert !IsUpperAscii(Lower(query)[i + k]);
      assert Lower(query)[i..i + |category|][k] == Lower(query)[i + k];
    }
  }

  /** The category of a file named just `.parquet` is empty, and it is named in every query. */
  lemma EmptyNameAlwaysNamed(query: string)
    ensures CategoryNamed(query, "")
  {
    assert IsPrefix("", Lower(query));
  }
}
