/**
 * The application's data: rows of extracted text, the tables written and
 * read as parquet files, Python's insertion-ordered `dict`, and the curated
 * question/answer entries read from JSON.
 */
module Tables {
  import opened Base

  /** The extension of the table files the ingestion script writes and the application reads. */
  const ParquetSuffix := ".parquet"

  /** One line of extracted text and the PDF it came from. */
  datatype ContentRow = ContentRow(fileName: string, content: string)

  /** A table of content rows, as a parquet file holds it. */
  datatype ContentFrame = ContentFrame(rows: seq<ContentRow>)

  /**
   * The `content` column of a table. A table built from an empty list of
   * records has no columns at all, so looking the column up fails.
   */
  function ContentColumn(f: ContentFrame): (col: Option<seq<string>>)
    ensures col.None? <==> f.rows == []
    ensures col.Some? ==> |col.value| == |f.rows|
                          && forall k :: 0 <= k < |f.rows| ==> col.value[k] == f.rows[k].content
  {
    if f.rows == [] then None else Some(seq(|f.rows|, k requires 0 <= k < |f.rows| => f.rows[k].content))
  }

  /** A known question and its reference answer. */
  datatype CuratedEntry = CuratedEntry(userInput: string, chatbotResponse: string)

  /** A parsed JSON document: the list under its `entries` key, if it has one. */
  datatype JsonDoc = JsonDoc(entries: Option<seq<CuratedEntry>>)

  /** A directory entry: a file name and what reading the file gives. */
  datatype File<T> = File(name: string, contents: T)

  /** One key of an insertion-ordered dictionary with its value. */
  datatype Item<V> = Item(key: string, value: V)

  /** Python's `dict`: items in insertion order, keys pairwise distinct. */
  type Dict<V> = seq<Item<V>>

  predicate DistinctKeys<V>(d: Dict<V>)
  {
    forall i, j :: 0 <= i < j < |d| ==> d[i].key != d[j].key
  }

  function KeySet<V>(d: Dict<V>): (ks: set<string>)
    ensures forall k :: k in ks <==> exists i :: 0 <= i < |d| && d[i].key == k
  {
    set i | 0 <= i < |d| :: d[i].key
  }

  function Get<V>(d: Dict<V>, k: string): (r: Option<V>)
    ensures r.None? <==> k !in KeySet(d)
    ensures r.Some? ==> exists i :: 0 <= i < |d| && d[i] == Item(k, r.value)
  {
    if d == [] then None
    else if d[0].key == k then Some(d[0].value)
    else Get(d[1..], k)
  }

  /** Position of key `k` in `d`, or -1. */
  function IndexOfKey<V>(d: Dict<V>, k: string): (i: int)
    ensures -1 <= i < |d|
    ensures i == -1 <==> k !in KeySet(d)
    ensures i >= 0 ==> d[i].key == k
    ensures forall j :: 0 <= j < i ==> d[j].key != k
  {
    if d == [] then -1
    else if d[0].key == k then 0
    else
      var i := IndexOfKey(d[1..], k);
      assert forall k' :: k' in KeySet(d) <==> k' == d[0].key || k' in KeySet(d[1..]);
      if i == -1 then -1 else i + 1
  }

  /**
   * `d[k] = v`: an existing key keeps its position and takes the new value;
   * a new key goes at the end.
   */
  function Put<V>(d: Dict<V>, k: string, v: V): (r: Dict<V>)
    requires DistinctKeys(d)
    ensures DistinctKeys(r)
    ensures KeySet(r) == KeySet(d) + {k}
    ensures Get(r, k) == Some(v)
    ensures forall k' :: k' != k ==> Get(r, k') == Get(d, k')
    ensures k in KeySet(d) ==> |r| == |d| && forall i :: 0 <= i < |d| ==> r[i].key == d[i].key
    ensures k !in KeySet(d) ==> r == d + [Item(k, v)]
  {
    var i := IndexOfKey(d, k);
    var r := if i >= 0 then d[i := Item(k, v)] else d + [Item(k, v)];
    PutKeys(d, k, v, i, r);
    PutGets(d, k, v, i, r);
    r
  }

  lemma PutKeys<V>(d: Dict<V>, k: string, v: V, i: int, r: Dict<V>)
    requires DistinctKeys(d)
    requires -1 <= i < |d| && (i == -1 <==> k !in KeySet(d)) && (i >= 0 ==> d[i].key == k)
    requires r == if i >= 0 then d[i := Item(k, v)] else d + [Item(k, v)]
    ensures DistinctKeys(r)
    ensures KeySet(r) == KeySet(d) + {k}
    ensures k in KeySet(d) ==> |r| == |d| && forall j :: 0 <= j < |d| ==> r[j].key == d[j].key
  {
    assert forall j :: 0 <= j < |r| ==> r[j].key == if j < |d| then d[j].key else k;
    assert r[if i >= 0 then i else |d|].key == k;
    forall x | x in KeySet(d) ensures x in KeySet(r) {
      var j :| 0 <= j < |d| && d[j].key == x;
      assert r[j].key == x;
    }
  }

  lemma PutGets<V>(d: Dict<V>, k: string, v: V, i: int, r: Dict<V>)
    requires DistinctKeys(d) && DistinctKeys(r)
    requires -1 <= i < |d| && (i >= 0 ==> d[i].key == k)
    requires r == if i >= 0 then d[i := Item(k, v)] else d + [Item(k, v)]
    ensures Get(r, k) == Some(v)
    ensures forall k' :: k' != k ==> Get(r, k') == Get(d, k')
  {
    assert r[if i >= 0 then i else |d|] == Item(k, v);
    GetFacts(r, k, v);
    forall k' | k' != k ensures Get(r, k') == Get(d, k') {
      forall j | 0 <= j < |d| && d[j].key == k' ensures d[j] in r {
        assert r[j] == d[j];
      }
      forall j | 0 <= j < |r| && r[j].key == k' ensures r[j] in d {
        assert j < |d| && r[j] == d[j];
      }
      GetAgree(d, r, k');
    }
  }

  /** A key sitting at a position is what `Get` returns, when keys are distinct. */
  lemma GetFacts<V>(d: Dict<V>, k: string, v: V)
    requires DistinctKeys(d)
    requires exists i :: 0 <= i < |d| && d[i] == Item(k, v)
    ensures Get(d, k) == Some(v)
  {
    var i :| 0 <= i < |d| && d[i] == Item(k, v);
    if i > 0 {
      assert d[1..][i - 1] == Item(k, v);
      GetFacts(d[1..], k, v);
    }
  }

  /** Two dictionaries that hold the same items for key `k` agree on `Get(_, k)`. */
  lemma GetAgree<V>(d: Dict<V>, e: Dict<V>, k: string)
    requires DistinctKeys(d) && DistinctKeys(e)
    requires forall i :: 0 <= i < |d| && d[i].key == k ==> d[i] in e
    requires forall i :: 0 <= i < |e| && e[i].key == k ==> e[i] in d
    ensures Get(d, k) == Get(e, k)
  {
    match Get(d, k)
    case Some(v) =>
      var i :| 0 <= i < |d| && d[i] == Item(k, v);
      var j :| 0 <= j < |e| && e[j] == d[i];
      GetFacts(e, k, v);
    case None =>
      assert k !in KeySet(d);
  }
}
