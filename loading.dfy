/**
 * Startup loading: the parquet tables of the dataset folder become a
 * dictionary keyed by category, and the `entries` lists of the curated JSON
 * files are flattened into one list. Directory listings are given as
 * sequences of files in listing order.
 */
module Loading {
  import opened Base
  import opened Text
  import opened Tables

  const JsonSuffix := ".json"

  /** The category of a table file: its name with every `.parquet` removed. */
  function Category(file: string): (category: string)
    ensures |category| <= |file|
  {
    RemoveAll(file, ParquetSuffix)
  }

  /** A name without a dot is its own category. */
  lemma DotFreeCategory(file: string)
    requires '.' !in file
    ensures Category(file) == file
  {
    RemoveAllAbsent(file, ParquetSuffix);
  }

  /** A name with no dot before its `.parquet` extension is named by its stem. */
  lemma CategoryOfPlainName(stem: string)
    requires '.' !in stem
    ensures Category(stem + ParquetSuffix) == stem
  {
    RemoveAllTrailing(stem, ParquetSuffix);
  }

  /**
   * Every occurrence of `.parquet` is removed, not just the extension, so
   * two files can share a category.
   */
  lemma CategoriesCollide()
    ensures Category("a" + ParquetSuffix + ParquetSuffix) == "a"
    ensures Category("a" + ParquetSuffix) == "a"
  {
    CategoryOfPlainName("a");
    var twice := ParquetSuffix + ParquetSuffix;
    var s := "a" + twice;
    AppendAssoc("a", ParquetSuffix, ParquetSuffix);
    assert s[..|ParquetSuffix|] != ParquetSuffix by { assert s[0] == 'a' && ParquetSuffix[0] == '.'; }
    assert s[1..] == twice;
    assert RemoveAll(s, ParquetSuffix) == [s[0]] + RemoveAll(twice, ParquetSuffix);
    assert twice[..|ParquetSuffix|] == ParquetSuffix && twice[|ParquetSuffix|..] == ParquetSuffix;
    assert RemoveAll(twice, ParquetSuffix) == RemoveAll(ParquetSuffix, ParquetSuffix);
    assert ParquetSuffix[..|ParquetSuffix|] == ParquetSuffix && ParquetSuffix[|ParquetSuffix|..] == "";
    assert RemoveAll(ParquetSuffix, ParquetSuffix) == RemoveAll("", ParquetSuffix) == "";
  }

  predicate IsParquet(f: File<ContentFrame>)
  {
    EndsWith(f.name, ParquetSuffix)
  }

  /** The dictionary after the listed files have been handled in order. */
  function ParquetDict(files: seq<File<ContentFrame>>): (d: Dict<ContentFrame>)
    ensures DistinctKeys(d)
  {
    if files == [] then []
    else
      var prev := ParquetDict(files[..|files| - 1]);
      var f := files[|files| - 1];
      if IsParquet(f) then Put(prev, Category(f.name), f.contents) else prev
  }

  /**
   * `load_parquet_data` (and the identical `load_parquet_files`): each
   * `.parquet` file of the listing, in listing order, is stored under its
   * category; other files are skipped.
   */
  method LoadParquetData(files: seq<File<ContentFrame>>) returns (data: Dict<ContentFrame>)
    ensures data == ParquetDict(files)
    ensures DistinctKeys(data)
  {
    data := [];
    for i := 0 to |files|
      invariant data == ParquetDict(files[..i])
    {
      assert files[..i + 1][..i] == files[..i];
      var file := files[i];
      if EndsWith(file.name, ParquetSuffix) {
        var category := Category(file.name);
        data := Put(data, category, file.contents);
      }
    }
    assert files[..|files|] == files;
  }

  /** The categories of the parquet files among the listed files. */
  function ParquetCategories(files: seq<File<ContentFrame>>): set<string>
  {
    set f | f in files && IsParquet(f) :: Category(f.name)
  }

  /** The keys are exactly the categories of the `.parquet` files. */
  lemma {:induction false} ParquetKeys(files: seq<File<ContentFrame>>)
    ensures KeySet(ParquetDict(files)) == ParquetCategories(files)
  {
    if files != [] {
      var init := files[..|files| - 1];
      ParquetKeys(init);
      assert files == init + [files[|files| - 1]];
      assert forall f :: f in files <==> f in init || f == files[|files| - 1];
    }
  }

  /**
   * A category holds the table of the last parquet file with that
   * category: a later file replaces an earlier one's table.
   */
  lemma {:induction false} ParquetLastWins(files: seq<File<ContentFrame>>, i: nat)
    requires i < |files| && IsParquet(files[i])
    requires forall j :: i < j < |files| && IsParquet(files[j]) ==>
               Category(files[j].name) != Category(files[i].name)
    ensures Get(ParquetDict(files), Category(files[i].name)) == Some(files[i].contents)
  {
    var n := |files| - 1;
    var prev := ParquetDict(files[..n]);
    var last := files[n];
    var c := Category(files[i].name);
    assert ParquetDict(files) == if IsParquet(last) then Put(prev, Category(last.name), last.contents) else prev;
    if i < n {
      assert files[..n][i] == files[i];
      assert forall j :: i < j < n ==> files[..n][j] == files[j];
      ParquetLastWins(files[..n], i);
      assert IsParquet(last) ==> Category(last.name) != c;
    }
  }

  predicate HasEntries(f: File<JsonDoc>)
  {
    EndsWith(f.name, JsonSuffix) && f.contents.entries.Some?
  }

  /** The curated list after the listed files have been handled in order. */
  function CuratedEntries(files: seq<File<JsonDoc>>): seq<CuratedEntry>
  {
    if files == [] then []
    else
      var f := files[|files| - 1];
      CuratedEntries(files[..|files| - 1]) + (if HasEntries(f) then f.contents.entries.value else [])
  }

  /**
   * `load_curated_data`: the `entries` lists of the `.json` files that have
   * that key, concatenated in listing order.
   */
  method LoadCuratedData(files: seq<File<JsonDoc>>) returns (data: seq<CuratedEntry>)
    ensures data == CuratedEntries(files)
  {
    data := [];
    for i := 0 to |files|
      invariant data == CuratedEntries(files[..i])
    {
      assert files[..i + 1][..i] == files[..i];
      var file := files[i];
      if EndsWith(file.name, JsonSuffix) {
        var jsonData := file.contents;
        if jsonData.entries.Some? {
          data := data + jsonData.entries.value;
        }
      }
    }
    assert files[..|files|] == files;
  }

  /** Loading two listings one after the other gives the two lists concatenated. */
  lemma {:induction false} CuratedAppend(a: seq<File<JsonDoc>>, b: seq<File<JsonDoc>>)
    ensures CuratedEntries(a + b) == CuratedEntries(a) + CuratedEntries(b)
    decreases |b|
  {
    if b == [] {
      assert a + b == a;
    } else {
      assert (a + b)[..|a + b| - 1] == a + b[..|b| - 1];
      CuratedAppend(a, b[..|b| - 1]);
    }
  }

  /** Files that are not `.json`, or have no `entries` key, contribute nothing. */
  lemma {:induction false} CuratedIgnoresOthers(files: seq<File<JsonDoc>>)
    requires forall k :: 0 <= k < |files| ==> !HasEntries(files[k])
    ensures CuratedEntries(files) == []
  {
    if files != [] {
      CuratedIgnoresOthers(files[..|files| - 1]);
    }
  }

  /** An entry is loaded exactly when some `.json` file with `entries` lists it. */
  lemma {:induction false} CuratedMembers(files: seq<File<JsonDoc>>, e: CuratedEntry)
    ensures e in CuratedEntries(files) <==>
            exists k :: 0 <= k < |files| && HasEntries(files[k]) && e in files[k].contents.entries.value
  {
    if files != [] {
      var n := |files| - 1;
      CuratedMembers(files[..n], e);
      assert forall k :: 0 <= k < n ==> files[..n][k] == files[k];
    }
  }
}
