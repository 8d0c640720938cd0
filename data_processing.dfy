/**
 * The ingestion script: PDF text is concatenated page by page, split into
 * lines, and every non-blank stripped line becomes a row of a parquet table
 * named after the PDF.
 */
module DataProcessing {
  import opened Text
  import opened Tables

  const PdfSuffix := ".pdf"

  /** `extract_text_from_pdf`: the document's pages are given as their texts. */
  method ExtractTextFromPdf(pages: seq<string>) returns (text: string)
    ensures text == Concat(pages)
  {
    text := "";
    for i := 0 to |pages|
      invariant text == Concat(pages[..i])
    {
      assert pages[..i + 1][..i] == pages[..i];
      text := text + pages[i];
    }
    assert pages[..|pages|] == pages;
  }

  /** The rows for the given lines: each non-blank line, stripped, tagged with the file name. */
  function RowsOf(fileName: string, lines: seq<string>): seq<ContentRow>
  {
    if lines == [] then []
    else
      var last := Strip(lines[|lines| - 1]);
      RowsOf(fileName, lines[..|lines| - 1]) + (if last != "" then [ContentRow(fileName, last)] else [])
  }

  /** The rows built from a document's text. */
  function Rows(fileName: string, text: string): seq<ContentRow>
  {
    RowsOf(fileName, Split(text, '\n'))
  }

  /** The positions of the lines that are not blank once stripped, in increasing order. */
  function KeptIndices(lines: seq<string>): (idx: seq<nat>)
    ensures forall k :: 0 <= k < |idx| ==> idx[k] < |lines| && !Blank(lines[idx[k]])
    ensures forall k, m :: 0 <= k < m < |idx| ==> idx[k] < idx[m]
  {
    if lines == [] then []
    else
      var n := |lines| - 1;
      var prev := KeptIndices(lines[..n]);
      assert forall k :: 0 <= k < |prev| ==> lines[..n][prev[k]] == lines[prev[k]];
      assert forall j :: 0 <= j < n ==> lines[..n][j] == lines[j];
      prev + (if !Blank(lines[n]) then [n] else [])
  }

  /** No non-blank line is left out. */
  lemma {:induction false} KeptComplete(lines: seq<string>, j: nat)
    requires j < |lines| && !Blank(lines[j])
    ensures j in KeptIndices(lines)
  {
    var n := |lines| - 1;
    var prev := KeptIndices(lines[..n]);
    assert KeptIndices(lines) == prev + (if !Blank(lines[n]) then [n] else []);
    if j < n {
      assert lines[..n][j] == lines[j];
      KeptComplete(lines[..n], j);
      assert j in prev;
    }
  }

  /**
   * The rows are exactly the stripped non-blank lines, in line order: row
   * `k` is line `KeptIndices(lines)[k]` stripped, and every line left out
   * strips to the empty string.
   */
  lemma {:induction false} RowsAreKeptLines(fileName: string, lines: seq<string>)
    ensures |RowsOf(fileName, lines)| == |KeptIndices(lines)|
    ensures forall k :: 0 <= k < |KeptIndices(lines)| ==>
              RowsOf(fileName, lines)[k] == ContentRow(fileName, Strip(lines[KeptIndices(lines)[k]]))
  {
    if lines != [] {
      var n := |lines| - 1;
      var init := lines[..n];
      RowsAreKeptLines(fileName, init);
      var prev := KeptIndices(init);
      var prevRows := RowsOf(fileName, init);
      var last := Strip(lines[n]);
      var rows := RowsOf(fileName, lines);
      var idx := KeptIndices(lines);
      BlankIff(lines[n]);
      assert rows == prevRows + (if last != "" then [ContentRow(fileName, last)] else []);
      assert idx == prev + (if last != "" then [n] else []);
      forall k | 0 <= k < |idx| ensures rows[k] == ContentRow(fileName, Strip(lines[idx[k]])) {
        if k < |prev| {
          assert rows[k] == prevRows[k];
          assert init[prev[k]] == lines[prev[k]];
        }
      }
    }
  }

  /** A row of the PDF `fileName`: non-empty content with no whitespace at either end. */
  predicate WellFormedRow(fileName: string, r: ContentRow)
  {
    r.fileName == fileName && r.content != ""
    && !IsSpace(r.content[0]) && !IsSpace(r.content[|r.content| - 1])
  }

  /**
   * Every row carries the PDF's name and a non-empty content with no leading
   * or trailing whitespace, and there are at most as many rows as lines.
   */
  lemma {:induction false} RowsWellFormed(fileName: string, lines: seq<string>)
    ensures |RowsOf(fileName, lines)| <= |lines|
    ensures forall k :: 0 <= k < |RowsOf(fileName, lines)| ==> WellFormedRow(fileName, RowsOf(fileName, lines)[k])
  {
    var rows, idx := RowsOf(fileName, lines), KeptIndices(lines);
    RowsAreKeptLines(fileName, lines);
    IncreasingBounded(idx, |lines|);
    forall k | 0 <= k < |rows| ensures WellFormedRow(fileName, rows[k]) {
      BlankIff(lines[idx[k]]);
    }
  }

  /** No line is kept exactly when every line is blank. */
  lemma NoneKeptIffBlank(lines: seq<string>)
    ensures KeptIndices(lines) == [] <==> forall k :: 0 <= k < |lines| ==> Blank(lines[k])
  {
    if KeptIndices(lines) == [] {
      forall k | 0 <= k < |lines| ensures Blank(lines[k]) {
        if !Blank(lines[k]) {
          KeptComplete(lines, k);
        }
      }
    }
  }

  /**
   * Lines that are all blank give a table with no rows, and so with no
   * `content` column at all; any other lines give one.
   */
  lemma {:induction false} BlankDocumentHasNoColumn(fileName: string, lines: seq<string>)
    ensures ContentColumn(ContentFrame(RowsOf(fileName, lines))).None?
            <==> forall k :: 0 <= k < |lines| ==> AllSpace(lines[k])
  {
    RowsAreKeptLines(fileName, lines);
    NoneKeptIffBlank(lines);
    forall k | 0 <= k < |lines| {
      BlankIff(lines[k]);
    }
  }

  /** A strictly increasing sequence of indices below `n` has at most `n` elements. */
  lemma {:induction false} IncreasingBounded(idx: seq<nat>, n: nat)
    requires forall k :: 0 <= k < |idx| ==> idx[k] < n
    requires forall k, m :: 0 <= k < m < |idx| ==> idx[k] < idx[m]
    ensures |idx| <= n
    decreases n
  {
    if idx != [] {
      var last := idx[|idx| - 1];
      IncreasingBounded(idx[..|idx| - 1], last);
    }
  }

  /** The parquet file name for a PDF: `os.path.splitext(name)[0] + ".parquet"`. */
  function OutputName(pdfFile: string): (name: string)
    ensures EndsWith(name, ParquetSuffix)
    ensures IsPrefix(name[..|name| - |ParquetSuffix|], pdfFile)
  {
    SplitExtRootShape(pdfFile);
    SuffixOfConcat(SplitExtRoot(pdfFile), ParquetSuffix);
    assert (SplitExtRoot(pdfFile) + ParquetSuffix)[..|SplitExtRoot(pdfFile)|] == SplitExtRoot(pdfFile);
    SplitExtRoot(pdfFile) + ParquetSuffix
  }

  /** A plain name `stem.pdf` is saved as `stem.parquet`. */
  lemma OutputNameOfPdf(stem: string)
    requires '/' !in stem && !AllDots(stem)
    ensures OutputName(stem + PdfSuffix) == stem + ParquetSuffix
  {
    SplitExtRootOfName(stem, PdfSuffix);
  }

  /**
   * A name that is only `.pdf` has no extension to `os.path.splitext`, so it
   * is saved under `.pdf.parquet`, the same name `.pdf.pdf` is saved under.
   */
  lemma HiddenPdfName()
    ensures OutputName(".pdf") == ".pdf.parquet"
    ensures OutputName(".pdf.pdf") == ".pdf.parquet"
  {
    assert LastIndexOf(".pdf", '/') == -1;
    assert LastIndexOf(".pdf", '.') == 0;
    assert LastIndexOf(".pdf.pdf", '/') == -1;
    assert ".pdf.pdf"[4] == '.';
    assert LastIndexOf(".pdf.pdf", '.') == 4;
    assert !AllDots(".pdf.pdf"[0..4]) by { assert ".pdf.pdf"[1] == 'p'; }
  }

  /** The table saved for one PDF. */
  function FrameOf(pdfFile: string, pagesOf: string -> seq<string>): ContentFrame
  {
    ContentFrame(Rows(pdfFile, Concat(pagesOf(pdfFile))))
  }

  /** The output folder after handling the listed files in order. */
  function SaveAll(folder: map<string, ContentFrame>, listing: seq<string>,
                   pagesOf: string -> seq<string>): (written: map<string, ContentFrame>)
    ensures folder.Keys <= written.Keys
  {
    if listing == [] then folder
    else
      SaveOne(SaveAll(folder, listing[..|listing| - 1], pagesOf), listing[|listing| - 1], pagesOf)
  }

  /** The output folder after handling one listed file. */
  function SaveOne(folder: map<string, ContentFrame>, f: string,
                   pagesOf: string -> seq<string>): (written: map<string, ContentFrame>)
    ensures written.Keys == folder.Keys + (if EndsWith(f, PdfSuffix) then {OutputName(f)} else {})
    ensures forall k :: k in folder && (EndsWith(f, PdfSuffix) ==> k != OutputName(f)) ==> written[k] == folder[k]
  {
    if EndsWith(f, PdfSuffix) then folder[OutputName(f) := FrameOf(f, pagesOf)] else folder
  }

  /** Handling a PDF writes its table under its parquet name. */
  lemma SaveOneWrites(folder: map<string, ContentFrame>, f: string, pagesOf: string -> seq<string>)
    requires EndsWith(f, PdfSuffix)
    ensures OutputName(f) in SaveOne(folder, f, pagesOf)
    ensures SaveOne(folder, f, pagesOf)[OutputName(f)] == FrameOf(f, pagesOf)
  {
  }

  /** Handling a file leaves every other name of the folder as it was. */
  lemma SaveOneKeeps(folder: map<string, ContentFrame>, f: string, pagesOf: string -> seq<string>,
                     key: string)
    requires key in folder
    requires EndsWith(f, PdfSuffix) ==> OutputName(f) != key
    ensures key in SaveOne(folder, f, pagesOf)
    ensures SaveOne(folder, f, pagesOf)[key] == folder[key]
  {
  }

  /**
   * `process_and_save_data`: the PDFs of the listing, in listing order, each
   * written to the output folder under its parquet name (a later file
   * overwrites an earlier one of the same name). `pagesOf` gives each PDF's
   * page texts.
   */
  method ProcessAndSaveData(listing: seq<string>, pagesOf: string -> seq<string>,
                            folder: map<string, ContentFrame>)
    returns (written: map<string, ContentFrame>)
    ensures written == SaveAll(folder, listing, pagesOf)
  {
    written := folder;
    for i := 0 to |listing|
      invariant written == SaveAll(folder, listing[..i], pagesOf)
    {
      assert listing[..i + 1][..i] == listing[..i];
      var pdfFile := listing[i];
      if EndsWith(pdfFile, PdfSuffix) {
        var text := ExtractTextFromPdf(pagesOf(pdfFile));
        var data := Rows(pdfFile, text);
        assert ContentFrame(data) == FrameOf(pdfFile, pagesOf);
        written := written[OutputName(pdfFile) := ContentFrame(data)];
      }
      assert listing[..i + 1][i] == pdfFile;
    }
    assert listing[..|listing|] == listing;
  }

  /** The parquet names of the PDFs among the listed files. */
  function PdfOutputs(listing: seq<string>): set<string>
  {
    set f | f in listing && EndsWith(f, PdfSuffix) :: OutputName(f)
  }

  /**
   * Exactly the listed PDFs produce files: the folder gains their parquet
   * names and nothing else. A file whose name does not end in `.pdf` is
   * not processed.
   */
  lemma {:induction false} SavedNames(folder: map<string, ContentFrame>, listing: seq<string>,
                                      pagesOf: string -> seq<string>)
    ensures SaveAll(folder, listing, pagesOf).Keys == folder.Keys + PdfOutputs(listing)
  {
    if listing != [] {
      var init := listing[..|listing| - 1];
      SavedNames(folder, init, pagesOf);
      assert listing == init + [listing[|listing| - 1]];
      assert forall f :: f in listing <==> f in init || f == listing[|listing| - 1];
    }
  }

  /**
   * The file saved for a PDF holds that PDF's rows, unless a later PDF in
   * the listing is saved under the same name.
   */
  lemma {:induction false} SavedRows(folder: map<string, ContentFrame>, listing: seq<string>,
                                     pagesOf: string -> seq<string>, i: nat)
    requires i < |listing| && EndsWith(listing[i], PdfSuffix)
    requires forall j :: i < j < |listing| && EndsWith(listing[j], PdfSuffix) ==>
               OutputName(listing[j]) != OutputName(listing[i])
    ensures OutputName(listing[i]) in SaveAll(folder, listing, pagesOf)
    ensures SaveAll(folder, listing, pagesOf)[OutputName(listing[i])] == FrameOf(listing[i], pagesOf)
  {
    var n := |listing| - 1;
    var init := listing[..n];
    var prev := SaveAll(folder, init, pagesOf);
    if i < n {
      assert init[i] == listing[i];
      assert forall j :: i < j < n ==> init[j] == listing[j];
      SavedRows(folder, init, pagesOf, i);
      SaveOneKeeps(prev, listing[n], pagesOf, OutputName(listing[i]));
    } else {
      SaveOneWrites(prev, listing[n], pagesOf);
    }
  }
}
