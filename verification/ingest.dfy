/** Corpus assembly from uploaded PDF files (`get_pdf_text`, app.py:28-40).

    The PDF library is not part of this model: an uploaded file is represented
    by what the library lets the loop see of it, namely the text of each page
    in physical order, and whether an exception cut the reading short. */
module Ingest {
  import opened Common

  /** What reading one uploaded file yields.
      `Readable(pages)`: every page was extracted; `pages[k]` is the text of page k.
      `FailsAfter(pagesRead)`: opening the file or extracting a later page raised,
      after exactly the pages in `pagesRead` had been extracted (empty when the
      file could not be opened at all). */
  datatype PdfFile = Readable(pages: seq<string>) | FailsAfter(pagesRead: seq<string>) {

    /** The page texts the loop body sees for this file, in order. */
    function PagesSeen(): seq<string> {
      match this
      case Readable(ps) => ps
      case FailsAfter(ps) => ps
    }
  }

  /** Every page text seen across all files: files in upload order, pages in page order. */
  function AllPages(files: seq<PdfFile>): seq<string> {
    if files == [] then [] else files[0].PagesSeen() + AllPages(files[1..])
  }

  /** The pages whose text is truthy, i.e. non-empty, in their original order. */
  function NonEmpty(pages: seq<string>): seq<string> {
    if pages == [] then []
    else if pages[0] == "" then NonEmpty(pages[1..])
    else [pages[0]] + NonEmpty(pages[1..])
  }

  /** Each page followed by a line feed, concatenated. */
  function Terminated(pages: seq<string>): string {
    if pages == [] then "" else pages[0] + "\n" + Terminated(pages[1..])
  }

  /** Reference definition of the corpus: the ordered concatenation, over files
      then pages, of `page + "\n"` for every non-empty page seen. */
  function Corpus(files: seq<PdfFile>): string {
    Terminated(NonEmpty(AllPages(files)))
  }

  /** What one page adds to the text being built (`if content: text += content + "\n"`). */
  function PageText(page: string): string {
    if page == "" then "" else page + "\n"
  }

  /** Number of characters the corpus gains from the given pages: `len(page) + 1`
      for each non-empty page, nothing for an empty one. */
  function ContributedLength(pages: seq<string>): nat {
    if pages == [] then 0
    else (if pages[0] == "" then 0 else |pages[0]| + 1) + ContributedLength(pages[1..])
  }

  // ---------------------------------------------------------------------------
  // Algebra of the reference definition

  lemma {:induction false} AllPagesAppend(a: seq<PdfFile>, b: seq<PdfFile>)
    ensures AllPages(a + b) == AllPages(a) + AllPages(b)
  {
    if a == [] {
      assert a + b == b;
    } else {
      assert (a + b)[1..] == a[1..] + b;
      AllPagesAppend(a[1..], b);
    }
  }

  lemma {:induction false} NonEmptyAppend(a: seq<string>, b: seq<string>)
    ensures NonEmpty(a + b) == NonEmpty(a) + NonEmpty(b)
  {
    if a == [] {
      assert a + b == b;
    } else {
      assert (a + b)[1..] == a[1..] + b;
      NonEmptyAppend(a[1..], b);
    }
  }

  lemma {:induction false} TerminatedAppend(a: seq<string>, b: seq<string>)
    ensures Terminated(a + b) == Terminated(a) + Terminated(b)
  {
    if a == [] {
      assert a + b == b;
    } else {
      assert (a + b)[1..] == a[1..] + b;
      TerminatedAppend(a[1..], b);
    }
  }

  /** The reference definition, read from the left, adds one page at a time
      exactly as the source's loop body does. */
  lemma CorpusOfPagesSnoc(pages: seq<string>, page: string)
    ensures Terminated(NonEmpty(pages + [page])) == Terminated(NonEmpty(pages)) + PageText(page)
  {
    NonEmptyAppend(pages, [page]);
    TerminatedAppend(NonEmpty(pages), NonEmpty([page]));
    assert [page][1..] == [];
  }

  /** The pages seen in the first `i + 1` files are those of the first `i` files
      followed by those of file `i`. */
  lemma AllPagesPrefix(files: seq<PdfFile>, i: nat)
    requires i < |files|
    ensures AllPages(files[..i + 1]) == AllPages(files[..i]) + files[i].PagesSeen()
  {
    assert files[..i + 1] == files[..i] + [files[i]];
    AllPagesAppend(files[..i], [files[i]]);
    assert [files[i]][1..] == [];
  }

  // ---------------------------------------------------------------------------
  // The operation

  /** `get_pdf_text`: the nested loop of the source, appending `content + "\n"`
      for each non-empty page and moving on to the next file when one raises. */
  method GetPdfText(files: seq<PdfFile>) returns (text: string)
    ensures text == Corpus(files)
    ensures |text| == ContributedLength(AllPages(files))
  {
    text := "";
    var i := 0;
    while i < |files|
      invariant 0 <= i <= |files|
      invariant text == Corpus(files[..i])
    {
      // The loop over `reader.pages`; for a failing file it stops where the
      // exception was raised, and the text appended so far is kept.
      var pages := files[i].PagesSeen();
      var j := 0;
      assert AllPages(files[..i]) + pages[..j] == AllPages(files[..i]);
      while j < |pages|
        invariant 0 <= j <= |pages|
        invariant text == Terminated(NonEmpty(AllPages(files[..i]) + pages[..j]))
      {
        var content := pages[j];
        CorpusOfPagesSnoc(AllPages(files[..i]) + pages[..j], content);
        assert (AllPages(files[..i]) + pages[..j]) + [content]
            == AllPages(files[..i]) + pages[..j + 1];
        if content != "" {
          text := text + content + "\n";
        }
        j := j + 1;
      }
      assert pages[..j] == pages;
      AllPagesPrefix(files, i);
      i := i + 1;
    }
    assert files[..i] == files;
    CorpusLength(files);
  }

  // ---------------------------------------------------------------------------
  // Properties

  /** The corpus length is the sum of `len(page) + 1` over non-empty pages seen. */
  lemma CorpusLength(files: seq<PdfFile>)
    ensures |Corpus(files)| == ContributedLength(AllPages(files))
  {
    TerminatedLength(AllPages(files));
  }

  lemma {:induction false} TerminatedLength(pages: seq<string>)
    ensures |Terminated(NonEmpty(pages))| == ContributedLength(pages)
  {
    if pages != [] {
      TerminatedLength(pages[1..]);
      if pages[0] != "" {
        assert NonEmpty(pages) == [pages[0]] + NonEmpty(pages[1..]);
        assert ([pages[0]] + NonEmpty(pages[1..]))[1..] == NonEmpty(pages[1..]);
      }
    }
  }

  /** Empty pages contribute nothing: removing them anywhere leaves the corpus unchanged. */
  lemma {:induction false} EmptyPageSkipped(before: seq<string>, after: seq<string>)
    ensures Terminated(NonEmpty(before + [""] + after)) == Terminated(NonEmpty(before + after))
  {
    NonEmptyAppend(before + [""], after);
    NonEmptyAppend(before, [""]);
    NonEmptyAppend(before, after);
    assert [""][1..] == [];
    assert NonEmpty([""]) == [];
    assert NonEmpty(before) + [] == NonEmpty(before);
  }

  /** The pages seen across files around one file: those before, its own, those after. */
  lemma AllPagesAround(filesBefore: seq<PdfFile>, f: PdfFile, filesAfter: seq<PdfFile>)
    ensures AllPages(filesBefore + [f] + filesAfter)
         == AllPages(filesBefore) + f.PagesSeen() + AllPages(filesAfter)
  {
    AllPagesAppend(filesBefore + [f], filesAfter);
    AllPagesAppend(filesBefore, [f]);
    assert [f][1..] == [];
  }

  /** An empty page inside any file, among any other files, leaves the corpus unchanged. */
  lemma EmptyPageContributesNothing(filesBefore: seq<PdfFile>, pre: seq<string>, post: seq<string>,
                                    filesAfter: seq<PdfFile>)
    ensures Corpus(filesBefore + [Readable(pre + [""] + post)] + filesAfter)
         == Corpus(filesBefore + [Readable(pre + post)] + filesAfter)
  {
    var b := AllPages(filesBefore);
    var a := AllPages(filesAfter);
    var with := filesBefore + [Readable(pre + [""] + post)] + filesAfter;
    var without := filesBefore + [Readable(pre + post)] + filesAfter;
    AllPagesAround(filesBefore, Readable(pre + [""] + post), filesAfter);
    AllPagesAround(filesBefore, Readable(pre + post), filesAfter);
    assert AllPages(with) == (b + pre) + [""] + (post + a);
    assert AllPages(without) == (b + pre) + (post + a);
    EmptyPageSkipped(b + pre, post + a);
  }

  /** Fail-soft: a file that raises stops neither the files after it nor erases
      the pages it yielded before raising. The corpus splits exactly at that file. */
  lemma FailingFileIsolated(before: seq<PdfFile>, bad: seq<string>, after: seq<PdfFile>)
    ensures Corpus(before + [FailsAfter(bad)] + after)
         == Corpus(before) + Terminated(NonEmpty(bad)) + Corpus(after)
  {
    var mid := [FailsAfter(bad)];
    AllPagesAppend(before + mid, after);
    AllPagesAppend(before, mid);
    assert mid[1..] == [];
    assert AllPages(mid) == bad;
    NonEmptyAppend(AllPages(before) + bad, AllPages(after));
    NonEmptyAppend(AllPages(before), bad);
    TerminatedAppend(NonEmpty(AllPages(before)) + NonEmpty(bad), NonEmpty(AllPages(after)));
    TerminatedAppend(NonEmpty(AllPages(before)), NonEmpty(bad));
  }

  /** A file that raises after `k` pages contributes a prefix of what the same
      file contributes when it reads to the end: the first `k` pages, unchanged. */
  lemma FailureKeepsReadPrefix(pages: seq<string>, k: nat)
    requires k <= |pages|
    ensures Corpus([FailsAfter(pages[..k])]) <= Corpus([Readable(pages)])
    ensures Corpus([FailsAfter(pages[..k])]) == Terminated(NonEmpty(pages[..k]))
  {
    assert [FailsAfter(pages[..k])][1..] == [];
    assert [Readable(pages)][1..] == [];
    assert AllPages([FailsAfter(pages[..k])]) == pages[..k];
    assert AllPages([Readable(pages)]) == pages;
    assert pages == pages[..k] + pages[k..];
    NonEmptyAppend(pages[..k], pages[k..]);
    TerminatedAppend(NonEmpty(pages[..k]), NonEmpty(pages[k..]));
  }

  // ---------------------------------------------------------------------------
  // Reading the corpus back

  /** Index of the first line feed in `s`, or `|s|` when there is none. */
  function FirstNewline(s: string): (k: nat)
    ensures k <= |s|
    ensures k < |s| ==> s[k] == '\n'
    ensures '\n' !in s[..k]
  {
    if s == "" then 0
    else if s[0] == '\n' then 0
    else
      var k := FirstNewline(s[1..]);
      assert s[..k + 1] == [s[0]] + s[1..][..k];
      k + 1
  }

  /** The first line feed after a line without one is the one that ends it. */
  lemma {:induction false} FirstNewlineAfterLine(line: string, rest: string)
    requires '\n' !in line
    ensures FirstNewline(line + "\n" + rest) == |line|
  {
    var s := line + "\n" + rest;
    if line != [] {
      assert s[0] == line[0];
      assert s[1..] == line[1..] + "\n" + rest;
      FirstNewlineAfterLine(line[1..], rest);
    }
  }

  /** Splits a text at its line feeds; a trailing piece without a line feed is kept. */
  function Lines(s: string): seq<string>
    decreases |s|
  {
    if s == "" then []
    else if '\n' !in s then [s]
    else
      var k := FirstNewline(s);
      [s[..k]] + Lines(s[k + 1..])
  }

  /** No page text in the list is empty or holds a line feed. */
  predicate SingleLines(pages: seq<string>) {
    forall i :: 0 <= i < |pages| ==> pages[i] != "" && '\n' !in pages[i]
  }

  /** `Lines` undoes `Terminated` on pages that are single non-empty lines. */
  lemma {:induction false} LinesOfTerminated(pages: seq<string>)
    requires SingleLines(pages)
    ensures Lines(Terminated(pages)) == pages
  {
    if pages != [] {
      var p := pages[0];
      var rest := Terminated(pages[1..]);
      var s := Terminated(pages);
      assert s == p + "\n" + rest;
      FirstNewlineAfterLine(p, rest);
      var k := FirstNewline(s);
      assert s[..k] == p;
      assert s[k + 1..] == rest;
      assert SingleLines(pages[1..]) by {
        forall i | 0 <= i < |pages[1..]|
          ensures pages[1..][i] != "" && '\n' !in pages[1..][i]
        {
          assert pages[1..][i] == pages[i + 1];
        }
      }
      LinesOfTerminated(pages[1..]);
    }
  }

  /** Filtering keeps only non-empty pages, each one taken from the input. */
  lemma {:induction false} NonEmptyPages(pages: seq<string>)
    ensures forall i :: 0 <= i < |NonEmpty(pages)| ==>
      NonEmpty(pages)[i] != "" && NonEmpty(pages)[i] in pages
  {
    if pages != [] {
      NonEmptyPages(pages[1..]);
      forall i | 0 <= i < |NonEmpty(pages)|
        ensures NonEmpty(pages)[i] != "" && NonEmpty(pages)[i] in pages
      {
        if pages[0] != "" && i > 0 {
          assert NonEmpty(pages)[i] == NonEmpty(pages[1..])[i - 1];
        }
        if NonEmpty(pages)[i] in pages[1..] {
          assert pages == [pages[0]] + pages[1..];
        }
      }
    }
  }

  /** When no page text contains a line feed, splitting the corpus at its line
      feeds gives back exactly the non-empty pages, files then pages in order.
      This read-back covers single-line pages only: extracted text usually holds
      line feeds of its own, and then page boundaries cannot be recovered from
      the corpus. */
  lemma CorpusLinesAreNonEmptyPages(files: seq<PdfFile>)
    requires forall p :: p in AllPages(files) ==> '\n' !in p
    ensures Lines(Corpus(files)) == NonEmpty(AllPages(files))
  {
    NonEmptyPages(AllPages(files));
    LinesOfTerminated(NonEmpty(AllPages(files)));
  }
}
