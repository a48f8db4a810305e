/** `TextProcessor.extract_text` after loading and splitting: the pages,
    each already split into chunks, flattened into numbered chunk records. */
module PdfProcessor {
  import opened Strings

  /** One entry of `docs`: the `id`, `chunk_text` and `document_name` keys. */
  datatype ChunkRecord = ChunkRecord(id: string, chunkText: string, documentName: string)

  /** `f"{file_name}-p{i+1}-c{j+1}"`. */
  function ChunkId(fileName: string, i: nat, j: nat): string {
    fileName + "-p" + Decimal(i + 1) + "-c" + Decimal(j + 1)
  }

  function Record(fileName: string, i: nat, j: nat, chunk: string): ChunkRecord {
    ChunkRecord(ChunkId(fileName, i, j), chunk, fileName)
  }

  /** The records of page `i`, one per chunk, in chunk order. */
  function PageRecords(fileName: string, i: nat, chunks: seq<string>): (r: seq<ChunkRecord>)
    ensures |r| == |chunks|
    ensures forall j :: 0 <= j < |chunks| ==> r[j] == Record(fileName, i, j, chunks[j])
  {
    seq(|chunks|, j requires 0 <= j < |chunks| => Record(fileName, i, j, chunks[j]))
  }

  /** The records of all pages, page after page. */
  function AllRecords(pages: seq<seq<string>>, fileName: string): seq<ChunkRecord>
    decreases |pages|
  {
    if pages == [] then []
    else AllRecords(pages[..|pages| - 1], fileName) + PageRecords(fileName, |pages| - 1, pages[|pages| - 1])
  }

  /** The number of chunks on all pages together. */
  function TotalChunks(pages: seq<seq<string>>): nat
    decreases |pages|
  {
    if pages == [] then 0 else TotalChunks(pages[..|pages| - 1]) + |pages[|pages| - 1]|
  }

  /** The nested loops of `extract_text` over the split pages. */
  method ExtractText(pages: seq<seq<string>>, fileName: string) returns (docs: seq<ChunkRecord>)
    ensures docs == AllRecords(pages, fileName)
  {
    docs := [];
    var i := 0;
    while i < |pages|
      invariant 0 <= i <= |pages|
      invariant docs == AllRecords(pages[..i], fileName)
    {
      var chunks := pages[i];
      var j := 0;
      while j < |chunks|
        invariant 0 <= j <= |chunks|
        invariant docs == AllRecords(pages[..i], fileName) + PageRecords(fileName, i, chunks[..j])
      {
        docs := docs + [ChunkRecord(fileName + "-p" + Decimal(i + 1) + "-c" + Decimal(j + 1), chunks[j], fileName)];
        PageRecordsStep(fileName, i, chunks, j);
        j := j + 1;
      }
      assert chunks[..j] == chunks;
      assert pages[..i + 1][..i] == pages[..i];
      i := i + 1;
    }
    assert pages[..i] == pages;
  }

  lemma PageRecordsStep(fileName: string, i: nat, chunks: seq<string>, j: nat)
    requires j < |chunks|
    ensures PageRecords(fileName, i, chunks[..j + 1])
      == PageRecords(fileName, i, chunks[..j]) + [Record(fileName, i, j, chunks[j])]
  {
  }

  /** There is one record per chunk. */
  lemma {:induction false} RecordCount(pages: seq<seq<string>>, fileName: string)
    ensures |AllRecords(pages, fileName)| == TotalChunks(pages)
    decreases |pages|
  {
    if pages != [] {
      RecordCount(pages[..|pages| - 1], fileName);
    }
  }

  /** Where the records of page `i` start: after the chunks of the pages
      before it. */
  function Offset(pages: seq<seq<string>>, i: nat): nat
    requires i <= |pages|
  {
    TotalChunks(pages[..i])
  }

  lemma {:induction false} OffsetMonotone(pages: seq<seq<string>>, i: nat)
    requires i < |pages|
    ensures Offset(pages, i) + |pages[i]| <= TotalChunks(pages)
    decreases |pages|
  {
    var n := |pages| - 1;
    if i < n {
      assert pages[..n][..i] == pages[..i];
      OffsetMonotone(pages[..n], i);
    } else {
      assert pages[..i] == pages[..n];
    }
  }

  /** Chunk `j` of page `i` becomes record number `Offset(pages, i) + j`:
      its text verbatim, the file name, and the 1-based id of page and chunk.
      Records are ordered by page, then by chunk. */
  lemma {:induction false} RecordAt(pages: seq<seq<string>>, fileName: string, i: nat, j: nat)
    requires i < |pages| && j < |pages[i]|
    ensures Offset(pages, i) + j < |AllRecords(pages, fileName)|
    ensures AllRecords(pages, fileName)[Offset(pages, i) + j] == ChunkRecord(ChunkId(fileName, i, j), pages[i][j], fileName)
    decreases |pages|
  {
    var n := |pages| - 1;
    var init := pages[..n];
    RecordCount(init, fileName);
    RecordCount(pages, fileName);
    if i < n {
      assert init[..i] == pages[..i];
      RecordAt(init, fileName, i, j);
    } else {
      assert init == pages[..i];
    }
  }

  /** Every record goes back to one chunk of one page. */
  lemma {:induction false} Locate(pages: seq<seq<string>>, fileName: string, p: nat) returns (i: nat, j: nat)
    requires p < |AllRecords(pages, fileName)|
    ensures i < |pages| && j < |pages[i]| && p == Offset(pages, i) + j
    ensures AllRecords(pages, fileName)[p] == Record(fileName, i, j, pages[i][j])
    decreases |pages|
  {
    var n := |pages| - 1;
    var init := pages[..n];
    RecordCount(init, fileName);
    if p < |AllRecords(init, fileName)| {
      i, j := Locate(init, fileName, p);
      assert init[..i] == pages[..i];
    } else {
      i, j := n, p - |AllRecords(init, fileName)|;
      assert init == pages[..i];
    }
  }

  /** Every record carries the file name as its document name. */
  lemma DocumentNames(pages: seq<seq<string>>, fileName: string)
    ensures forall p :: 0 <= p < |AllRecords(pages, fileName)| ==> AllRecords(pages, fileName)[p].documentName == fileName
  {
    forall p | 0 <= p < |AllRecords(pages, fileName)|
      ensures AllRecords(pages, fileName)[p].documentName == fileName
    {
      var i, j := Locate(pages, fileName, p);
    }
  }

  lemma DashAfter(a: string, b: string)
    ensures (a + "-c" + b)[|a|] == '-'
  {
  }

  lemma DigitsPlusDash(a: string, b: string, c: string, d: string)
    requires forall k :: 0 <= k < |a| ==> IsDigit(a[k])
    requires forall k :: 0 <= k < |c| ==> IsDigit(c[k])
    requires a + "-c" + b == c + "-c" + d
    ensures a == c && b == d
  {
    var l, r := a + "-c" + b, c + "-c" + d;
    DashAfter(a, b);
    DashAfter(c, d);
    assert |a| == |c|;
    assert a == l[..|a|] && c == r[..|c|];
    assert b == l[|a| + 2..] && d == r[|c| + 2..];
  }

  /** The id determines the page and the chunk number. */
  lemma ChunkIdInjective(fileName: string, i: nat, j: nat, i': nat, j': nat)
    requires ChunkId(fileName, i, j) == ChunkId(fileName, i', j')
    ensures i == i' && j == j'
  {
    var a, b := Decimal(i + 1), Decimal(j + 1);
    var c, d := Decimal(i' + 1), Decimal(j' + 1);
    IdTail(fileName, a, b);
    IdTail(fileName, c, d);
    DigitsPlusDash(a, b, c, d);
    DecimalInjective(i + 1, i' + 1);
    DecimalInjective(j + 1, j' + 1);
  }

  /** What follows the file name and `-p` in an id. */
  lemma IdTail(fileName: string, a: string, b: string)
    ensures (fileName + "-p" + a + "-c" + b)[|fileName| + 2..] == a + "-c" + b
  {
    assert fileName + "-p" + a + "-c" + b == (fileName + "-p") + (a + "-c" + b);
  }

  /** For one file name, no two records share an id. */
  lemma IdsDistinct(pages: seq<seq<string>>, fileName: string, p: nat, q: nat)
    requires p < q < |AllRecords(pages, fileName)|
    ensures AllRecords(pages, fileName)[p].id != AllRecords(pages, fileName)[q].id
  {
    var i, j := Locate(pages, fileName, p);
    var i', j' := Locate(pages, fileName, q);
    if AllRecords(pages, fileName)[p].id == AllRecords(pages, fileName)[q].id {
      ChunkIdInjective(fileName, i, j, i', j');
    }
  }

  /** A page without chunks adds no record, yet the next page is still
      numbered after it. */
  lemma EmptyPageKeepsNumbering(pages: seq<seq<string>>, fileName: string, chunk: string)
    ensures AllRecords(pages + [[]] + [[chunk]], fileName)
      == AllRecords(pages, fileName) + [Record(fileName, |pages| + 1, 0, chunk)]
  {
    var withEmpty := pages + [[]];
    var all := withEmpty + [[chunk]];
    assert all[..|all| - 1] == withEmpty;
    assert withEmpty[..|withEmpty| - 1] == pages;
    assert AllRecords(withEmpty, fileName) == AllRecords(pages, fileName) + [];
  }
}
