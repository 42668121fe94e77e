/** The chunking and row layout of only_sqlit.py: `chunk_text` with its
    defaults, the page join of `extract_text_from_pdf`, and the rows
    `embed_pdf` inserts. The embedding model is a parameter. */
module SqliteStore {
  import opened Common
  import opened PyStr
  import opened Chunking

  const ChunkSize := 1000
  const OverlapSize := 80

  /** `"\n".join(page.get_text() for page in doc)` over the pages' texts. */
  function ExtractText(pages: seq<string>): string
  {
    JoinWith("\n", pages)
  }

  /** Each further page follows the text so far after one line break. */
  lemma {:induction false} ExtractTextAppend(pages: seq<string>, page: string)
    requires |pages| > 0
    ensures ExtractText(pages + [page]) == ExtractText(pages) + "\n" + page
    decreases |pages|
  {
    var all := pages + [page];
    assert all[0] == pages[0] && |all| > 1;
    assert ExtractText(all) == pages[0] + "\n" + ExtractText(all[1..]);
    if |pages| > 1 {
      assert all[1..] == pages[1..] + [page];
      ExtractTextAppend(pages[1..], page);
      assert ExtractText(pages) == pages[0] + "\n" + ExtractText(pages[1..]);
    } else {
      assert all[1..] == [page];
      assert ExtractText(pages) == pages[0];
    }
  }

  /** `chunk_text(text, chunk_size, overlap_size)` */
  function ChunkText(text: string, chunkSize: int, overlapSize: int): (r: seq<string>)
    requires Terminates(text, chunkSize, overlapSize)
    ensures |text| == 0 ==> r == []
  {
    Windows(text, chunkSize, overlapSize)
  }

  /** One row of the `embeddings` table. */
  datatype Row<E> = Row(docId: string, chunkId: nat, chunk: string, embedding: E)

  /** The rows inserted for `chunks`, numbered from `first`. */
  function RowsFrom<E>(docId: string, chunks: seq<string>, first: nat, encode: string -> E): (r: seq<Row<E>>)
    ensures |r| == |chunks|
    ensures forall i :: 0 <= i < |r| ==>
      r[i] == Row(docId, first + i, chunks[i], encode(chunks[i]))
  {
    if |chunks| == 0 then []
    else [Row(docId, first, chunks[0], encode(chunks[0]))] + RowsFrom(docId, chunks[1..], first + 1, encode)
  }

  /** `embed_pdf(pdf_path, doc_id)`: every default-sized chunk of the
      document becomes one row, numbered by its position. */
  function EmbedPdf<E>(pages: seq<string>, docId: string, encode: string -> E): (r: seq<Row<E>>)
    // one row per 920 characters, rounded up
    ensures |r| == CeilDiv(|ExtractText(pages)|, ChunkSize - OverlapSize)
    ensures forall i :: 0 <= i < |r| ==>
      r[i].docId == docId && r[i].chunkId == i && r[i].embedding == encode(r[i].chunk)
  {
    WindowCount(ExtractText(pages), ChunkSize, OverlapSize);
    RowsFrom(docId, ChunkText(ExtractText(pages), ChunkSize, OverlapSize), 0, encode)
  }

  /** The rows carry chunk ids 0, 1, 2, … in insertion order, and reading the
      chunk column back in that order and dropping the 80-character overlaps
      restores the document's text. */
  lemma RowsRestoreDocument<E>(pages: seq<string>, docId: string, encode: string -> E)
    ensures
      var rows := EmbedPdf(pages, docId, encode);
      var text := ExtractText(pages);
      && (forall i :: 0 <= i < |rows| ==> rows[i].chunkId == i && rows[i].docId == docId)
      && Reassemble(seq(|rows|, i requires 0 <= i < |rows| => rows[i].chunk), ChunkSize - OverlapSize) == text
  {
    var text := ExtractText(pages);
    var chunks := ChunkText(text, ChunkSize, OverlapSize);
    var rows := EmbedPdf(pages, docId, encode);
    assert seq(|rows|, i requires 0 <= i < |rows| => rows[i].chunk) == chunks;
    Reconstruct(text, ChunkSize, OverlapSize);
  }
}
