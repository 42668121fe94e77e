/** util/chroma_with_chunk.py: the chunking inside `extract_text_from_pdf`,
    the ids and parallel lists `embed_pdf` hands to the collection, and the
    result extraction of `search_pdf`. The PDF reader, the embedding model
    and the collection are parameters. */
module ChromaStore {
  import opened Common
  import opened PyStr
  import opened Chunking

  const ChunkSize := 1000
  const Overlap := 800

  /** `extract_text_from_pdf(pdf_path, chunk_size, overlap)`; `doc` is the
      pages' texts, or `None` when opening or reading the PDF raised. */
  function ExtractTextFromPdf(doc: Option<seq<string>>, chunkSize: int, overlap: int): (r: seq<string>)
    requires doc.Some? ==> Terminates(JoinWith("\n", doc.value), chunkSize, overlap)
    ensures doc.None? ==> r == []
    ensures doc.Some? && JoinWith("\n", doc.value) == "" ==> r == []
  {
    match doc
    case None => []
    case Some(pages) => Windows(JoinWith("\n", pages), chunkSize, overlap)
  }

  /** With the defaults every chunk is non-empty and at most 1000 characters
      long, and a new chunk starts every 200 characters, so a text of `n`
      characters gives ⌈n / 200⌉ chunks. */
  lemma DefaultChunks(doc: Option<seq<string>>)
    requires doc.Some?
    ensures
      var text := JoinWith("\n", doc.value);
      var chunks := ExtractTextFromPdf(doc, ChunkSize, Overlap);
      && |chunks| == CeilDiv(|text|, 200)
      && (forall c :: c in chunks ==> 0 < |c| <= 1000)
  {
    var text := JoinWith("\n", doc.value);
    WindowCount(text, ChunkSize, Overlap);
    WindowBounds(text, ChunkSize, Overlap);
  }

  /** `f"{doc_id}_chunk_{i}"`: the document id, then "_chunk_", then the
      decimal index, which reads back to `i`. */
  function ChunkId(docId: string, i: nat): (r: string)
    ensures |r| > |docId| + 7 && r[..|docId| + 7] == docId + "_chunk_"
    ensures forall k :: |docId| + 7 <= k < |r| ==> '0' <= r[k] <= '9'
    ensures ParseNat(r[|docId| + 7..]) == i
  {
    var r := docId + "_chunk_" + NatToString(i);
    assert r[|docId| + 7..] == NatToString(i);
    ParseNatToString(i);
    r
  }

  lemma ChunkIdInjective(docId: string, i: nat, j: nat)
    requires ChunkId(docId, i) == ChunkId(docId, j)
    ensures i == j
  {
    var p := docId + "_chunk_";
    assert NatToString(i) == ChunkId(docId, i)[|p|..];
    assert NatToString(j) == ChunkId(docId, j)[|p|..];
    NatToStringInjective(i, j);
  }

  /** The arguments of `db.add(ids=…, embeddings=…, documents=…)`. */
  datatype AddCall<E> = AddCall(ids: seq<string>, embeddings: seq<E>, documents: seq<string>)

  /** `embed_pdf(pdf_path, doc_id)`: `None` when no chunks came out (nothing
      is added), otherwise the single `add` call. */
  function EmbedPdf<E>(doc: Option<seq<string>>, docId: string, encode: string -> E): (r: Option<AddCall<E>>)
    requires doc.Some? ==> Terminates(JoinWith("\n", doc.value), ChunkSize, Overlap)
    ensures r.None? <==> ExtractTextFromPdf(doc, ChunkSize, Overlap) == []
    ensures r.Some? ==>
      var chunks := ExtractTextFromPdf(doc, ChunkSize, Overlap);
      && r.value.documents == chunks
      && |r.value.ids| == |chunks| && |r.value.embeddings| == |chunks|
      && (forall i :: 0 <= i < |chunks| ==>
            r.value.ids[i] == ChunkId(docId, i) && r.value.embeddings[i] == encode(chunks[i]))
  {
    var chunks := ExtractTextFromPdf(doc, ChunkSize, Overlap);
    if chunks == [] then None
    else
      var ids := seq(|chunks|, i requires 0 <= i < |chunks| => ChunkId(docId, i));
      var embeddings := seq(|chunks|, i requires 0 <= i < |chunks| => encode(chunks[i]));
      Some(AddCall(ids, embeddings, chunks))
  }

  /** No two chunks of one document share an id. */
  lemma ChunkIdsDistinct<E>(doc: Option<seq<string>>, docId: string, encode: string -> E)
    requires doc.Some? ==> Terminates(JoinWith("\n", doc.value), ChunkSize, Overlap)
    requires EmbedPdf(doc, docId, encode).Some?
    ensures
      var ids := EmbedPdf(doc, docId, encode).value.ids;
      forall i, j :: 0 <= i < j < |ids| ==> ids[i] != ids[j]
  {
    var ids := EmbedPdf(doc, docId, encode).value.ids;
    forall i, j | 0 <= i < j < |ids| ensures ids[i] != ids[j] {
      assert ParseNat(ids[i][|docId| + 7..]) != ParseNat(ids[j][|docId| + 7..]);
    }
  }

  /** What `db.query` did: raised, or returned a result whose "documents"
      entry may be missing. */
  datatype QueryReply = Raised | Replied(documents: Option<seq<seq<string>>>)

  /** `results.get("documents", [[]])` */
  function GetDocuments(documents: Option<seq<seq<string>>>): seq<seq<string>>
  {
    if documents.Some? then documents.value else [[]]
  }

  /** `xs[0]`, with `None` where Python raises `IndexError`. */
  function First<T>(xs: seq<T>): Option<T>
  {
    if |xs| == 0 then None else Some(xs[0])
  }

  /** `search_pdf(query, top_k)` (lines 58-72): the first list of documents;
      the `except` turns both a failed query and an `IndexError` into the
      empty list. */
  function SearchPdf(reply: QueryReply): (r: seq<string>)
    ensures reply.Raised? || reply.documents.None? ==> r == []
    ensures reply.Replied? && reply.documents.Some? ==>
      r == (if |reply.documents.value| == 0 then [] else reply.documents.value[0])
    // anything found is the collection's first answer list
    ensures r != [] ==> reply.Replied? && reply.documents.Some? && r == reply.documents.value[0]
  {
    match reply
    case Raised => []
    case Replied(documents) =>
      match First(GetDocuments(documents))
      case None => []
      case Some(chunks) => chunks
  }

  /** When the collection answers with chunks `embed_pdf` stored, every
      search result is one of the document's chunks: with the defaults,
      non-empty and at most 1000 characters. */
  lemma SearchReturnsStoredChunks<E>(doc: Option<seq<string>>, docId: string, encode: string -> E, reply: QueryReply)
    requires doc.Some? ==> Terminates(JoinWith("\n", doc.value), ChunkSize, Overlap)
    requires EmbedPdf(doc, docId, encode).Some?
    requires reply.Replied? && reply.documents.Some? ==>
      forall k :: 0 <= k < |reply.documents.value| ==>
        forall c :: c in reply.documents.value[k] ==> c in EmbedPdf(doc, docId, encode).value.documents
    ensures forall c :: c in SearchPdf(reply) ==> c in ExtractTextFromPdf(doc, ChunkSize, Overlap) && 0 < |c| <= 1000
  {
    DefaultChunks(doc);
  }
}
