/**
 * The bookkeeping of `EmbeddingService` around its vector collection: the
 * ids and metadata it files each chunk under, how a query's answer is
 * reshaped into search hits, and deleting or listing one document's chunks.
 * The collection is a map from id to entry; the sentence encoder and the
 * nearest-neighbour search are parameters.
 */
module Index {
  import opened Text
  import opened Wrappers

  /** An embedding vector, as the encoder returns it. */
  type Vector = seq<real>

  /** The metadata dictionary stored with each chunk. */
  datatype ChunkMetadata = ChunkMetadata(documentId: string, filename: string, chunkIndex: nat, textLength: nat)

  /** One record of the collection: the vector, the chunk text and its metadata. */
  datatype Entry = Entry(embedding: Vector, document: string, metadata: ChunkMetadata)

  /**
   * What the collection does with an id it already holds. The library
   * decides this; the model keeps it as a parameter and claims nothing
   * about which one applies.
   */
  datatype DuplicatePolicy = Overwrite | KeepExisting | RejectBatch

  /** `f"{doc_id}_{i}"`: the id of chunk `i` of a document. */
  function ChunkId(docId: string, i: nat): string {
    docId + "_" + NatToString(i)
  }

  /** The separator is the id's last underscore, since the ordinal is all digits. */
  lemma ChunkIdSeparator(docId: string, i: nat)
    ensures RFind(ChunkId(docId, i), '_') == |docId|
  {
    var id := ChunkId(docId, i);
    var digits := NatToString(i);
    assert id[|docId|] == '_';
    forall k | |docId| < k < |id| ensures id[k] != '_' {
      assert id[k] == digits[k - |docId| - 1];
    }
  }

  /**
   * Chunk ids never collide: the id determines both the document and the
   * chunk ordinal, so two chunks, of the same document or of different ones,
   * get different ids.
   */
  lemma ChunkIdInjective(d1: string, i: nat, d2: string, j: nat)
    requires ChunkId(d1, i) == ChunkId(d2, j)
    ensures d1 == d2 && i == j
  {
    var id := ChunkId(d1, i);
    ChunkIdSeparator(d1, i);
    ChunkIdSeparator(d2, j);
    assert d1 == id[..|d1|] && d2 == id[..|d2|];
    assert NatToString(i) == id[|d1| + 1..] == NatToString(j);
    NatToStringInjective(i, j);
  }

  /** `[f"{doc_id}_{i}" for i in range(n)]`. */
  function ChunkIds(docId: string, n: nat): (ids: seq<string>)
    ensures |ids| == n
    ensures forall i :: 0 <= i < n ==> ids[i] == ChunkId(docId, i)
  {
    seq(n, i requires 0 <= i < n => ChunkId(docId, i))
  }

  /** One id per chunk, in chunk order, and no two alike. */
  lemma ChunkIdsDistinct(docId: string, n: nat)
    ensures var ids := ChunkIds(docId, n);
      forall i, j :: 0 <= i < n && 0 <= j < n && ids[i] == ids[j] ==> i == j
  {
    var ids := ChunkIds(docId, n);
    forall i, j | 0 <= i < n && 0 <= j < n && ids[i] == ids[j] ensures i == j {
      ChunkIdInjective(docId, i, docId, j);
    }
  }

  /** The metadata dictionaries of `create_embeddings`, one per chunk. */
  function ChunkMetadatas(docId: string, filename: string, chunks: seq<string>): (ms: seq<ChunkMetadata>)
    ensures |ms| == |chunks|
    ensures forall i :: 0 <= i < |chunks| ==>
      ms[i] == ChunkMetadata(docId, filename, i, |chunks[i]|)
  {
    seq(|chunks|, i requires 0 <= i < |chunks| => ChunkMetadata(docId, filename, i, |chunks[i]|))
  }

  /** The entries `create_embeddings` adds: vector, text and metadata of each chunk, index-aligned. */
  function ChunkEntries(docId: string, filename: string, chunks: seq<string>, encode: string -> Vector)
    : (es: seq<Entry>)
    ensures |es| == |chunks|
  {
    var ms := ChunkMetadatas(docId, filename, chunks);
    seq(|chunks|, i requires 0 <= i < |chunks| => Entry(encode(chunks[i]), chunks[i], ms[i]))
  }

  /**
   * Entry `i` holds chunk `i`, its vector, and metadata naming the document,
   * the file, the ordinal `i` and the chunk's length.
   */
  lemma ChunkEntriesAligned(docId: string, filename: string, chunks: seq<string>, encode: string -> Vector, i: nat)
    requires i < |chunks|
    ensures var e := ChunkEntries(docId, filename, chunks, encode)[i];
      && e.document == chunks[i] && e.embedding == encode(chunks[i])
      && e.metadata == ChunkMetadata(docId, filename, i, |chunks[i]|)
  {
  }

  /** `collection.add(ids, ...)` under each duplicate policy. */
  function AddBatch(c: map<string, Entry>, ids: seq<string>, es: seq<Entry>, policy: DuplicatePolicy)
    : map<string, Entry>
    requires |ids| == |es|
  {
    if policy == RejectBatch && exists k :: 0 <= k < |ids| && ids[k] in c then c
    else Insert(c, ids, es, policy == Overwrite)
  }

  /** Files `es[k]` under `ids[k]`, replacing what is there only when `replace`. */
  function Insert(c: map<string, Entry>, ids: seq<string>, es: seq<Entry>, replace: bool): (r: map<string, Entry>)
    requires |ids| == |es|
    ensures r.Keys == c.Keys + set k | 0 <= k < |ids| :: ids[k]
    decreases |ids|
  {
    if ids == [] then c
    else
      var c' := if replace || ids[0] !in c then c[ids[0] := es[0]] else c;
      Insert(c', ids[1..], es[1..], replace)
  }

  /**
   * When none of the batch's ids is present yet and the ids are distinct,
   * every policy does the same: entry `k` is filed under id `k` and nothing
   * else changes.
   */
  lemma {:induction false} FreshBatch(c: map<string, Entry>, ids: seq<string>, es: seq<Entry>, replace: bool)
    requires |ids| == |es|
    requires forall k :: 0 <= k < |ids| ==> ids[k] !in c
    requires forall k, l :: 0 <= k < l < |ids| ==> ids[k] != ids[l]
    ensures var r := Insert(c, ids, es, replace);
      && (forall k :: 0 <= k < |ids| ==> r[ids[k]] == es[k])
      && (forall id :: id in c ==> id in r && r[id] == c[id])
    decreases |ids|
  {
    if ids != [] {
      var c' := c[ids[0] := es[0]];
      forall k | 0 <= k < |ids[1..]| ensures ids[1..][k] !in c' {
        assert ids[1..][k] == ids[k + 1];
      }
      forall k, l | 0 <= k < l < |ids[1..]| ensures ids[1..][k] != ids[1..][l] {
        assert ids[1..][k] == ids[k + 1] && ids[1..][l] == ids[l + 1];
      }
      FreshBatch(c', ids[1..], es[1..], replace);
      var r := Insert(c, ids, es, replace);
      forall k | 0 <= k < |ids| ensures r[ids[k]] == es[k] {
        if k > 0 {
          assert ids[k] == ids[1..][k - 1] && es[k] == es[1..][k - 1];
        }
      }
    }
  }

  // ---------------------------------------------------------------------
  // Query results

  /**
   * What the collection's `query` returns for one query embedding: lists per
   * query embedding, any of which may be missing.
   */
  datatype QueryResponse = QueryResponse(
    documents: Option<seq<seq<string>>>,
    metadatas: Option<seq<seq<ChunkMetadata>>>,
    distances: Option<seq<seq<real>>>)

  /** One formatted search hit: `{"content", "metadata", "distance"}`. */
  datatype Hit = Hit(content: string, metadata: ChunkMetadata, distance: real)

  /** `results['documents'] and results['documents'][0]`: the first query's documents, if non-empty. */
  function FirstDocuments(r: QueryResponse): (docs: seq<string>)
  {
    if r.documents.Some? && r.documents.value != [] then r.documents.value[0] else []
  }

  /**
   * `results['distances'][0][i] if results['distances'] else 0`: the distance
   * of hit `i`, which fails (None) when the list is too short.
   */
  function DistanceAt(r: QueryResponse, i: nat): Option<real> {
    if r.distances.None? || r.distances.value == [] then Some(0.0)
    else if i < |r.distances.value[0]| then Some(r.distances.value[0][i])
    else None
  }

  /** Hit `i`, or None when `results['metadatas'][0][i]` or the distance cannot be read. */
  function HitAt(r: QueryResponse, i: nat): Option<Hit>
    requires i < |FirstDocuments(r)|
  {
    if r.metadatas.None? || r.metadatas.value == [] || i >= |r.metadatas.value[0]| then None
    else match DistanceAt(r, i)
      case None => None
      case Some(d) => Some(Hit(FirstDocuments(r)[i], r.metadatas.value[0][i], d))
  }

  /** Every hit can be read, so the loop runs to the end without raising. */
  predicate Readable(r: QueryResponse) {
    forall i :: 0 <= i < |FirstDocuments(r)| ==> HitAt(r, i).Some?
  }

  /** The first `n` hits, in result order. */
  function HitsUpTo(r: QueryResponse, n: nat): (hits: seq<Hit>)
    requires n <= |FirstDocuments(r)|
    requires forall i :: 0 <= i < n ==> HitAt(r, i).Some?
    ensures |hits| == n
    ensures forall i :: 0 <= i < n ==> hits[i] == HitAt(r, i).value
  {
    if n == 0 then [] else HitsUpTo(r, n - 1) + [HitAt(r, n - 1).value]
  }

  /** What `search_similar_documents` returns for a query's outcome: any exception gives []. */
  function SearchResult(outcome: Result<QueryResponse, string>): seq<Hit> {
    if outcome.Failure? || !Readable(outcome.value) then []
    else HitsUpTo(outcome.value, |FirstDocuments(outcome.value)|)
  }

  /**
   * The formatting promises: one hit per returned document, content,
   * metadata and distance taken from the same index, distance 0 when the
   * response has no distances; a failed query, missing or empty documents,
   * or a list too short to read all give [].
   */
  lemma SearchResultShape(outcome: Result<QueryResponse, string>)
    ensures outcome.Failure? ==> SearchResult(outcome) == []
    ensures outcome.Success? && FirstDocuments(outcome.value) == [] ==> SearchResult(outcome) == []
    ensures outcome.Success? && Readable(outcome.value) ==>
      var r := outcome.value;
      var hits := SearchResult(outcome);
      && |hits| == |FirstDocuments(r)|
      && forall i :: 0 <= i < |hits| ==>
           && hits[i].content == FirstDocuments(r)[i]
           && hits[i].metadata == r.metadatas.value[0][i]
           && (r.distances.None? || r.distances.value == [] ==> hits[i].distance == 0.0)
           && (r.distances.Some? && r.distances.value != [] ==> hits[i].distance == r.distances.value[0][i])
  {
  }

  /** A response whose lists are aligned is readable in full. */
  lemma AlignedIsReadable(r: QueryResponse)
    requires r.metadatas.Some? && r.metadatas.value != []
    requires |r.metadatas.value[0]| >= |FirstDocuments(r)|
    requires r.distances.Some? && r.distances.value != [] ==> |r.distances.value[0]| >= |FirstDocuments(r)|
    ensures Readable(r)
  {
  }

  // ---------------------------------------------------------------------
  // Per-document views of the collection

  /** The collection without the chunks of `docId`. */
  function WithoutDocument(c: map<string, Entry>, docId: string): (r: map<string, Entry>)
  {
    map id | id in c && c[id].metadata.documentId != docId :: c[id]
  }

  /** The ids whose metadata names `docId`: what `get(where={"document_id": doc_id})` finds. */
  function DocumentIds(c: map<string, Entry>, docId: string): set<string> {
    set id | id in c && c[id].metadata.documentId == docId
  }

  /**
   * Deleting removes exactly the chunks of that document and keeps every
   * other entry as it was; afterwards the document has no chunks left.
   */
  lemma WithoutDocumentEffect(c: map<string, Entry>, docId: string)
    ensures var r := WithoutDocument(c, docId);
      && r.Keys == c.Keys - DocumentIds(c, docId)
      && (forall id :: id in r ==> r[id] == c[id])
      && DocumentIds(r, docId) == {}
      && |r| == |c| - |DocumentIds(c, docId)|
  {
    var r := WithoutDocument(c, docId);
    assert r.Keys == c.Keys - DocumentIds(c, docId);
    assert |r.Keys| == |c.Keys| - |DocumentIds(c, docId)| by {
      assert DocumentIds(c, docId) <= c.Keys;
    }
  }

  /** A document with no chunks: deleting it changes nothing. */
  lemma WithoutAbsentDocument(c: map<string, Entry>, docId: string)
    requires DocumentIds(c, docId) == {}
    ensures WithoutDocument(c, docId) == c
  {
    var r := WithoutDocument(c, docId);
    assert r.Keys == c.Keys by {
      forall id | id in c ensures id in r {
        assert id !in DocumentIds(c, docId);
      }
    }
  }

  /** Other documents keep all their chunks. */
  lemma WithoutDocumentKeepsOthers(c: map<string, Entry>, docId: string, other: string)
    requires other != docId
    ensures DocumentIds(WithoutDocument(c, docId), other) == DocumentIds(c, other)
  {
  }

  /** What `get_documents_by_id` reports for one chunk: `{"content", "metadata", "id"}`. */
  datatype StoredChunk = StoredChunk(content: string, metadata: ChunkMetadata, id: string)

  // ---------------------------------------------------------------------
  // The service

  class EmbeddingService {
    /** `self.collection`: id to entry. */
    var collection: map<string, Entry>

    /** Opening the persistent collection with whatever it already holds. */
    constructor(stored: map<string, Entry>)
      ensures collection == stored
    {
      collection := stored;
    }

    /**
     * `create_embeddings(text_chunks, doc_id, filename)`: nothing for an
     * empty list; otherwise chunk `i` is added under `ChunkId(docId, i)`
     * with its vector and metadata, as the duplicate policy allows.
     */
    method CreateEmbeddings(chunks: seq<string>, docId: string, filename: string,
                            encode: string -> Vector, policy: DuplicatePolicy)
      modifies this
      ensures chunks == [] ==> collection == old(collection)
      ensures chunks != [] ==>
        collection == AddBatch(old(collection), ChunkIds(docId, |chunks|),
                               ChunkEntries(docId, filename, chunks, encode), policy)
    {
      if chunks == [] {
        return;
      }
      var embeddings := seq(|chunks|, i requires 0 <= i < |chunks| => encode(chunks[i]));
      var ids := seq(|chunks|, i requires 0 <= i < |chunks| => docId + "_" + NatToString(i));
      var metadatas := seq(|chunks|, i requires 0 <= i < |chunks| => ChunkMetadata(docId, filename, i, |chunks[i]|));
      var entries := seq(|chunks|, i requires 0 <= i < |chunks| => Entry(embeddings[i], chunks[i], metadatas[i]));
      assert ids == ChunkIds(docId, |chunks|);
      assert entries == ChunkEntries(docId, filename, chunks, encode);
      collection := AddBatch(collection, ids, entries, policy);
    }

    /**
     * `search_similar_documents(query, top_k)`: ask for `top_k` neighbours
     * and reshape the answer into hits, in the order returned. `respond`
     * stands for encoding the query and searching the collection; its
     * failure is any exception, which yields [].
     */
    method SearchSimilarDocuments(query: string, topK: int,
                                  respond: (string, int) -> Result<QueryResponse, string>)
      returns (hits: seq<Hit>)
      ensures hits == SearchResult(respond(query, topK))
    {
      var outcome := respond(query, topK);
      if outcome.Failure? {
        return [];
      }
      var results := outcome.value;
      hits := [];
      if results.documents.Some? && results.documents.value != [] && results.documents.value[0] != [] {
        var docs := results.documents.value[0];
        var i := 0;
        while i < |docs|
          invariant 0 <= i <= |docs| && docs == FirstDocuments(results)
          invariant forall k :: 0 <= k < i ==> HitAt(results, k).Some?
          invariant hits == HitsUpTo(results, i)
        {
          var hit := HitAt(results, i);
          if hit.None? {
            return [];
          }
          hits := hits + [hit.value];
          i := i + 1;
        }
      }
    }

    /**
     * `delete_document_embeddings(doc_id)`: find the ids of the document's
     * chunks and delete them, if there are any.
     */
    method DeleteDocumentEmbeddings(docId: string)
      modifies this
      ensures collection == WithoutDocument(old(collection), docId)
    {
      var ids := DocumentIds(collection, docId);
      if ids != {} {
        collection := map id | id in collection && id !in ids :: collection[id];
      } else {
        WithoutAbsentDocument(collection, docId);
      }
    }

    /** `get_document_count()`: the number of chunks in the collection. */
    method GetDocumentCount() returns (n: nat)
      ensures n == |collection|
    {
      n := |collection|;
    }

    /**
     * `get_documents_by_id(doc_id)`: every chunk of the document, each with
     * its text, metadata and id, in the order the store returns them.
     */
    method GetDocumentsById(docId: string) returns (docs: seq<StoredChunk>)
      ensures |docs| == |DocumentIds(collection, docId)|
      ensures forall d :: d in docs ==>
        d.id in DocumentIds(collection, docId)
        && d == StoredChunk(collection[d.id].document, collection[d.id].metadata, d.id)
      ensures forall id :: id in DocumentIds(collection, docId) ==>
        StoredChunk(collection[id].document, collection[id].metadata, id) in docs
    {
      var remaining := DocumentIds(collection, docId);
      docs := [];
      while remaining != {}
        invariant remaining <= DocumentIds(collection, docId)
        invariant |docs| + |remaining| == |DocumentIds(collection, docId)|
        invariant forall d :: d in docs ==>
          d.id in DocumentIds(collection, docId) && d.id !in remaining
          && d == StoredChunk(collection[d.id].document, collection[d.id].metadata, d.id)
        invariant forall id :: id in DocumentIds(collection, docId) && id !in remaining ==>
          StoredChunk(collection[id].document, collection[id].metadata, id) in docs
        decreases |remaining|
      {
        var id :| id in remaining;
        docs := docs + [StoredChunk(collection[id].document, collection[id].metadata, id)];
        remaining := remaining - {id};
      }
    }
  }

  /**
   * Creating the embeddings of a new document's chunks and then deleting the
   * document's embeddings gives back the collection as it was, provided no
   * chunk of that document was there before.
   */
  lemma CreateThenDelete(c: map<string, Entry>, docId: string, filename: string, chunks: seq<string>,
                         encode: string -> Vector, policy: DuplicatePolicy)
    requires DocumentIds(c, docId) == {}
    requires forall k :: 0 <= k < |chunks| ==> ChunkId(docId, k) !in c
    ensures WithoutDocument(AddBatch(c, ChunkIds(docId, |chunks|), ChunkEntries(docId, filename, chunks, encode), policy), docId) == c
  {
    var ids := ChunkIds(docId, |chunks|);
    var es := ChunkEntries(docId, filename, chunks, encode);
    ChunkIdsDistinct(docId, |chunks|);
    FreshBatch(c, ids, es, policy == Overwrite);
    var added := AddBatch(c, ids, es, policy);
    assert added == Insert(c, ids, es, policy == Overwrite);
    var r := WithoutDocument(added, docId);
    forall id | id in added ensures (id in c) <==> added[id].metadata.documentId != docId {
      if id !in c {
        var k :| 0 <= k < |ids| && ids[k] == id;
        ChunkEntriesAligned(docId, filename, chunks, encode, k);
      } else {
        assert id !in DocumentIds(c, docId);
      }
    }
    assert r.Keys == c.Keys;
  }
}
