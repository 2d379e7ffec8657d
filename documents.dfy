/**
 * The document metadata table of `DocumentService`: a dictionary from
 * document id to its record, filled by `save_document`, updated by
 * `extract_text`, listed newest first by `get_document_list` and shrunk by
 * `delete_document`. Files on disk, the JSON copy of the table and the text
 * readers for PDF, TXT and DOCX are outside the model: the reader's outcome
 * is a parameter.
 */
module Documents {
  import opened Text
  import opened Wrappers
  import Chunker

  /** Where uploaded files are stored. */
  const DocumentDir: string := "data/documents"

  /** One entry of `self.metadata`. `uploadDate` is the upload time as a timestamp. */
  datatype DocumentRecord = DocumentRecord(
    id: string,
    filename: string,
    fileSize: nat,
    uploadDate: nat,
    processed: bool,
    chunkCount: Option<nat>,
    filePath: string)

  /** What `get_document_list` reports for one document. */
  datatype DocumentInfo = DocumentInfo(
    id: string,
    filename: string,
    fileSize: nat,
    uploadDate: nat,
    processed: bool,
    chunkCount: Option<nat>)

  /** The file formats `extract_text` can read. */
  datatype Format = Pdf | Txt | Docx

  /** Why a document operation raised `ValueError`. */
  datatype DocumentError =
    | UnsupportedFileType(suffix: string)
    | ExtractionFailed(reason: string)
    | NotFound(id: string)

  /** The text of the `ValueError` for each failure. */
  function ErrorMessage(e: DocumentError): string {
    match e
    case UnsupportedFileType(suffix) => "Unsupported file type: " + suffix
    case ExtractionFailed(reason) => reason
    case NotFound(id) => "Document " + id + " not found"
  }

  /** The lower-case extension each format is recognised by. */
  function Extension(f: Format): string {
    match f
    case Pdf => ".pdf"
    case Txt => ".txt"
    case Docx => ".docx"
  }

  /** The reader `extract_text` picks from the lower-cased suffix of the path, if any. */
  function Dispatch(path: string): (r: Option<Format>)
  {
    FormatOf(Lower(Suffix(path)))
  }

  /** The format a lower-cased extension names, if any. */
  function FormatOf(ext: string): Option<Format> {
    if ext == ".pdf" then Some(Pdf)
    else if ext == ".txt" then Some(Txt)
    else if ext == ".docx" then Some(Docx)
    else None
  }

  /**
   * A format is chosen exactly when the lower-cased suffix is that format's
   * extension, whatever the case of the letters in the path.
   */
  lemma DispatchByExtension(path: string, f: Format)
    ensures Dispatch(path) == Some(f) <==> Lower(Suffix(path)) == Extension(f)
  {
  }

  /** No other suffix is read: such a path is rejected. */
  lemma DispatchRejects(path: string)
    ensures Dispatch(path).None? <==>
      (Lower(Suffix(path)) != ".pdf" && Lower(Suffix(path)) != ".txt" && Lower(Suffix(path)) != ".docx")
  {
  }

  /** `str(self.document_dir / f"{doc_id}{file_extension}")`. */
  function StoredPath(docId: string, filename: string): string {
    DocumentDir + "/" + (docId + Suffix(filename))
  }

  /** A plain id: what `uuid4` produces, with no separator and no dot. */
  predicate PlainId(docId: string) {
    docId != "" && '/' !in docId && '.' !in docId
  }

  /**
   * The stored file keeps the uploaded file's suffix and has the document id
   * as its stem, so `extract_text` on the stored path reads it with the
   * reader the uploaded name calls for and updates that document's record.
   */
  lemma StoredPathRoundTrip(docId: string, filename: string)
    requires PlainId(docId)
    ensures Suffix(StoredPath(docId, filename)) == Suffix(filename)
    ensures Stem(StoredPath(docId, filename)) == docId
    ensures Dispatch(StoredPath(docId, filename)) == Dispatch(filename)
  {
    StoredSuffixAndStem(docId, filename);
    assert Lower(Suffix(StoredPath(docId, filename))) == Lower(Suffix(filename));
  }

  lemma StoredSuffixAndStem(docId: string, filename: string)
    requires PlainId(docId)
    ensures Suffix(StoredPath(docId, filename)) == Suffix(filename)
    ensures Stem(StoredPath(docId, filename)) == docId
  {
    var sfx := Suffix(filename);
    var name := docId + sfx;
    StoredName(docId, filename);
    if sfx != "" {
      assert name[..|docId|] == docId;
      assert name[|docId|..] == sfx;
    }
  }

  /** The stored file's name is the id followed by the uploaded suffix, whose dot is the name's last. */
  lemma StoredName(docId: string, filename: string)
    requires PlainId(docId)
    ensures var sfx := Suffix(filename);
      && Name(StoredPath(docId, filename)) == docId + sfx
      && RFind(docId + sfx, '.') == if sfx == "" then -1 else |docId|
  {
    var sfx := Suffix(filename);
    SuffixShape(filename);
    LastDotOfName(docId, sfx);
    assert (docId + sfx)[0] == docId[0];
    NameOfJoin(DocumentDir, docId + sfx);
  }

  /** In `docId + sfx`, the last dot is the suffix's own, if it has one. */
  lemma LastDotOfName(docId: string, sfx: string)
    requires PlainId(docId)
    requires sfx != "" ==> |sfx| >= 2 && sfx[0] == '.' && '.' !in sfx[1..] && '/' !in sfx
    ensures '/' !in docId + sfx
    ensures RFind(docId + sfx, '.') == if sfx == "" then -1 else |docId|
  {
    var name := docId + sfx;
    if sfx == "" {
      assert name == docId;
    } else {
      assert name[|docId|] == '.';
      forall k | |docId| < k < |name| ensures name[k] != '.' {
        assert name[k] == sfx[1..][k - |docId| - 1];
      }
    }
  }

  /**
   * A trailing separator on the uploaded name changes nothing: "report.pdf/"
   * is stored where "report.pdf" would be, and read with the same reader.
   */
  lemma TrailingSeparatorUpload(docId: string, filename: string)
    requires PlainId(docId)
    ensures StoredPath(docId, filename + "/") == StoredPath(docId, filename)
    ensures Dispatch(StoredPath(docId, filename + "/")) == Dispatch(filename)
  {
    TrailingSeparatorIgnored(filename);
    StoredPathRoundTrip(docId, filename);
  }

  /** The name of `dir + "/" + name` is `name` when `name` is one real component. */
  lemma NameOfJoin(dir: string, name: string)
    requires '/' !in name && name != "" && name != "."
    ensures Name(dir + "/" + name) == name
  {
    var p := dir + "/" + name;
    assert p[|p| - 1] == name[|name| - 1];
    if |name| >= 2 {
      assert p[|p| - 2] == name[|name| - 2];
    }
    assert EndsInComponent(p);
    var i := RFind(p, '/');
    assert p[|dir|] == '/';
    forall k | |dir| < k < |p| ensures p[k] != '/' {
      assert p[k] == name[k - |dir| - 1];
    }
    assert i == |dir|;
    assert p[i + 1..] == name;
  }

  // ---------------------------------------------------------------------
  // The table as a value: each operation's effect on `self.metadata`

  /** Every record is filed under its own id. */
  predicate Keyed(m: map<string, DocumentRecord>) {
    forall k :: k in m ==> m[k].id == k
  }

  /** The record `save_document` writes: not yet processed, no chunk count. */
  function NewRecord(docId: string, filename: string, fileSize: nat, now: nat): (r: DocumentRecord)
    ensures r.id == docId && r.filename == filename && r.fileSize == fileSize && r.uploadDate == now
    ensures !r.processed && r.chunkCount.None? && r.filePath == StoredPath(docId, filename)
  {
    DocumentRecord(docId, filename, fileSize, now, false, None, StoredPath(docId, filename))
  }

  /** `extract_text`'s update: the record of `docId`, if present, is processed with `n` chunks. */
  function MarkProcessed(m: map<string, DocumentRecord>, docId: string, n: nat): (r: map<string, DocumentRecord>)
  {
    if docId in m then m[docId := m[docId].(processed := true, chunkCount := Some(n))] else m
  }

  /**
   * MarkProcessed touches one record and only its `processed` and
   * `chunkCount` fields, and does nothing for an unknown id.
   */
  lemma MarkProcessedEffect(m: map<string, DocumentRecord>, docId: string, n: nat)
    ensures var r := MarkProcessed(m, docId, n);
      && r.Keys == m.Keys
      && (forall k :: k in m && k != docId ==> r[k] == m[k])
      && (docId in m ==> r[docId] == m[docId].(processed := true, chunkCount := Some(n)))
      && (docId !in m ==> r == m)
      && (Keyed(m) ==> Keyed(r))
  {
  }

  /** Saving adds or replaces one record and keeps every record under its own id. */
  lemma SavedEffect(m: map<string, DocumentRecord>, docId: string, filename: string, fileSize: nat, now: nat)
    ensures var r := m[docId := NewRecord(docId, filename, fileSize, now)];
      && r.Keys == m.Keys + {docId}
      && (forall k :: k in m && k != docId ==> r[k] == m[k])
      && (Keyed(m) ==> Keyed(r))
  {
  }

  /** Saving and then extracting a document marks exactly that record as processed. */
  lemma SaveThenExtract(m: map<string, DocumentRecord>, docId: string, filename: string, fileSize: nat, now: nat, n: nat)
    requires PlainId(docId)
    ensures var saved := m[docId := NewRecord(docId, filename, fileSize, now)];
      var r := MarkProcessed(saved, Stem(StoredPath(docId, filename)), n);
      && r[docId].processed && r[docId].chunkCount == Some(n)
      && r[docId].uploadDate == now && r[docId].filePath == StoredPath(docId, filename)
      && (forall k :: k in m && k != docId ==> k in r && r[k] == m[k])
  {
    StoredPathRoundTrip(docId, filename);
  }

  /** What `get_document_list` reports for the record filed under `key`. */
  function InfoOf(key: string, rec: DocumentRecord): (d: DocumentInfo)
    ensures d.id == key && d.uploadDate == rec.uploadDate
  {
    DocumentInfo(key, rec.filename, rec.fileSize, rec.uploadDate, rec.processed, rec.chunkCount)
  }

  /** Newest first: upload dates never increase along the list. */
  predicate NewestFirst(docs: seq<DocumentInfo>) {
    forall i, j :: 0 <= i < j < |docs| ==> docs[i].uploadDate >= docs[j].uploadDate
  }

  /**
   * `sorted(documents, key=lambda x: x.upload_date, reverse=True)`: a stable
   * insertion sort, newest first.
   */
  function SortNewestFirst(docs: seq<DocumentInfo>): (r: seq<DocumentInfo>)
    ensures multiset(r) == multiset(docs)
    ensures NewestFirst(r)
  {
    if docs == [] then []
    else
      var rest := SortNewestFirst(docs[1..]);
      assert docs == [docs[0]] + docs[1..];
      InsertKeepsOrder(docs[0], rest);
      InsertNewestFirst(docs[0], rest)
  }

  /** Puts `d` before the first entry that is not newer than it. */
  function InsertNewestFirst(d: DocumentInfo, docs: seq<DocumentInfo>): (r: seq<DocumentInfo>)
    ensures multiset(r) == multiset(docs) + multiset{d}
  {
    if docs == [] || docs[0].uploadDate <= d.uploadDate then [d] + docs
    else
      assert docs == [docs[0]] + docs[1..];
      [docs[0]] + InsertNewestFirst(d, docs[1..])
  }

  /** Inserting into a newest-first list keeps it newest first. */
  lemma {:induction false} InsertKeepsOrder(d: DocumentInfo, docs: seq<DocumentInfo>)
    requires NewestFirst(docs)
    ensures NewestFirst(InsertNewestFirst(d, docs))
  {
    if docs != [] && docs[0].uploadDate > d.uploadDate {
      InsertKeepsOrder(d, docs[1..]);
      InsertAtMost(d, docs[1..], docs[0].uploadDate);
      PrependKeepsOrder(docs[0], InsertNewestFirst(d, docs[1..]));
    } else {
      forall i | 0 <= i < |docs| ensures docs[i].uploadDate <= d.uploadDate {
        assert docs[0].uploadDate >= docs[i].uploadDate;
      }
      PrependKeepsOrder(d, docs);
    }
  }

  /** An entry no older than any in a newest-first list can go in front of it. */
  lemma PrependKeepsOrder(x: DocumentInfo, docs: seq<DocumentInfo>)
    requires NewestFirst(docs) && AtMost(docs, x.uploadDate)
    ensures NewestFirst([x] + docs)
  {
    var r := [x] + docs;
    forall i, j | 0 <= i < j < |r| ensures r[i].uploadDate >= r[j].uploadDate {
      assert r[j] == docs[j - 1];
      if i > 0 {
        assert r[i] == docs[i - 1];
      }
    }
  }

  /** No upload date in `docs` is later than `bound`. */
  predicate AtMost(docs: seq<DocumentInfo>, bound: nat) {
    forall i :: 0 <= i < |docs| ==> docs[i].uploadDate <= bound
  }

  /** Inserting an entry no later than `bound` keeps every date at most `bound`. */
  lemma {:induction false} InsertAtMost(d: DocumentInfo, docs: seq<DocumentInfo>, bound: nat)
    requires AtMost(docs, bound) && d.uploadDate <= bound
    ensures AtMost(InsertNewestFirst(d, docs), bound)
  {
    if docs != [] && docs[0].uploadDate > d.uploadDate {
      var rest := InsertNewestFirst(d, docs[1..]);
      InsertAtMost(d, docs[1..], bound);
      var r := InsertNewestFirst(d, docs);
      forall i | 0 <= i < |r| ensures r[i].uploadDate <= bound {
        if i > 0 {
          assert r[i] == rest[i - 1];
        }
      }
    }
  }

  // ---------------------------------------------------------------------
  // The service

  class DocumentService {
    /** `self.metadata`: document id to record. */
    var metadata: map<string, DocumentRecord>

    /** `_load_metadata()`: the stored table, or an empty one when the file is missing or unreadable. */
    constructor(stored: Option<map<string, DocumentRecord>>)
      ensures stored.Some? ==> metadata == stored.value
      ensures stored.None? ==> metadata == map[]
    {
      metadata := if stored.Some? then stored.value else map[];
    }

    /**
     * `save_document(file, doc_id)`: the file goes to `data/documents/<id><suffix>`
     * and the table gets a fresh record for `docId`, replacing any earlier one.
     * `fileSize` is the length of the uploaded content and `now` the upload time.
     */
    method SaveDocument(filename: string, docId: string, fileSize: nat, now: nat) returns (path: string)
      modifies this
      ensures path == StoredPath(docId, filename)
      ensures metadata == old(metadata)[docId := NewRecord(docId, filename, fileSize, now)]
    {
      path := DocumentDir + "/" + (docId + Suffix(filename));
      metadata := metadata[docId := DocumentRecord(docId, filename, fileSize, now, false, None, path)];
    }

    /**
     * `extract_text(file_path)`: pick the reader from the suffix, split the
     * text it returns into chunks of 1000 with overlap 100, and mark the
     * record named by the path's stem as processed. `read` stands for the
     * three file readers; a reader's failure is its `ValueError`.
     */
    method ExtractText(filePath: string, read: Format -> Result<string, string>)
      returns (r: Result<seq<string>, DocumentError>)
      modifies this
      ensures Dispatch(filePath).None? ==>
        && r == Failure(UnsupportedFileType(Suffix(filePath))) && metadata == old(metadata)
        && ErrorMessage(r.error) == "Unsupported file type: " + Suffix(filePath)
      ensures Dispatch(filePath).Some? && read(Dispatch(filePath).value).Failure? ==>
        r == Failure(ExtractionFailed(read(Dispatch(filePath).value).error)) && metadata == old(metadata)
      ensures Dispatch(filePath).Some? && read(Dispatch(filePath).value).Success? ==>
        var chunks := Chunker.SplitText(read(Dispatch(filePath).value).value,
                                        Chunker.DefaultChunkSize, Chunker.DefaultOverlap);
        r == Success(chunks) && metadata == MarkProcessed(old(metadata), Stem(filePath), |chunks|)
    {
      var ext := Lower(Suffix(filePath));
      var format: Format;
      if ext == ".pdf" {
        format := Pdf;
      } else if ext == ".txt" {
        format := Txt;
      } else if ext == ".docx" {
        format := Docx;
      } else {
        return Failure(UnsupportedFileType(Suffix(filePath)));
      }
      var text := read(format);
      if text.Failure? {
        return Failure(ExtractionFailed(text.error));
      }
      Chunker.DefaultsAreValid();
      var chunks := Chunker.SplitTextIntoChunks(text.value, Chunker.DefaultChunkSize, Chunker.DefaultOverlap);
      var docId := Stem(filePath);
      if docId in metadata {
        metadata := metadata[docId := metadata[docId].(processed := true, chunkCount := Some(|chunks|))];
      }
      return Success(chunks);
    }

    /**
     * `get_document_list()`: one entry per record, reported under its key,
     * newest upload first.
     */
    method GetDocumentList() returns (docs: seq<DocumentInfo>)
      ensures NewestFirst(docs)
      ensures |docs| == |metadata|
      ensures forall d :: d in docs ==> d.id in metadata && d == InfoOf(d.id, metadata[d.id])
      ensures forall k :: k in metadata ==> InfoOf(k, metadata[k]) in docs
    {
      var documents: seq<DocumentInfo> := [];
      var remaining := metadata.Keys;
      while remaining != {}
        invariant remaining <= metadata.Keys
        invariant |documents| + |remaining| == |metadata|
        invariant forall d :: d in documents ==>
          d.id in metadata && d.id !in remaining && d == InfoOf(d.id, metadata[d.id])
        invariant forall k :: k in metadata && k !in remaining ==> InfoOf(k, metadata[k]) in documents
        decreases |remaining|
      {
        var docId :| docId in remaining;
        documents := documents + [InfoOf(docId, metadata[docId])];
        remaining := remaining - {docId};
      }
      docs := SortNewestFirst(documents);
      assert forall d :: d in docs <==> d in documents by {
        forall d ensures d in docs <==> d in documents {
          assert d in docs <==> d in multiset(docs);
          assert d in documents <==> d in multiset(documents);
        }
      }
      assert |docs| == |multiset(docs)| == |multiset(documents)| == |documents|;
    }

    /**
     * `delete_document(doc_id)`: drop the record (and, outside the model, its
     * file), or report that the id is unknown and change nothing.
     */
    method DeleteDocument(docId: string) returns (r: Outcome<DocumentError>)
      modifies this
      ensures docId in old(metadata) ==> r == Pass && metadata == old(metadata) - {docId}
      ensures docId !in old(metadata) ==>
        && r == Fail(NotFound(docId)) && metadata == old(metadata)
        && ErrorMessage(r.error) == "Document " + docId + " not found"
    {
      if docId in metadata {
        metadata := metadata - {docId};
        return Pass;
      } else {
        return Fail(NotFound(docId));
      }
    }
  }

  /** Deleting removes exactly that key and leaves every other record as it was. */
  lemma DeleteEffect(m: map<string, DocumentRecord>, docId: string)
    ensures var r := m - {docId};
      && r.Keys == m.Keys - {docId}
      && (forall k :: k in r ==> r[k] == m[k])
      && (Keyed(m) ==> Keyed(r))
  {
  }

  /** Saving a document and then deleting it restores a table that did not have it. */
  lemma SaveThenDelete(m: map<string, DocumentRecord>, docId: string, filename: string, fileSize: nat, now: nat)
    requires docId !in m
    ensures m[docId := NewRecord(docId, filename, fileSize, now)] - {docId} == m
  {
  }
}
