/**
 * The knowledge-base page: a document list with a case-insensitive name
 * search, delete by id, and a simulated upload whose progress advances by
 * 10 on each tick of a 200 ms interval and, once complete, prepends one
 * pending document per uploaded file.
 */
module KnowledgeBasePage {
  import opened Seqs
  import opened Text
  import opened Wrappers

  datatype Status = Processed | Pending | Failed

  datatype Document = Document(id: string, name: string, size: string, uploadDate: string, status: Status, docType: string)

  /** A picked file; `sizeLabel` stands for its size already formatted in MB. */
  datatype UploadFile = UploadFile(name: string, sizeLabel: string)

  datatype Notice = UploadSuccessful(count: nat) | DocumentDeleted

  /** The search predicate: the lower-cased name includes the lower-cased term. */
  predicate NameMatches(d: Document, term: string)
  {
    Includes(Lower(d.name), Lower(term))
  }

  /**
   * `filteredDocuments`: an order-preserving subsequence of the documents
   * holding exactly those whose name matches the term.
   */
  function SearchDocuments(docs: seq<Document>, term: string): (r: seq<Document>)
    ensures IsSubsequence(r, docs)
    ensures forall d :: d in r ==> NameMatches(d, term)
    ensures forall d :: multiset(r)[d] == if NameMatches(d, term) then multiset(docs)[d] else 0
  {
    var matches := (d: Document) => NameMatches(d, term);
    FilterIsSubsequence(docs, matches);
    FilterKeepsExactly(docs, matches);
    Filter(docs, matches)
  }

  /** An empty search term shows every document. */
  lemma EmptySearchShowsAll(docs: seq<Document>)
    ensures SearchDocuments(docs, "") == docs
  {
    var r := SearchDocuments(docs, "");
    forall d: Document ensures NameMatches(d, "") {
      IncludesEmpty(Lower(d.name));
    }
    assert multiset(r) == multiset(docs);
    SubsequenceFull(r, docs);
  }

  /** `prev.filter(doc => doc.id !== id)`. */
  function DeleteDocument(docs: seq<Document>, id: string): (r: seq<Document>)
    ensures IsSubsequence(r, docs)
    ensures forall d :: d in r ==> d.id != id
    ensures forall d :: multiset(r)[d] == if d.id != id then multiset(docs)[d] else 0
  {
    var keep := (d: Document) => d.id != id;
    FilterIsSubsequence(docs, keep);
    FilterKeepsExactly(docs, keep);
    Filter(docs, keep)
  }

  /** Deleting the same id twice is the same as deleting it once. */
  lemma DeleteDocumentIdempotent(docs: seq<Document>, id: string)
    ensures DeleteDocument(DeleteDocument(docs, id), id) == DeleteDocument(docs, id)
  {
    var once := DeleteDocument(docs, id);
    var twice := DeleteDocument(once, id);
    forall d: Document ensures multiset(twice)[d] == multiset(once)[d] {
      if d.id == id {
        assert d !in once;
      }
    }
    assert multiset(twice) == multiset(once);
    SubsequenceFull(twice, once);
  }

  /** `name.split('.').pop()`: the text after the last '.', or the whole name if it has none. */
  function AfterLastDot(name: string): (ext: string)
    ensures '.' !in ext
    ensures |ext| <= |name| && name[|name| - |ext|..] == ext
    ensures |ext| < |name| ==> name[|name| - |ext| - 1] == '.'
  {
    if name == [] then []
    else if name[|name| - 1] == '.' then []
    else AfterLastDot(name[..|name| - 1]) + [name[|name| - 1]]
  }

  /** `file.name.split('.').pop()?.toUpperCase() || "FILE"`. */
  function FileType(name: string): (t: string)
    ensures t != "" && '.' !in t
    ensures t == "FILE" || |t| == |AfterLastDot(name)| > 0
  {
    var ext := AfterLastDot(name);
    if ext == "" then "FILE" else Upper(ext)
  }

  /** For "stem.ext" with no dot in ext, the part after the last dot is exactly ext. */
  lemma {:induction false} AfterLastDotOfSplit(stem: string, ext: string)
    requires '.' !in ext
    ensures AfterLastDot(stem + "." + ext) == ext
  {
    var name := stem + "." + ext;
    if ext == [] {
      assert name[|name| - 1] == '.';
    } else {
      var last := ext[|ext| - 1];
      assert last != '.';
      assert name[..|name| - 1] == stem + "." + ext[..|ext| - 1];
      AfterLastDotOfSplit(stem, ext[..|ext| - 1]);
      assert ext == ext[..|ext| - 1] + [last];
    }
  }

  /** A name without a dot is its own last segment. */
  lemma {:induction false} AfterLastDotNoDot(name: string)
    requires '.' !in name
    ensures AfterLastDot(name) == name
  {
    if name != [] {
      AfterLastDotNoDot(name[..|name| - 1]);
      assert name == name[..|name| - 1] + [name[|name| - 1]];
    }
  }

  /**
   * The document type is the upper-cased extension after the last dot; a
   * name without a dot gives the whole name upper-cased; a name ending in a
   * dot (or an empty name) gives "FILE".
   */
  lemma FileTypeCases(stem: string, ext: string, name: string)
    ensures '.' !in ext && ext != "" ==> FileType(stem + "." + ext) == Upper(ext)
    ensures FileType(stem + ".") == "FILE"
    ensures '.' !in name && name != "" ==> FileType(name) == Upper(name)
    ensures FileType("") == "FILE"
  {
    if '.' !in ext {
      AfterLastDotOfSplit(stem, ext);
    }
    AfterLastDotOfSplit(stem, "");
    assert stem + "." + "" == stem + ".";
    if '.' !in name {
      AfterLastDotNoDot(name);
    }
  }

  /**
   * The documents built when an upload completes: one per file, in file
   * order, each pending, named after its file, typed by its extension, with
   * id `Date.now().toString() + index`.
   */
  function NewDocuments(files: seq<UploadFile>, now: nat, today: string): (r: seq<Document>)
    ensures |r| == |files|
    ensures forall i :: 0 <= i < |files| ==>
      r[i].name == files[i].name && r[i].status == Pending && r[i].uploadDate == today &&
      r[i].docType == FileType(files[i].name) && r[i].size == files[i].sizeLabel &&
      r[i].id == NatToString(now) + NatToString(i)
  {
    seq(|files|, i requires 0 <= i < |files| =>
      Document(NatToString(now) + NatToString(i), files[i].name, files[i].sizeLabel, today, Pending, FileType(files[i].name)))
  }

  /** One tick of the progress interval: 10 more, or back to 0 once it had reached 100. */
  function Advance(progress: int): (r: int)
    ensures 0 <= progress <= 100 && progress % 10 == 0 ==> 0 <= r <= 100 && r % 10 == 0
    ensures progress >= 0 ==> (r == 0 <==> progress >= 100)
    ensures progress < 100 ==> r > progress
  {
    if progress >= 100 then 0 else progress + 10
  }

  /** The progress after k ticks of an upload that started at 0. */
  function ProgressAfter(ticks: nat): int
  {
    if ticks == 0 then 0 else Advance(ProgressAfter(ticks - 1))
  }

  /** The first ten ticks raise the progress 10 at a time, up to 100. */
  lemma {:induction false} ProgressAfterTicks(ticks: nat)
    requires ticks <= 10
    ensures ProgressAfter(ticks) == 10 * ticks
  {
    if ticks > 0 {
      ProgressAfterTicks(ticks - 1);
    }
  }

  /** An upload completes on its eleventh tick and on no earlier one. */
  lemma UploadCompletesOnEleventhTick(ticks: nat)
    ensures ticks < 10 ==> ProgressAfter(ticks) < 100
    ensures ProgressAfter(10) == 100 && ProgressAfter(11) == 0
  {
    if ticks < 10 {
      ProgressAfterTicks(ticks);
    }
    ProgressAfterTicks(10);
  }

  /** The four documents the page starts with. */
  function SeedDocuments(): seq<Document>
  {
    [ Document("1", "Product Manual v2.1.pdf", "2.4 MB", "2024-08-05", Processed, "PDF"),
      Document("2", "FAQ Document.docx", "850 KB", "2024-08-04", Processed, "DOCX"),
      Document("3", "Support Guidelines.txt", "156 KB", "2024-08-03", Pending, "TXT"),
      Document("4", "API Documentation.pdf", "3.2 MB", "2024-08-02", Failed, "PDF") ]
  }

  /** Each seeded document carries the type an upload of its file would get. */
  lemma SeedTypesFollowNames(i: nat)
    requires i < |SeedDocuments()|
    ensures FileType(SeedDocuments()[i].name) == SeedDocuments()[i].docType
  {
    var d := SeedDocuments()[i];
    var stem, ext := if i == 0 then "Product Manual v2.1" else if i == 1 then "FAQ Document"
                     else if i == 2 then "Support Guidelines" else "API Documentation",
                     if i == 1 then "docx" else if i == 2 then "txt" else "pdf";
    assert d.name == stem + "." + ext;
    assert Upper(ext) == d.docType;
    FileTypeOfSplit(stem, ext, d.docType);
  }

  /** "stem.ext" with a non-empty, dot-free ext is typed as ext upper-cased. */
  lemma FileTypeOfSplit(stem: string, ext: string, upper: string)
    requires ext != "" && '.' !in ext && Upper(ext) == upper
    ensures FileType(stem + "." + ext) == upper
  {
    AfterLastDotOfSplit(stem, ext);
  }

  class Page {
    var documents: seq<Document>
    var searchTerm: string
    var uploadProgress: int
    var isUploading: bool
    /** The files captured by the running interval's callback. */
    var uploadingFiles: seq<UploadFile>

    /** Progress is a multiple of 10 in [0, 100], and 0 whenever no upload runs. */
    ghost predicate Valid()
      reads this
    {
      && 0 <= uploadProgress <= 100
      && uploadProgress % 10 == 0
      && (!isUploading ==> uploadProgress == 0)
      && (isUploading ==> uploadingFiles != [])
    }

    constructor ()
      ensures Valid()
      ensures documents == SeedDocuments() && searchTerm == "" && uploadProgress == 0 && !isUploading
    {
      documents := SeedDocuments();
      searchTerm := "";
      uploadProgress := 0;
      isUploading := false;
      uploadingFiles := [];
    }

    /** The list shown on the page. */
    function FilteredDocuments(): (r: seq<Document>)
      reads this
      ensures IsSubsequence(r, documents)
      ensures forall d :: d in r ==> NameMatches(d, searchTerm)
      ensures forall d :: multiset(r)[d] == if NameMatches(d, searchTerm) then multiset(documents)[d] else 0
    {
      SearchDocuments(documents, searchTerm)
    }

    method SetSearchTerm(term: string)
      requires Valid()
      modifies this`searchTerm
      ensures Valid() && searchTerm == term
    {
      searchTerm := term;
    }

    /**
     * `handleFileUpload`: no files, no change; otherwise the upload starts at
     * 0 %. The file input is disabled while an upload runs.
     */
    method FileUpload(files: seq<UploadFile>)
      requires Valid() && !isUploading
      modifies this`isUploading, this`uploadProgress, this`uploadingFiles
      ensures Valid()
      ensures files == [] ==>
        isUploading == old(isUploading) && uploadProgress == old(uploadProgress) && uploadingFiles == old(uploadingFiles)
      ensures files != [] ==> isUploading && uploadProgress == 0 && uploadingFiles == files
    {
      if |files| == 0 {
        return;
      }
      isUploading := true;
      uploadProgress := 0;
      uploadingFiles := files;
    }

    /**
     * One tick of the interval. Below 100 the progress rises by 10; at 100 the
     * upload ends, progress returns to 0 and the new pending documents go in
     * front of the existing ones, which are unchanged.
     */
    method Tick(now: nat, today: string) returns (notice: Option<Notice>)
      requires Valid() && isUploading
      modifies this`isUploading, this`uploadProgress, this`documents
      ensures Valid()
      ensures uploadProgress == Advance(old(uploadProgress))
      ensures old(uploadProgress) < 100 ==>
        isUploading && documents == old(documents) && notice == None
      ensures old(uploadProgress) >= 100 ==>
        !isUploading && notice == Some(UploadSuccessful(|uploadingFiles|)) &&
        documents == NewDocuments(uploadingFiles, now, today) + old(documents)
    {
      if uploadProgress >= 100 {
        isUploading := false;
        documents := NewDocuments(uploadingFiles, now, today) + documents;
        notice := Some(UploadSuccessful(|uploadingFiles|));
      } else {
        notice := None;
      }
      uploadProgress := Advance(uploadProgress);
    }

    /** `handleDeleteDocument`. */
    method DeleteDocumentById(id: string) returns (notice: Notice)
      requires Valid()
      modifies this`documents
      ensures Valid()
      ensures documents == DeleteDocument(old(documents), id)
      ensures notice == DocumentDeleted
    {
      documents := DeleteDocument(documents, id);
      notice := DocumentDeleted;
    }
  }
}
