/** The upload page (src/pages/pdf/upload.jsx). It keeps at most one chosen
    file, accepts only files whose MIME type is `application/pdf`, and on
    "start chatting" records the file's name, size and type and an object URL in
    `sessionStorage` before moving to the chat page. The storage is modelled as
    the two entries the chat page reads back; the object URL is a parameter. */
module Upload {
  import opened Base

  /** A browser `File`: only the fields the page reads. */
  datatype File = File(name: string, size: nat, fileType: string)

  /** The `{ name, size, type }` record written under "uploadedFile". */
  datatype FileMeta = FileMeta(name: string, size: nat, fileType: string)

  /** The stored record carries the file's own name, size and type. */
  predicate Describes(m: FileMeta, f: File)
  {
    m.name == f.name && m.size == f.size && m.fileType == f.fileType
  }

  /** The two `sessionStorage` entries: "uploadedFile" and "pdfUrl". */
  datatype Storage = Storage(uploadedFile: Option<FileMeta>, pdfUrl: Option<string>)

  datatype State = State(uploaded: Option<File>, isUploading: bool, storage: Storage, atChat: bool)

  const PdfType := "application/pdf"

  function Init(storage: Storage): State
  {
    State(None, false, storage, false)
  }

  predicate IsPdf(f: File)
  {
    f.fileType == PdfType
  }

  /** Only a PDF is ever held, and what the page itself stores describes a PDF. */
  predicate Valid(s: State)
  {
    && (s.uploaded.Some? ==> IsPdf(s.uploaded.value))
    && (s.atChat ==> s.storage.uploadedFile.Some? && s.storage.uploadedFile.value.fileType == PdfType)
  }

  /** `handleFileUpload`: a PDF replaces the held file; anything else is refused
      (with an alert) and changes nothing. */
  function HandleFile(s: State, f: File): (r: State)
    ensures r.uploaded == (if IsPdf(f) then Some(f) else s.uploaded)
    ensures r.isUploading == s.isUploading && r.storage == s.storage && r.atChat == s.atChat
    ensures Valid(s) ==> Valid(r)
  {
    if f.fileType == PdfType then s.(uploaded := Some(f)) else s
  }

  /** `handleDrop`: only the first dropped file is considered. */
  function Drop(s: State, files: seq<File>): (r: State)
    ensures files == [] ==> r == s
    ensures files != [] ==> r == HandleFile(s, files[0])
    ensures Valid(s) ==> Valid(r)
  {
    if |files| > 0 then HandleFile(s, files[0]) else s
  }

  /** `handleFileSelect`: like a drop, but the file list may be missing. */
  function Select(s: State, files: Option<seq<File>>): (r: State)
    ensures files.None? ==> r == s
    ensures Valid(s) ==> Valid(r)
  {
    if files.Some? && |files.value| > 0 then HandleFile(s, files.value[0]) else s
  }

  /** Choosing files and dropping the same files have the same effect. */
  lemma SelectIsDrop(s: State, files: seq<File>)
    ensures Select(s, Some(files)) == Drop(s, files)
  {
  }

  /** Dropping a PDF first holds exactly that file, whatever was held before. */
  lemma {:induction false} DropPdfFirst(s: State, f: File, rest: seq<File>)
    requires IsPdf(f)
    ensures Drop(s, [f] + rest).uploaded == Some(f)
  {
    assert ([f] + rest)[0] == f;
  }

  /** `removeFile`. */
  function Remove(s: State): (r: State)
    ensures r.uploaded.None?
    ensures r.isUploading == s.isUploading && r.storage == s.storage && r.atChat == s.atChat
    ensures Valid(s) ==> Valid(r)
  {
    s.(uploaded := None)
  }

  /** `startChatting`, with `url` the result of `URL.createObjectURL`. Without a
      held file nothing happens; otherwise the file's metadata and the URL are
      stored and the page moves to the chat page. */
  function StartChatting(s: State, url: string): (r: State)
    ensures s.uploaded.None? ==> r == s
    ensures s.uploaded.Some? ==>
              && r.atChat && r.isUploading && r.uploaded == s.uploaded
              && r.storage.pdfUrl == Some(url)
              && r.storage.uploadedFile.Some?
              && Describes(r.storage.uploadedFile.value, s.uploaded.value)
    ensures Valid(s) ==> Valid(r)
  {
    match s.uploaded
    case None => s
    case Some(f) =>
      State(s.uploaded, true, Storage(Some(FileMeta(f.name, f.size, f.fileType)), Some(url)), true)
  }
}
