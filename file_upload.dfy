/**
 * src/components/FileUpload/FileUpload.tsx: the drop zone and file picker of
 * an account's documents. The component's state is the `FileUpload` class:
 * `isDragOver`, the uploads it has started (`started`, in order) and the
 * values passed to `onUploadSuccess` and `onUploadError`. The upload server
 * action itself is outside this model; `HandleUploadResult` takes how one
 * upload settled.
 */
module FileUpload {
  import opened Common
  import opened Domain
  import opened Validations
  import opened ServerActions

  const OnlyPdf: string := "Please upload only PDF files"
  const UploadFallback: string := "Failed to upload file"
  const UploadRetry: string := "Failed to upload file. Please try again."

  /** `files.filter((file) => file.type === "application/pdf")` */
  function PdfFiles(files: seq<File>): (pdfs: seq<File>)
    ensures |pdfs| <= |files|
    decreases |files|
  {
    if files == [] then []
    else (if files[0].fileType == PdfType then [files[0]] else []) + PdfFiles(files[1..])
  }

  /** The filter keeps exactly the PDFs among the files. */
  lemma {:induction false} PdfFilesMembers(files: seq<File>)
    ensures forall f :: f in PdfFiles(files) <==> f in files && f.fileType == PdfType
    decreases |files|
  {
    if files != [] {
      PdfFilesMembers(files[1..]);
      assert files == [files[0]] + files[1..];
    }
  }

  lemma PdfFilesCons(f: File, rest: seq<File>)
    ensures PdfFiles([f] + rest) == (if f.fileType == PdfType then [f] else []) + PdfFiles(rest)
  {
    assert ([f] + rest)[1..] == rest;
  }

  /** Filtering works piece by piece, so the PDFs are uploaded in the order they were given. */
  lemma {:induction false} PdfFilesAppend(a: seq<File>, b: seq<File>)
    ensures PdfFiles(a + b) == PdfFiles(a) + PdfFiles(b)
    decreases |a|
  {
    if a == [] {
      assert a + b == b;
    } else {
      var f, rest := a[0], a[1..];
      assert a == [f] + rest;
      assert a + b == [f] + (rest + b);
      PdfFilesCons(f, rest + b);
      PdfFilesCons(f, rest);
      PdfFilesAppend(rest, b);
    }
  }

  /** A selection of PDFs only is uploaded whole; filtering twice is filtering once. */
  lemma {:induction false} PdfFilesKeepsPdfs(files: seq<File>)
    requires forall f :: f in files ==> f.fileType == PdfType
    ensures PdfFiles(files) == files
    decreases |files|
  {
    if files != [] {
      PdfFilesKeepsPdfs(files[1..]);
    }
  }

  lemma PdfFilesIdempotent(files: seq<File>)
    ensures PdfFiles(PdfFiles(files)) == PdfFiles(files)
  {
    PdfFilesMembers(files);
    PdfFilesKeepsPdfs(PdfFiles(files));
  }

  /** The message passed to `onUploadError` once an upload settled without a document. */
  function UploadErrorFor(outcome: Outcome<ActionResult<Document>>): (message: string)
    requires !(outcome.Returned? && outcome.value.Success?)
    ensures outcome.Threw? ==> message == UploadRetry
    ensures outcome.Returned? && outcome.value.error != "" ==> message == outcome.value.error
    ensures outcome.Returned? && outcome.value.error == "" ==> message == UploadFallback
    ensures message != ""
  {
    if outcome.Threw? then UploadRetry
    else if outcome.value.error != "" then outcome.value.error
    else UploadFallback
  }

  class FileUpload {
    const accountId: string
    var isDragOver: bool
    /** The files handed to `uploadFile`, in order. */
    var started: seq<File>
    /** The documents passed to `onUploadSuccess`, oldest first. */
    var uploaded: seq<Document>
    /** The messages passed to `onUploadError`, oldest first. */
    var errors: seq<string>

    constructor(accountId: string)
      ensures this.accountId == accountId
      ensures !isDragOver && started == [] && uploaded == [] && errors == []
    {
      this.accountId := accountId;
      isDragOver := false;
      started := [];
      uploaded := [];
      errors := [];
    }

    method HandleDragOver()
      modifies this
      ensures isDragOver
      ensures started == old(started) && uploaded == old(uploaded) && errors == old(errors)
    {
      isDragOver := true;
    }

    method HandleDragLeave()
      modifies this
      ensures !isDragOver
      ensures started == old(started) && uploaded == old(uploaded) && errors == old(errors)
    {
      isDragOver := false;
    }

    /**
     * What the drop and select handlers share: without a PDF among `files`
     * one error is reported and nothing is uploaded; otherwise each PDF is
     * uploaded once, in order, and the other files are dropped silently.
     */
    method UploadPdfs(files: seq<File>)
      modifies this
      ensures PdfFiles(files) == [] ==> started == old(started) && errors == old(errors) + [OnlyPdf]
      ensures PdfFiles(files) != [] ==> started == old(started) + PdfFiles(files) && errors == old(errors)
      ensures isDragOver == old(isDragOver) && uploaded == old(uploaded)
    {
      var pdfFiles := PdfFiles(files);
      if |pdfFiles| == 0 {
        errors := errors + [OnlyPdf];
        return;
      }
      for i := 0 to |pdfFiles|
        invariant started == old(started) + pdfFiles[..i]
        invariant errors == old(errors) && uploaded == old(uploaded) && isDragOver == old(isDragOver)
      {
        started := started + [pdfFiles[i]];
        assert pdfFiles[..i + 1] == pdfFiles[..i] + [pdfFiles[i]];
      }
      assert pdfFiles[..|pdfFiles|] == pdfFiles;
    }

    /** `handleDrop`: the drag highlight goes off, then the dropped files are handled. */
    method HandleDrop(files: seq<File>)
      modifies this
      ensures !isDragOver
      ensures PdfFiles(files) == [] ==> started == old(started) && errors == old(errors) + [OnlyPdf]
      ensures PdfFiles(files) != [] ==> started == old(started) + PdfFiles(files) && errors == old(errors)
      ensures uploaded == old(uploaded)
    {
      isDragOver := false;
      UploadPdfs(files);
    }

    /** `handleFileSelect`: a missing file list counts as an empty one. */
    method HandleFileSelect(files: Option<seq<File>>)
      modifies this
      ensures PdfFiles(files.GetOr([])) == [] ==> started == old(started) && errors == old(errors) + [OnlyPdf]
      ensures PdfFiles(files.GetOr([])) != [] ==> started == old(started) + PdfFiles(files.GetOr([])) && errors == old(errors)
      ensures isDragOver == old(isDragOver) && uploaded == old(uploaded)
    {
      UploadPdfs(files.GetOr([]));
    }

    /** How one started upload ends: exactly one of the two callbacks fires. */
    method HandleUploadResult(outcome: Outcome<ActionResult<Document>>)
      modifies this
      ensures outcome.Returned? && outcome.value.Success? ==>
        uploaded == old(uploaded) + [outcome.value.data] && errors == old(errors)
      ensures !(outcome.Returned? && outcome.value.Success?) ==>
        uploaded == old(uploaded) && errors == old(errors) + [UploadErrorFor(outcome)]
      ensures isDragOver == old(isDragOver) && started == old(started)
    {
      if outcome.Returned? && outcome.value.Success? {
        uploaded := uploaded + [outcome.value.data];
      } else {
        errors := errors + [UploadErrorFor(outcome)];
      }
    }
  }
}
