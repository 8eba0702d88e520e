/** The résumé upload handler: the extracted text of the uploaded file is
    stored under `resume:<userId>`.  Text extraction (reading the file, PDF
    parsing) is a parameter. */
module Resume {
  import opened Common
  import opened JsValue
  import opened Cache

  /** The part of an uploaded file the handler reads besides its content. */
  datatype UploadedFile = UploadedFile(originalName: string)

  /** What text extraction gives: the text, or an error with its message. */
  datatype Extraction = Extracted(text: string) | ExtractionFailed(message: string)

  const PreviewLength: nat := 100
  const GuestUser: string := "guest"

  /** `resume:${userId}` */
  function ResumeKey(user: Value): string {
    "resume:" + Text(user)
  }

  /** The first hundred characters followed by an ellipsis. */
  function Preview(text: string): (r: string)
    ensures |r| == (if |text| < PreviewLength then |text| else PreviewLength) + 3
    ensures IsSuffix("...", r) && IsPrefix(r[..|r| - 3], text)
  {
    var p := Take(text, PreviewLength);
    assert (p + "...")[..|p|] == p;
    p + "..."
  }

  /** The successful reply, which does not depend on whether the store
      accepted the write. */
  function Uploaded(file: UploadedFile, text: string): Reply {
    Success(map[
      "message" := Str("Resume uploaded and processed successfully"),
      "data" := Obj(map["fileName" := Str(file.originalName), "textPreview" := Str(Preview(text))])
    ])
  }

  /** `uploadResume`. */
  method UploadResume(store: Store, file: Option<UploadedFile>, userId: Option<Value>, extraction: Extraction)
    returns (reply: Reply)
    requires store.Valid()
    modifies store
    ensures store.Valid()
    ensures file.None? ==> reply == Failure(400, "No file uploaded") && unchanged(store)
    ensures file.Some? && extraction.ExtractionFailed? ==>
      reply == Failure(500, if extraction.message == [] then "Internal Server Error" else extraction.message)
      && unchanged(store)
    ensures file.Some? && extraction == Extracted([]) ==>
      reply == Failure(500, "Failed to extract text from file.") && unchanged(store)
    ensures file.Some? && extraction.Extracted? && extraction.text != [] ==>
      && reply == Uploaded(file.value, extraction.text)
      && store.Wrote(ResumeKey(OrElse(userId, Str(GuestUser))), Str(extraction.text), None)
  {
    if file.None? {
      return Failure(400, "No file uploaded");
    }
    var user := OrElse(userId, Str(GuestUser));
    match extraction {
      case ExtractionFailed(message) =>
        return Failure(500, if message == [] then "Internal Server Error" else message);
      case Extracted(text) =>
        if text == [] {
          return Failure(500, "Failed to extract text from file.");
        }
        var _ := store.Set(ResumeKey(user), Str(text), None);
        reply := Uploaded(file.value, text);
    }
  }
}
