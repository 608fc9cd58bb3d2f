/** The upload policy: for each purpose a size ceiling and the content types it accepts, and
    the middleware decision that admits a file or refuses it with a 400 and a message. */
module FilePolicy {
  import opened Wrappers

  datatype Purpose = ProfilePicture | ContributionProof | Document

  function PurposeName(p: Purpose): string {
    match p
    case ProfilePicture => "profile"
    case ContributionProof => "contribution"
    case Document => "document"
  }

  const MB: nat := 1024 * 1024
  const Jpeg := "image/jpeg"
  const Png := "image/png"
  const Pdf := "application/pdf"
  const Msword := "application/msword"
  const Docx := "application/vnd.openxmlformats-officedocument.wordprocessingml.document"

  datatype Policy = Policy(maxSize: nat, allowedTypes: seq<string>)

  /** `validationConfigs`. */
  function PolicyOf(p: Purpose): Policy {
    match p
    case ProfilePicture => Policy(5 * MB, [Jpeg, Png])
    case ContributionProof => Policy(10 * MB, [Jpeg, Png, Pdf])
    case Document => Policy(20 * MB, [Pdf, Msword, Docx])
  }

  /** The part of a multipart request named `file`, as the upload library reports it. */
  datatype IncomingFile = IncomingFile(originalName: string, size: nat, mimetype: string)

  /** What the middleware attaches to the request for the next handler. */
  datatype FileValidation = FileValidation(purpose: Purpose, originalName: string, size: nat, mimetype: string,
                                           timestamp: string)

  datatype Verdict = Accepted(validation: FileValidation) | BadRequest(error: string)

  /** `list.join(', ')`. */
  function JoinComma(xs: seq<string>): string {
    if xs == [] then "" else if |xs| == 1 then xs[0] else xs[0] + ", " + JoinComma(xs[1..])
  }

  /** The message of the file filter's error. */
  function TypeMessage(p: Purpose): string {
    "Invalid file type. Allowed types: " + JoinComma(PolicyOf(p).allowedTypes)
  }

  /** The upload library's message for a file over the size limit, behind the middleware's
      prefix. */
  const TooLarge := "File upload error: File too large"

  /** `validateFile(purpose)`: the file filter runs when the part starts, before its bytes
      are counted, so a file of the wrong type is refused for its type whatever its size; a
      file of an accepted type larger than the ceiling is refused by the size limit; no file
      at all is refused last. `timestamp` is the clock at the time of the request. */
  function ValidateFile(p: Purpose, file: Option<IncomingFile>, timestamp: string): (r: Verdict)
    ensures r.Accepted? <==>
      file.Some? && file.value.mimetype in PolicyOf(p).allowedTypes && file.value.size <= PolicyOf(p).maxSize
    ensures r.Accepted? ==>
      r.validation == FileValidation(p, file.value.originalName, file.value.size, file.value.mimetype, timestamp)
    ensures file.None? ==> r == BadRequest("No file uploaded")
    ensures file.Some? && file.value.mimetype !in PolicyOf(p).allowedTypes ==> r == BadRequest(TypeMessage(p))
    ensures file.Some? && file.value.mimetype in PolicyOf(p).allowedTypes && file.value.size > PolicyOf(p).maxSize ==>
      r == BadRequest(TooLarge)
  {
    var policy := PolicyOf(p);
    if file.None? then BadRequest("No file uploaded")
    else if file.value.mimetype !in policy.allowedTypes then BadRequest(TypeMessage(p))
    else if file.value.size > policy.maxSize then BadRequest(TooLarge)
    else Accepted(FileValidation(p, file.value.originalName, file.value.size, file.value.mimetype, timestamp))
  }

  /** The refusal lists the purpose's types in table order, separated by commas. */
  lemma TypeMessages()
    ensures TypeMessage(ProfilePicture) == "Invalid file type. Allowed types: " + Jpeg + ", " + Png
    ensures TypeMessage(ContributionProof) == "Invalid file type. Allowed types: " + Jpeg + ", " + Png + ", " + Pdf
    ensures TypeMessage(Document) == "Invalid file type. Allowed types: " + Pdf + ", " + Msword + ", " + Docx
  {
    assert [Jpeg, Png, Pdf][1..] == [Png, Pdf] && [Png, Pdf][1..] == [Pdf];
    assert [Pdf, Msword, Docx][1..] == [Msword, Docx] && [Msword, Docx][1..] == [Docx];
  }

  /** A file accepted for one purpose is accepted for another purpose when that one's
      ceiling is no lower and it lists the file's type: the decision is the size and type
      test and nothing else. */
  lemma AcceptedElsewhere(p: Purpose, q: Purpose, file: IncomingFile, timestamp: string)
    requires ValidateFile(p, Some(file), timestamp).Accepted?
    requires PolicyOf(p).maxSize <= PolicyOf(q).maxSize && file.mimetype in PolicyOf(q).allowedTypes
    ensures ValidateFile(q, Some(file), timestamp).Accepted?
  {
  }
}
