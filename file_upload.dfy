/** The file picker of the client: a picked or dropped file is handed on only when it is the
    first of the selection and passes the type and size test; otherwise the user sees a
    toast. */
module FileUploadWidget {
  import opened Wrappers
  import opened JsValues
  import opened FilePolicy
  import Upload

  /** The picker's defaults. */
  const DefaultTypes := [Jpeg, Png, Pdf]
  const DefaultMaxSizeMB: nat := 5

  /** A file as the browser describes it. */
  datatype PickedFile = PickedFile(name: string, kind: string, size: nat)

  datatype Check = Valid | Toast(message: string)

  /** `validateFile`: the type is tested before the size, so a file failing both is reported
      for its type. */
  function ValidateFile(acceptedTypes: seq<string>, maxSizeMB: nat, f: PickedFile): (r: Check)
    ensures r.Valid? <==> f.kind in acceptedTypes && f.size <= maxSizeMB * MB
    ensures f.kind !in acceptedTypes ==> r == Toast("Invalid file type")
    ensures f.kind in acceptedTypes && f.size > maxSizeMB * MB ==>
      r == Toast("File size must be less than " + IntToString(maxSizeMB) + "MB")
  {
    if f.kind !in acceptedTypes then Toast("Invalid file type")
    else if f.size > maxSizeMB * MB then Toast("File size must be less than " + IntToString(maxSizeMB) + "MB")
    else Valid
  }

  /** What `onFileSelect` receives from a pick or a drop of `files`: the first file, when it
      is valid; nothing otherwise. */
  function Selected(acceptedTypes: seq<string>, maxSizeMB: nat, files: seq<PickedFile>): (r: Option<PickedFile>)
    ensures r.Some? <==> files != [] && ValidateFile(acceptedTypes, maxSizeMB, files[0]).Valid?
    ensures r.Some? ==> r.value == files[0]
  {
    if files != [] && ValidateFile(acceptedTypes, maxSizeMB, files[0]).Valid? then Some(files[0]) else None
  }

  /** Only the first file counts: the rest of a selection is never looked at. */
  lemma OnlyFirstCounts(acceptedTypes: seq<string>, maxSizeMB: nat, f: PickedFile, rest: seq<PickedFile>)
    ensures Selected(acceptedTypes, maxSizeMB, [f] + rest) == Selected(acceptedTypes, maxSizeMB, [f])
  {
  }

  /** The file the server's routes see for a picked file. */
  function AsIncoming(f: PickedFile): IncomingFile {
    IncomingFile(f.name, f.size, f.kind)
  }

  /** With its defaults, the picker hands on only files that the upload route forwards as
      proofs of contribution and that the contribution policy accepts. */
  lemma DefaultsWithinServer(f: PickedFile, timestamp: string)
    requires ValidateFile(DefaultTypes, DefaultMaxSizeMB, f).Valid?
    ensures Upload.Forwards(Some(AsIncoming(f)), Some("contribution"))
    ensures FilePolicy.ValidateFile(ContributionProof, Some(AsIncoming(f)), timestamp).Accepted?
  {
    assert PurposeName(ContributionProof) == "contribution";
  }
}
