/** What the two upload routes share: the request they read, the JSON reply
    they send, and the 5 MiB size limit. */
module UploadRequest {
  import opened Base
  import opened Ledger

  /** The multipart `file` field: its name, MIME type and size in bytes. */
  datatype FileInfo = FileInfo(name: string, mimeType: string, size: nat)

  /** What `formData.get("file")` yields: nothing (null), a text value, or a
      file. */
  datatype FileField = Absent | TextValue(text: string) | FileValue(info: FileInfo)

  /** The request body: `request.formData()` either throws (the body is not
      form data) or gives the form's `file` field. */
  datatype Body = NotFormData | FormData(file: FileField)

  /** The signed-in user, if any, and the request body. */
  datatype Request = Request(user: Option<UserId>, body: Body)

  /** `!file`: null and the empty text are falsy; any file object is truthy,
      even an empty one. */
  predicate IsFalsy(f: FileField)
  {
    f.Absent? || (f.TextValue? && f.text == "")
  }

  /** The route's JSON reply: `{ url }` with status 200, or `{ error }` with a
      failure status. */
  datatype Reply = Uploaded(url: string) | Rejected(status: nat, message: string)

  const Unauthorized: nat := 401
  const BadRequest: nat := 400
  const ServerError: nat := 500

  /** Both routes accept at most `5 * 1024 * 1024` bytes. */
  const MaxUploadBytes: nat := 5 * 1024 * 1024

  predicate WithinSizeLimit(f: FileInfo)
  {
    f.size <= MaxUploadBytes
  }
}
