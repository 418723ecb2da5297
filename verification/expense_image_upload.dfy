/** `POST /api/expense-image/upload`: the validation ladder with its MIME
    whitelist, and the stored path. */
module ExpenseImageUpload {
  import opened Base
  import opened Ledger
  import opened Text
  import opened UploadRequest
  import AvatarUpload

  /** The accepted MIME types, compared exactly. */
  const ValidTypes: seq<string> := ["image/jpeg", "image/jpg", "image/png", "image/webp", "image/gif"]

  /** The reply of the route's `catch`: anything thrown after the auth check. */
  const UploadFailed: Reply := Rejected(ServerError, "Failed to upload image")

  /** The MIME type `validTypes.includes(file.type)` sees: a text value has no
      `type`, so it is `undefined` and never whitelisted. */
  predicate WhitelistedType(f: FileField)
  {
    f.FileValue? && f.info.mimeType in ValidTypes
  }

  /** The checks before the upload: signed in (401); a form-data body, or
      `formData()` throws (500); a field that is not null or empty (400); a
      file of a whitelisted type (400); at most 5 MiB (400). */
  function ExpenseImageCheck(req: Request): (r: Result<(UserId, FileInfo), Reply>)
    ensures r.Success? <==>
      && req.user.Some? && req.body.FormData? && req.body.file.FileValue?
      && req.body.file.info.mimeType in ValidTypes && WithinSizeLimit(req.body.file.info)
    ensures r.Success? ==> r.value == (req.user.value, req.body.file.info)
    ensures req.user.None? ==> r == Failure(Rejected(Unauthorized, "Unauthorized"))
    ensures req.user.Some? && req.body.NotFormData? ==> r == Failure(UploadFailed)
    ensures req.user.Some? && req.body.FormData? && IsFalsy(req.body.file) ==>
      r == Failure(Rejected(BadRequest, "No file provided"))
    ensures req.user.Some? && req.body.FormData? && !IsFalsy(req.body.file) && !WhitelistedType(req.body.file) ==>
      r == Failure(Rejected(BadRequest, "Invalid file type. Only images are allowed."))
    ensures req.user.Some? && req.body.FormData? && WhitelistedType(req.body.file)
            && !WithinSizeLimit(req.body.file.info) ==>
      r == Failure(Rejected(BadRequest, "File too large. Maximum size is 5MB."))
  {
    if req.user.None? then Failure(Rejected(Unauthorized, "Unauthorized"))
    else match req.body
      case NotFormData => Failure(UploadFailed)
      case FormData(field) =>
        match field
        case Absent => Failure(Rejected(BadRequest, "No file provided"))
        case TextValue(t) =>
          if t == "" then Failure(Rejected(BadRequest, "No file provided"))
          else Failure(Rejected(BadRequest, "Invalid file type. Only images are allowed."))
        case FileValue(f) =>
          if f.mimeType !in ValidTypes then Failure(Rejected(BadRequest, "Invalid file type. Only images are allowed."))
          else if !WithinSizeLimit(f) then Failure(Rejected(BadRequest, "File too large. Maximum size is 5MB."))
          else Success((req.user.value, f))
  }

  /** Every whitelisted type is an image type, but not every image type is
      whitelisted: an SVG passes the avatar route's prefix test and is refused
      here. The size limit is inclusive. */
  lemma WhitelistIsNarrowerThanPrefix(uid: UserId, name: string)
    ensures forall t :: t in ValidTypes ==> StartsWith(t, "image/")
    ensures StartsWith("image/svg+xml", "image/")
    ensures ExpenseImageCheck(Request(Some(uid), FormData(FileValue(FileInfo(name, "image/svg+xml", 1)))))
         == Failure(Rejected(BadRequest, "Invalid file type. Only images are allowed."))
    ensures ExpenseImageCheck(Request(Some(uid), FormData(FileValue(FileInfo(name, "image/png", 5242880))))).Success?
    ensures ExpenseImageCheck(Request(Some(uid), FormData(FileValue(FileInfo(name, "image/png", 5242881)))))
         == Failure(Rejected(BadRequest, "File too large. Maximum size is 5MB."))
  {
    forall t | t in ValidTypes ensures StartsWith(t, "image/") {
      assert t[..6] == "image/";
    }
    assert "image/svg+xml"[..6] == "image/";
  }

  /** A non-empty text value in the `file` field: the avatar route fails with
      500 when it reads the missing `type`, this route answers 400 because the
      missing type is not whitelisted. */
  lemma TextFieldRepliesDiffer(uid: UserId, t: string)
    requires t != ""
    ensures AvatarUpload.AvatarCheck(Request(Some(uid), FormData(TextValue(t)))) == Failure(Rejected(ServerError, "Upload failed"))
    ensures ExpenseImageCheck(Request(Some(uid), FormData(TextValue(t))))
         == Failure(Rejected(BadRequest, "Invalid file type. Only images are allowed."))
  {
  }

  /** `expense-images/${user.id}/${Date.now()}-${file.name}`. */
  function ExpenseImagePath(uid: UserId, now: nat, name: string): string
  {
    "expense-images/" + uid + "/" + Decimal(now) + "-" + name
  }

  /** The timestamped leaf of the path has no '/' when the name has none. */
  lemma LeafHasNoSlash(now: nat, name: string)
    requires '/' !in name
    ensures '/' !in Decimal(now) + "-" + name
  {
    var leaf := Decimal(now) + "-" + name;
    forall i | 0 <= i < |leaf| ensures leaf[i] != '/' {
      if i < |Decimal(now)| {
        assert leaf[i] == Decimal(now)[i];
      } else if i > |Decimal(now)| {
        assert leaf[i] == name[i - |Decimal(now)| - 1];
      }
    }
  }

  /** The image is filed under the uploader's own folder: when neither the user
      id nor the file name contains a '/', the path has exactly three parts,
      the fixed root, the user id, and the timestamped original name. */
  lemma ExpenseImagePathParts(uid: UserId, now: nat, name: string)
    requires '/' !in uid && '/' !in name
    ensures SplitOn(ExpenseImagePath(uid, now, name), '/') == ["expense-images", uid, Decimal(now) + "-" + name]
  {
    var leaf := Decimal(now) + "-" + name;
    LeafHasNoSlash(now, name);
    var rest := uid + ['/'] + leaf;
    assert ExpenseImagePath(uid, now, name) == "expense-images" + ['/'] + rest;
    SplitOnAbsent("expense-images", '/');
    SplitOnCons("expense-images", '/', rest);
    SplitOnCons(uid, '/', leaf);
    SplitOnAbsent(leaf, '/');
  }

  /** What one request does: the reply and the path handed to `put`. */
  datatype ImageEffects = ImageEffects(reply: Reply, putPath: Option<string>)

  /** The route. `stored` is the URL `put` returns (None: it throws, 500). */
  function HandleExpenseImageUpload(req: Request, now: nat, stored: Option<string>): (e: ImageEffects)
    ensures ExpenseImageCheck(req).Failure? ==> e == ImageEffects(ExpenseImageCheck(req).error, None)
    ensures ExpenseImageCheck(req).Success? ==>
      e.putPath == Some(ExpenseImagePath(req.user.value, now, req.body.file.info.name))
    ensures e.reply.Uploaded? <==> ExpenseImageCheck(req).Success? && stored.Some?
    ensures e.reply.Uploaded? ==> e.reply.url == stored.value
    ensures ExpenseImageCheck(req).Success? && stored.None? ==> e.reply == UploadFailed
  {
    match ExpenseImageCheck(req)
    case Failure(reply) => ImageEffects(reply, None)
    case Success((uid, file)) =>
      var path := ExpenseImagePath(uid, now, file.name);
      match stored
      case None => ImageEffects(UploadFailed, Some(path))
      case Some(url) => ImageEffects(Uploaded(url), Some(path))
  }

  /** A stored image always lies under the uploader's folder and keeps the
      uploaded name at its end. */
  lemma StoredUnderUploader(req: Request, now: nat, stored: Option<string>)
    requires HandleExpenseImageUpload(req, now, stored).putPath.Some?
    ensures req.user.Some? && req.body.FormData? && req.body.file.FileValue?
    ensures
      var p := HandleExpenseImageUpload(req, now, stored).putPath.value;
      && StartsWith(p, "expense-images/" + req.user.value + "/")
      && p[|p| - |req.body.file.info.name|..] == req.body.file.info.name
  {
    var uid := req.user.value;
    var name := req.body.file.info.name;
    var p := ExpenseImagePath(uid, now, name);
    var prefix := "expense-images/" + uid + "/";
    assert p == prefix + (Decimal(now) + "-" + name);
    assert p[..|prefix|] == prefix;
    assert p == (prefix + Decimal(now) + "-") + name;
  }
}
