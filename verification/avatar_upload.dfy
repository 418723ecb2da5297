/** `POST /api/avatar/upload`: the validation ladder, the stored path, the
    rule for deleting the previous avatar, and the order of the blob and
    profile writes. */
module AvatarUpload {
  import opened Base
  import opened Ledger
  import opened Text
  import opened UploadRequest

  // ----- validation: auth, file, type, size; the first failure answers -----

  /** The reply of the route's `catch`: anything thrown after the auth check. */
  const UploadFailed: Reply := Rejected(ServerError, "Upload failed")

  /** The checks before any storage call. The user must be signed in (401);
      the body must be form data, or `formData()` throws (500); the field must
      not be null or empty (400); a non-empty text value has no `type`, so
      `startsWith` throws (500); a file's MIME type must start with "image/"
      (400), and it must be at most 5 MiB (400). */
  function AvatarCheck(req: Request): (r: Result<(UserId, FileInfo), Reply>)
    ensures r.Success? <==>
      && req.user.Some? && req.body.FormData? && req.body.file.FileValue?
      && StartsWith(req.body.file.info.mimeType, "image/") && WithinSizeLimit(req.body.file.info)
    ensures r.Success? ==> r.value == (req.user.value, req.body.file.info)
    ensures req.user.None? ==> r == Failure(Rejected(Unauthorized, "Unauthorized"))
    ensures req.user.Some? && req.body.NotFormData? ==> r == Failure(UploadFailed)
    ensures req.user.Some? && req.body.FormData? && IsFalsy(req.body.file) ==>
      r == Failure(Rejected(BadRequest, "No file provided"))
    ensures req.user.Some? && req.body.FormData? && req.body.file.TextValue? && !IsFalsy(req.body.file) ==>
      r == Failure(UploadFailed)
    ensures req.user.Some? && req.body.FormData? && req.body.file.FileValue?
            && !StartsWith(req.body.file.info.mimeType, "image/") ==>
      r == Failure(Rejected(BadRequest, "File must be an image"))
    ensures req.user.Some? && req.body.FormData? && req.body.file.FileValue?
            && StartsWith(req.body.file.info.mimeType, "image/") && !WithinSizeLimit(req.body.file.info) ==>
      r == Failure(Rejected(BadRequest, "File size must be less than 5MB"))
  {
    if req.user.None? then Failure(Rejected(Unauthorized, "Unauthorized"))
    else match req.body
      case NotFormData => Failure(UploadFailed)
      case FormData(field) =>
        match field
        case Absent => Failure(Rejected(BadRequest, "No file provided"))
        case TextValue(t) => if t == "" then Failure(Rejected(BadRequest, "No file provided")) else Failure(UploadFailed)
        case FileValue(f) =>
          if !StartsWith(f.mimeType, "image/") then Failure(Rejected(BadRequest, "File must be an image"))
          else if !WithinSizeLimit(f) then Failure(Rejected(BadRequest, "File size must be less than 5MB"))
          else Success((req.user.value, f))
  }

  /** Every image type passes the type check, and the size limit is
      inclusive: exactly 5 MiB passes, one byte more is refused. */
  lemma AvatarSizeBoundary(uid: UserId, name: string, subtype: string)
    ensures AvatarCheck(Request(Some(uid), FormData(FileValue(FileInfo(name, "image/" + subtype, 5242880))))).Success?
    ensures AvatarCheck(Request(Some(uid), FormData(FileValue(FileInfo(name, "image/" + subtype, 5242881)))))
         == Failure(Rejected(BadRequest, "File size must be less than 5MB"))
  {
    assert ("image/" + subtype)[..|"image/"|] == "image/";
  }

  // ----- the stored path -----

  /** `file.name.split(".").pop()`. */
  function Extension(name: string): string
  {
    LastSegment(name, '.')
  }

  /** `avatars/${user.id}-${Date.now()}.${ext}`. */
  function AvatarPath(uid: UserId, now: nat, name: string): string
  {
    "avatars/" + uid + "-" + Decimal(now) + "." + Extension(name)
  }

  /** The path lies under `avatars/<uid>-`; its extension is the uploaded
      name's text after the last '.', or the whole name when it has none. */
  lemma AvatarPathMeaning(uid: UserId, now: nat, name: string)
    ensures StartsWith(AvatarPath(uid, now, name), "avatars/" + uid + "-")
    ensures LastSegment(AvatarPath(uid, now, name), '.') == Extension(name)
    ensures '.' !in Extension(name)
    ensures '.' !in name ==> Extension(name) == name
    ensures '.' in name ==>
      && |Extension(name)| < |name|
      && name[|name| - |Extension(name)|..] == Extension(name)
      && name[|name| - |Extension(name)| - 1] == '.'
  {
    var ext := Extension(name);
    LastSegmentIsTail(name, '.');
    var head := "avatars/" + uid + "-" + Decimal(now);
    assert AvatarPath(uid, now, name) == head + ['.'] + ext;
    LastSegmentAfterSeparator(head, '.', ext);
    var prefix := "avatars/" + uid + "-";
    assert AvatarPath(uid, now, name) == prefix + (Decimal(now) + "." + ext);
    assert AvatarPath(uid, now, name)[..|prefix|] == prefix;
  }

  // ----- the previous avatar -----

  const BlobHost: string := "blob.vercel-storage.com"

  /** `profile?.avatar_url && profile.avatar_url.includes(...)`. */
  predicate ShouldDeleteOld(current: Option<string>)
  {
    current.Some? && current.value != "" && Contains(current.value, BlobHost)
  }

  /** The blobs the route deletes as the previous avatar: none, or the one. */
  function OldBlob(current: Option<string>): (r: seq<string>)
    ensures |r| <= 1
    ensures |r| == 1 <==> current.Some? && Contains(current.value, BlobHost)
    ensures |r| == 1 ==> r[0] == current.value
  {
    if ShouldDeleteOld(current) then [current.value] else []
  }

  /** Only an avatar stored in the blob store is deleted: a URL without the
      blob host (an OAuth picture, say) or no avatar leaves nothing to delete,
      and any URL with the host in it is deleted. */
  lemma OldBlobOnlyFromBlobStore(url: string, before: string, after: string)
    ensures OldBlob(Some(url)) == [url] <==> Contains(url, BlobHost)
    ensures OldBlob(Some(url)) == [] <==> !Contains(url, BlobHost)
    ensures OldBlob(None) == []
    ensures OldBlob(Some(before + BlobHost + after)) == [before + BlobHost + after]
  {
    var u := before + BlobHost + after;
    assert u[|before|..|before| + |BlobHost|] == BlobHost;
    assert OccursAt(u, BlobHost, |before|);
  }

  // ----- the handler -----

  /** What one request does: the reply, the path handed to `put` (if it got
      that far), the blobs handed to `del` in order, and the profile's
      `avatar_url` afterwards. */
  datatype AvatarEffects = AvatarEffects(reply: Reply, putPath: Option<string>, deleted: seq<string>, avatarUrl: Option<string>)

  /** The route as written. `current` is the profile's `avatar_url` before the
      request, `stored` is the URL `put` returns (None: `put` throws), and
      `updateSucceeds` is the outcome of the profile update. The previous
      avatar is deleted before the profile update is attempted. */
  function HandleAvatarUpload(req: Request, current: Option<string>, now: nat, stored: Option<string>, updateSucceeds: bool): (e: AvatarEffects)
    ensures AvatarCheck(req).Failure? ==> e == AvatarEffects(AvatarCheck(req).error, None, [], current)
    ensures AvatarCheck(req).Success? ==>
      e.putPath == Some(AvatarPath(req.user.value, now, req.body.file.info.name))
    ensures e.reply.Uploaded? <==> AvatarCheck(req).Success? && stored.Some? && updateSucceeds
    ensures e.reply.Uploaded? ==> e.reply.url == stored.value && e.avatarUrl == stored
    ensures !e.reply.Uploaded? ==> e.avatarUrl == current
    ensures AvatarCheck(req).Success? && stored.None? ==> e.reply == UploadFailed && e.deleted == []
    ensures AvatarCheck(req).Success? && stored.Some? ==>
      && (updateSucceeds ==> e.deleted == OldBlob(current))
      && (!updateSucceeds ==> e.reply == Rejected(ServerError, "Failed to update profile")
                              && e.deleted == OldBlob(current) + [stored.value])
  {
    match AvatarCheck(req)
    case Failure(reply) => AvatarEffects(reply, None, [], current)
    case Success((uid, file)) =>
      var path := AvatarPath(uid, now, file.name);
      match stored
      case None => AvatarEffects(UploadFailed, Some(path), [], current)
      case Some(url) =>
        var previous := OldBlob(current);
        if updateSucceeds then AvatarEffects(Uploaded(url), Some(path), previous, Some(url))
        else AvatarEffects(Rejected(ServerError, "Failed to update profile"), Some(path), previous + [url], current)
  }

  /** A request that fails validation touches neither the blob store nor the
      profile, and only a missing user gets 401. */
  lemma RejectedRequestHasNoEffects(req: Request, current: Option<string>, now: nat, stored: Option<string>, updateSucceeds: bool)
    requires AvatarCheck(req).Failure?
    ensures HandleAvatarUpload(req, current, now, stored, updateSucceeds).putPath.None?
    ensures HandleAvatarUpload(req, current, now, stored, updateSucceeds).deleted == []
    ensures HandleAvatarUpload(req, current, now, stored, updateSucceeds).avatarUrl == current
    ensures HandleAvatarUpload(req, current, now, stored, updateSucceeds).reply.status == Unauthorized <==> req.user.None?
  {
  }

  /** As written, a failed profile update after the previous avatar was
      deleted leaves the profile pointing at the deleted blob. */
  lemma AsWrittenDanglesOnFailedUpdate(req: Request, current: Option<string>, now: nat, url: string)
    requires AvatarCheck(req).Success?
    requires ShouldDeleteOld(current)
    ensures
      var e := HandleAvatarUpload(req, current, now, Some(url), false);
      e.reply.Rejected? && e.avatarUrl.Some? && e.avatarUrl.value in e.deleted
  {
    assert OldBlob(current) == [current.value];
  }

  /** The same route with the previous avatar deleted only once the profile
      points at the new one. */
  function HandleAvatarUploadCorrected(req: Request, current: Option<string>, now: nat, stored: Option<string>, updateSucceeds: bool): (e: AvatarEffects)
    ensures AvatarCheck(req).Failure? ==> e == AvatarEffects(AvatarCheck(req).error, None, [], current)
    ensures e.reply.Uploaded? <==> AvatarCheck(req).Success? && stored.Some? && updateSucceeds
    ensures e.reply.Uploaded? ==> e.reply.url == stored.value && e.avatarUrl == stored && e.deleted == OldBlob(current)
    ensures !e.reply.Uploaded? ==> e.avatarUrl == current && (e.deleted == [] || (stored.Some? && e.deleted == [stored.value]))
  {
    match AvatarCheck(req)
    case Failure(reply) => AvatarEffects(reply, None, [], current)
    case Success((uid, file)) =>
      var path := AvatarPath(uid, now, file.name);
      match stored
      case None => AvatarEffects(UploadFailed, Some(path), [], current)
      case Some(url) =>
        if updateSucceeds then AvatarEffects(Uploaded(url), Some(path), OldBlob(current), Some(url))
        else AvatarEffects(Rejected(ServerError, "Failed to update profile"), Some(path), [url], current)
  }

  /** With the corrected order the profile never points at a deleted blob,
      given that `put` hands out a URL other than the current avatar's. */
  lemma CorrectedKeepsAvatarLive(req: Request, current: Option<string>, now: nat, stored: Option<string>, updateSucceeds: bool)
    requires stored.Some? && current.Some? ==> stored.value != current.value
    ensures
      var e := HandleAvatarUploadCorrected(req, current, now, stored, updateSucceeds);
      e.avatarUrl.Some? ==> e.avatarUrl.value !in e.deleted
  {
  }

  /** The correction changes nothing the client or the profile sees, and on a
      successful update it deletes exactly what the route as written deletes. */
  lemma CorrectionKeepsReplies(req: Request, current: Option<string>, now: nat, stored: Option<string>, updateSucceeds: bool)
    ensures
      var a := HandleAvatarUpload(req, current, now, stored, updateSucceeds);
      var c := HandleAvatarUploadCorrected(req, current, now, stored, updateSucceeds);
      && a.reply == c.reply && a.putPath == c.putPath && a.avatarUrl == c.avatarUrl
      && (a.reply.Uploaded? ==> a.deleted == c.deleted)
  {
  }
}
