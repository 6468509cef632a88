/** The decision logic of the media archiver (`UploadFile`): which file of a
    message is copied to object storage, what kind it is recorded as, the
    object's name and public URL, and the empty result every failure
    collapses into.  The platform lookup, the download and the upload are
    not modelled; whether all three succeeded is the input `transferOk`,
    and the random object key is the input `key`. */
module Archive {
  import opened Messages

  const PhotoKind := "photo"
  const VideoKind := "video"
  const VideoNoteKind := "videonote"
  const DocKind := "doc"

  /** The kind recorded for a message without media. */
  const TextKind := "text"

  /** The guard in front of the archiver: the message carries at least one
      kind of media. */
  predicate HasMedia(m: Message) {
    m.photo.Some? || m.video.Some? || m.voice.Some? || m.document.Some? || m.videoNote.Some?
  }

  /** `id` is the file id of one of the files attached to `m`. */
  ghost predicate AttachedId(m: Message, id: string) {
    || (m.photo.Some? && exists i :: 0 <= i < |m.photo.value| && m.photo.value[i].fileId == id)
    || m.video == Some(Attachment(id))
    || m.voice == Some(Attachment(id))
    || m.document == Some(Attachment(id))
    || m.videoNote == Some(Attachment(id))
  }

  /** The file id the archiver fetches: the last (largest) photo size, else
      the video, the voice note, the document, the video note, in that
      order.  None when there is nothing to fetch, and also when the photo
      list is present but empty: taking its last element fails, and the
      archiver gives up before any transfer. */
  function ArchivedFileId(m: Message): (r: Option<string>)
    ensures r.Some? ==> AttachedId(m, r.value)
    ensures r.None? <==> !HasMedia(m) || (m.photo.Some? && |m.photo.value| == 0)
    ensures m.photo.Some? && |m.photo.value| > 0 ==> r == Some(m.photo.value[|m.photo.value| - 1].fileId)
    ensures m.photo.None? && m.video.Some? ==> r == Some(m.video.value.fileId)
    ensures m.photo.None? && m.video.None? && m.voice.Some? ==> r == Some(m.voice.value.fileId)
    ensures m.photo.None? && m.video.None? && m.voice.None? && m.document.Some?
      ==> r == Some(m.document.value.fileId)
    ensures m.photo.None? && m.video.None? && m.voice.None? && m.document.None? && m.videoNote.Some?
      ==> r == Some(m.videoNote.value.fileId)
  {
    if m.photo.Some? then
      var sizes := m.photo.value;
      if |sizes| == 0 then None else Some(sizes[|sizes| - 1].fileId)
    else if m.video.Some? then Some(m.video.value.fileId)
    else if m.voice.Some? then Some(m.voice.value.fileId)
    else if m.document.Some? then Some(m.document.value.fileId)
    else if m.videoNote.Some? then Some(m.videoNote.value.fileId)
    else None
  }

  /** The kind the archiver records.  Its precedence differs from the file
      choice: a video note is looked at before falling back to "doc", so a
      voice note and a document are both recorded as "doc". */
  function MediaKind(m: Message): (k: string)
    ensures k == PhotoKind <==> m.photo.Some?
    ensures k == VideoKind <==> m.photo.None? && m.video.Some?
    ensures k == VideoNoteKind <==> m.photo.None? && m.video.None? && m.videoNote.Some?
    ensures k == DocKind <==> m.photo.None? && m.video.None? && m.videoNote.None?
  {
    if m.photo.Some? then PhotoKind
    else if m.video.Some? then VideoKind
    else if m.videoNote.Some? then VideoNoteKind
    else DocKind
  }

  /** At most one of the five media fields is set, as on every message the
      platform sends. */
  predicate SingleMediaField(m: Message) {
    var n := (if m.photo.Some? then 1 else 0) + (if m.video.Some? then 1 else 0)
           + (if m.voice.Some? then 1 else 0) + (if m.document.Some? then 1 else 0)
           + (if m.videoNote.Some? then 1 else 0);
    n <= 1
  }

  /** On a message with one media field, the recorded kind names the field
      whose file is fetched (for a photo, its last and largest size). */
  lemma KindNamesFetchedFile(m: Message)
    requires SingleMediaField(m) && ArchivedFileId(m).Some?
    ensures MediaKind(m) == PhotoKind ==>
      m.photo.Some? && |m.photo.value| > 0 && ArchivedFileId(m).value == m.photo.value[|m.photo.value| - 1].fileId
    ensures MediaKind(m) == VideoKind ==> m.video == Some(Attachment(ArchivedFileId(m).value))
    ensures MediaKind(m) == VideoNoteKind ==> m.videoNote == Some(Attachment(ArchivedFileId(m).value))
    ensures MediaKind(m) == DocKind ==>
      m.voice == Some(Attachment(ArchivedFileId(m).value)) || m.document == Some(Attachment(ArchivedFileId(m).value))
  {
  }

  /** The object name's extension: ".jpg" for a photo, ".mp4" for any other
      kind. */
  function Extension(kind: string): string {
    if kind == PhotoKind then ".jpg" else ".mp4"
  }

  /** The object name: the random key followed by the extension. */
  function ObjectName(key: string, kind: string): string {
    key + Extension(kind)
  }

  /** The public URL of a stored object. */
  function PublicUrl(base: string, name: string): string {
    base + "/" + name
  }

  /** An object name starts with its key and ends in ".jpg" exactly when the
      kind is "photo" (and in ".mp4" otherwise). */
  lemma ObjectNameShape(key: string, kind: string)
    ensures StartsWith(ObjectName(key, kind), key)
    ensures EndsWith(ObjectName(key, kind), ".jpg") <==> kind == PhotoKind
    ensures EndsWith(ObjectName(key, kind), ".mp4") <==> kind != PhotoKind
  {
  }

  /** Reads the object name back out of a public URL. */
  function ObjectNameOf(base: string, url: string): (r: Option<string>)
    ensures r.Some? ==> url == PublicUrl(base, r.value)
  {
    if StartsWith(url, base + "/") then Some(url[|base| + 1..]) else None
  }

  /** The URL determines the object name: `ObjectNameOf` inverts
      `PublicUrl` for a fixed base. */
  lemma PublicUrlRoundTrip(base: string, name: string)
    ensures ObjectNameOf(base, PublicUrl(base, name)) == Some(name)
  {
  }

  /** Two archives with distinct keys get distinct public URLs, whatever
      their kinds (both extensions have four characters): re-archiving a
      file makes a second object. */
  lemma {:induction false} DistinctKeysDistinctUrls(base: string, key1: string, kind1: string,
                                                    key2: string, kind2: string)
    requires key1 != key2
    ensures PublicUrl(base, ObjectName(key1, kind1)) != PublicUrl(base, ObjectName(key2, kind2))
  {
    assert ObjectName(key1, kind1)[..|key1|] == key1;
    assert ObjectName(key2, kind2)[..|key2|] == key2;
    PublicUrlRoundTrip(base, ObjectName(key1, kind1));
    PublicUrlRoundTrip(base, ObjectName(key2, kind2));
  }

  /** The storage request the archiver makes after downloading the file. */
  datatype ArchiveJob = ArchiveJob(fileId: string, bucket: string, objectName: string)

  /** The download-and-upload the archiver attempts for `m`, if it gets as
      far as that. */
  function Job(m: Message, key: string, bucket: string): (r: Option<ArchiveJob>)
    ensures r.Some? <==> ArchivedFileId(m).Some?
    ensures r.Some? ==> AttachedId(m, r.value.fileId) && r.value.bucket == bucket
    ensures r.Some? ==> StartsWith(r.value.objectName, key)
    ensures r.Some? ==> r.value.fileId == ArchivedFileId(m).value
    ensures r.Some? ==> r.value.objectName == ObjectName(key, MediaKind(m))
  {
    match ArchivedFileId(m)
    case None => None
    case Some(fid) =>
      ObjectNameShape(key, MediaKind(m));
      Some(ArchiveJob(fid, bucket, ObjectName(key, MediaKind(m))))
  }

  /** `UploadFile`: the public URL and kind of the archived file, or
      `("", "")` when anything fails (no file to fetch, an empty photo list,
      or a failed lookup, download or upload). */
  function UploadFile(m: Message, key: string, base: string, transferOk: bool): (r: (string, string))
    ensures r == ("", "") || (r.1 == MediaKind(m) && r.0 == PublicUrl(base, ObjectName(key, r.1)))
    ensures r.0 == "" <==> r.1 == ""
    ensures r.0 != "" <==> transferOk && ArchivedFileId(m).Some?
  {
    if ArchivedFileId(m).Some? && transferOk then
      var kind := MediaKind(m);
      (PublicUrl(base, ObjectName(key, kind)), kind)
    else
      ("", "")
  }

  /** A successful archive's URL ends in ".jpg" exactly when the message
      carries a photo, and names the object the job uploaded. */
  lemma ArchivedUrlMatchesJob(m: Message, key: string, base: string, bucket: string, transferOk: bool)
    requires UploadFile(m, key, base, transferOk).0 != ""
    ensures Job(m, key, bucket).Some?
    ensures UploadFile(m, key, base, transferOk).0 == PublicUrl(base, Job(m, key, bucket).value.objectName)
    ensures EndsWith(UploadFile(m, key, base, transferOk).0, ".jpg") <==> m.photo.Some?
  {
    var url := UploadFile(m, key, base, transferOk).0;
    var name := ObjectName(key, MediaKind(m));
    ObjectNameShape(key, MediaKind(m));
    assert url[|url| - 4..] == name[|name| - 4..];
  }
}
