/** The update handler of the relay (`OnUpdate`): a new message is archived
    and logged, an edited message is looked up and reported to the owner.
    The network, the database and the object store are not modelled: what
    they do during one update is the input `External`, and what the relay
    asks of them is the output (the archive job and the report delivery). */
module Relay {
  import opened Messages
  import opened Archive
  import opened Store
  import opened Report

  /** The outcome of the outside calls made while handling one update:
      the random object key the archiver draws, whether the file lookup,
      download and upload all succeed, whether the insert succeeds and
      whether the query succeeds.  A failed query raises out of the
      handler, so no report follows it; what the receive loop does with
      that exception is not modelled. */
  datatype External = External(objectKey: string, transferOk: bool, insertOk: bool, lookupOk: bool)

  /** The snapshot the handler builds for a new message: the archived URL
      and kind when the message carries media, `("", "text")` otherwise. */
  function NewLog(msg: Message, key: string, base: string, transferOk: bool): (r: MessageLog)
    ensures HasKey(r, msg.chatId, msg.messageId)
    ensures r.fileType == TextKind <==> !HasMedia(msg)
    ensures r.fileUrl == "" <==> !(HasMedia(msg) && transferOk && ArchivedFileId(msg).Some?)
  {
    var archived := if HasMedia(msg) then UploadFile(msg, key, base, transferOk) else ("", TextKind);
    MessageLog(msg.chatId, msg.messageId, SenderName(msg), Body(msg), archived.0, archived.1)
  }

  /** What a snapshot records: the message's key, sender name and text (or
      caption); for a message without media an empty URL and the kind
      "text"; for media the archived URL and kind, or `("", "")` when
      archiving failed, the record being kept all the same. */
  lemma NewLogFields(msg: Message, key: string, base: string, transferOk: bool)
    ensures HasKey(NewLog(msg, key, base, transferOk), msg.chatId, msg.messageId)
    ensures NewLog(msg, key, base, transferOk).firstName == SenderName(msg)
    ensures NewLog(msg, key, base, transferOk).text == Body(msg)
    ensures !HasMedia(msg) ==>
      NewLog(msg, key, base, transferOk).fileUrl == "" && NewLog(msg, key, base, transferOk).fileType == TextKind
    ensures HasMedia(msg) && !(transferOk && ArchivedFileId(msg).Some?) ==>
      NewLog(msg, key, base, transferOk).fileUrl == "" && NewLog(msg, key, base, transferOk).fileType == ""
    ensures HasMedia(msg) && transferOk && ArchivedFileId(msg).Some? ==>
      && NewLog(msg, key, base, transferOk).fileType == MediaKind(msg)
      && NewLog(msg, key, base, transferOk).fileUrl == PublicUrl(base, ObjectName(key, MediaKind(msg)))
  {
  }

  /** The snapshot of a message without media does not depend on the
      archiver at all: not on the key, the base URL or the transfer. */
  lemma TextSnapshotIgnoresArchiver(msg: Message, key1: string, base1: string, ok1: bool,
                                    key2: string, base2: string, ok2: bool)
    requires !HasMedia(msg)
    ensures NewLog(msg, key1, base1, ok1) == NewLog(msg, key2, base2, ok2)
  {
  }

  /** The report request for an edit: none when no snapshot has the edited
      message's key; otherwise the report built from the first such
      snapshot, routed by that snapshot's URL and kind. */
  function AuditDelivery(logs: seq<MessageLog>, edit: Message, owner: int): (r: Option<Delivery>)
    ensures r.None? <==> forall j :: 0 <= j < |logs| ==> !HasKey(logs[j], edit.chatId, edit.messageId)
    ensures r.Some? ==> r.value.chatId == owner
    ensures r.Some? ==>
      var snap := logs[FirstMatch(logs, edit.chatId, edit.messageId).value];
      r.value.Report() == ReportText(snap, edit)
      && r.value == SendReport(owner, ReportText(snap, edit), Some(snap.fileUrl), Some(snap.fileType))
  {
    match Lookup(logs, edit.chatId, edit.messageId)
    case None => None
    case Some(snap) => Some(SendReport(owner, ReportText(snap, edit), Some(snap.fileUrl), Some(snap.fileType)))
  }

  /** A message logged at first sight is what a later edit of it finds:
      the report then replays its archived media with the delivery kind its
      archived kind calls for, or goes as plain text when it had no media
      or archiving failed. */
  lemma {:induction false} ReportReplaysArchivedMedia(logs: seq<MessageLog>, msg: Message, key: string,
                                                      base: string, transferOk: bool, edit: Message, owner: int)
    requires Lookup(logs, msg.chatId, msg.messageId).None?
    requires edit.chatId == msg.chatId && edit.messageId == msg.messageId
    ensures
      var snap := NewLog(msg, key, base, transferOk);
      var d := AuditDelivery(logs + [snap], edit, owner);
      && d.Some?
      && d.value.Report() == ReportText(snap, edit)
      && (snap.fileUrl == "" ==> d.value.TextMessage?)
      && (snap.fileUrl != "" ==> d.value.url == snap.fileUrl)
      && (snap.fileUrl != "" && msg.photo.Some? ==> d.value.PhotoMessage?)
      && (snap.fileUrl != "" && msg.photo.None? && (msg.video.Some? || msg.videoNote.Some?) ==> d.value.VideoMessage?)
      && (snap.fileUrl != "" && msg.photo.None? && msg.video.None? && msg.videoNote.None? ==> d.value.DocumentMessage?)
  {
    var snap := NewLog(msg, key, base, transferOk);
    LookupAppend(logs, snap, msg.chatId, msg.messageId);
    NewLogFields(msg, key, base, transferOk);
  }

  /** Once a message has a snapshot, logging the same message again (a
      re-delivered update) or any other message changes no later report
      about it: the first snapshot stays the one reported. */
  lemma {:induction false} FirstSnapshotReported(logs: seq<MessageLog>, more: seq<MessageLog>, edit: Message, owner: int)
    requires Lookup(logs, edit.chatId, edit.messageId).Some?
    ensures AuditDelivery(logs + more, edit, owner) == AuditDelivery(logs, edit, owner)
  {
    LookupStable(logs, more, edit.chatId, edit.messageId);
  }

  /** The relay: the owner the reports go to (0 when none is configured),
      the public base URL and bucket of the object store, and the snapshot
      store it shares across updates. */
  class Relay {
    const ownerId: int
    const publicUrl: string
    const bucket: string
    const store: SnapshotStore

    constructor (ownerId: int, publicUrl: string, bucket: string, store: SnapshotStore)
      ensures this.ownerId == ownerId && this.publicUrl == publicUrl
      ensures this.bucket == bucket && this.store == store
    {
      this.ownerId := ownerId;
      this.publicUrl := publicUrl;
      this.bucket := bucket;
      this.store := store;
    }

    /** `OnUpdate`.  The new-message part runs first and appends exactly one
        snapshot (none if the insert fails); the edited-message part then
        leaves the store as it is and yields at most one report, only when
        a snapshot of the edited message exists.  The archiver is asked for
        nothing unless a new message carries media. */
    method OnUpdate(upd: Update, ext: External) returns (upload: Option<ArchiveJob>, delivery: Option<Delivery>)
      modifies store
      ensures upd.message.Some? && HasMedia(upd.message.value) ==>
        upload == Job(upd.message.value, ext.objectKey, bucket)
      ensures upd.message.None? || !HasMedia(upd.message.value) ==> upload == None
      ensures upd.message.Some? && ext.insertOk ==>
        store.logs == old(store.logs) + [NewLog(upd.message.value, ext.objectKey, publicUrl, ext.transferOk)]
      ensures upd.message.None? || !ext.insertOk ==> store.logs == old(store.logs)
      ensures upd.editedMessage.Some? && ext.lookupOk ==>
        delivery == AuditDelivery(store.logs, upd.editedMessage.value, ownerId)
      ensures upd.editedMessage.None? || !ext.lookupOk ==> delivery == None
    {
      upload, delivery := None, None;
      if upd.message.Some? {
        var msg := upd.message.value;
        var fileUrl, fileType := "", TextKind;
        if HasMedia(msg) {
          upload := Job(msg, ext.objectKey, bucket);
          var archived := UploadFile(msg, ext.objectKey, publicUrl, ext.transferOk);
          fileUrl, fileType := archived.0, archived.1;
        }
        var log := MessageLog(msg.chatId, msg.messageId, SenderName(msg), Body(msg), fileUrl, fileType);
        if ext.insertOk {
          store.Insert(log);
        }
      }
      if upd.editedMessage.Some? && ext.lookupOk {
        var edit := upd.editedMessage.value;
        var snap := store.Find(edit.chatId, edit.messageId);
        if snap.Some? {
          var rep := ReportText(snap.value, edit);
          delivery := Some(SendReport(ownerId, rep, Some(snap.value.fileUrl), Some(snap.value.fileType)));
        }
      }
    }
  }
}
