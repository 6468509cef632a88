# Edit-audit relay for a chat bot — Dafny model

The bot logs every new message it sees into a document collection. When a
message has media, the bot first copies the file to object storage and
keeps its public URL. When a logged message is later edited, the bot looks
up the stored snapshot. It then sends the owner a report with the old and
the new text, attaching the archived file when there is one.

This project models the decision logic of that handler. The chat
platform, the database and the object store are replaced by values:

- what the outside calls do is an input, `Relay.External`: the random
  object key, whether the file transfer succeeds, whether the insert
  succeeds, whether the query succeeds;
- what the handler asks of them is an output: the archive job
  (`Archive.ArchiveJob`: file id, bucket, object name) and the report
  delivery (`Report.Delivery`).

Modules:

- `Messages`: the message, update and snapshot records. A C# null
  becomes `Option.None`, `??` becomes `Option.Or`, and a null inside
  string interpolation renders as the empty string (`Render`).
- `Archive`: the pure part of `UploadFile`. It covers the media guard,
  which file is fetched, the recorded kind, the object name, the public
  URL, and the `("", "")` result every failure gives.
- `Store`: the collection as a sequence in insertion order. The class
  `SnapshotStore` has `Insert`, which appends, and `Find`, which returns
  the first record with the key in that order (`FirstOrDefault` on an
  unsorted query).
- `Report`: the exact report string and the `SendReport` routing.
- `Relay`: the class `Relay` with `OnUpdate`, which is proved against the
  specification functions `NewLog` and `AuditDelivery`, plus lemmas that
  tie the store, the archiver and the report together.

## Behaviour worth noting

- A query returns the *first* matching record in the model's order, not
  the most recent one.
- `OnUpdate` has no owner check: it reports every edit whose original it
  finds to the configured owner id, which is 0 when `OWNER_ID` does not
  parse. In the running program a missing owner stops the bot earlier:
  the start-up send to chat 0 fails, the start-up `catch` skips the receive
  loop, and no update is handled at all. Start-up is not part of this model.
- A failed archive records the kind `""`, not the kind of the media.
- Object names end in `.jpg` for photos and `.mp4` for everything else,
  voice notes and documents included.
- The report names the sender by first name only.
- The old-text placeholder `[Файл]` is used whenever the snapshot has no
  text, whether or not it had media.

## Model

| member | source | states |
|---|---|---|
| `Archive.ArchivedFileId` | Program.cs:112 | The fetched id is the file id of one of the message's attachments. The precedence is: the last (largest) photo size, then video, voice, document, video note. There is none exactly when the message has no media or its photo list is empty (where `Last()` throws). |
| `Archive.MediaKind` | Program.cs:113 | The kind is "photo" iff there is a photo. Otherwise it is "video" iff there is a video, otherwise "videonote" iff there is a video note, and "doc" in every other case, so voice and document both give "doc". |
| `Archive.KindNamesFetchedFile` | Program.cs:112-113 | On a message with a single media field, the recorded kind names the field whose file is fetched: for "photo" the last (largest) size of a non-empty photo list, for "video" and "videonote" that field's file, for "doc" the voice note or document. |
| `Archive.ObjectNameShape` | Program.cs:118 | The object name starts with the key. It ends in ".jpg" iff the kind is "photo", and in ".mp4" iff it is not. |
| `Archive.ObjectNameOf` | Program.cs:123 | When it reads a name back, the URL is exactly `base + "/" + name`. |
| `Archive.PublicUrlRoundTrip` | Program.cs:123 | Reading the object name back out of `base + "/" + name` gives `name`, so the URL determines the object. |
| `Archive.DistinctKeysDistinctUrls` | Program.cs:118-123 | Distinct keys give distinct URLs, whatever the kinds, so each archive is a separate object. |
| `Archive.HasMedia` | Program.cs:74 | The guard in front of the archiver: some of photo, video, voice, document, video note is present. `Relay.NewLogFields` and `Relay.TextSnapshotIgnoresArchiver` state what follows when it is false. |
| `Archive.Extension` | Program.cs:118 | ".jpg" for "photo", ".mp4" for any other kind; specified by `Archive.ObjectNameShape`. |
| `Archive.ObjectName` | Program.cs:118 | The key followed by the extension; `Archive.ObjectNameShape` proves it starts with the key and ends in ".jpg" iff the kind is "photo". |
| `Archive.PublicUrl` | Program.cs:123 | `base + "/" + name`; `Archive.PublicUrlRoundTrip` proves the name can be read back from it, `Archive.DistinctKeysDistinctUrls` that distinct keys give distinct URLs. |
| `Archive.Job` | Program.cs:112-122 | A transfer is attempted exactly when a file id is chosen. It fetches exactly the file `ArchivedFileId` chooses (one of the message's own files) and stores it in the configured bucket under `key + extension of MediaKind`, a name that starts with the key. |
| `Archive.UploadFile` | Program.cs:110-125 | The result is either `("", "")` or `(base + "/" + key + ext, MediaKind)`. URL and kind are empty together. The URL is non-empty iff the transfer succeeded and a file id was chosen. |
| `Archive.ArchivedUrlMatchesJob` | Program.cs:112-123 | A successful archive's URL is the public URL of the object the job uploads. It ends in ".jpg" iff the message has a photo. |
| `Store.FirstMatch` | Program.cs:89 | The result is the index of a record with the key, and no earlier record has the key. There is none iff no record has the key. |
| `Store.Lookup` | Program.cs:89 | A record is found iff some stored record has the key. The found record has the key and is the earliest stored record that does. |
| `Store.LookupAppend` | Program.cs:82-89 | After an append, a key that was found keeps its record. A key that was not found now gives the appended record iff that record has the key, and none otherwise. |
| `Store.LookupStable` | Program.cs:89 | A found record stays the answer however many records follow, duplicates of the key included. |
| `Store.SnapshotStore.Insert` | Program.cs:82 | The store becomes the old store with the record appended at the end. |
| `Store.SnapshotStore.Find` | Program.cs:89 | Finds a record iff one with the key is stored; the record found has the key and no earlier stored record has it. Changes nothing. |
| `Report.ReportText` | Program.cs:91 | The report string, part by part as interpolated, null parts rendered empty; specified by `Report.ReportMentions`. |
| `Report.ReportMentions` | Program.cs:91 | The report starts with the edit marker. It contains the sender label with the old first name and "Было:" followed by the old text, or "[Файл]" when there is none. It ends with "Стало:" and the new text or caption. |
| `Report.SendReport` | Program.cs:97-106 | Exactly one delivery is chosen, always to the owner and always carrying the whole report. A null or empty URL gives a text message. Otherwise the file at the URL goes as a photo for "photo", as a video for "video" or "videonote", and as a document for any other type. |
| `Messages.SenderName` | Program.cs:79 | `msg.From?.FirstName`: the sender's first name, none when there is no sender; used by `Relay.NewLogFields`. |
| `Messages.Body` | Program.cs:79 | `msg.Text ?? msg.Caption`: the text, else the caption; used by `Relay.NewLogFields` and `Report.ReportMentions`. |
| `Relay.NewLog` | Program.cs:73-81 | The snapshot has the message's key. Its kind is "text" iff the message has no media. Its URL is empty iff the message has no media or archiving did not succeed. |
| `Relay.NewLogFields` | Program.cs:73-81 | A snapshot carries the message's key, the sender's first name and text ?? caption. Without media it has URL "" and kind "text". After a failed archive it has `("", "")`. After a successful archive it has the archived URL and kind. |
| `Relay.TextSnapshotIgnoresArchiver` | Program.cs:73-75 | The snapshot of a message without media does not depend on the key, the base URL or the transfer outcome. |
| `Relay.AuditDelivery` | Program.cs:88-93 | There is no report iff no snapshot has the edited key. Otherwise the report goes to the owner. It is built from the first matching snapshot and routed by that snapshot's URL and kind. |
| `Relay.ReportReplaysArchivedMedia` | Program.cs:73-105 | A message logged at first sight is what a later edit of it finds. The report goes as text when there was no media or archiving failed. Otherwise it resends the archived URL as a photo, a video or a document, matching the media. |
| `Relay.FirstSnapshotReported` | Program.cs:89-92 | Once a message has a snapshot, appending more records (a re-delivered update included) does not change the report for an edit of it. |
| `Relay.Relay.OnUpdate` | Program.cs:68-95 | A new message asks for an archive job only when it has media. It appends exactly one snapshot when the insert succeeds and none when it fails. An edited message leaves the store unchanged. It yields the report for the store as it is after the new-message part, and nothing when there is no edit or the query fails. |

## Left out

- Process start-up (`Main`): reading the token, owner id, connection string and storage settings from the environment, and the start-up message. The owner id, public base URL and bucket are fields of `Relay.Relay` instead.
- `StartFakeServer` (the HTTP liveness listener) and `OnError`: network I/O and a background loop.
- The platform, database and object-store calls themselves (file lookup, download, upload, insert, query, the sends). Their outcomes are the inputs of `Relay.External`. The requests are the outputs `ArchiveJob` and `Delivery`.
- `Guid.NewGuid()`: the object key is the input `External.objectKey`.
- A failed send is caught and nothing follows it, so a delivery has no outcome in the model.
- A failed query raises out of the handler. The model gives no report for that update; what the platform SDK's receive loop then does with the exception (and whether receiving goes on) is not captured.
- Store.Lookup: the model fixes the order of an unsorted query as insertion order. The database returns its natural order, which it does not guarantee to be insertion order, so with duplicate snapshots of one message (a re-delivered update) it may return another one. `Store.LookupStable`, `Store.SnapshotStore.Find` and `Relay.FirstSnapshotReported` hold under that assumption.
- The database's `Id` field, set by the driver on insert, is never read by the relay.
- async/cancellation, stream buffering, console logging and the HTML rendering of the report.
- Chat and message ids are unbounded integers, since they are only compared for equality. Strings are sequences of Unicode scalar values, not UTF-16 code units.
- The null-URL arm of `SendReport` is modelled, but the handler never reaches it, because every snapshot it writes has a non-null URL.
