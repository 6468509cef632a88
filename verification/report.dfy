/** The audit report: the text sent to the operator when a logged message
    is edited, and the choice of how it is delivered (plain text, or as the
    caption of the archived photo, video or document).  The send itself is
    not modelled: the result is the request the relay would make. */
module Report {
  import opened Messages
  import opened Archive

  /** The first line of every report (HTML markup included, as sent). */
  const EditMarker := "✏️ <b>ИЗМЕНЕНО</b>"
  const NameLabel := "\n👤 "
  const WasLabel := "\n❌ <b>Было:</b> "
  const NowLabel := "\n✅ <b>Стало:</b> "

  /** Stands in for the old text when the snapshot has none. */
  const FilePlaceholder := "[Файл]"

  /** `old.Text ?? "[Файл]"` */
  function OldBody(snap: MessageLog): string {
    Render(snap.text.Or(Some(FilePlaceholder)))
  }

  /** `edit.Text ?? edit.Caption`, null rendering as nothing. */
  function NewBody(edit: Message): string {
    Render(Body(edit))
  }

  /** The report for an edit of the message whose snapshot is `snap`. */
  function ReportText(snap: MessageLog, edit: Message): string {
    EditMarker + NameLabel + Render(snap.firstName) + WasLabel + OldBody(snap) + NowLabel + NewBody(edit)
  }

  /** Where the parts of a seven-part concatenation stand in it. */
  lemma {:induction false} SevenParts(p1: string, p2: string, p3: string, p4: string,
                                      p5: string, p6: string, p7: string)
    ensures StartsWith(p1 + p2 + p3 + p4 + p5 + p6 + p7, p1)
    ensures Contains(p1 + p2 + p3 + p4 + p5 + p6 + p7, p2 + p3)
    ensures Contains(p1 + p2 + p3 + p4 + p5 + p6 + p7, p4 + p5)
    ensures Contains(p1 + p2 + p3 + p4 + p5 + p6 + p7, p5)
    ensures EndsWith(p1 + p2 + p3 + p4 + p5 + p6 + p7, p6 + p7)
  {
    var s := p1 + p2 + p3 + p4 + p5 + p6 + p7;
    assert s == p1 + (p2 + p3) + (p4 + p5) + (p6 + p7);
    assert s[..|p1|] == p1;
    var i := |p1|;
    assert s[i..][..|p2 + p3|] == p2 + p3;
    var j := |p1| + |p2| + |p3|;
    assert s[j..][..|p4 + p5|] == p4 + p5;
    assert s[j + |p4|..][..|p5|] == p5;
    assert s[|s| - |p6 + p7|..] == p6 + p7;
  }

  /** The report opens with the edit marker, names the original sender,
      gives the old content after "Было" (the placeholder when the snapshot
      has no text) and ends with the new content after "Стало". */
  lemma {:induction false} ReportMentions(snap: MessageLog, edit: Message)
    ensures StartsWith(ReportText(snap, edit), EditMarker)
    ensures Contains(ReportText(snap, edit), NameLabel + Render(snap.firstName))
    ensures Contains(ReportText(snap, edit), WasLabel + OldBody(snap))
    ensures EndsWith(ReportText(snap, edit), NowLabel + NewBody(edit))
    ensures snap.text.Some? ==> Contains(ReportText(snap, edit), snap.text.value)
    ensures snap.text.None? ==> Contains(ReportText(snap, edit), FilePlaceholder)
  {
    SevenParts(EditMarker, NameLabel, Render(snap.firstName), WasLabel, OldBody(snap), NowLabel, NewBody(edit));
  }

  /** How the report is delivered to the operator. */
  datatype Delivery =
    | TextMessage(chatId: int, text: string)
    | PhotoMessage(chatId: int, url: string, caption: string)
    | VideoMessage(chatId: int, url: string, caption: string)
    | DocumentMessage(chatId: int, url: string, caption: string)
  {
    /** The report text the delivery carries. */
    function Report(): string {
      if TextMessage? then text else caption
    }
  }

  /** `SendReport`: with no archived URL the report goes as plain text;
      otherwise it is the caption of the file at the URL, sent as a photo for
      "photo", as a video for "video" and "videonote", and as a document for
      every other type.  Exactly one delivery is chosen, always to `admin`
      and always carrying the whole report. */
  function SendReport(admin: int, text: string, url: Option<string>, fileType: Option<string>): (d: Delivery)
    ensures d.chatId == admin && d.Report() == text
    ensures d.TextMessage? <==> url.None? || url.value == ""
    ensures !d.TextMessage? ==> d.url == url.value
    ensures d.PhotoMessage? <==> !d.TextMessage? && fileType == Some(PhotoKind)
    ensures d.VideoMessage? <==> !d.TextMessage? && fileType in {Some(VideoKind), Some(VideoNoteKind)}
    ensures d.DocumentMessage? <==> !d.TextMessage? && fileType !in {Some(PhotoKind), Some(VideoKind), Some(VideoNoteKind)}
  {
    if url.None? || url.value == "" then TextMessage(admin, text)
    else if fileType == Some(PhotoKind) then PhotoMessage(admin, url.value, text)
    else if fileType == Some(VideoKind) || fileType == Some(VideoNoteKind) then VideoMessage(admin, url.value, text)
    else DocumentMessage(admin, url.value, text)
  }
}
