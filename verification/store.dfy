/** The snapshot store: the document collection the relay appends message
    snapshots to and queries by `(chat id, message id)`.  The collection is
    modelled as the sequence of its records in insertion order, and a query
    (`Find(...).FirstOrDefault()`, with no sort) is taken to return the first
    record in that order that matches.  The database itself returns an
    unsorted query in its natural order, which it does not promise to be
    insertion order. */
module Store {
  import opened Messages

  /** `r` is the snapshot of message `messageId` in chat `chatId`. */
  predicate HasKey(r: MessageLog, chatId: int, messageId: int) {
    r.chatId == chatId && r.messageId == messageId
  }

  /** The position of the first record with the given key, if any. */
  function FirstMatch(logs: seq<MessageLog>, chatId: int, messageId: int): (r: Option<nat>)
    ensures r.Some? ==> r.value < |logs| && HasKey(logs[r.value], chatId, messageId)
    ensures r.Some? ==> forall j :: 0 <= j < r.value ==> !HasKey(logs[j], chatId, messageId)
    ensures r.None? ==> forall j :: 0 <= j < |logs| ==> !HasKey(logs[j], chatId, messageId)
  {
    if |logs| == 0 then None
    else if HasKey(logs[0], chatId, messageId) then Some(0)
    else
      match FirstMatch(logs[1..], chatId, messageId)
      case None => None
      case Some(i) => Some(i + 1)
  }

  /** The query: the first stored record with the given key, or none. */
  function Lookup(logs: seq<MessageLog>, chatId: int, messageId: int): (r: Option<MessageLog>)
    ensures r.Some? <==> exists j :: 0 <= j < |logs| && HasKey(logs[j], chatId, messageId)
    ensures r.Some? ==> r.value in logs && HasKey(r.value, chatId, messageId)
    ensures r.Some? ==> exists i :: 0 <= i < |logs| && logs[i] == r.value
                                    && forall j :: 0 <= j < i ==> !HasKey(logs[j], chatId, messageId)
  {
    match FirstMatch(logs, chatId, messageId)
    case None => None
    case Some(i) => Some(logs[i])
  }

  /** Appending a record changes the answer for no key that already had
      one; for a key that had none, the answer becomes the appended record
      exactly when it carries that key. */
  lemma {:induction false} LookupAppend(logs: seq<MessageLog>, rec: MessageLog, chatId: int, messageId: int)
    ensures Lookup(logs, chatId, messageId).Some? ==>
      Lookup(logs + [rec], chatId, messageId) == Lookup(logs, chatId, messageId)
    ensures Lookup(logs, chatId, messageId).None? ==>
      Lookup(logs + [rec], chatId, messageId) == (if HasKey(rec, chatId, messageId) then Some(rec) else None)
  {
    var all := logs + [rec];
    assert forall j :: 0 <= j < |logs| ==> all[j] == logs[j];
    assert all[|logs|] == rec;
  }

  /** A key once found keeps its record however many records follow, even
      records carrying the same key: the store never shows a later
      duplicate in place of the first snapshot. */
  lemma {:induction false} LookupStable(logs: seq<MessageLog>, more: seq<MessageLog>, chatId: int, messageId: int)
    requires Lookup(logs, chatId, messageId).Some?
    ensures Lookup(logs + more, chatId, messageId) == Lookup(logs, chatId, messageId)
    decreases |more|
  {
    if |more| > 0 {
      LookupAppend(logs, more[0], chatId, messageId);
      LookupStable(logs + [more[0]], more[1..], chatId, messageId);
      assert logs + [more[0]] + more[1..] == logs + more;
    } else {
      assert logs + more == logs;
    }
  }

  /** The record store of the relay. */
  class SnapshotStore {
    /** Every record inserted so far, oldest first. */
    var logs: seq<MessageLog>

    constructor ()
      ensures logs == []
    {
      logs := [];
    }

    /** `InsertOneAsync`: the record goes to the end; nothing already
        stored changes. */
    method Insert(log: MessageLog)
      modifies this
      ensures logs == old(logs) + [log]
    {
      logs := logs + [log];
    }

    /** `Find(key).FirstOrDefaultAsync()`: a record is found exactly when
        one with the key is stored, and it is the earliest such record. */
    method Find(chatId: int, messageId: int) returns (r: Option<MessageLog>)
      ensures r.Some? <==> exists j :: 0 <= j < |logs| && HasKey(logs[j], chatId, messageId)
      ensures r.Some? ==> exists i :: 0 <= i < |logs| && logs[i] == r.value && HasKey(r.value, chatId, messageId)
                                      && forall j :: 0 <= j < i ==> !HasKey(logs[j], chatId, messageId)
      ensures r == Lookup(logs, chatId, messageId)
    {
      r := Lookup(logs, chatId, messageId);
    }
  }
}
