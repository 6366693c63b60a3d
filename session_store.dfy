/**
 * The chat session store: one JSON file per session, named
 * session_<id>.json, in a storage directory. The directory is a map from
 * file name to what reading that file gives.
 */
module SessionStore {
  import opened Wrappers
  import opened Strings

  datatype Message = Message(role: string, content: string, timestamp: Option<string>)

  /** A session file's JSON object; a key the object lacks reads as None, as dict.get does. */
  datatype Record = Record(
    sessionId: Option<string>,
    fileId: Option<string>,
    sheetName: Option<string>,
    createdAt: Option<string>,
    messages: Option<seq<Message>>)

  /** What opening and parsing one file of the directory gives. */
  datatype Content = Json(record: Record) | Unreadable

  /** One entry of the list_sessions result. */
  datatype Summary = Summary(
    sessionId: Option<string>,
    fileId: Option<string>,
    sheetName: Option<string>,
    createdAt: Option<string>,
    messagesCount: nat,
    lastMessageAt: Option<string>)

  type Directory = map<string, Content>

  const Prefix: string := "session_"
  const Suffix: string := ".json"

  /** _session_path, without the directory part. */
  function SessionFileName(id: string): string {
    Prefix + id + Suffix
  }

  /** name.startswith("session_") and name.endswith(".json") */
  predicate IsSessionFileName(name: string) {
    StartsWith(name, Prefix) && EndsWith(name, Suffix)
  }

  /** Every session's file passes the listing filter, and distinct sessions have distinct files. */
  lemma SessionFileNameSpec(id: string, other: string)
    ensures IsSessionFileName(SessionFileName(id))
    ensures SessionFileName(id) == SessionFileName(other) ==> id == other
  {
    var n := SessionFileName(id);
    assert n[..|Prefix|] == Prefix;
    assert n[|n| - |Suffix|..] == Suffix;
    if n == SessionFileName(other) {
      assert id == n[|Prefix|..|n| - |Suffix|];
      assert other == SessionFileName(other)[|Prefix|..|n| - |Suffix|];
    }
  }

  /** The record create_session_record writes. */
  function NewRecord(sessionId: string, fileId: string, sheetName: string, createdAt: string): Record {
    Record(Some(sessionId), Some(fileId), Some(sheetName), Some(createdAt), Some([]))
  }

  /** get_session_record on the directory's contents. */
  function Lookup(files: Directory, id: string): (r: Option<Record>)
    ensures r.None? <==> SessionFileName(id) !in files || files[SessionFileName(id)].Unreadable?
    ensures r.Some? ==> files[SessionFileName(id)] == Json(r.value)
  {
    var name := SessionFileName(id);
    if name in files && files[name].Json? then Some(files[name].record) else None
  }

  /** rec.get("messages", []) */
  function MessagesOf(rec: Record): seq<Message> {
    rec.messages.GetOr([])
  }

  /** rec.setdefault("messages", []).append(m) */
  function WithMessage(rec: Record, m: Message): Record {
    rec.(messages := Some(MessagesOf(rec) + [m]))
  }

  /** The directory after append_message. */
  function Appended(files: Directory, id: string, m: Message): (r: Directory)
    ensures r.Keys == files.Keys
  {
    match Lookup(files, id)
    case None => files
    case Some(rec) => files[SessionFileName(id) := Json(WithMessage(rec, m))]
  }

  /** The new record is what a later get_session_record returns, with all its fields and no messages. */
  lemma CreatedReadsBack(files: Directory, sessionId: string, fileId: string, sheetName: string, createdAt: string)
    ensures var after := files[SessionFileName(sessionId) := Json(NewRecord(sessionId, fileId, sheetName, createdAt))];
      && Lookup(after, sessionId) == Some(Record(Some(sessionId), Some(fileId), Some(sheetName), Some(createdAt), Some([])))
      && MessagesOf(Lookup(after, sessionId).value) == []
  {
  }

  /** Appending to a session that cannot be read changes nothing. */
  lemma AppendUnknownIsNoop(files: Directory, id: string, m: Message)
    requires Lookup(files, id).None?
    ensures Appended(files, id, m) == files
  {
  }

  /**
   * Appending to a readable session adds exactly m after its earlier
   * messages and keeps its other fields; every other file, and so every
   * other session, is unchanged.
   */
  lemma AppendKnown(files: Directory, id: string, m: Message)
    requires Lookup(files, id).Some?
    ensures var rec := Lookup(files, id).value;
      var after := Appended(files, id, m);
      && Lookup(after, id).Some?
      && MessagesOf(Lookup(after, id).value) == MessagesOf(rec) + [m]
      && Lookup(after, id).value.(messages := rec.messages) == rec
      && after.Keys == files.Keys
      && (forall n :: n in files && n != SessionFileName(id) ==> after[n] == files[n])
  {
  }

  /** No session other than the one appended to reads differently afterwards. */
  lemma AppendKeepsOthers(files: Directory, id: string, other: string, m: Message)
    requires other != id
    ensures Lookup(Appended(files, id, m), other) == Lookup(files, other)
  {
    SessionFileNameSpec(id, other);
  }

  // ---------------------------------------------------------------------
  // list_sessions

  /** `not file_id or rec.get("fileId") == file_id` */
  predicate Selected(fileId: Option<string>, rec: Record) {
    fileId.None? || fileId == Some("") || rec.fileId == fileId
  }

  /**
   * The summary list_sessions builds for a record; None when the last
   * message has no timestamp, where the lookup raises and the entry is skipped.
   */
  function SummaryOf(rec: Record): (r: Option<Summary>)
    ensures r.Some? ==> r.value.sessionId == rec.sessionId && r.value.messagesCount == |MessagesOf(rec)|
  {
    var msgs := MessagesOf(rec);
    if msgs != [] && msgs[|msgs| - 1].timestamp.None? then None
    else
      var last := if msgs != [] then msgs[|msgs| - 1].timestamp else rec.createdAt;
      Some(Summary(rec.sessionId, rec.fileId, rec.sheetName, rec.createdAt, |msgs|, last))
  }

  /**
   * A summary copies the record's own fields, counts its messages and
   * carries the last message's timestamp, or the creation time when there
   * are no messages.
   */
  lemma SummarySpec(rec: Record)
    ensures var msgs := MessagesOf(rec);
      && (SummaryOf(rec).None? <==> msgs != [] && msgs[|msgs| - 1].timestamp.None?)
      && (SummaryOf(rec).Some? ==>
            var s := SummaryOf(rec).value;
            && s.sessionId == rec.sessionId && s.fileId == rec.fileId
            && s.sheetName == rec.sheetName && s.createdAt == rec.createdAt
            && s.messagesCount == |msgs|
            && (msgs == [] ==> s.lastMessageAt == rec.createdAt)
            && (msgs != [] ==> s.lastMessageAt == msgs[|msgs| - 1].timestamp))
  {
  }

  /** After an append, the session's summary counts one more message and is dated by it. */
  lemma AppendUpdatesSummary(rec: Record, m: Message)
    requires m.timestamp.Some?
    ensures var s := SummaryOf(WithMessage(rec, m));
      && s.Some?
      && s.value.messagesCount == |MessagesOf(rec)| + 1
      && s.value.lastMessageAt == m.timestamp
  {
  }

  /** What one iteration of the listing loop contributes for a directory entry. */
  function Entry(files: Directory, name: string, fileId: Option<string>): Option<Summary> {
    if !IsSessionFileName(name) || name !in files then None
    else
      match files[name]
      case Unreadable => None
      case Json(rec) => if Selected(fileId, rec) then SummaryOf(rec) else None
  }

  /** The summaries the loop collects over the entries, in listing order. */
  function Collect(files: Directory, names: seq<string>, fileId: Option<string>): (r: seq<Summary>)
    ensures |r| <= |names|
  {
    if names == [] then []
    else
      var init := Collect(files, names[..|names| - 1], fileId);
      match Entry(files, names[|names| - 1], fileId)
      case Some(s) => init + [s]
      case None => init
  }

  /** r.get("lastMessageAt") or "" */
  function SortKey(s: Summary): string {
    s.lastMessageAt.GetOr("")
  }

  predicate SortedDesc(xs: seq<Summary>) {
    forall i, j :: 0 <= i < j < |xs| ==> LexLe(SortKey(xs[j]), SortKey(xs[i]))
  }

  /** Inserts x before the first element whose key is not greater than x's. */
  function Insert(x: Summary, ys: seq<Summary>): (r: seq<Summary>)
    ensures multiset(r) == multiset(ys) + multiset{x}
    ensures SortedDesc(ys) ==> SortedDesc(r)
  {
    if ys == [] then [x]
    else if LexLe(SortKey(ys[0]), SortKey(x)) then
      InsertFront(x, ys);
      [x] + ys
    else
      var tail := Insert(x, ys[1..]);
      assert ys == [ys[0]] + ys[1..];
      InsertBehind(x, ys, tail);
      [ys[0]] + tail
  }

  lemma InsertFront(x: Summary, ys: seq<Summary>)
    requires ys != [] && LexLe(SortKey(ys[0]), SortKey(x))
    ensures SortedDesc(ys) ==> SortedDesc([x] + ys)
  {
    var r := [x] + ys;
    if SortedDesc(ys) {
      forall j | 1 <= j < |r| ensures LexLe(SortKey(r[j]), SortKey(r[0])) {
        if j > 1 {
          LexLeTransitive(SortKey(ys[j - 1]), SortKey(ys[0]), SortKey(x));
        }
      }
    }
  }

  lemma InsertBehind(x: Summary, ys: seq<Summary>, tail: seq<Summary>)
    requires ys != [] && !LexLe(SortKey(ys[0]), SortKey(x))
    requires multiset(tail) == multiset(ys[1..]) + multiset{x}
    requires SortedDesc(ys[1..]) ==> SortedDesc(tail)
    ensures SortedDesc(ys) ==> SortedDesc([ys[0]] + tail)
  {
    var r := [ys[0]] + tail;
    if SortedDesc(ys) {
      assert SortedDesc(ys[1..]);
      LexLeTotal(SortKey(ys[0]), SortKey(x));
      forall j | 1 <= j < |r| ensures LexLe(SortKey(r[j]), SortKey(r[0])) {
        assert r[j] in multiset(tail);
        if r[j] != x {
          assert r[j] in multiset(ys[1..]);
          var k :| 0 <= k < |ys[1..]| && ys[1..][k] == r[j];
          assert ys[k + 1] == r[j];
        }
      }
    }
  }

  /** sessions.sort(key=..., reverse=True), by insertion; equal keys keep their order. */
  function SortDesc(xs: seq<Summary>): (r: seq<Summary>)
    ensures multiset(r) == multiset(xs)
    ensures SortedDesc(r)
  {
    if xs == [] then []
    else
      assert xs == [xs[0]] + xs[1..];
      Insert(xs[0], SortDesc(xs[1..]))
  }

  /** list_sessions on the directory, its entries enumerated in the given order. */
  function ListSessionsSpec(dirExists: bool, files: Directory, listing: seq<string>, fileId: Option<string>): (r: seq<Summary>)
    ensures SortedDesc(r) && |r| <= |listing|
    ensures !dirExists ==> r == []
  {
    if dirExists then
      var all := Collect(files, listing, fileId);
      assert |SortDesc(all)| == |multiset(SortDesc(all))| == |multiset(all)|;
      SortDesc(all)
    else []
  }

  /** Every collected summary is the one an entry of the listing contributes. */
  lemma {:induction false} CollectSound(files: Directory, names: seq<string>, fileId: Option<string>, s: Summary)
    requires s in Collect(files, names, fileId)
    ensures exists k :: 0 <= k < |names| && Entry(files, names[k], fileId) == Some(s)
  {
    var init := names[..|names| - 1];
    var last := names[|names| - 1];
    if s in Collect(files, init, fileId) {
      CollectSound(files, init, fileId, s);
      var k :| 0 <= k < |init| && Entry(files, init[k], fileId) == Some(s);
      assert names[k] == init[k];
    } else {
      assert Entry(files, names[|names| - 1], fileId) == Some(s);
    }
  }

  /** Every entry of the listing that contributes a summary has it collected. */
  lemma {:induction false} CollectComplete(files: Directory, names: seq<string>, fileId: Option<string>, k: nat)
    requires k < |names| && Entry(files, names[k], fileId).Some?
    ensures Entry(files, names[k], fileId).value in Collect(files, names, fileId)
  {
    var init := names[..|names| - 1];
    if k < |names| - 1 {
      assert init[k] == names[k];
      CollectComplete(files, init, fileId, k);
    }
  }

  /**
   * With a non-empty file id, list_sessions returns only sessions of that
   * file; every summary belongs to a readable session file of the listing
   * that the filter selects.
   */
  lemma ListOnlySelected(dirExists: bool, files: Directory, listing: seq<string>, fileId: Option<string>, s: Summary)
    requires s in ListSessionsSpec(dirExists, files, listing, fileId)
    ensures dirExists
    ensures exists k :: (0 <= k < |listing| && IsSessionFileName(listing[k]) && listing[k] in files
      && files[listing[k]].Json? && Selected(fileId, files[listing[k]].record)
      && SummaryOf(files[listing[k]].record) == Some(s))
    ensures fileId.Some? && fileId != Some("") ==> s.fileId == fileId
  {
    var all := Collect(files, listing, fileId);
    assert s in multiset(SortDesc(all));
    CollectSound(files, listing, fileId, s);
  }

  /**
   * os.listdir names every file of the directory, each once: every name in
   * files is in the listing and the listing has no repeated entry.
   */
  predicate Enumerates(files: Directory, listing: seq<string>) {
    && (forall n :: n in files ==> n in listing)
    && (forall i, j :: 0 <= i < j < |listing| ==> listing[i] != listing[j])
  }

  /**
   * Over a listing of the whole directory, every readable session file the
   * filter selects and whose summary can be built is in the result.
   */
  lemma ListComplete(dirExists: bool, files: Directory, listing: seq<string>, fileId: Option<string>, n: string)
    requires dirExists && Enumerates(files, listing)
    requires n in files && IsSessionFileName(n) && files[n].Json?
    requires Selected(fileId, files[n].record) && SummaryOf(files[n].record).Some?
    ensures SummaryOf(files[n].record).value in ListSessionsSpec(dirExists, files, listing, fileId)
  {
    var k :| 0 <= k < |listing| && listing[k] == n;
    CollectComplete(files, listing, fileId, k);
    var all := Collect(files, listing, fileId);
    assert SummaryOf(files[n].record).value in multiset(all);
  }

  /**
   * Without a file id (None or empty) every readable session file of the
   * directory whose summary can be built is in the result.
   */
  lemma ListAllUnfiltered(dirExists: bool, files: Directory, listing: seq<string>, fileId: Option<string>, n: string)
    requires dirExists && Enumerates(files, listing) && (fileId.None? || fileId == Some(""))
    requires n in files && IsSessionFileName(n) && files[n].Json?
    requires SummaryOf(files[n].record).Some?
    ensures SummaryOf(files[n].record).value in ListSessionsSpec(dirExists, files, listing, fileId)
  {
    ListComplete(dirExists, files, listing, fileId, n);
  }

  /**
   * With a non-empty file id every readable session file of the directory
   * recorded for that file, whose summary can be built, is in the result.
   */
  lemma ListAllOfFile(dirExists: bool, files: Directory, listing: seq<string>, f: string, n: string)
    requires dirExists && Enumerates(files, listing) && f != ""
    requires n in files && IsSessionFileName(n) && files[n].Json? && files[n].record.fileId == Some(f)
    requires SummaryOf(files[n].record).Some?
    ensures SummaryOf(files[n].record).value in ListSessionsSpec(dirExists, files, listing, Some(f))
  {
    ListComplete(dirExists, files, listing, Some(f), n);
  }

  /** The result is the multiset of collected summaries, ordered by last activity, latest first. */
  lemma ListSortedPermutation(dirExists: bool, files: Directory, listing: seq<string>, fileId: Option<string>)
    ensures var r := ListSessionsSpec(dirExists, files, listing, fileId);
      && SortedDesc(r)
      && (dirExists ==> multiset(r) == multiset(Collect(files, listing, fileId)))
      && (!dirExists ==> r == [])
  {
  }

  /** A freshly created session is listed, with no messages, dated by its creation time. */
  lemma CreatedSessionListed(files: Directory, listing: seq<string>, sessionId: string, fileId: string,
                             sheetName: string, createdAt: string)
    requires SessionFileName(sessionId) in listing
    ensures var after := files[SessionFileName(sessionId) := Json(NewRecord(sessionId, fileId, sheetName, createdAt))];
      Summary(Some(sessionId), Some(fileId), Some(sheetName), Some(createdAt), 0, Some(createdAt))
        in ListSessionsSpec(true, after, listing, Some(fileId))
  {
    var after := files[SessionFileName(sessionId) := Json(NewRecord(sessionId, fileId, sheetName, createdAt))];
    var k :| 0 <= k < |listing| && listing[k] == SessionFileName(sessionId);
    SessionFileNameSpec(sessionId, sessionId);
    CollectComplete(after, listing, Some(fileId), k);
    var all := Collect(after, listing, Some(fileId));
    assert Summary(Some(sessionId), Some(fileId), Some(sheetName), Some(createdAt), 0, Some(createdAt)) in multiset(all);
  }

  /** The storage directory; files holds what reading each of its files gives. */
  class Store {
    var dirExists: bool
    var files: Directory

    ghost predicate Valid()
      reads this
    {
      !dirExists ==> files == map[]
    }

    /** A store over a directory that holds the given files; a missing directory holds none. */
    constructor (dirExists: bool, files: Directory)
      requires dirExists || files == map[]
      ensures Valid() && this.dirExists == dirExists && this.files == files
    {
      this.dirExists := dirExists;
      this.files := files;
    }

    /**
     * create_session_record; writing into a missing directory raises, which
     * is reported as false and leaves the store unchanged. An existing file
     * for the same id is overwritten.
     */
    method CreateSessionRecord(sessionId: string, fileId: string, sheetName: string, createdAt: string)
      returns (ok: bool)
      requires Valid()
      modifies this
      ensures Valid() && dirExists == old(dirExists) && ok == dirExists
      ensures ok ==> files == old(files)[SessionFileName(sessionId) := Json(NewRecord(sessionId, fileId, sheetName, createdAt))]
      ensures !ok ==> files == old(files)
    {
      if !dirExists {
        return false;
      }
      var rec := Record(Some(sessionId), Some(fileId), Some(sheetName), Some(createdAt), Some([]));
      files := files[SessionFileName(sessionId) := Json(rec)];
      return true;
    }

    /** get_session_record */
    method GetSessionRecord(sessionId: string) returns (r: Option<Record>)
      ensures r == Lookup(files, sessionId)
    {
      var path := SessionFileName(sessionId);
      if path !in files {
        return None;
      }
      match files[path]
      case Unreadable =>
        return None;
      case Json(rec) =>
        return Some(rec);
    }

    /** append_message */
    method AppendMessage(sessionId: string, role: string, content: string, timestamp: string)
      requires Valid()
      modifies this
      ensures Valid() && dirExists == old(dirExists)
      ensures files == Appended(old(files), sessionId, Message(role, content, Some(timestamp)))
    {
      var rec := GetSessionRecord(sessionId);
      if rec.None? {
        return;
      }
      var r := rec.value;
      var messages := if r.messages.Some? then r.messages.value else [];
      r := r.(messages := Some(messages + [Message(role, content, Some(timestamp))]));
      files := files[SessionFileName(sessionId) := Json(r)];
    }

    /**
     * list_sessions; listing is the order in which the directory listing
     * returns its entry names, each file of the directory once.
     */
    method ListSessions(fileId: Option<string>, listing: seq<string>) returns (sessions: seq<Summary>)
      requires Enumerates(files, listing)
      ensures sessions == ListSessionsSpec(dirExists, files, listing, fileId)
    {
      sessions := [];
      if !dirExists {
        return;
      }
      var i := 0;
      while i < |listing|
        invariant 0 <= i <= |listing|
        invariant sessions == Collect(files, listing[..i], fileId)
      {
        var name := listing[i];
        assert listing[..i + 1][..i] == listing[..i];
        i := i + 1;
        if !StartsWith(name, Prefix) || !EndsWith(name, Suffix) {
          continue;
        }
        if name !in files || files[name].Unreadable? {
          continue;
        }
        var rec := files[name].record;
        if fileId.Some? && fileId.value != "" && rec.fileId != fileId {
          continue;
        }
        var messages := if rec.messages.Some? then rec.messages.value else [];
        if messages != [] && messages[|messages| - 1].timestamp.None? {
          continue;
        }
        var last := if messages != [] then messages[|messages| - 1].timestamp else rec.createdAt;
        sessions := sessions + [Summary(rec.sessionId, rec.fileId, rec.sheetName, rec.createdAt, |messages|, last)];
      }
      assert listing[..i] == listing;
      sessions := SortDesc(sessions);
    }
  }
}
