/**
 * chat.client.views.ChatView, without its widgets: the lines of the message
 * list built from a history file, the voice note written and sent after a
 * recording, the rules for adding an individual chat or a group, and the
 * filtering and selection of the chat list.
 *
 * The list view is modelled by the list object it shows (`installed`) and
 * its selected item;
 * the network by the sequence of objects handed to the connection
 * (`outbox`); the WAV files the client writes by a map from path to bytes.
 */
module ChatView {
  import opened Wrappers
  import opened Model
  import opened JavaStrings
  import opened ChatListItem
  import MessageCell
  import ChatUtils
  import MessageHistoryUtil
  import ChatHistoryManager
  import AudioUtils

  /** What the client hands to its connection. */
  datatype ClientOut =
    | SendMessage(to: ChatTarget, message: Message)  // through the onSendMessage callback
    | SendGroupObject(group: Group)                  // the "CREATE_GROUP_OBJ" marker and the group

  /** The outcome of the add-chat dialog. */
  datatype AddResult = NothingEntered | RefusedSelf | RefusedDuplicate | Added

  /** The format the microphone records in: 16000 Hz, 16 bits, mono, signed, little-endian. */
  const RecordingFormat := AudioFormat(16000, 16, 1, true, false)

  /** A recording is sent only when more than this many bytes were captured. */
  const MinVoiceNoteBytes := 1000

  // ---------------------------------------------------------------- history lines

  /** The groups of the display line of one history entry. */
  function EntryLine(m: Message): MessageCell.Line {
    MessageCell.Line(m.timestamp.GetOr(""), m.from.Username(),
                     if m.msgType == AUDIO then ChatHistoryManager.VoiceNoteText else m.content)
  }

  /** `"[" + now + "] " + from + ": " + content` for one history entry. */
  function HistoryLine(m: Message): string {
    MessageCell.FormatLine(EntryLine(m))
  }

  /** The lines of a whole history, in order. */
  function HistoryLines(history: seq<Message>): (lines: seq<string>)
    ensures |lines| == |history|
    ensures forall k :: 0 <= k < |history| ==> lines[k] == HistoryLine(history[k])
  {
    seq(|history|, k requires 0 <= k < |history| => HistoryLine(history[k]))
  }

  /**
   * The message cell reads every history line back: its time, sender and
   * content (the voice-note marker for audio) — provided the time holds no
   * "] ", the sender no ": " and the line no line break.
   */
  lemma HistoryLineParses(m: Message)
    requires MessageCell.WellFormed(EntryLine(m))
    ensures MessageCell.ParseLine(HistoryLine(m)) == Some(EntryLine(m))
    ensures MessageCell.ParseLine(HistoryLine(m)).value.sender == m.from.Username()
    ensures (MessageCell.ParseLine(HistoryLine(m)).value.message == ChatHistoryManager.VoiceNoteText)
            <==> (m.msgType == AUDIO || m.content == ChatHistoryManager.VoiceNoteText)
  {
    MessageCell.ParseFormatLine(EntryLine(m));
  }

  // ---------------------------------------------------------------- voice notes

  /** The message a recording is sent as: in-memory bytes, the recording format, and its relative path. */
  function VoiceNoteMessage(from: User, to: ChatTarget, now: Timestamp, audio: seq<Byte>): (m: Message)
    ensures m.msgType == AUDIO && m.timestamp == Some(now) && m.from == UserTarget(from) && m.to == to
    ensures m.audioFilePath == Some("history/audio/" + MessageCell.VoiceNoteFileName(from.username, now))
  {
    SetAudioFilePath(
      MemoryAudioMessage(UserTarget(from), to, AUDIO, "[Audio message]", Some(now), Some(audio),
                         Some(RecordingFormat)),
      Some("history/audio/" + MessageCell.VoiceNoteFileName(from.username, now)))
  }

  /** The line shown for a voice note just recorded. */
  function LiveVoiceLine(username: string, lineTime: Timestamp): string {
    MessageCell.FormatLine(MessageCell.Line(lineTime, username, ChatHistoryManager.VoiceNoteText))
  }

  /**
   * A voice note's history line leads the message cell to the file the
   * recording was written to: the line holds no `audioFilePath` member, so the
   * cell rebuilds the path from the line's time and sender, and gets the
   * relative path the message carries.
   */
  lemma VoiceNotePathRoundTrip(from: User, to: ChatTarget, now: Timestamp, audio: seq<Byte>)
    requires MessageCell.WellFormed(MessageCell.Line(now, from.username, ChatHistoryManager.VoiceNoteText))
    requires !Contains(HistoryLine(VoiceNoteMessage(from, to, now, audio)), "audioFilePath")
    ensures var line := HistoryLine(VoiceNoteMessage(from, to, now, audio));
      MessageCell.AudioFilePath(Some(line), line) == VoiceNoteMessage(from, to, now, audio).audioFilePath
  {
    var l := MessageCell.Line(now, from.username, ChatHistoryManager.VoiceNoteText);
    assert EntryLine(VoiceNoteMessage(from, to, now, audio)) == l;
    MessageCell.VoiceLineAgreesWithParse(l);
  }

  /** Two voice-note paths built from different timestamps name different files. */
  lemma VoiceNotePathsDiffer(username: string, t1: Timestamp, t2: Timestamp)
    requires MessageCell.SafeTimestamp(t1) != MessageCell.SafeTimestamp(t2)
    ensures "history/audio/" + MessageCell.VoiceNoteFileName(username, t1)
            != "history/audio/" + MessageCell.VoiceNoteFileName(username, t2)
  {
    var p := "history/audio/" + username + "_";
    var a, b := MessageCell.SafeTimestamp(t1), MessageCell.SafeTimestamp(t2);
    var x := "history/audio/" + MessageCell.VoiceNoteFileName(username, t1);
    var y := "history/audio/" + MessageCell.VoiceNoteFileName(username, t2);
    assert x == p + a + ".wav" && y == p + b + ".wav";
    if x == y {
      assert |a| == |b|;
      forall k | 0 <= k < |a| ensures a[k] == b[k] {
        assert x[|p| + k] == a[k] && y[|p| + k] == b[k];
      }
    }
  }

  /**
   * The line shown right after recording takes its own clock reading, so the
   * cell looks for a file named after that second time, not the file written,
   * whenever the two readings give different file names.
   */
  lemma LiveLineMissesVoiceNote(user: string, now: Timestamp, later: Timestamp)
    requires MessageCell.WellFormed(MessageCell.Line(later, user, ChatHistoryManager.VoiceNoteText))
    requires !Contains(LiveVoiceLine(user, later), "audioFilePath")
    requires MessageCell.SafeTimestamp(now) != MessageCell.SafeTimestamp(later)
    ensures var line := LiveVoiceLine(user, later);
      && MessageCell.AudioFilePath(Some(line), line)
         == Some("history/audio/" + MessageCell.VoiceNoteFileName(user, later))
      && MessageCell.AudioFilePath(Some(line), line)
         != Some("history/audio/" + MessageCell.VoiceNoteFileName(user, now))
  {
    LiveLineFindsVoiceNote("userdata", user, later);
    VoiceNotePathsDiffer(user, later, now);
  }

  /** Two clock readings a few milliseconds apart name different voice-note files. */
  lemma ReadingsNameDifferentFiles()
    ensures var now, later := "2025-06-01T10:15:30.120", "2025-06-01T10:15:30.485";
      MessageCell.SafeTimestamp(now) != MessageCell.SafeTimestamp(later)
      && "history/audio/" + MessageCell.VoiceNoteFileName("ana__1a2b3c", later)
         != "history/audio/" + MessageCell.VoiceNoteFileName("ana__1a2b3c", now)
  {
    var now, later := "2025-06-01T10:15:30.120", "2025-06-01T10:15:30.485";
    assert MessageCell.SafeTimestamp(now)[20] == '1';
    assert MessageCell.SafeTimestamp(later)[20] == '4';
    VoiceNotePathsDiffer("ana__1a2b3c", later, now);
  }

  /**
   * With one clock reading, the line shown for a voice note leads the message
   * cell to the relative path of the file written, under the user's folder.
   */
  lemma LiveLineFindsVoiceNote(userdataDir: string, username: string, now: Timestamp)
    requires MessageCell.WellFormed(MessageCell.Line(now, username, ChatHistoryManager.VoiceNoteText))
    requires !Contains(LiveVoiceLine(username, now), "audioFilePath")
    ensures var line := LiveVoiceLine(username, now);
      && MessageCell.AudioFilePath(Some(line), line)
         == Some("history/audio/" + MessageCell.VoiceNoteFileName(username, now))
      && userdataDir + "/" + username + "/" + MessageCell.AudioFilePath(Some(line), line).value
         == userdataDir + "/" + username + "/history/audio/" + MessageCell.VoiceNoteFileName(username, now)
  {
    MessageCell.VoiceLineAgreesWithParse(MessageCell.Line(now, username, ChatHistoryManager.VoiceNoteText));
    var home := userdataDir + "/" + username;
    var f := MessageCell.VoiceNoteFileName(username, now);
    MessageCell.Associate(home + "/", "history/audio/", f);
    MessageCell.Associate(home, "/", "history/audio/");
    AudioDirJoin();
  }

  /** The folder separator followed by the relative audio folder is the audio folder suffix. */
  lemma AudioDirJoin()
    ensures "/" + "history/audio/" == "/history/audio/"
  {
  }

  // ---------------------------------------------------------------- chat list rules

  /** Some entry of `chats` has this username. */
  predicate HasChat(chats: seq<ChatListItem>, name: string) {
    exists i :: 0 <= i < |chats| && chats[i].Username() == name
  }

  /** No two entries share a username. */
  predicate DistinctNames(chats: seq<ChatListItem>) {
    forall i, j :: 0 <= i < j < |chats| ==> chats[i].Username() != chats[j].Username()
  }

  /** The filter keeps an entry whose lower-cased display name contains the lower-cased filter text. */
  predicate Shown(item: ChatListItem, filter: string) {
    item.DisplayName().Some? && Contains(ToLower(item.DisplayName().value), filter)
  }

  /** `allChats.filtered(...)`: the shown entries, in list order. */
  function Filtered(chats: seq<ChatListItem>, filter: string): (r: seq<ChatListItem>)
    ensures |r| <= |chats|
    ensures forall k :: 0 <= k < |r| ==> r[k] in chats && Shown(r[k], filter)
    ensures forall k :: 0 <= k < |chats| && Shown(chats[k], filter) ==> chats[k] in r
  {
    if |chats| == 0 then []
    else (if Shown(chats[0], filter) then [chats[0]] else []) + Filtered(chats[1..], filter)
  }

  /** The filter throws when it meets an entry whose display name is null. */
  predicate FilterThrows(chats: seq<ChatListItem>, filter: string) {
    filter != "" && exists i :: 0 <= i < |chats| && chats[i].DisplayName().None?
  }

  /** The entries a refresh shows: all of them for an empty filter. */
  function VisibleChats(chats: seq<ChatListItem>, filter: string): seq<ChatListItem> {
    if filter == "" then chats else Filtered(chats, filter)
  }

  /**
   * The selection after a refresh: the first visible entry with the username
   * selected before, else the first visible entry, else none.
   */
  function Reselect(visible: seq<ChatListItem>, previous: Option<string>): (r: Option<ChatListItem>)
    ensures r.Some? ==> r.value in visible
    ensures r.None? <==> |visible| == 0
    ensures previous.Some? && HasChat(visible, previous.value) ==> r.Some? && r.value.Username() == previous.value
  {
    if |visible| == 0 then None
    else if previous.Some? && HasChat(visible, previous.value) then
      Some(visible[FirstNamed(visible, previous.value)])
    else Some(visible[0])
  }

  /** The index of the first entry with that username. */
  function FirstNamed(chats: seq<ChatListItem>, name: string): (i: nat)
    requires HasChat(chats, name)
    ensures i < |chats| && chats[i].Username() == name
    ensures forall k :: 0 <= k < i ==> chats[k].Username() != name
  {
    if chats[0].Username() == name then 0
    else
      assert HasChat(chats[1..], name) by {
        var k :| 0 <= k < |chats| && chats[k].Username() == name;
        assert chats[1..][k - 1] == chats[k];
      }
      1 + FirstNamed(chats[1..], name)
  }

  /** A non-empty filter shows only entries that match it; an empty one shows every entry. */
  lemma VisibleMatchesFilter(chats: seq<ChatListItem>, filter: string)
    ensures filter == "" ==> VisibleChats(chats, filter) == chats
    ensures forall k :: 0 <= k < |VisibleChats(chats, filter)| ==> VisibleChats(chats, filter)[k] in chats
    ensures filter != "" ==> forall k :: 0 <= k < |VisibleChats(chats, filter)| ==> Shown(VisibleChats(chats, filter)[k], filter)
    ensures filter != "" ==> forall k :: 0 <= k < |chats| && Shown(chats[k], filter) ==> chats[k] in VisibleChats(chats, filter)
  {
  }

  // ---------------------------------------------------------------- group members

  /** The trimmed, non-empty entries of the split member list, in order. */
  function MemberEntries(names: seq<string>): (r: seq<string>)
    ensures forall k :: 0 <= k < |r| ==> r[k] != ""
  {
    if |names| == 0 then []
    else
      var t := Trim(names[0]);
      (if t == "" then [] else [t]) + MemberEntries(names[1..])
  }

  /**
   * The first registered user whose display name is `name`, searched in
   * directory order. None stands for a directory without a readable
   * user.json; a registered user with a null display name makes the
   * comparison throw, and the search moves on.
   */
  function FindRegistered(registry: seq<Option<User>>, name: string): (r: Option<string>)
    ensures r.Some? ==>
              exists i :: (0 <= i < |registry| && Registered(registry[i], name) && registry[i].value.username == r.value
                           && forall j :: 0 <= j < i ==> !Registered(registry[j], name))
    ensures r.None? ==> forall i :: 0 <= i < |registry| ==> !Registered(registry[i], name)
  {
    if |registry| == 0 then None
    else if Registered(registry[0], name) then
      Some(registry[0].value.username)
    else
      var r := FindRegistered(registry[1..], name);
      assert forall i :: 1 <= i < |registry| ==> registry[i] == registry[1..][i - 1];
      if r.Some? then
        var i :| 0 <= i < |registry| - 1 && Registered(registry[1..][i], name)
                 && registry[1..][i].value.username == r.value
                 && forall j :: 0 <= j < i ==> !Registered(registry[1..][j], name);
        assert Registered(registry[i + 1], name) && registry[i + 1].value.username == r.value;
        r
      else r
  }

  /** A readable user.json whose display name is `name`. */
  predicate Registered(entry: Option<User>, name: string) {
    entry.Some? && entry.value.displayName == Some(name)
  }

  /**
   * The list object the chat list view shows: its own empty list until the
   * first refresh, `allChats` itself, or a filtered view of `allChats` made
   * for one filter text. Each refresh with a filter makes a new view.
   */
  datatype ListSource = OwnList | AllChats | FilteredBy(filter: string)

  /** The entries a list object shows; `allChats` and its views follow every change to it. */
  function Shows(source: ListSource, chats: seq<ChatListItem>): seq<ChatListItem> {
    match source
    case OwnList => []
    case AllChats => chats
    case FilteredBy(f) => Filtered(chats, f)
  }

  /** Installing `next` where `shown` is shown puts a different list object in place. */
  predicate Replaces(shown: ListSource, next: ListSource) {
    !(shown == AllChats && next == AllChats)
  }

  // ---------------------------------------------------------------- the view

  class ChatView {
    /** The logged-in user. */
    const user: User
    /** The folder that holds every user's data. */
    const userdataDir: string
    /** The history files, shared with the history utility. */
    const store: MessageHistoryUtil.HistoryStore

    var messages: seq<string>
    var allChats: seq<ChatListItem>
    var installed: ListSource
    var selected: Option<ChatListItem>
    var searchText: Option<string>
    var wavFiles: map<string, seq<Byte>>
    var outbox: seq<ClientOut>

    /** The chat list never holds two entries for the same username. */
    ghost predicate Valid()
      reads this
    {
      DistinctNames(allChats)
    }

    constructor(user: User, userdataDir: string, store: MessageHistoryUtil.HistoryStore)
      ensures this.user == user && this.userdataDir == userdataDir && this.store == store
      ensures messages == [] && allChats == [] && installed == OwnList && selected.None?
      ensures searchText.None? && wavFiles == map[] && outbox == []
      ensures Valid()
    {
      this.user := user;
      this.userdataDir := userdataDir;
      this.store := store;
      messages := [];
      allChats := [];
      installed := OwnList;
      selected := None;
      searchText := None;
      wavFiles := map[];
      outbox := [];
    }

    /**
     * The end of the constructor, once the chats saved in the user's history
     * folder have been read into entries: they become `allChats`, the first
     * refresh installs `allChats` and selects the first entry, and that
     * chat's history is loaded. The selection listener is not registered
     * yet at that refresh; the explicit load that follows leaves the same lines.
     */
    method OpenSavedChats(saved: seq<ChatListItem>)
      requires allChats == [] && installed == OwnList && selected.None? && searchText.None?
      modifies this
      ensures allChats == saved && installed == AllChats && Visible() == saved
      ensures selected == (if saved == [] then None else Some(saved[0]))
      ensures messages == (if saved == [] then old(messages) else LinesFor(saved[0].Username()))
      ensures Valid() <==> DistinctNames(saved)
      ensures searchText == old(searchText) && wavFiles == old(wavFiles) && outbox == old(outbox)
    {
      allChats := saved;
      var ok := RefreshChatList();
      if selected.Some? {
        LoadChatHistory(selected.value.Username());
      }
    }

    /** The history file of a chat of this user. */
    function ChatFile(chatName: string): string {
      MessageHistoryUtil.HistoryFilePath(userdataDir + "/" + user.username, chatName)
    }

    /** The input equals the user's display name or username, ignoring case. */
    predicate IsSelf(name: string) {
      EqualsIgnoreCase(name, user.displayName) || EqualsIgnoreCase(name, Some(user.username))
    }

    /** The entries the chat list view shows. */
    function Visible(): seq<ChatListItem>
      reads this
    {
      Shows(installed, allChats)
    }

    /** The lower-cased text of the search field ("" when there is none). */
    function FilterText(): string
      reads this
    {
      ToLower(searchText.GetOr(""))
    }

    /** The lines `loadChatHistory` shows for a chat: one per entry of its history file. */
    function LinesFor(chatName: string): seq<string>
      reads store
    {
      HistoryLines(ChatHistoryManager.LoadHistory(store.files, ChatFile(chatName)))
    }

    /**
     * The lines shown once the selection moves from `from` to `to`: the
     * selection listener loads the history of a newly selected entry, and
     * leaves the lines alone when the selection stays or is cleared.
     */
    function AfterSelection(before: seq<string>, from: Option<ChatListItem>, to: Option<ChatListItem>): seq<string>
      reads store
    {
      if to.Some? && to != from then LinesFor(to.value.Username()) else before
    }

    /**
     * `getSelectionModel().select(...)` together with the selection listener:
     * a change of selection to an entry loads that chat's history.
     */
    method Select(sel: Option<ChatListItem>)
      modifies this
      ensures selected == sel && messages == AfterSelection(old(messages), old(selected), sel)
      ensures allChats == old(allChats) && installed == old(installed) && searchText == old(searchText)
      ensures wavFiles == old(wavFiles) && outbox == old(outbox)
    {
      var previous := selected;
      selected := sel;
      if sel.Some? && sel != previous {
        LoadChatHistory(sel.value.Username());
      }
    }

    /**
     * `loadChatHistory(chatName)`: clears the list, then adds one line per
     * entry of the chat's history file, in order.
     */
    method LoadChatHistory(chatName: string)
      modifies this
      ensures messages == LinesFor(chatName)
      ensures allChats == old(allChats) && installed == old(installed) && selected == old(selected)
      ensures searchText == old(searchText) && wavFiles == old(wavFiles) && outbox == old(outbox)
    {
      messages := [];
      var history := ChatHistoryManager.LoadHistory(store.files, ChatFile(chatName));
      var i := 0;
      while i < |history|
        invariant 0 <= i <= |history|
        invariant messages == HistoryLines(history[..i])
        invariant allChats == old(allChats) && installed == old(installed) && selected == old(selected)
        invariant searchText == old(searchText) && wavFiles == old(wavFiles) && outbox == old(outbox)
      {
        messages := messages + [HistoryLine(history[i])];
        i := i + 1;
      }
      assert history[..i] == history;
    }

    /**
     * `stopAudioRecordingAndSend`, once recording has stopped with `audio`
     * captured. `now` is the clock reading the note is named and stamped
     * with; `lineTime` is the second reading taken for the line shown.
     */
    method StopAudioRecordingAndSend(audio: seq<Byte>, now: Timestamp, lineTime: Timestamp, hasCallback: bool)
      requires |audio| < 0x8000_0000
      modifies this, store
      ensures allChats == old(allChats) && installed == old(installed) && selected == old(selected)
      ensures searchText == old(searchText)
      ensures |audio| > MinVoiceNoteBytes && old(selected).None? ==>
                messages == old(messages) && wavFiles == old(wavFiles) && outbox == old(outbox)
                && store.files == old(store.files)
      ensures |audio| <= MinVoiceNoteBytes || old(selected).Some? ==>
                messages == old(messages) + [LiveVoiceLine(user.username, lineTime)]
      ensures |audio| > MinVoiceNoteBytes && old(selected).Some? && hasCallback ==>
                var to := old(selected).value.target;
                var m := VoiceNoteMessage(user, to, now, audio);
                && wavFiles == old(wavFiles)[userdataDir + "/" + user.username + "/history/audio/"
                                             + MessageCell.VoiceNoteFileName(user.username, now)
                                             := AudioUtils.WavFile(audio, 16000, 16, 1)]
                && outbox == old(outbox) + [SendMessage(to, m)]
                && store.files == MessageHistoryUtil.AfterSave(old(store.files), ChatFile(to.Username()), m)
      ensures !(|audio| > MinVoiceNoteBytes && old(selected).Some? && hasCallback) ==>
                wavFiles == old(wavFiles) && outbox == old(outbox) && store.files == old(store.files)
    {
      if |audio| > MinVoiceNoteBytes {
        if selected.None? {
          return;
        }
        var to := selected.value.target;
        if hasCallback {
          SendVoiceNote(audio, now, to);
        }
      }
      messages := messages + [LiveVoiceLine(user.username, lineTime)];
    }

    /**
     * The callback branch of the recording step: the WAV file is written
     * under the user's audio folder, checked, and the note, pointing at it,
     * is sent to `to` and saved in that chat's history.
     */
    method SendVoiceNote(audio: seq<Byte>, now: Timestamp, to: ChatTarget)
      requires |audio| < 0x8000_0000
      modifies this, store
      ensures messages == old(messages) && allChats == old(allChats) && installed == old(installed)
      ensures selected == old(selected) && searchText == old(searchText)
      ensures wavFiles == old(wavFiles)[userdataDir + "/" + user.username + "/history/audio/"
                                        + MessageCell.VoiceNoteFileName(user.username, now)
                                        := AudioUtils.WavFile(audio, 16000, 16, 1)]
      ensures outbox == old(outbox) + [SendMessage(to, VoiceNoteMessage(user, to, now, audio))]
      ensures store.files
              == MessageHistoryUtil.AfterSave(old(store.files), ChatFile(to.Username()),
                                              VoiceNoteMessage(user, to, now, audio))
    {
      var relativePath, valid := WriteVoiceNote(audio, now);
      if !valid {
        return;
      }
      var audioMsg := MemoryAudioMessage(UserTarget(user), to, AUDIO, "[Audio message]", Some(now),
                                         Some(audio), Some(RecordingFormat));
      audioMsg := SetAudioFilePath(audioMsg, Some(relativePath));
      outbox := outbox + [SendMessage(to, audioMsg)];
      store.SaveMessageToHistory(ChatFile(to.Username()), audioMsg);
    }

    /**
     * The WAV file of a voice note is written under the user's audio folder
     * and read back to check its header, which a freshly written file always
     * has; the path returned is the one relative to the user's folder.
     */
    method WriteVoiceNote(audio: seq<Byte>, now: Timestamp) returns (relativePath: string, valid: bool)
      requires |audio| < 0x8000_0000
      modifies this
      ensures messages == old(messages) && allChats == old(allChats) && installed == old(installed)
      ensures selected == old(selected) && searchText == old(searchText) && outbox == old(outbox)
      ensures wavFiles == old(wavFiles)[userdataDir + "/" + user.username + "/history/audio/"
                                        + MessageCell.VoiceNoteFileName(user.username, now)
                                        := AudioUtils.WavFile(audio, 16000, 16, 1)]
      ensures relativePath == "history/audio/" + MessageCell.VoiceNoteFileName(user.username, now)
      ensures valid
    {
      var audioDir := userdataDir + "/" + user.username + "/history/audio/";
      var wavFileName := MessageCell.VoiceNoteFileName(user.username, now);
      var wavPath := audioDir + wavFileName;
      var wav := AudioUtils.WriteWavManual(audio, 16000, 16, 1);
      wavFiles := wavFiles[wavPath := wav];
      AudioUtils.WrittenWavIsValid(audio, 16000, 16, 1);
      valid := AudioUtils.IsValidWav(Some(wav));
      relativePath := "history/audio/" + wavFileName;
    }

    /**
     * The recording step with a single clock reading, as the comments beside
     * the code intend: the line shown for the note leads the message cell to
     * the file just written.
     */
    method StopAudioRecordingAndSendOnce(audio: seq<Byte>, now: Timestamp, hasCallback: bool)
      requires |audio| < 0x8000_0000
      requires MessageCell.WellFormed(MessageCell.Line(now, user.username, ChatHistoryManager.VoiceNoteText))
      requires !Contains(LiveVoiceLine(user.username, now), "audioFilePath")
      modifies this, store
      ensures |audio| > MinVoiceNoteBytes && old(selected).Some? && hasCallback ==>
                && messages == old(messages) + [LiveVoiceLine(user.username, now)]
                && var path := MessageCell.AudioFilePath(Some(LiveVoiceLine(user.username, now)),
                                                         LiveVoiceLine(user.username, now));
                && path == Some("history/audio/" + MessageCell.VoiceNoteFileName(user.username, now))
                && userdataDir + "/" + user.username + "/" + path.value in wavFiles
    {
      LiveLineFindsVoiceNote(userdataDir, user.username, now);
      StopAudioRecordingAndSend(audio, now, now, hasCallback);
    }

    /**
     * `refreshChatList()`: installs the list that matches the search text and
     * restores the selection, whose listener loads the history of each newly
     * selected chat. Returns false when the filter throws on a null display
     * name, in which case nothing changes.
     */
    method RefreshChatList() returns (ok: bool)
      modifies this
      ensures allChats == old(allChats) && searchText == old(searchText)
      ensures wavFiles == old(wavFiles) && outbox == old(outbox)
      ensures ok <==> !FilterThrows(allChats, FilterText())
      ensures !ok ==> installed == old(installed) && selected == old(selected) && messages == old(messages)
      ensures ok ==> installed == (if FilterText() == "" then AllChats else FilteredBy(FilterText()))
      ensures ok ==> Visible() == VisibleChats(allChats, FilterText())
      ensures ok ==> selected == Reselect(Visible(), if old(selected).Some? then Some(old(selected).value.Username()) else None)
      ensures ok ==> messages == AfterSelection(old(messages), if Replaces(old(installed), installed) then None else old(selected), selected)
      ensures ok && Replaces(old(installed), installed) && selected.Some? ==> messages == LinesFor(selected.value.Username())
    {
      var previous := if selected.Some? then Some(selected.value.Username()) else None;
      var filter := FilterText();
      if FilterThrows(allChats, filter) {
        return false;
      }
      SetItems(if filter == "" then AllChats else FilteredBy(filter));
      var sel := FindSelection(Visible(), previous);
      Select(sel);
      return true;
    }

    /**
     * `chatListView.setItems(...)`. Another list object clears the selection
     * and then selects the entry selected before again when the new list
     * holds it, so the listener reloads that chat; the list already shown
     * leaves the selection alone.
     */
    method SetItems(source: ListSource)
      modifies this
      ensures installed == source
      ensures allChats == old(allChats) && searchText == old(searchText)
      ensures wavFiles == old(wavFiles) && outbox == old(outbox)
      ensures !Replaces(old(installed), source) ==> selected == old(selected) && messages == old(messages)
      ensures Replaces(old(installed), source) ==>
                && selected == (if old(selected).Some? && old(selected).value in Visible() then old(selected) else None)
                && messages == AfterSelection(old(messages), None, selected)
    {
      if !Replaces(installed, source) {
        return;
      }
      installed := source;
      var kept := if selected.Some? && selected.value in Visible() then selected else None;
      Select(None);
      Select(kept);
    }

    /**
     * The selection a refresh restores: the first entry of `items` with the
     * username selected before, else the first entry.
     */
    static method FindSelection(items: seq<ChatListItem>, previous: Option<string>) returns (sel: Option<ChatListItem>)
      ensures sel == Reselect(items, previous)
    {
      sel := None;
      if previous.Some? {
        var i := 0;
        while i < |items|
          invariant 0 <= i <= |items|
          invariant sel.None?
          invariant forall k :: 0 <= k < i ==> items[k].Username() != previous.value
        {
          if items[i].Username() == previous.value {
            sel := Some(items[i]);
            assert i == FirstNamed(items, previous.value);
            return;
          }
          i := i + 1;
        }
      }
      if |items| > 0 {
        sel := Some(items[0]);
      }
    }

    /**
     * The individual-chat branch of the add-chat dialog with `input` typed
     * as the destination user.
     */
    method AddIndividualChat(input: string, sha1: string -> ChatUtils.Digest) returns (result: AddResult)
      requires Valid()
      modifies this
      ensures Valid()
      ensures wavFiles == old(wavFiles) && outbox == old(outbox)
      ensures searchText == old(searchText)
      ensures Trim(input) == "" <==> result == NothingEntered
      ensures result == RefusedSelf <==> Trim(input) != "" && IsSelf(Trim(input))
      ensures result == RefusedDuplicate <==>
                Trim(input) != "" && !IsSelf(Trim(input))
                && HasChat(old(allChats), ChatUtils.EnsureUserExists(Trim(input), userdataDir, sha1))
      ensures result != Added ==>
                && allChats == old(allChats) && installed == old(installed) && selected == old(selected)
                && messages == old(messages)
      ensures result == Added ==>
                && |allChats| == |old(allChats)| + 1 && allChats[1..] == old(allChats) && fresh(allChats[0])
                && allChats[0].target
                   == UserTarget(NewUser(ChatUtils.EnsureUserExists(Trim(input), userdataDir, sha1), Some(Trim(input))))
      ensures result == Added && FilterThrows(allChats, FilterText()) ==>
                installed == old(installed) && selected == old(selected) && messages == old(messages)
      ensures result == Added && !FilterThrows(allChats, FilterText()) ==>
                && Visible() == VisibleChats(allChats, FilterText()) && selected == Some(allChats[0])
                && messages == LinesFor(allChats[0].Username())
    {
      var trimmed := Trim(input);
      if trimmed == "" {
        return NothingEntered;
      }
      if IsSelf(trimmed) {
        return RefusedSelf;
      }
      var safeName := ChatUtils.EnsureUserExists(trimmed, userdataDir, sha1);
      var dest := NewUser(safeName, Some(trimmed));
      if HasChat(allChats, dest.username) {
        return RefusedDuplicate;
      }
      var item := new ChatListItem(UserTarget(dest));
      var _ := AddAndSelect(item);
      result := Added;
    }

    /**
     * A new entry goes to the top of the list, the list is refreshed and the
     * entry selected, which shows its history. When the refresh throws, the
     * entry is listed but neither shown nor selected (`ok` is false).
     */
    method AddAndSelect(item: ChatListItem) returns (ok: bool)
      requires Valid() && !HasChat(allChats, item.Username()) && selected != Some(item)
      modifies this
      ensures Valid()
      ensures allChats == [item] + old(allChats) && searchText == old(searchText)
      ensures wavFiles == old(wavFiles) && outbox == old(outbox)
      ensures ok <==> !FilterThrows(allChats, FilterText())
      ensures !ok ==> installed == old(installed) && selected == old(selected) && messages == old(messages)
      ensures ok ==> Visible() == VisibleChats(allChats, FilterText()) && selected == Some(item)
                     && messages == LinesFor(item.Username())
    {
      InsertFirst(item);
      ok := RefreshChatList();
      if !ok {
        return;
      }
      Select(Some(item));
    }

    /** `allChats.add(0, item)` for an item whose username is not yet listed. */
    method InsertFirst(item: ChatListItem)
      requires Valid() && !HasChat(allChats, item.Username())
      modifies this
      ensures Valid()
      ensures allChats == [item] + old(allChats)
      ensures messages == old(messages) && installed == old(installed) && selected == old(selected)
      ensures searchText == old(searchText) && wavFiles == old(wavFiles) && outbox == old(outbox)
    {
      allChats := [item] + allChats;
      forall i, j | 0 <= i < j < |allChats|
        ensures allChats[i].Username() != allChats[j].Username()
      {
        if i > 0 {
          assert allChats[i] == old(allChats)[i - 1] && allChats[j] == old(allChats)[j - 1];
        } else {
          assert allChats[j] == old(allChats)[j - 1];
        }
      }
    }

    /** The member a group entry resolves to: a registered user with that display name, else a new safe name. */
    function Resolve(entry: string, registry: seq<Option<User>>, sha1: string -> ChatUtils.Digest): (u: User)
      ensures u.displayName == Some(entry)
    {
      match FindRegistered(registry, entry)
      case Some(name) => NewUser(name, Some(entry))
      case None => NewUser(ChatUtils.EnsureUserExists(entry, userdataDir, sha1), Some(entry))
    }

    /** The member set built from the entries, in order: a username already present is not added again. */
    function MembersFrom(entries: seq<string>, registry: seq<Option<User>>, sha1: string -> ChatUtils.Digest,
                         acc: MemberSet): MemberSet
      decreases |entries|
    {
      if |entries| == 0 then acc
      else MembersFrom(entries[1..], registry, sha1, AddMember(acc, Resolve(entries[0], registry, sha1)))
    }

    /** Building from a first entry adds its member, then goes on with the rest. */
    lemma MembersFromCons(t: string, rest: seq<string>, registry: seq<Option<User>>,
                          sha1: string -> ChatUtils.Digest, acc: MemberSet)
      ensures MembersFrom([t] + rest, registry, sha1, acc)
              == MembersFrom(rest, registry, sha1, AddMember(acc, Resolve(t, registry, sha1)))
    {
      assert ([t] + rest)[1..] == rest;
    }

    /** The usernames of a group built from the entries: every resolved entry, and nothing else. */
    lemma {:induction false} MembersFromKeys(entries: seq<string>, registry: seq<Option<User>>,
                                             sha1: string -> ChatUtils.Digest, acc: MemberSet)
      ensures MembersFrom(entries, registry, sha1, acc).Keys
              == acc.Keys + (set e | e in entries :: Resolve(e, registry, sha1).username)
      ensures MemberSetWellFormed(acc) ==> MemberSetWellFormed(MembersFrom(entries, registry, sha1, acc))
      decreases |entries|
    {
      if |entries| > 0 {
        var next := AddMember(acc, Resolve(entries[0], registry, sha1));
        MembersFromKeys(entries[1..], registry, sha1, next);
        assert forall e :: e in entries <==> e == entries[0] || e in entries[1..];
      }
    }

    /** The group the dialog creates: named and displayed as typed, with the resolved members and the user. */
    function NewGroupChat(name: string, names: seq<string>, registry: seq<Option<User>>,
                          sha1: string -> ChatUtils.Digest): Group
    {
      NewGroup(name, Some(name), Some(AddMember(MembersFrom(MemberEntries(names), registry, sha1, map[]), user)))
    }

    /**
     * A new group holds exactly the user and one member per non-empty entry,
     * keyed by username, and is named as typed.
     */
    lemma NewGroupChatMembers(name: string, names: seq<string>, registry: seq<Option<User>>,
                              sha1: string -> ChatUtils.Digest)
      ensures var g := NewGroupChat(name, names, registry, sha1);
        && g.name == name && GroupDisplayName(g) == name && g.members.Some?
        && g.members.value.Keys
           == (set e | e in MemberEntries(names) :: Resolve(e, registry, sha1).username) + {user.username}
        && MemberSetWellFormed(g.members.value)
        && (g.members.value[user.username] == user
            || exists e :: e in MemberEntries(names) && Resolve(e, registry, sha1).username == user.username)
    {
      MembersFromKeys(MemberEntries(names), registry, sha1, map[]);
    }

    /**
     * The group branch of the add-chat dialog: `groupInput` is the typed
     * name, `membersInput` the comma-separated member list, `registry` the
     * users found under the user-data folder, in directory order.
     */
    method AddGroupChat(groupInput: string, membersInput: string, registry: seq<Option<User>>,
                        sha1: string -> ChatUtils.Digest) returns (result: AddResult)
      requires Valid()
      modifies this
      ensures Valid()
      ensures wavFiles == old(wavFiles) && searchText == old(searchText)
      ensures Trim(groupInput) == "" <==> result == NothingEntered
      ensures result == RefusedSelf <==>
                Trim(groupInput) != ""
                && exists e :: e in MemberEntries(Split(membersInput, ',')) && IsSelf(e)
      ensures result == RefusedDuplicate ==> HasChat(old(allChats), Trim(groupInput))
      ensures result != Added ==> allChats == old(allChats) && outbox == old(outbox)
      ensures result == NothingEntered || result == RefusedSelf ==>
                installed == old(installed) && selected == old(selected) && messages == old(messages)
      ensures result == RefusedDuplicate && FilterThrows(allChats, FilterText()) ==>
                installed == old(installed) && selected == old(selected) && messages == old(messages)
      ensures result == RefusedDuplicate && !FilterThrows(allChats, FilterText()) ==>
                && Visible() == VisibleChats(allChats, FilterText())
                && selected == Reselect(Visible(), if old(selected).Some? then Some(old(selected).value.Username()) else None)
                && messages == AfterSelection(old(messages), if Replaces(old(installed), installed) then None else old(selected), selected)
      ensures result == Added ==>
                var group := NewGroupChat(Trim(groupInput), Split(membersInput, ','), registry, sha1);
                && !HasChat(old(allChats), Trim(groupInput))
                && |allChats| == |old(allChats)| + 1 && allChats[1..] == old(allChats) && fresh(allChats[0])
                && allChats[0].target == GroupTarget(group)
      ensures result == Added && FilterThrows(allChats, FilterText()) ==>
                installed == old(installed) && selected == old(selected) && messages == old(messages)
                && outbox == old(outbox)
      ensures result == Added && !FilterThrows(allChats, FilterText()) ==>
                && Visible() == VisibleChats(allChats, FilterText()) && selected == Some(allChats[0])
                && messages == LinesFor(allChats[0].Username())
                && outbox == old(outbox)
                   + [SendGroupObject(NewGroupChat(Trim(groupInput), Split(membersInput, ','), registry, sha1))]
    {
      var groupName := Trim(groupInput);
      if groupName == "" {
        return NothingEntered;
      }
      var names := Split(membersInput, ',');
      var selfIncluded := SelfIncluded(names);
      if selfIncluded {
        return RefusedSelf;
      }
      var group := BuildGroup(groupName, names, registry, sha1);
      if HasChat(allChats, group.name) {
        var _ := RefreshChatList();
        return RefusedDuplicate;
      }
      AddGroupItem(group);
      result := Added;
    }

    /**
     * A new group goes first in the list, is shown and selected, and is
     * announced to the server; when the refresh throws, only the listing happens.
     */
    method AddGroupItem(group: Group)
      requires Valid() && !HasChat(allChats, group.name)
      modifies this
      ensures Valid()
      ensures |allChats| == |old(allChats)| + 1 && allChats[1..] == old(allChats) && fresh(allChats[0])
      ensures allChats[0].target == GroupTarget(group)
      ensures wavFiles == old(wavFiles) && searchText == old(searchText)
      ensures FilterThrows(allChats, FilterText()) ==>
                installed == old(installed) && selected == old(selected) && messages == old(messages)
                && outbox == old(outbox)
      ensures !FilterThrows(allChats, FilterText()) ==>
                && Visible() == VisibleChats(allChats, FilterText()) && selected == Some(allChats[0])
                && messages == LinesFor(allChats[0].Username())
                && outbox == old(outbox) + [SendGroupObject(group)]
    {
      var item := new ChatListItem(GroupTarget(group));
      var shown := AddAndSelect(item);
      if shown {
        outbox := outbox + [SendGroupObject(group)];
      }
    }

    /** The group built from the typed name and member list, once no entry names the user. */
    method BuildGroup(groupName: string, names: seq<string>, registry: seq<Option<User>>,
                      sha1: string -> ChatUtils.Digest) returns (group: Group)
      requires forall e :: e in MemberEntries(names) ==> !IsSelf(e)
      ensures group == NewGroupChat(groupName, names, registry, sha1)
    {
      var members := ResolveMembers(names, registry, sha1);
      members := AddMember(members, user);
      group := NewGroup(groupName, Some(groupName), Some(members));
    }

    /** The first pass over the member list: does some entry name the user? */
    method SelfIncluded(names: seq<string>) returns (found: bool)
      ensures found <==> exists e :: e in MemberEntries(names) && IsSelf(e)
    {
      var i := 0;
      assert names[i..] == names;
      while i < |names|
        invariant 0 <= i <= |names|
        invariant forall e :: e in MemberEntries(names[i..]) ==> e in MemberEntries(names)
        invariant forall e :: e in MemberEntries(names) && IsSelf(e) ==> e in MemberEntries(names[i..])
      {
        var trimmed := Trim(names[i]);
        SelfStep(names, i);
        if trimmed != "" {
          if IsSelf(trimmed) {
            return true;
          }
        }
        i := i + 1;
      }
      return false;
    }

    /** One turn of the first pass: the entry at `i` names the user, or the search goes on past it. */
    lemma SelfStep(names: seq<string>, i: nat)
      requires i < |names|
      requires forall e :: e in MemberEntries(names[i..]) ==> e in MemberEntries(names)
      requires forall e :: e in MemberEntries(names) && IsSelf(e) ==> e in MemberEntries(names[i..])
      ensures Trim(names[i]) != "" && IsSelf(Trim(names[i])) ==>
                exists e :: e in MemberEntries(names) && IsSelf(e)
      ensures !(Trim(names[i]) != "" && IsSelf(Trim(names[i]))) ==>
                && (forall e :: e in MemberEntries(names[i + 1..]) ==> e in MemberEntries(names))
                && (forall e :: e in MemberEntries(names) && IsSelf(e) ==> e in MemberEntries(names[i + 1..]))
    {
      EntriesStep(names, i);
    }

    /**
     * The second pass over the member list: each non-empty entry that does
     * not name the user resolves to a member, in order.
     */
    method ResolveMembers(names: seq<string>, registry: seq<Option<User>>, sha1: string -> ChatUtils.Digest)
      returns (members: MemberSet)
      requires forall e :: e in MemberEntries(names) ==> !IsSelf(e)
      ensures members == MembersFrom(MemberEntries(names), registry, sha1, map[])
    {
      members := map[];
      var i := 0;
      while i < |names|
        invariant 0 <= i <= |names|
        invariant MembersFrom(MemberEntries(names), registry, sha1, map[])
                  == MembersFrom(MemberEntries(names[i..]), registry, sha1, members)
        invariant forall e :: e in MemberEntries(names[i..]) ==> !IsSelf(e)
      {
        var trimmed := Trim(names[i]);
        ResolveStep(names, i, registry, sha1, members);
        if trimmed != "" {
          if IsSelf(trimmed) {
            assert false;
          }
          members := AddMember(members, Resolve(trimmed, registry, sha1));
        }
        i := i + 1;
      }
    }

    /** One turn of the resolving loop: the entry at `i`, if non-empty, joins the members. */
    lemma ResolveStep(names: seq<string>, i: nat, registry: seq<Option<User>>,
                      sha1: string -> ChatUtils.Digest, members: MemberSet)
      requires i < |names|
      ensures var t := Trim(names[i]);
        MembersFrom(MemberEntries(names[i..]), registry, sha1, members)
        == MembersFrom(MemberEntries(names[i + 1..]), registry, sha1,
                       if t == "" then members else AddMember(members, Resolve(t, registry, sha1)))
      ensures Trim(names[i]) != "" ==> Trim(names[i]) in MemberEntries(names[i..])
      ensures forall e :: e in MemberEntries(names[i + 1..]) ==> e in MemberEntries(names[i..])
    {
      var t := Trim(names[i]);
      var tail := MemberEntries(names[i + 1..]);
      EntriesHead(names, i);
      if t == "" {
        assert MemberEntries(names[i..]) == tail;
      } else {
        assert MemberEntries(names[i..]) == [t] + tail;
        MembersFromCons(t, tail, registry, sha1, members);
      }
    }
  }

  /** The entries from position `i` on: the entry at `i`, if non-empty, then those after it. */
  lemma EntriesHead(names: seq<string>, i: nat)
    requires i < |names|
    ensures MemberEntries(names[i..])
            == (if Trim(names[i]) == "" then [] else [Trim(names[i])]) + MemberEntries(names[i + 1..])
  {
    assert names[i..][1..] == names[i + 1..];
  }

  /** An entry from position `i` on is the trimmed entry at `i`, if non-empty, or an entry after it. */
  lemma EntriesStep(names: seq<string>, i: nat)
    requires i < |names|
    ensures Trim(names[i]) != "" ==> Trim(names[i]) in MemberEntries(names[i..])
    ensures forall e :: e in MemberEntries(names[i..])
                        <==> (e == Trim(names[i]) && e != "") || e in MemberEntries(names[i + 1..])
  {
    EntriesHead(names, i);
  }

  /** The entries of two pieces of the member list are the entries of each, in order. */
  lemma {:induction false} EntriesConcat(a: seq<string>, b: seq<string>)
    ensures MemberEntries(a + b) == MemberEntries(a) + MemberEntries(b)
  {
    if |a| > 0 {
      EntriesConcat(a[1..], b);
      var t := Trim(a[0]);
      var h := if t == "" then [] else [t];
      TailOfConcat(a, b);
      assert MemberEntries(a + b) == h + MemberEntries(a[1..] + b);
      assert MemberEntries(a) == h + MemberEntries(a[1..]);
      assert h + (MemberEntries(a[1..]) + MemberEntries(b)) == h + MemberEntries(a[1..]) + MemberEntries(b);
    } else {
      assert a + b == b;
    }
  }

  /** The head and the tail of a concatenation whose first part is not empty. */
  lemma TailOfConcat(a: seq<string>, b: seq<string>)
    requires |a| > 0
    ensures (a + b)[0] == a[0] && (a + b)[1..] == a[1..] + b
  {
  }
}
