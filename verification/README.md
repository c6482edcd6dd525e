# MultiClientChat in Dafny

A verified model of MultiClientChat, a Java chat system in three parts: a socket server, a JavaFX desktop client, and a shared library. The server routes text messages, voice notes and call signals between users and groups, and keeps every conversation as a JSON history file per user. The client builds and shows those messages, writes recorded voice notes as WAV files, and plays them back from the chat list. The model covers the following.

- **Shared library** (`Model`, `ChatUtils`, `MessageHistoryUtil`, `TypeAdapters`, `JavaStrings`):
  - the `User`, `Group`, `Message` and `CallSignal` values, with their constructors, setters, equality and hash code;
  - folder naming: a display name plus `__` and six hexadecimal digits of its SHA-1;
  - history files, modelled as a map from path to file contents, with load, append-on-save and the layout of history paths;
  - the runtime type adapter that tags chat targets as `"user"` or `"group"` in JSON;
  - the Java `String` operations the code relies on.
- **Client** (`ChatHistoryManager`, `AudioUtils`, `MessageCell`, `ChatView`, `LoginView`, `ChatListItem`):
  - history previews;
  - the 44-byte WAV header writer and its validator;
  - the message-cell line parser, which imitates the reluctant regular expression, and the rule that rebuilds a voice note's audio path;
  - the chat view's history loading, voice-note sending, chat-list filtering and re-selection, and the adding of individual and group chats;
  - the login decision.
- **Server** (`ChatServer`):
  - the per-client loop: handshake, dispatch of messages, signals and `CREATE_GROUP:` commands, and clean-up;
  - history saving for private and group messages, with the naming of audio files;
  - group fan-out and signal routing.

Classes model the objects whose fields the source updates in place:
- `ChatServer` (the user, stream and group maps);
- `HistoryStore` (the file system the history utility writes);
- `RuntimeTypeAdapterFactory` and `Adapter`;
- `ChatListItem`, `MessageCell`, `ChatView` and `LoginView`.

Everything else is a datatype with functions. Side effects the code performs become fields:
- objects written to sockets are an outbox of deliveries;
- files written are maps from path to contents;
- lines shown are a sequence of strings.

The clock, SHA-1, directory listings, reads of `user.json` and the JVM property `userdata.dir` are parameters.

Where the code departs from what its documentation describes, the model follows the code:
- A second login under a name already online replaces the first session. No `USERNAME_TAKEN` error is sent (`ChatServer.java:94-96`). `ConcurrentHashMap.put` keeps the first `User` key object, so the server goes on holding the first login's `User` value with the new stream.
- `CREATE_GROUP:` replaces any group of the same name (`ChatServer.java:173`).
- The command `CREATE_GROUP:,` splits into an empty array. Reading its first part throws, and that ends the client's session with the usual clean-up.
- Group history files are written under the literal `userdata/` directory. Private history files are written under `HISTORY_DIR`, which comes from the `userdata.dir` property.
- The server saves a message's history before delivering it, whether or not its recipient is online.

## Model

| member | source | states |
|---|---|---|
| Model.NewUser | MultiClientChat/common/src/main/java/chat/common/model/User.java:22-25 | a new user has the given username and display name and starts disconnected |
| Model.HashCodeAgreesWithEquals | MultiClientChat/common/src/main/java/chat/common/model/User.java:54-65 | users are equal exactly when their usernames are, and equal users have equal hash codes (the 32-bit String hash of the username) |
| Model.UserToStringChoice | MultiClientChat/common/src/main/java/chat/common/model/User.java:67-70 | the text of a user is its display name when set, else its username |
| Model.SetDisplayNameKeepsIdentity | MultiClientChat/common/src/main/java/chat/common/model/User.java:50-52 | changing the display name keeps equality, hash code and connection flag |
| Model.SetConnectedOnlyFlag | MultiClientChat/common/src/main/java/chat/common/model/User.java:46-48 | setting the connection flag changes nothing else and keeps equality |
| Model.AddMember | MultiClientChat/server/src/main/java/chat/server/ChatServer.java:169 | adding a user to a member set adds its username, and leaves the set as it was when a user with that username is present |
| Model.NewGroup | MultiClientChat/common/src/main/java/chat/common/model/Group.java:35-39 | the member set is never null: a null argument becomes an empty set; name and display name as given |
| Model.NewNamedGroup | MultiClientChat/common/src/main/java/chat/common/model/Group.java:25-27 | the two-argument constructor gives an empty member set |
| Model.GroupAccessors | MultiClientChat/common/src/main/java/chat/common/model/Group.java:45-78 | display name falls back to the name; setMembers replaces the whole set; getUsername is the name; isGroup holds |
| Model.TextMessage | MultiClientChat/common/src/main/java/chat/common/model/Message.java:34-40 | the text constructor leaves audio bytes, path and format null |
| Model.FileAudioMessage | MultiClientChat/common/src/main/java/chat/common/model/Message.java:45-49 | the file constructor sets path and format and leaves the bytes null |
| Model.MemoryAudioMessage | MultiClientChat/common/src/main/java/chat/common/model/Message.java:54-58 | the memory constructor sets bytes and format and leaves the path null |
| Model.MessageSettersChangeOneField | MultiClientChat/common/src/main/java/chat/common/model/Message.java:61-70 | each message setter changes its own field only; from, to, type, content and time never change |
| Model.NewSignal | MultiClientChat/common/src/main/java/chat/common/model/CallSignal.java:38-44 | the five-argument constructor has no UDP host and port -1 |
| Model.NewSignalWithEndpoint | MultiClientChat/common/src/main/java/chat/common/model/CallSignal.java:45-49 | the seven-argument constructor is the five-argument one plus the given UDP host and port |
| Model.SignalSettersChangeOneField | MultiClientChat/common/src/main/java/chat/common/model/CallSignal.java:53-65 | each call-signal setter changes exactly its own field |
| Model.SignalFrom | MultiClientChat/common/src/main/java/chat/common/model/CallSignal.java:67-70 | getFrom is a user whose username and display name are both fromUser |
| Model.SignalTo | MultiClientChat/common/src/main/java/chat/common/model/CallSignal.java:71-74 | getTo is a user whose username and display name are both toUser |
| Model.SignalEndpointsEqualByUsername | MultiClientChat/common/src/main/java/chat/common/model/CallSignal.java:67-74 | getFrom/getTo equal exactly the users with that username |
| JavaStrings.Split | MultiClientChat/server/src/main/java/chat/server/ChatServer.java:154 | String.split on a single character: the whole string when it does not occur, otherwise the pieces with trailing empty pieces dropped |
| ChatServer.SplitOfJoin | MultiClientChat/server/src/main/java/chat/server/ChatServer.java:154 | splitting the joined pieces of a command gives the pieces back when none holds a comma and the last is non-empty |
| ChatUtils.GetBaseName | MultiClientChat/common/src/main/java/chat/common/util/ChatUtils.java:32-35 | the prefix before the first "__", or the whole name when there is none; the result holds no "__" |
| ChatUtils.GetBaseNameIdempotent | MultiClientChat/common/src/main/java/chat/common/util/ChatUtils.java:32-35 | taking the base name twice is taking it once |
| ChatUtils.SafeName | MultiClientChat/common/src/main/java/chat/common/util/ChatUtils.java:40-50 | the name, then "__", then six hexadecimal digits: 8 characters longer than the name |
| ChatUtils.HashSuffixDecodes | MultiClientChat/common/src/main/java/chat/common/util/ChatUtils.java:43-47 | the six digits decode back to the first three bytes of the digest |
| ChatUtils.GetSafeName | MultiClientChat/common/src/main/java/chat/common/util/ChatUtils.java:40-50 | the hex-building loop produces the safe name |
| ChatUtils.BaseOfSafeName | MultiClientChat/common/src/main/java/chat/common/util/ChatUtils.java:32-50 | the base name of the safe name is the name again when it holds no "__" and does not end in '_' |
| ChatUtils.BaseOfSafeNameLosesUnderscores | MultiClientChat/common/src/main/java/chat/common/util/ChatUtils.java:32-50 | a name holding "__" is not recovered from its safe name |
| ChatUtils.BaseBeforeUnderscores | MultiClientChat/common/src/main/java/chat/common/util/ChatUtils.java:32-35 | a name with no "__" and no trailing '_', followed by text starting with "__", is cut back to exactly that name |
| ChatUtils.EnsureUserExists | MultiClientChat/common/src/main/java/chat/common/util/ChatUtils.java:11-28 | the returned username is the safe name of the display name, whatever the file system does |
| MessageHistoryUtil.LoadHistory | MultiClientChat/common/src/main/java/chat/common/util/MessageHistoryUtil.java:70-86 | the stored list, or the empty list when the file is missing, unreadable, malformed or null |
| MessageHistoryUtil.StoredCopy | MultiClientChat/common/src/main/java/chat/common/util/MessageHistoryUtil.java:47-61 | an AUDIO message is stored without its bytes, every other field kept; other messages as given |
| MessageHistoryUtil.AfterSave | MultiClientChat/common/src/main/java/chat/common/util/MessageHistoryUtil.java:47-68 | saving appends exactly the stored copy to the file's list and changes no other file |
| MessageHistoryUtil.SaveOverBrokenFile | MultiClientChat/common/src/main/java/chat/common/util/MessageHistoryUtil.java:47-86 | saving onto a missing or unparseable file leaves exactly the one message |
| MessageHistoryUtil.SavesAppendInOrder | MultiClientChat/common/src/main/java/chat/common/util/MessageHistoryUtil.java:47-68 | two saves to one file append in call order |
| MessageHistoryUtil.SavesToDifferentFilesCommute | MultiClientChat/common/src/main/java/chat/common/util/MessageHistoryUtil.java:47-68 | saves to different files do not interfere |
| MessageHistoryUtil.HistoryFilePath | MultiClientChat/common/src/main/java/chat/common/util/MessageHistoryUtil.java:89-91 | the path is the user folder, "/history/", the chat name and ".json" |
| MessageHistoryUtil.HistoryFilePathNamesChat | MultiClientChat/common/src/main/java/chat/common/util/MessageHistoryUtil.java:89-91 | the chat name can be read back from a history path |
| MessageHistoryUtil.ChatTargetClass | MultiClientChat/common/src/main/java/chat/common/util/MessageHistoryUtil.java:32-36 | a chat target's class is User exactly for users and Group exactly for groups |
| MessageHistoryUtil.NewChatTargetFactory | MultiClientChat/common/src/main/java/chat/common/util/MessageHistoryUtil.java:32-36 | the factory tags users "user" and groups "group" under the field "type" |
| MessageHistoryUtil.HistoryStore.SaveMessageToHistory | MultiClientChat/common/src/main/java/chat/common/util/MessageHistoryUtil.java:47-68 | loads, appends the stored copy in place and writes back: the new files are AfterSave of the old |
| ChatHistoryManager.LoadHistory | MultiClientChat/client/src/main/java/chat/client/logic/ChatHistoryManager.java:20-26 | never fails: the stored list or the empty list |
| ChatHistoryManager.GetLastMessage | MultiClientChat/client/src/main/java/chat/client/logic/ChatHistoryManager.java:33-39 | the last element of a non-empty history, else null |
| ChatHistoryManager.GetLastPreview | MultiClientChat/client/src/main/java/chat/client/logic/ChatHistoryManager.java:46-49 | "" for null, "[Mensaje de voz]" for AUDIO, the content for TEXT |
| ChatHistoryManager.PreviewAfterSave | MultiClientChat/client/src/main/java/chat/client/logic/ChatHistoryManager.java:33-49 | after a save the last message and the preview are those of the saved message |
| TypeAdapters.RuntimeTypeAdapterFactory.Of | MultiClientChat/common/src/main/java/chat/common/util/RuntimeTypeAdapterFactory.java:49-63 | a new factory has its base type, its type field and empty registries |
| TypeAdapters.RuntimeTypeAdapterFactory.RegisterSubtype | MultiClientChat/common/src/main/java/chat/common/util/RuntimeTypeAdapterFactory.java:71-75 | label maps to type and type to label; returns the same factory |
| TypeAdapters.RuntimeTypeAdapterFactory.Create | MultiClientChat/common/src/main/java/chat/common/util/RuntimeTypeAdapterFactory.java:82-92 | no adapter for types outside the base type; otherwise one delegate per registered label and per registered class |
| TypeAdapters.Adapter.Encode | MultiClientChat/common/src/main/java/chat/common/util/RuntimeTypeAdapterFactory.java:95-111 | an unregistered class fails with nothing written; otherwise the type field and label come first, then the delegate's fields |
| TypeAdapters.Adapter.Write | MultiClientChat/common/src/main/java/chat/common/util/RuntimeTypeAdapterFactory.java:95-111 | the writing loop emits what Encode describes |
| TypeAdapters.Adapter.Read | MultiClientChat/common/src/main/java/chat/common/util/RuntimeTypeAdapterFactory.java:113-125 | a missing type field or an unknown label fails; otherwise the delegate for the label decodes |
| TypeAdapters.ReadAfterWrite | MultiClientChat/common/src/main/java/chat/common/util/RuntimeTypeAdapterFactory.java:95-125 | reading what was written gives the value back when its delegate round-trips |
| AudioUtils.IntToLittleEndian | MultiClientChat/client/src/main/java/chat/client/views/AudioUtils.java:121-128 | four bytes, low byte first, that reassemble to the value modulo 2^32 |
| AudioUtils.IntBytesReassemble | MultiClientChat/client/src/main/java/chat/client/views/AudioUtils.java:121-128 | the four shifted-and-masked bytes reassemble to the value modulo 2^32 |
| AudioUtils.ShortToLittleEndian | MultiClientChat/client/src/main/java/chat/client/views/AudioUtils.java:130-135 | two bytes, low byte first, that reassemble to the short value |
| AudioUtils.ShortBytesReassemble | MultiClientChat/client/src/main/java/chat/client/views/AudioUtils.java:130-135 | the two bytes reassemble to the value modulo 2^16 |
| AudioUtils.WavHeader | MultiClientChat/client/src/main/java/chat/client/views/AudioUtils.java:92-114 | the header is 44 bytes |
| AudioUtils.WavFile | MultiClientChat/client/src/main/java/chat/client/views/AudioUtils.java:92-119 | the file is 44 + |pcm| bytes and ends with the PCM bytes unchanged |
| AudioUtils.WriteWavManual | MultiClientChat/client/src/main/java/chat/client/views/AudioUtils.java:92-119 | the sequential writes produce exactly the header followed by the PCM bytes |
| AudioUtils.HeaderTags | MultiClientChat/client/src/main/java/chat/client/views/AudioUtils.java:97-114 | "RIFF" at 0, "WAVE" at 8, "fmt " at 12, "data" at 36 |
| AudioUtils.HeaderSizes | MultiClientChat/client/src/main/java/chat/client/views/AudioUtils.java:97-114 | chunk size 36 + data size at 4, fmt size 16 at 16 |
| AudioUtils.DataSizeField | MultiClientChat/client/src/main/java/chat/client/views/AudioUtils.java:112-113 | the data size at 40 |
| AudioUtils.HeaderFormat | MultiClientChat/client/src/main/java/chat/client/views/AudioUtils.java:100-111 | PCM format 1 at 20, channels at 22, sample rate at 24, byte rate at 28, block align at 32, bits at 34 |
| AudioUtils.WavLayout | MultiClientChat/client/src/main/java/chat/client/views/AudioUtils.java:92-119 | the written file holds every header field at its offset, with the data size equal to the PCM length |
| AudioUtils.WavRates | MultiClientChat/client/src/main/java/chat/client/views/AudioUtils.java:94-95 | byte rate = sampleRate*channels*bits/8 and block align = channels*bits/8 when they fit |
| AudioUtils.IsValidWav | MultiClientChat/client/src/main/java/chat/client/views/AudioUtils.java:12-25 | valid exactly when the file was read and holds a 44-byte header with the four tags; false on a short read or an I/O error |
| AudioUtils.WrittenWavIsValid | MultiClientChat/client/src/main/java/chat/client/views/AudioUtils.java:12-25 | every file written by writeWavManual validates |
| AudioUtils.DumpCount | MultiClientChat/client/src/main/java/chat/client/views/AudioUtils.java:30-37 | min(n, |data|) bytes are rendered |
| AudioUtils.DumpBytes | MultiClientChat/client/src/main/java/chat/client/views/AudioUtils.java:30-37 | each rendered byte is two uppercase hex digits and a space |
| ChatListItem.ChatListItem.constructor | MultiClientChat/client/src/main/java/chat/client/model/ChatListItem.java:16-20 | a new item has its target, preview "" and no time |
| ChatListItem.ChatListItem.SetLastPreview | MultiClientChat/client/src/main/java/chat/client/model/ChatListItem.java:24 | only the preview changes |
| ChatListItem.ChatListItem.SetLastTimestamp | MultiClientChat/client/src/main/java/chat/client/model/ChatListItem.java:26 | only the time changes |
| ChatListItem.ItemShowsTarget | MultiClientChat/client/src/main/java/chat/client/model/ChatListItem.java:27-29 | username, display name and isGroup are the target's |
| MessageCell.FirstSplit | MultiClientChat/client/src/main/java/chat/client/views/MessageCell.java:62-64 | the reluctant group ends at the first separator after which the rest of the pattern matches |
| MessageCell.SplitSkipped | MultiClientChat/client/src/main/java/chat/client/views/MessageCell.java:62-64 | every "] " before the one the reluctant group stops at leaves a rest on which the rest of the pattern fails |
| MessageCell.NoSplit | MultiClientChat/client/src/main/java/chat/client/views/MessageCell.java:62-64 | when the reluctant group finds no stop, the rest of the pattern fails after every "] " |
| MessageCell.SenderSeparatorIff | MultiClientChat/client/src/main/java/chat/client/views/MessageCell.java:62-71 | the character-by-character search for ": " agrees with `contains(": ")` |
| MessageCell.ParseLine | MultiClientChat/client/src/main/java/chat/client/views/MessageCell.java:62-71 | a parse result formats back to the line and is well formed |
| MessageCell.ParseFormatLine | MultiClientChat/client/src/main/java/chat/client/views/MessageCell.java:62-71 | a line "[t] s: c" with no "] " in t, no ": " in s and no line break parses to (t, s, c) |
| MessageCell.ParseLineMatches | MultiClientChat/client/src/main/java/chat/client/views/MessageCell.java:62-71 | every single-line text of the shape "[a] b: c" matches |
| MessageCell.Render | MultiClientChat/client/src/main/java/chat/client/views/MessageCell.java:54-83 | blank iff empty or null; a parsed line shows its sender, its message and its time as HH:mm (as written when that fails); any other line shows sender "" and the whole text; own iff the current username equals the sender |
| MessageCell.FindPathField | MultiClientChat/client/src/main/java/chat/client/views/MessageCell.java:95-102 | the first "audioFilePath":"..." fragment found, a non-empty quote-free value |
| MessageCell.FindsPathField | MultiClientChat/client/src/main/java/chat/client/views/MessageCell.java:95-102 | a fragment at the front of the item is found with its value |
| MessageCell.MatchVoiceLine | MultiClientChat/client/src/main/java/chat/client/views/MessageCell.java:105-110 | a match of the voice-line pattern splits the item into time and sender |
| MessageCell.VoiceLineAgreesWithParse | MultiClientChat/client/src/main/java/chat/client/views/MessageCell.java:62-110 | the voice-line pattern and the line pattern agree on time and sender |
| MessageCell.SafeTimestamp | MultiClientChat/client/src/main/java/chat/client/views/MessageCell.java:111 | ':' and '.' replaced by '-', nothing else changed |
| MessageCell.AudioFilePath | MultiClientChat/client/src/main/java/chat/client/views/MessageCell.java:94-115 | the embedded path when the JSON names one and it can be read; in every other case (no JSON, no field, or a field whose value cannot be found) the path rebuilt from a voice line, "history/audio/" + sender + "_" + safe time + ".wav", or none when the line is not one |
| MessageCell.MessageCell.constructor | MultiClientChat/client/src/main/java/chat/client/views/MessageCell.java:48-49 | no current username and nothing shown |
| MessageCell.MessageCell.SetCurrentUsername | MultiClientChat/client/src/main/java/chat/client/views/MessageCell.java:50-52 | only the current username changes |
| MessageCell.MessageCell.UpdateItem | MultiClientChat/client/src/main/java/chat/client/views/MessageCell.java:54-83 | the cell shows Render of the new item |
| MessageCell.MessageCell.PlayPath | MultiClientChat/client/src/main/java/chat/client/views/MessageCell.java:94-117 | none exactly when no audio path is found; otherwise "userdata/" + the owner + "/" + the path, the owner being the sender (the current user for an own bubble) |
| ChatView.HistoryLines | MultiClientChat/client/src/main/java/chat/client/views/ChatView.java:697-716 | one line per history entry, in order |
| ChatView.HistoryLineParses | MultiClientChat/client/src/main/java/chat/client/views/ChatView.java:708-714 | a history line parses back to time, sender and content; it reads as a voice note iff the entry is AUDIO or its text is the voice-note text |
| ChatView.VoiceNoteMessage | MultiClientChat/client/src/main/java/chat/client/views/ChatView.java:776-816 | the voice note is AUDIO, from the user, timed now, with path "history/audio/" + username + "_" + safe time + ".wav" |
| ChatView.VoiceNotePathRoundTrip | MultiClientChat/client/src/main/java/chat/client/views/ChatView.java:776-816 | the history line of a voice note leads the cell to the path the message was saved with |
| ChatView.VoiceNotePathsDiffer | MultiClientChat/client/src/main/java/chat/client/views/ChatView.java:782-783 | voice notes at different times get different files |
| ChatView.LiveLineMissesVoiceNote | MultiClientChat/client/src/main/java/chat/client/views/ChatView.java:776-828 | when the second clock reading names another file, the live line leads the cell to that other file and not to the one written |
| ChatView.ReadingsNameDifferentFiles | MultiClientChat/client/src/main/java/chat/client/views/ChatView.java:776-783 | two readings 365 ms apart give different voice-note file names |
| ChatView.LiveLineFindsVoiceNote | MultiClientChat/client/src/main/java/chat/client/views/ChatView.java:776-828 | with one clock reading the live line leads to the written file |
| ChatView.Filtered | MultiClientChat/client/src/main/java/chat/client/views/ChatView.java:841-846 | the items whose lowercased display name contains the lowercased filter, and only those |
| ChatView.VisibleMatchesFilter | MultiClientChat/client/src/main/java/chat/client/views/ChatView.java:841-846 | an empty filter shows all chats; otherwise exactly the matching ones |
| ChatView.Reselect | MultiClientChat/client/src/main/java/chat/client/views/ChatView.java:849-860 | the previously selected username when still visible, else the first item, else none |
| ChatView.FirstNamed | MultiClientChat/client/src/main/java/chat/client/views/ChatView.java:849-856 | the first item with the given username |
| ChatView.MemberEntries | MultiClientChat/client/src/main/java/chat/client/views/ChatView.java:343-347 | the entries of the split member list, trimmed, with blank ones dropped: none is empty |
| ChatView.FindRegistered | MultiClientChat/client/src/main/java/chat/client/views/ChatView.java:369-385 | the username of a registered user whose display name is the entry and before which no registered user has that display name; none exactly when no readable entry has it |
| ChatView.ChatView.constructor | MultiClientChat/client/src/main/java/chat/client/views/ChatView.java:239-455 | the view before the saved chats are read: no messages, no chats, the list view's own empty list shown and nothing selected |
| ChatView.ChatView.OpenSavedChats | MultiClientChat/client/src/main/java/chat/client/views/ChatView.java:482-694 | the saved chats become `allChats`, all of them are shown, the first is selected and its history lines are the messages; with no saved chat nothing is selected |
| ChatView.ChatView.LoadChatHistory | MultiClientChat/client/src/main/java/chat/client/views/ChatView.java:697-722 | the message list becomes the lines of the stored history of the chat; nothing else changes |
| ChatView.ChatView.StopAudioRecordingAndSend | MultiClientChat/client/src/main/java/chat/client/views/ChatView.java:751-833 | at most 1000 bytes send nothing; otherwise the WAV file, the outgoing message, the saved history entry and the live line as the code writes them |
| ChatView.ChatView.SendVoiceNote | MultiClientChat/client/src/main/java/chat/client/views/ChatView.java:774-825 | with a callback: the WAV file at the user's audio path, the voice note sent to the selected chat and appended to its history, the list and the live lines untouched |
| ChatView.ChatView.WriteVoiceNote | MultiClientChat/client/src/main/java/chat/client/views/ChatView.java:776-807 | the WAV bytes are stored under the user's audio folder, the header check always passes on them, and the relative path is "history/audio/" + the file name |
| ChatView.ChatView.StopAudioRecordingAndSendOnce | MultiClientChat/client/src/main/java/chat/client/views/ChatView.java:776-828 | with one clock reading, the live line's play path is the saved voice note |
| ChatView.ChatView.RefreshChatList | MultiClientChat/client/src/main/java/chat/client/views/ChatView.java:836-861 | false exactly when the filter meets a null display name, and then nothing changes; otherwise `allChats` or a new filtered view is installed, the shown entries are the filtered chats, the selection is Reselect of the previous one, and the message list is the history of the selected chat whenever a new list object was installed (else whenever the selection changed) |
| ChatView.ChatView.SetItems | MultiClientChat/client/src/main/java/chat/client/views/ChatView.java:841-846 | installing a different list object keeps the selected entry only if the new list holds it, and the listener reloads that entry's history; re-installing `allChats` while it is shown changes neither selection nor messages |
| ChatView.ChatView.Select | MultiClientChat/client/src/main/java/chat/client/views/ChatView.java:675-683 | the selection becomes the given one; a move to a different, non-null entry replaces the message list with that chat's history lines, anything else leaves it alone |
| ChatView.ChatView.FindSelection | MultiClientChat/client/src/main/java/chat/client/views/ChatView.java:849-860 | the reselection loop computes Reselect |
| ChatView.ChatView.AddIndividualChat | MultiClientChat/client/src/main/java/chat/client/views/ChatView.java:308-328 | blank input does nothing; self and duplicates are refused, changing nothing; otherwise the new chat is inserted first and, unless the refresh throws, is shown, selected and its history loaded |
| ChatView.ChatView.AddAndSelect | MultiClientChat/client/src/main/java/chat/client/views/ChatView.java:319-322 | the new entry is put first and the list stays free of duplicate usernames; if the refresh throws, the installed list object, selection and messages are unchanged, otherwise the filtered list is shown, the entry is selected and the message list is its history |
| ChatView.ChatView.InsertFirst | MultiClientChat/client/src/main/java/chat/client/views/ChatView.java:320 | the item goes to index 0 and usernames stay distinct |
| ChatView.ChatView.Resolve | MultiClientChat/client/src/main/java/chat/client/views/ChatView.java:369-393 | the member resolved for an entry is shown with the entry as display name |
| ChatView.ChatView.MembersFromKeys | MultiClientChat/client/src/main/java/chat/client/views/ChatView.java:362-395 | the resolved member set has one username per entry |
| ChatView.ChatView.NewGroupChatMembers | MultiClientChat/client/src/main/java/chat/client/views/ChatView.java:362-398 | an accepted group has the resolved entries plus the user themself as members |
| ChatView.ChatView.AddGroupChat | MultiClientChat/client/src/main/java/chat/client/views/ChatView.java:336-438 | blank name does nothing; an entry naming the user refuses the group; a duplicate name is refused after a refresh; otherwise the group is inserted first and, unless the refresh throws, shown, selected, its history loaded and the group object sent |
| ChatView.ChatView.AddGroupItem | MultiClientChat/client/src/main/java/chat/client/views/ChatView.java:400-430 | the group entry is put first; unless the refresh throws, it is shown and selected, its history is loaded and the group object is sent once; if the refresh throws, nothing but the list changes |
| ChatView.ChatView.SelfIncluded | MultiClientChat/client/src/main/java/chat/client/views/ChatView.java:344-354 | true iff some entry equals, ignoring case, the user's username or display name |
| ChatView.ChatView.BuildGroup | MultiClientChat/client/src/main/java/chat/client/views/ChatView.java:362-398 | the group built is NewGroupChat: named as typed, holding every resolved entry and the user |
| ChatView.ChatView.ResolveMembers | MultiClientChat/client/src/main/java/chat/client/views/ChatView.java:362-395 | the resolving loop builds the member set MembersFrom describes |
| LoginView.FirstMatch | MultiClientChat/client/src/main/java/chat/client/views/LoginView.java:91-106 | the first folder whose base name is the entered name |
| LoginView.FirstIndexFinds | MultiClientChat/client/src/main/java/chat/client/views/LoginView.java:91-106 | the search from a position finds the first matching base name at or after it, or none when none matches |
| LoginView.Login | MultiClientChat/client/src/main/java/chat/client/views/LoginView.java:69-116 | a blank name, and only a blank name, is refused with the empty-name error; any other refusal is the read error; a login with no matching folder hands over a user displayed as typed; a login through a matching folder hands over the user read from the first such folder's user.json |
| LoginView.LoginCases | MultiClientChat/client/src/main/java/chat/client/views/LoginView.java:69-116 | a blank name is refused; a read error is shown exactly when the first matching folder fails to read; the handler aborts exactly when reading that folder's user.json throws an unchecked exception; a matching folder logs in user u exactly when the first matching folder's user.json reads as u |
| LoginView.NewUserNamedAfterInput | MultiClientChat/client/src/main/java/chat/client/views/LoginView.java:107-112 | with no matching folder the user is named by the safe name of the input and shown as typed |
| LoginView.CreatedFolderIsFound | MultiClientChat/client/src/main/java/chat/client/views/LoginView.java:91-112 | after a first login creates the folder, the next login with that name finds it |
| LoginView.LoginView.constructor | MultiClientChat/client/src/main/java/chat/client/views/LoginView.java:44 | no error and no login yet |
| LoginView.LoginView.HandleLogin | MultiClientChat/client/src/main/java/chat/client/views/LoginView.java:69-116 | as Login decides: an error is shown and the callback not called; or the error is cleared and the callback called exactly once; or, when the read throws, neither label nor callback changes |
| LoginView.LoginView.FindUserDir | MultiClientChat/client/src/main/java/chat/client/views/LoginView.java:91-106 | the directory loop finds FirstMatch |
| ChatServer.AudioStamp | MultiClientChat/server/src/main/java/chat/server/ChatServer.java:303 | a character is in the stamp exactly when it is in the time text and is not one of ':', '.', 'T', '-'; every other character keeps its number of occurrences |
| ChatServer.AudioStampConcat | MultiClientChat/server/src/main/java/chat/server/ChatServer.java:303 | the stamp of two joined parts is the stamp of the first followed by the stamp of the second, so the kept characters stay in order |
| JavaStrings.RemoveChars | MultiClientChat/server/src/main/java/chat/server/ChatServer.java:303 | `replaceAll` with a character class and an empty replacement: the result holds exactly the characters of the text outside the class, each as often as in the text, and a text with none of them is returned unchanged |
| JavaStrings.RemoveCharsConcat | MultiClientChat/server/src/main/java/chat/server/ChatServer.java:303 | deleting characters distributes over concatenation, which fixes the order of what is kept |
| ChatServer.FileNameOf | MultiClientChat/server/src/main/java/chat/server/ChatServer.java:307-308 | the text after the last '/': a suffix of the path holding no '/' |
| ChatServer.FileNameOfJoin | MultiClientChat/server/src/main/java/chat/server/ChatServer.java:307-308 | the file name of dir + "/" + name is name |
| ChatServer.ServerPathsAreChatFiles | MultiClientChat/server/src/main/java/chat/server/ChatServer.java:319-360 | the server's files are the history utility's chat files: a member's copy of a group under userdata/<member>, each side of a private chat under the history folder |
| ChatServer.MemberFileInjective | MultiClientChat/server/src/main/java/chat/server/ChatServer.java:327-329 | different members keep a group's history in different files |
| ChatServer.AssignAudioPath | MultiClientChat/server/src/main/java/chat/server/ChatServer.java:294-311 | a voice note without a path gets "history/audio/<from>_<to>_<stamp>.wav"; a missing time makes the call throw; otherwise unchanged |
| ChatServer.SaveToEach | MultiClientChat/server/src/main/java/chat/server/ChatServer.java:326-337 | every path of the set gets the message appended once; no other file changes |
| ChatServer.SaveToEachStep | MultiClientChat/server/src/main/java/chat/server/ChatServer.java:326-337 | saving to one more member file is saving to the larger set |
| ChatServer.HistoryAfterAppends | MultiClientChat/server/src/main/java/chat/server/ChatServer.java:317-366 | a private message lands once in each side's file (twice in the one file of a message to oneself); a group message lands once in every other member's copy and in the group's own file, twice there when the group is its own member; nothing else changes |
| ChatServer.GroupFileAmongMembers | MultiClientChat/server/src/main/java/chat/server/ChatServer.java:321-337 | the group's own history file is one of the members' copies exactly when the group's name is a member username |
| ChatServer.GroupRecipients | MultiClientChat/server/src/main/java/chat/server/ChatServer.java:240-242 | the online members other than the sender |
| ChatServer.GroupMessageSkipsSender | MultiClientChat/server/src/main/java/chat/server/ChatServer.java:237-247 | a group message never goes back to the sender and reaches at most one copy per member |
| ChatServer.CancelFor | MultiClientChat/server/src/main/java/chat/server/ChatServer.java:131-137 | the CANCEL has swapped endpoints, the unavailability text and the current time |
| ChatServer.SignalOutcome | MultiClientChat/server/src/main/java/chat/server/ChatServer.java:113-148 | at most one object is written for a signal |
| ChatServer.SignalRouting | MultiClientChat/server/src/main/java/chat/server/ChatServer.java:113-148 | an online target gets the signal unchanged; a REQUEST to an offline target brings one CANCEL to the online requester; otherwise nothing |
| ChatServer.OnlineMembersAre | MultiClientChat/server/src/main/java/chat/server/ChatServer.java:155-170 | the new group's members are exactly the listed names that are online, as the users the server keeps |
| ChatServer.CommandGroupIs | MultiClientChat/server/src/main/java/chat/server/ChatServer.java:150-176 | CREATE_GROUP:name,m1,... creates group name, shown as name, with the online m_i as members |
| ChatServer.WithoutMember | MultiClientChat/server/src/main/java/chat/server/ChatServer.java:196-200 | the group without the user, nothing else changed |
| ChatServer.RemovedEverywhere | MultiClientChat/server/src/main/java/chat/server/ChatServer.java:196-200 | every group loses the user |
| ChatServer.CleanupLeavesNoGroup | MultiClientChat/server/src/main/java/chat/server/ChatServer.java:184-201 | after cleanup the user is in no group and other memberships are kept |
| ChatServer.OverwrittenConnectionOwnsNothing | MultiClientChat/server/src/main/java/chat/server/ChatServer.java:186-192 | after a second login under the same name the first connection owns no session |
| ChatServer.FanOutStep | MultiClientChat/server/src/main/java/chat/server/ChatServer.java:239-246 | one step of the member loop keeps every reached recipient reached exactly once |
| ChatServer.ChatServer.constructor | MultiClientChat/server/src/main/java/chat/server/ChatServer.java:42-48 | empty maps; the history folder is the userdata.dir property or "userdata", then "/" |
| ChatServer.ChatServer.Connect | MultiClientChat/server/src/main/java/chat/server/ChatServer.java:90-97 | the user is filed under its username on a fresh connection numbered by the counter, replacing any earlier one (the first key object kept); "OK" is written back |
| ChatServer.ChatServer.FindOnline | MultiClientChat/server/src/main/java/chat/server/ChatServer.java:113-119 | the loop over the users finds the user kept for a username exactly when it is online |
| ChatServer.ChatServer.SendMessage | MultiClientChat/server/src/main/java/chat/server/ChatServer.java:262-285 | the payload is written to the one user whose connection it is, or to nobody |
| ChatServer.ChatServer.FanOut | MultiClientChat/server/src/main/java/chat/server/ChatServer.java:239-246 | each online member other than the sender gets the message exactly once, on their own connection |
| ChatServer.ChatServer.SaveToMembers | MultiClientChat/server/src/main/java/chat/server/ChatServer.java:326-337 | each member's copy of the group history gets the message |
| ChatServer.ChatServer.SaveHistory | MultiClientChat/server/src/main/java/chat/server/ChatServer.java:291-384 | the message gets its audio path, the history files become HistoryAfter and the audio files AudioAfter; a voice note without path or time throws with nothing changed |
| ChatServer.ChatServer.SaveGroupMessage | MultiClientChat/server/src/main/java/chat/server/ChatServer.java:317-352 | the group's file and every member's copy get the message (HistoryAfter); with audio data and a time, the audio lands under the group folder |
| ChatServer.ChatServer.SavePrivateMessage | MultiClientChat/server/src/main/java/chat/server/ChatServer.java:354-383 | both sides' files get the message (HistoryAfter); a voice note's audio lands under both users' audio folders |
| ChatServer.ChatServer.ProcessTextMessage | MultiClientChat/server/src/main/java/chat/server/ChatServer.java:230-255 | history first, whoever is online; then group fan-out or one delivery to an online target; a throwing save ends the session |
| ChatServer.ChatServer.RouteSignal | MultiClientChat/server/src/main/java/chat/server/ChatServer.java:109-149 | writes exactly what SignalRouting describes |
| ChatServer.ChatServer.SendOn | MultiClientChat/server/src/main/java/chat/server/ChatServer.java:120-124 | one write on the stream kept for a username |
| ChatServer.ChatServer.CreateGroup | MultiClientChat/server/src/main/java/chat/server/ChatServer.java:150-176 | stores the command's group, replacing a same-named one; a command that splits into nothing throws |
| ChatServer.ChatServer.CollectOnline | MultiClientChat/server/src/main/java/chat/server/ChatServer.java:157-171 | the members collected are exactly the listed names that are online, each as the User the server keeps |
| ChatServer.ChatServer.Dispatch | MultiClientChat/server/src/main/java/chat/server/ChatServer.java:101-178 | a message goes on exactly when its audio path can be assigned, and then the history files, the audio files and the routed deliveries are as for ProcessTextMessage, else nothing changes; signals and CREATE_GROUP commands as above; other strings and objects change nothing and the loop goes on; sessions never change, groups are never dropped, and the outbox only grows |
| ChatServer.ChatServer.Serve | MultiClientChat/server/src/main/java/chat/server/ChatServer.java:101-180 | the read loop dispatches the inputs in order, each from the state the previous one left (the run relation `Ran`), and stops after the first input that throws or at the end; `steps` is the number dispatched; the sessions and the connection counter are kept |
| ChatServer.ChatServer.Step | MultiClientChat/server/src/main/java/chat/server/ChatServer.java:101-178 | one pass of the loop body: the loop goes on exactly as `GoesOn` says, and the state changes as `Handled` describes for that input |
| ChatServer.ChatServer.ServeThenLeave | MultiClientChat/server/src/main/java/chat/server/ChatServer.java:99-205 | the read loop as `Ran` describes it, then the session on the connection removed, and the groups left by the run without the user |
| ChatServer.WithSession | MultiClientChat/server/src/main/java/chat/server/ChatServer.java:94-96 | the sessions after a handshake: the username filed on the new connection, keeping an earlier key object, every other session as before |
| ChatServer.RunsAgree | MultiClientChat/server/src/main/java/chat/server/ChatServer.java:99-180 | two runs of the loop over the same input from the same state stop after the same input and agree on the history files, audio files and groups after every step |
| ChatServer.HandledAgrees | MultiClientChat/server/src/main/java/chat/server/ChatServer.java:101-178 | handling one input from states that agree on files, audio and groups leaves states that agree on them |
| ChatServer.ChatServer.Disconnect | MultiClientChat/server/src/main/java/chat/server/ChatServer.java:184-205 | the session owning the connection is removed and its user leaves every group; with no owner nothing changes |
| ChatServer.ChatServer.RemoveFromGroups | MultiClientChat/server/src/main/java/chat/server/ChatServer.java:196-200 | every group's members lose the user |
| ChatServer.ChatServer.GetGroupsForUser | MultiClientChat/server/src/main/java/chat/server/ChatServer.java:214-222 | the groups whose members include the user |
| ChatServer.ChatServer.HandleClient | MultiClientChat/server/src/main/java/chat/server/ChatServer.java:84-207 | the handshake files the user on a fresh connection and writes "OK"; then the inputs are dispatched as `Ran` describes from that state, until the input ends or a step throws; then the clean-up: the history and audio files and the outbox are those the run left, the groups are the run's groups without the user, and the sessions are those before minus the user |

## Left out

- Threads, sockets and Java serialization are left out. Each client handler runs sequentially in the model (`HandleClient` is handshake, then dispatch until the input ends or a step throws, then clean-up). Interleavings of several handlers are not modelled.
- ChatServer.ChatServer.ProcessTextMessage: the contract does not state that history is saved before any delivery. The model keeps the history files and the outbox as separate state, so the order of writes between them cannot be observed. The contract does state that the history is saved whether or not anyone is online, and that no delivery happens when the save throws.
- The JavaFX widgets, layout, styles, dialogs and audio playback are left out. Only the decisions behind them are modelled: the text shown, the file chosen, the callbacks made.
- The voice-call manager, UDP audio streaming and microphone capture are not part of this model. A recording is its captured PCM bytes.
- The debug `.pcm` dump that the client writes beside each voice note is left out, and so is the hex dump printed to the console (`DumpBytes` models its text only).
- Directory creation (`mkdirs`) is left out, as are the `user.json`, `group.json` and empty-history files that the client creates. Writes are assumed to succeed. Exceptions that are caught and only logged leave the modelled state as if the write had happened.
- A message whose `to` or `from` is null is left out. `saveHistory` logs and returns on a null destination. Chat targets are never null in the model.
- The `AudioFormat` sample rate is a Java `float`. The model takes a whole number of hertz (16000 for recordings). The byte rate, which Java computes in `float`, is computed exactly and then cast to `int` with Java's saturation, so float rounding of very large rates is not modelled.
- The JavaFX selection model is reduced to three rules. The listener fires whenever the selected entry changes, by identity, to a non-null entry. `setItems` with a different list object clears the selection and then selects the old entry again if the new list holds it. Re-installing the list already shown does nothing. Focus, anchors and selection indices are not modelled.
- The handshake failure path is left out. When the first object is not a `User`, or the stream fails before it arrives (`ChatServer.java:90`), the handler ends before anything is stored, and the clean-up finds no session. `HandleClient` starts from a handshake that succeeded.
- `String.hashCode` runs over UTF-16 code units. `StringHash` runs over Dafny characters, which are Unicode scalar values, so it differs from Java for names with characters outside the Basic Multilingual Plane.
- Gson's JSON encoding and decoding are taken as faithful. A stored message or user reads back as the value that was written, and the character-level JSON text is not modelled. A `user.json` that Gson cannot parse is modelled as a read that throws.
- Case folding is ASCII only: `toLowerCase` and `equalsIgnoreCase` are modelled on ASCII letters.
- The message setters (`setAudioFilePath`, `setAudioFormat`) are copy functions on values. Every caller holds the only reference to the message it changes, so aliasing is not modelled.
- The message cell reads audio files from the relative `userdata/` folder, whatever `userdata.dir` says. The model keeps that relative path as written.
- The client announces a new group with the string `CREATE_GROUP_OBJ` followed by a `Group` object. The server handles neither: the string matches no prefix and the object is not one of the handled types. The model dispatches both as ignored input. No client code sends `CREATE_GROUP:`, and the server's handling of it is modelled as written.
- SHA-1 is a parameter (`sha1: string -> Digest`). Only the first three bytes of the digest are used, and nothing about the hash function itself is modelled.
- ChatServer.ChatServer.FanOut: the group member set is a `HashSet`, so delivery order is not fixed. The contract states that each recipient gets the message exactly once, not the order of deliveries.
- MessageCell.MessageCell.PlayPath: the folder is stated as the sender's only on the premise that an own bubble's sender is the current username. `UpdateItem` establishes that premise through the `isOwn` rule. If `SetCurrentUsername` is called after rendering, the premise can fail, and Java then uses the new current username.
- ChatServer.ChatServer.HandleClient: within the run, the deliveries of a group message are stated per recipient (`MessageRouted`), not in order, as for `FanOut`. `RunsAgree` therefore fixes the files, audio files and groups of a run, but not the order of its outbox.
- ChatView.ChatView.OpenSavedChats: reading `history/*.json` into entries (`ChatView.java:482-519`) is left out; the entries are a parameter. That loop does not check that the entries have distinct usernames, so the view invariant holds afterwards exactly when they do, which is the case for files named after their chats as the server writes them.
- ChatView.MemberEntries: the contract states that no entry is blank. That the entries are the trimmed pieces in order follows from the definition and from `ChatView.EntriesConcat`.
- AudioUtils.WavRates: the byte rate and block align are stated only when the products fit in a positive `int`. Outside that range, the saturating cast and the 32-bit wrap-around are modelled in `ByteRate` and `BlockAlign`, but no lemma summarizes them.

## Findings

| source | as written | input that shows it | evidently intended | confidence | as-written member | corrected member |
|---|---|---|---|---|---|---|
| MultiClientChat/client/src/main/java/chat/client/views/ChatView.java:828 | The voice-note file is named after `now` (lines 776-783). The line shown in the chat then takes a second `LocalDateTime.now()`, and the message cell rebuilds the audio path from that second time. | User `ana__1a2b3c` records at `2025-06-01T10:15:30.120`. The line is stamped `2025-06-01T10:15:30.485`, so the play button looks for `ana__1a2b3c_2025-06-01T10-15-30-485.wav`, while the file written is `..._2025-06-01T10-15-30-120.wav`. | One clock reading for both the file name and the line, as the comment at line 775 says: the line leads to the file just written. | not executed | ChatView.LiveLineMissesVoiceNote, ChatView.ReadingsNameDifferentFiles, ChatView.ChatView.StopAudioRecordingAndSend | ChatView.ChatView.StopAudioRecordingAndSendOnce |
