/**
 * chat.common.util.MessageHistoryUtil: one JSON file per conversation, holding
 * the list of its messages. Saving reads the list, appends one message and
 * writes the list back; loading returns an empty list on every failure.
 *
 * The file system is a map from path to what the file holds. JSON encoding
 * and decoding of a message list is taken to be faithful (see the README).
 */
module MessageHistoryUtil {
  import opened Wrappers
  import opened Model
  import opened TypeAdapters

  /** The content of a history file, as far as `loadHistory` can tell. */
  datatype StoredFile =
    | JsonList(messages: seq<Message>)  // a JSON array of messages
    | JsonNull                          // text that Gson parses to null, such as an empty file
    | Malformed                         // text that is not a message list: Gson throws
    | Unreadable                        // the file exists but reading it fails

  type FileSystem = map<string, StoredFile>

  /** `loadHistory(filePath)`: the stored list, or the empty list on any failure. */
  function LoadHistory(fs: FileSystem, path: string): (r: seq<Message>)
    ensures path in fs && fs[path].JsonList? ==> r == fs[path].messages
    ensures path !in fs || !fs[path].JsonList? ==> r == []
  {
    if path in fs then
      match fs[path]
      case JsonList(ms) => ms
      case _ => []
    else []
  }

  /**
   * The copy that `saveMessageToHistory` stores: an AUDIO message is rebuilt
   * through the file constructor, which drops the in-memory audio bytes.
   */
  function StoredCopy(m: Message): (r: Message)
    ensures SameCore(r, m)
    ensures r.audioFilePath == m.audioFilePath && r.audioFormat == m.audioFormat
    ensures m.msgType == AUDIO ==> r.audioData.None?
    ensures m.msgType != AUDIO ==> r == m
  {
    if m.msgType == AUDIO then
      FileAudioMessage(m.from, m.to, m.msgType, m.content, m.timestamp, m.audioFilePath, m.audioFormat)
    else m
  }

  /** The file system after `saveMessageToHistory(path, m)`. */
  function AfterSave(fs: FileSystem, path: string, m: Message): (r: FileSystem)
    ensures LoadHistory(r, path) == LoadHistory(fs, path) + [StoredCopy(m)]
    ensures r.Keys == fs.Keys + {path}
    ensures forall p :: p in fs && p != path ==> r[p] == fs[p]
  {
    fs[path := JsonList(LoadHistory(fs, path) + [StoredCopy(m)])]
  }

  /** Saving onto a file that is missing, unreadable, malformed or null starts a new list. */
  lemma SaveOverBrokenFile(fs: FileSystem, path: string, m: Message)
    requires path !in fs || !fs[path].JsonList?
    ensures LoadHistory(AfterSave(fs, path, m), path) == [StoredCopy(m)]
  {
  }

  /** Two saves to the same file keep both messages, in the order they were saved. */
  lemma SavesAppendInOrder(fs: FileSystem, path: string, m1: Message, m2: Message)
    ensures LoadHistory(AfterSave(AfterSave(fs, path, m1), path, m2), path)
            == LoadHistory(fs, path) + [StoredCopy(m1), StoredCopy(m2)]
  {
  }

  /** Saves to different files do not interfere: the order of the two does not matter. */
  lemma SavesToDifferentFilesCommute(fs: FileSystem, p1: string, m1: Message, p2: string, m2: Message)
    requires p1 != p2
    ensures AfterSave(AfterSave(fs, p1, m1), p2, m2) == AfterSave(AfterSave(fs, p2, m2), p1, m1)
  {
  }

  /** `getHistoryFilePath(userDir, chatName)`. */
  function HistoryFilePath(userDir: string, chatName: string): (r: string)
    ensures |r| == |userDir| + |chatName| + 14
    ensures r[..|userDir|] == userDir && r[|r| - 5..] == ".json"
    ensures r[|userDir|..|userDir| + 9] == "/history/"
  {
    userDir + "/history/" + chatName + ".json"
  }

  /** The file name of a history path names the chat, when the chat name has no '/'. */
  lemma HistoryFilePathNamesChat(userDir: string, chatName: string)
    requires '/' !in chatName
    ensures var p := HistoryFilePath(userDir, chatName);
      p[|p| - |chatName| - 6] == '/' && p[|p| - |chatName| - 5..|p| - 5] == chatName
      && '/' !in p[|p| - |chatName| - 5..]
  {
    var p := HistoryFilePath(userDir, chatName);
    assert p[|p| - |chatName| - 5..] == chatName + ".json";
  }

  /** The runtime class of a ChatTarget. */
  function ChatTargetClass(t: ChatTarget): (c: ClassName)
    ensures c == "User" <==> t.UserTarget?
    ensures c == "Group" <==> t.GroupTarget?
  {
    if t.UserTarget? then "User" else "Group"
  }

  /**
   * The factory the history files are written with: ChatTarget is the base
   * type, "type" the type field, User is tagged "user" and Group "group".
   */
  method NewChatTargetFactory() returns (f: RuntimeTypeAdapterFactory<ChatTarget>)
    ensures fresh(f)
    ensures f.baseType == "ChatTarget" && f.typeFieldName == "type"
    ensures f.labelToSubtype == map["user" := "User", "group" := "Group"]
    ensures f.subtypeToLabel == map["User" := "user", "Group" := "group"]
    ensures forall t :: f.subtypeToLabel[ChatTargetClass(t)] == if t.IsGroup() then "group" else "user"
  {
    f := new RuntimeTypeAdapterFactory.Of("ChatTarget", "type");
    var chained := f.RegisterSubtype("User", "user");
    chained := chained.RegisterSubtype("Group", "group");
  }

  /** The history store: the files the history utility reads and rewrites. */
  class HistoryStore {
    var files: FileSystem

    constructor(files: FileSystem)
      ensures this.files == files
    {
      this.files := files;
    }

    /**
     * `saveMessageToHistory(filePath, message)`: loads the list, appends the
     * stored copy of the message in place and writes the list back.
     */
    method SaveMessageToHistory(path: string, m: Message)
      modifies this
      ensures files == AfterSave(old(files), path, m)
      ensures LoadHistory(files, path) == LoadHistory(old(files), path) + [StoredCopy(m)]
    {
      var history := LoadHistory(files, path);
      var messageToSave := StoredCopy(m);
      history := history + [messageToSave];
      files := files[path := JsonList(history)];
    }
  }
}
