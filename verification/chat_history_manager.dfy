/**
 * chat.client.logic.ChatHistoryManager: the client's read-only view of the
 * history files — the whole list, its last message, and the preview text
 * shown under a chat's name.
 */
module ChatHistoryManager {
  import opened Wrappers
  import opened Model
  import MessageHistoryUtil

  /** The preview and display text that stands for a voice note. */
  const VoiceNoteText := "[Mensaje de voz]"

  /**
   * `loadHistory(filePath)`: the history utility's list. The utility never
   * throws, so the manager's own fallback to an empty list is not reached.
   */
  function LoadHistory(fs: MessageHistoryUtil.FileSystem, path: string): (r: seq<Message>)
    ensures path in fs && fs[path].JsonList? ==> r == fs[path].messages
    ensures path !in fs || !fs[path].JsonList? ==> r == []
  {
    MessageHistoryUtil.LoadHistory(fs, path)
  }

  /** `getLastMessage(filePath)`: the final message of a non-empty history, else null. */
  function GetLastMessage(fs: MessageHistoryUtil.FileSystem, path: string): (r: Option<Message>)
    ensures r.Some? <==> |LoadHistory(fs, path)| > 0
    ensures r.Some? ==> r.value == LoadHistory(fs, path)[|LoadHistory(fs, path)| - 1]
  {
    var history := LoadHistory(fs, path);
    if |history| > 0 then Some(history[|history| - 1]) else None
  }

  /** `getLastPreview(last)`. */
  function GetLastPreview(last: Option<Message>): (r: string)
    ensures last.None? ==> r == ""
    ensures last.Some? && last.value.msgType == AUDIO ==> r == VoiceNoteText
    ensures last.Some? && last.value.msgType == TEXT ==> r == last.value.content
  {
    match last
    case None => ""
    case Some(m) => if m.msgType == AUDIO then VoiceNoteText else m.content
  }

  /** Right after a save, the preview of that file shows the saved message. */
  lemma PreviewAfterSave(fs: MessageHistoryUtil.FileSystem, path: string, m: Message)
    ensures GetLastMessage(MessageHistoryUtil.AfterSave(fs, path, m), path)
            == Some(MessageHistoryUtil.StoredCopy(m))
    ensures GetLastPreview(GetLastMessage(MessageHistoryUtil.AfterSave(fs, path, m), path))
            == if m.msgType == AUDIO then VoiceNoteText else m.content
  {
  }
}
