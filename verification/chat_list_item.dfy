/**
 * chat.client.model.ChatListItem: one entry of the client's chat list — a
 * fixed chat target plus the preview text and time of its last message.
 */
module ChatListItem {
  import opened Wrappers
  import opened Model

  class ChatListItem {
    /** The user or group this entry stands for; it never changes. */
    const target: ChatTarget
    var lastPreview: string
    var lastTimestamp: Option<Timestamp>

    /** `new ChatListItem(target)`: no preview and no time yet. */
    constructor(target: ChatTarget)
      ensures this.target == target
      ensures lastPreview == "" && lastTimestamp.None?
    {
      this.target := target;
      lastPreview := "";
      lastTimestamp := None;
    }

    /** `setLastPreview`: only the preview changes. */
    method SetLastPreview(preview: string)
      modifies this
      ensures lastPreview == preview && lastTimestamp == old(lastTimestamp)
    {
      lastPreview := preview;
    }

    /** `setLastTimestamp`: only the time changes. */
    method SetLastTimestamp(ts: Option<Timestamp>)
      modifies this
      ensures lastTimestamp == ts && lastPreview == old(lastPreview)
    {
      lastTimestamp := ts;
    }

    /** `getUsername`, forwarded to the target. */
    function Username(): string {
      target.Username()
    }

    /** `getDisplayName`, forwarded to the target (a user's may be null). */
    function DisplayName(): Option<string> {
      target.DisplayName()
    }

    /** `isGroup`, forwarded to the target. */
    predicate IsGroup() {
      target.IsGroup()
    }
  }

  /**
   * The forwarded getters report the target's own values: a group entry shows
   * the group's name as username and its display name (the name when unset),
   * a user entry the user's username and display name.
   */
  lemma ItemShowsTarget(item: ChatListItem)
    ensures item.target.GroupTarget? ==>
              item.Username() == item.target.group.name && item.IsGroup()
              && item.DisplayName() == Some(GroupDisplayName(item.target.group))
    ensures item.target.UserTarget? ==>
              item.Username() == item.target.user.username && !item.IsGroup()
              && item.DisplayName() == item.target.user.displayName
  {
  }
}
