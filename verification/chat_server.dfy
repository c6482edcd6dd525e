/**
 * chat.server.ChatServer: the routing state of the server and what one
 * handled object does to it.
 *
 * The two maps `users` (user -> socket) and `userOutputStreams`
 * (user -> stream) always gain and lose the same keys together, and a User
 * key is equal to another exactly when the usernames are; they are modelled
 * as one map from username to a Session holding the key object the map
 * keeps and the connection (socket and stream). What is written to a
 * client's stream is appended to `outbox`; history files live in a
 * HistoryStore; audio files the server writes are a map from path to bytes.
 * Each handled object is one atomic step: threads do not interleave here.
 */
module ChatServer {
  import opened Wrappers
  import opened Model
  import opened JavaStrings
  import MessageHistoryUtil

  type ConnId = nat

  /** A logged-in user: the User object kept as key, and the connection it came on. */
  datatype Session = Session(key: User, conn: ConnId)

  type Sessions = map<string, Session>

  /** What the server writes to a client. */
  datatype Outgoing = OkReply | Forward(payload: ChatPayload)

  /** One object written to the stream of `to`'s connection `conn`. */
  datatype Delivery = Delivery(to: string, conn: ConnId, item: Outgoing)

  /** An object read from a client. */
  datatype Incoming =
    | MessageIn(message: Message)
    | SignalIn(signal: CallSignal)
    | TextIn(text: string)
    | OtherIn                       // any other object, such as a Group

  const CreateGroupPrefix := "CREATE_GROUP:"
  const UnavailableText := "El usuario no está disponible para la llamada."

  // ---------------------------------------------------------------- names and paths

  /** The characters `[:.T-]` matches. */
  const StampSeparators: set<char> := {':', '.', 'T', '-'}

  /**
   * `ts.toString().replaceAll("[:.T-]", "")`: the time text without its
   * separators, every other character kept as often as it occurs.
   */
  function AudioStamp(ts: Timestamp): (r: string)
    ensures forall c :: c in r <==> c in ts && c !in StampSeparators
    ensures forall c :: c !in StampSeparators ==> multiset(r)[c] == multiset(ts)[c]
  {
    RemoveChars(ts, StampSeparators)
  }

  /** The stamp of a time split in two parts is the stamp of each part, in order. */
  lemma AudioStampConcat(a: string, b: string)
    ensures AudioStamp(a + b) == AudioStamp(a) + AudioStamp(b)
  {
    RemoveCharsConcat(a, b, StampSeparators);
  }

  /** The name the server gives a voice note that arrives without a path. */
  function ServerAudioName(from: string, to: string, ts: Timestamp): string {
    from + "_" + to + "_" + AudioStamp(ts) + ".wav"
  }

  /** The text after the last '/' of a path, or the whole path when it has none. */
  function FileNameOf(path: string): (r: string)
    ensures '/' !in r
    ensures |r| <= |path| && r == path[|path| - |r|..]
  {
    match LastIndexOfChar(path, '/')
    case Some(i) => path[i + 1..]
    case None => path
  }

  /** A path whose last part names a file gives back that name. */
  lemma FileNameOfJoin(dir: string, name: string)
    requires '/' !in name
    ensures FileNameOf(dir + "/" + name) == name
  {
    var p := dir + "/" + name;
    assert p[|dir|] == '/';
    var i := LastIndexOfChar(p, '/');
    assert i.Some?;
    if i.value != |dir| {
      assert false;
    }
    assert p[|dir| + 1..] == name;
  }

  /** The group's own history file. */
  function GroupHistoryFile(group: string): string {
    "userdata/" + group + "/history/" + group + ".json"
  }

  /** A member's copy of a group's history. */
  function MemberHistoryFile(member: string, group: string): string {
    "userdata/" + member + "/history/" + group + ".json"
  }

  /** The members' copies for a set of member usernames. */
  function MemberFiles(members: set<string>, group: string): set<string> {
    set k | k in members :: MemberHistoryFile(k, group)
  }

  /** The two copies of a private conversation: the sender's and the receiver's. */
  function PrivateHistoryFiles(historyDir: string, from: string, to: string): (string, string) {
    (historyDir + from + "/history/" + to + ".json", historyDir + to + "/history/" + from + ".json")
  }

  /** The file the audio of a group voice note is copied to. */
  function GroupAudioFile(group: string, ts: Timestamp, from: string): string {
    "userdata/" + group + "/history" + "/" + "audio_" + AudioStamp(ts) + "_" + from + ".dat"
  }

  /**
   * The server's paths are the history utility's: a member's copy of a group
   * is its chat file under "userdata/<member>", and with the history folder
   * `userdataDir + "/"` each side of a private chat is the chat file the
   * client of that side reads.
   */
  lemma ServerPathsAreChatFiles(userdataDir: string, from: string, to: string, member: string, group: string)
    ensures MemberHistoryFile(member, group) == MessageHistoryUtil.HistoryFilePath("userdata/" + member, group)
    ensures GroupHistoryFile(group) == MessageHistoryUtil.HistoryFilePath("userdata/" + group, group)
    ensures PrivateHistoryFiles(userdataDir + "/", from, to).0
            == MessageHistoryUtil.HistoryFilePath(userdataDir + "/" + from, to)
    ensures PrivateHistoryFiles(userdataDir + "/", from, to).1
            == MessageHistoryUtil.HistoryFilePath(userdataDir + "/" + to, from)
  {
  }

  /** Different members keep their copies of a group in different files. */
  lemma MemberFileInjective(a: string, b: string, group: string)
    requires MemberHistoryFile(a, group) == MemberHistoryFile(b, group)
    ensures a == b
  {
    var pa, pb := MemberHistoryFile(a, group), MemberHistoryFile(b, group);
    assert |a| == |b|;
    forall i | 0 <= i < |a| ensures a[i] == b[i] {
      assert pa[9 + i] == a[i] && pb[9 + i] == b[i];
    }
  }

  // ---------------------------------------------------------------- saveHistory

  /** A voice note with its bytes: only these get an audio file. */
  predicate IsAudio(m: Message) {
    m.msgType == AUDIO && m.audioData.Some?
  }

  /** The audio has no path yet (null or empty). */
  predicate NeedsPath(m: Message) {
    m.audioFilePath.None? || m.audioFilePath.value == ""
  }

  /**
   * The message as `saveHistory` leaves it: a voice note without a path gets
   * "history/audio/<from>_<to>_<stamp>.wav". None when that needs the
   * timestamp and there is none (the call throws).
   */
  function AssignAudioPath(m: Message): (r: Option<Message>)
    ensures r.None? <==> IsAudio(m) && NeedsPath(m) && m.timestamp.None?
    ensures r.Some? && IsAudio(m) && NeedsPath(m) ==>
              r.value == SetAudioFilePath(m, Some("history/audio/"
                                                  + ServerAudioName(m.from.Username(), m.to.Username(), m.timestamp.value)))
    ensures r.Some? && !(IsAudio(m) && NeedsPath(m)) ==> r.value == m
    ensures r.Some? ==> SameCore(r.value, m) && r.value.audioData == m.audioData
  {
    if IsAudio(m) && NeedsPath(m) then
      if m.timestamp.None? then None
      else Some(SetAudioFilePath(m, Some("history/audio/" + ServerAudioName(m.from.Username(), m.to.Username(), m.timestamp.value))))
    else Some(m)
  }

  /** The file name a voice note's audio is written under in a private chat. */
  function AudioNameFor(m: Message): string
    requires !(NeedsPath(m) && m.timestamp.None?)
  {
    if NeedsPath(m) then ServerAudioName(m.from.Username(), m.to.Username(), m.timestamp.value)
    else FileNameOf(m.audioFilePath.value)
  }

  /** The copy of `fs` in which every path of `paths` has `m` appended. */
  function SaveToEach(fs: MessageHistoryUtil.FileSystem, paths: set<string>, m: Message)
    : (r: MessageHistoryUtil.FileSystem)
    ensures r.Keys == fs.Keys + paths
    ensures forall p :: p in paths ==>
              MessageHistoryUtil.LoadHistory(r, p)
              == MessageHistoryUtil.LoadHistory(fs, p) + [MessageHistoryUtil.StoredCopy(m)]
    ensures forall p :: p in fs && p !in paths ==> r[p] == fs[p]
  {
    map p | p in fs.Keys + paths ::
      if p in paths then MessageHistoryUtil.StoredFile.JsonList(MessageHistoryUtil.LoadHistory(fs, p)
                                                                 + [MessageHistoryUtil.StoredCopy(m)])
      else fs[p]
  }

  /** Saving to one more path is saving to the larger set. */
  lemma SaveToEachStep(fs: MessageHistoryUtil.FileSystem, paths: set<string>, p: string, m: Message)
    requires p !in paths
    ensures MessageHistoryUtil.AfterSave(SaveToEach(fs, paths, m), p, m) == SaveToEach(fs, paths + {p}, m)
  {
    var a := MessageHistoryUtil.AfterSave(SaveToEach(fs, paths, m), p, m);
    var b := SaveToEach(fs, paths + {p}, m);
    assert a.Keys == b.Keys;
    forall q | q in a.Keys ensures a[q] == b[q] {
      if q == p {
        assert MessageHistoryUtil.LoadHistory(SaveToEach(fs, paths, m), p) == MessageHistoryUtil.LoadHistory(fs, p);
      }
    }
  }

  /** The history files after `saveHistory` of a message whose path is already assigned. */
  function HistoryAfter(fs: MessageHistoryUtil.FileSystem, groups: map<string, Group>, historyDir: string,
                        m: Message): MessageHistoryUtil.FileSystem
  {
    var to, from := m.to.Username(), m.from.Username();
    if to in groups then
      var fs1 := MessageHistoryUtil.AfterSave(fs, GroupHistoryFile(to), m);
      var g := groups[to];
      if g.members.Some? then SaveToEach(fs1, MemberFiles(g.members.value.Keys, g.name), m) else fs1
    else
      var files := PrivateHistoryFiles(historyDir, from, to);
      MessageHistoryUtil.AfterSave(MessageHistoryUtil.AfterSave(fs, files.0, m), files.1, m)
  }

  /** The audio files after `saveHistory`. */
  function AudioAfter(audio: map<string, seq<Byte>>, groups: map<string, Group>, historyDir: string,
                      m: Message): map<string, seq<Byte>>
    requires !(IsAudio(m) && NeedsPath(m) && m.timestamp.None?)
  {
    var to, from := m.to.Username(), m.from.Username();
    if !IsAudio(m) then audio
    else if to in groups then
      if m.timestamp.Some? then audio[GroupAudioFile(to, m.timestamp.value, from) := m.audioData.value]
      else audio
    else
      var name := AudioNameFor(m);
      audio[historyDir + from + "/history/audio/" + name := m.audioData.value]
           [historyDir + to + "/history/audio/" + name := m.audioData.value]
  }

  /**
   * A private message lands once in each side's file (twice in the one file
   * when someone writes to themself); a group message lands in the group's
   * file and once in every member's copy; nothing else changes.
   */
  lemma HistoryAfterAppends(fs: MessageHistoryUtil.FileSystem, groups: map<string, Group>, historyDir: string,
                            m: Message)
    requires forall g :: g in groups ==> groups[g].name == g
    ensures var r := HistoryAfter(fs, groups, historyDir, m);
      var to, from := m.to.Username(), m.from.Username();
      var copy := MessageHistoryUtil.StoredCopy(m);
      && (to !in groups ==>
            var files := PrivateHistoryFiles(historyDir, from, to);
            && (files.0 != files.1 ==>
                  && MessageHistoryUtil.LoadHistory(r, files.0) == MessageHistoryUtil.LoadHistory(fs, files.0) + [copy]
                  && MessageHistoryUtil.LoadHistory(r, files.1) == MessageHistoryUtil.LoadHistory(fs, files.1) + [copy])
            && (files.0 == files.1 ==>
                  MessageHistoryUtil.LoadHistory(r, files.0) == MessageHistoryUtil.LoadHistory(fs, files.0) + [copy, copy])
            && (forall p :: p in fs && p != files.0 && p != files.1 ==> r[p] == fs[p]))
      && (to in groups && groups[to].members.Some? ==>
            var g := groups[to];
            && (forall k :: k in g.members.value && k != to ==>
                  MessageHistoryUtil.LoadHistory(r, MemberHistoryFile(k, g.name))
                  == MessageHistoryUtil.LoadHistory(fs, MemberHistoryFile(k, g.name)) + [copy])
            && (to !in g.members.value ==>
                  MessageHistoryUtil.LoadHistory(r, GroupHistoryFile(to))
                  == MessageHistoryUtil.LoadHistory(fs, GroupHistoryFile(to)) + [copy])
            && (to in g.members.value ==>
                  MessageHistoryUtil.LoadHistory(r, GroupHistoryFile(to))
                  == MessageHistoryUtil.LoadHistory(fs, GroupHistoryFile(to)) + [copy, copy])
            && (forall p :: p in fs && p != GroupHistoryFile(to) && p !in MemberFiles(g.members.value.Keys, g.name)
                  ==> r[p] == fs[p]))
  {
    var to, from := m.to.Username(), m.from.Username();
    if to in groups && groups[to].members.Some? {
      var g := groups[to];
      var fs1 := MessageHistoryUtil.AfterSave(fs, GroupHistoryFile(to), m);
      forall k | k in g.members.value && k != to
        ensures MessageHistoryUtil.LoadHistory(fs1, MemberHistoryFile(k, g.name))
                == MessageHistoryUtil.LoadHistory(fs, MemberHistoryFile(k, g.name))
      {
        if MemberHistoryFile(k, g.name) == GroupHistoryFile(to) {
          MemberFileInjective(k, to, to);
        }
      }
      GroupFileAmongMembers(g.members.value.Keys, to);
    }
  }

  /** A group's own file is one of its members' copies exactly when the group is its own member. */
  lemma GroupFileAmongMembers(members: set<string>, group: string)
    ensures GroupHistoryFile(group) in MemberFiles(members, group) <==> group in members
  {
    assert GroupHistoryFile(group) == MemberHistoryFile(group, group);
    if GroupHistoryFile(group) in MemberFiles(members, group) {
      var k :| k in members && MemberHistoryFile(k, group) == GroupHistoryFile(group);
      MemberFileInjective(k, group, group);
    }
  }

  // ---------------------------------------------------------------- routing

  /** The online members of a group other than the sender: who a group message goes to. */
  function GroupRecipients(members: set<string>, sessions: Sessions, from: string): (r: set<string>)
    ensures forall k :: k in r <==> k in members && k in sessions && k != from
  {
    set k | k in members && k in sessions && k != from
  }

  /** `sent` carries the payload to every name of `recipients` exactly once, on its current connection, and to nobody else. */
  predicate DeliveredOnceEach(sent: seq<Delivery>, recipients: set<string>, sessions: Sessions, p: ChatPayload) {
    && (forall i :: 0 <= i < |sent| ==>
          sent[i].to in recipients && sent[i].to in sessions
          && sent[i] == Delivery(sent[i].to, sessions[sent[i].to].conn, Forward(p)))
    && (forall i, j :: 0 <= i < j < |sent| ==> sent[i].to != sent[j].to)
    && (forall r :: r in recipients ==> exists i :: 0 <= i < |sent| && sent[i].to == r)
  }

  /**
   * What `processTextMessage` delivers: to a group's online members other
   * than the sender when the target names a group, else once to the target
   * user when online, else nothing.
   */
  predicate MessageRouted(sessions: Sessions, groups: map<string, Group>, m: Message, sent: seq<Delivery>) {
    var to := m.to.Username();
    if to in groups then
      if groups[to].members.Some? then
        DeliveredOnceEach(sent, GroupRecipients(groups[to].members.value.Keys, sessions, m.from.Username()),
                          sessions, MessagePayload(m))
      else sent == []
    else if m.to.UserTarget? && to in sessions then
      sent == [Delivery(to, sessions[to].conn, Forward(MessagePayload(m)))]
    else sent == []
  }

  /** A group message never goes back to its sender, and reaches only online members. */
  lemma GroupMessageSkipsSender(sessions: Sessions, groups: map<string, Group>, m: Message, sent: seq<Delivery>)
    requires m.to.Username() in groups && groups[m.to.Username()].members.Some?
    requires MessageRouted(sessions, groups, m, sent)
    ensures forall i :: 0 <= i < |sent| ==>
              sent[i].to != m.from.Username() && sent[i].to in sessions
              && sent[i].to in groups[m.to.Username()].members.value
    ensures |sent| <= |groups[m.to.Username()].members.value.Keys|
  {
    var R := GroupRecipients(groups[m.to.Username()].members.value.Keys, sessions, m.from.Username());
    assert forall i :: 0 <= i < |sent| ==> sent[i].to in R;
    assert R <= groups[m.to.Username()].members.value.Keys;
    DistinctSize(sent, R);
    SubsetCard(R, groups[m.to.Username()].members.value.Keys);
  }

  lemma SubsetCard(a: set<string>, b: set<string>)
    requires a <= b
    ensures |a| <= |b|
  {
    assert b == a + (b - a);
  }

  /** A sequence of deliveries to distinct names of a set is no longer than the set. */
  lemma {:induction false} DistinctSize(sent: seq<Delivery>, names: set<string>)
    requires forall i :: 0 <= i < |sent| ==> sent[i].to in names
    requires forall i, j :: 0 <= i < j < |sent| ==> sent[i].to != sent[j].to
    ensures |sent| <= |names|
  {
    if |sent| > 0 {
      var last := sent[|sent| - 1].to;
      forall i | 0 <= i < |sent| - 1 ensures sent[i].to in names - {last} {
      }
      DistinctSize(sent[..|sent| - 1], names - {last});
    }
  }

  /** The CANCEL sent back for a call request to an offline user. */
  function CancelFor(s: CallSignal, now: Timestamp): (c: CallSignal)
    ensures c.callType == CANCEL && c.fromUser == s.toUser && c.toUser == s.fromUser
    ensures c.content == Some(UnavailableText) && c.timestamp == Some(now)
    ensures c.udpHost.None? && c.udpPort == -1
  {
    NewSignal(CANCEL, s.toUser, s.fromUser, Some(UnavailableText), Some(now))
  }

  /** What routing a call signal writes. */
  function SignalOutcome(sessions: Sessions, s: CallSignal, now: Timestamp): (sent: seq<Delivery>)
    ensures |sent| <= 1
  {
    if s.toUser in sessions then [Delivery(s.toUser, sessions[s.toUser].conn, Forward(SignalPayload(s)))]
    else if s.callType == REQUEST && s.fromUser in sessions then
      [Delivery(s.fromUser, sessions[s.fromUser].conn, Forward(SignalPayload(CancelFor(s, now))))]
    else []
  }

  /**
   * A signal for an online user goes to that user alone, unchanged (UDP
   * endpoint included); a request for an offline user brings one CANCEL back
   * to the requester, when online; anything else for an offline user is dropped.
   */
  lemma SignalRouting(sessions: Sessions, s: CallSignal, now: Timestamp)
    ensures var sent := SignalOutcome(sessions, s, now);
      && (s.toUser in sessions <==> |sent| == 1 && sent[0].to == s.toUser && sent[0].item == Forward(SignalPayload(s)))
      && (s.toUser !in sessions && s.callType == REQUEST && s.fromUser in sessions <==>
            |sent| == 1 && sent[0].to == s.fromUser && sent[0].item.Forward?
            && sent[0].item.payload.SignalPayload? && sent[0].item.payload.signal.callType == CANCEL
            && s.toUser !in sessions)
      && (s.toUser !in sessions && (s.callType != REQUEST || s.fromUser !in sessions) <==> sent == [])
  {
  }

  // ---------------------------------------------------------------- CREATE_GROUP

  /** The online users among `names`, in order, as the server's member set. */
  function OnlineMembers(sessions: Sessions, names: seq<string>): MemberSet {
    if |names| == 0 then map[]
    else
      var acc := OnlineMembers(sessions, names[..|names| - 1]);
      var last := names[|names| - 1];
      if last in sessions then AddMember(acc, sessions[last].key) else acc
  }

  /** The members are exactly the listed names that are online, each as the User the server keeps. */
  lemma {:induction false} OnlineMembersAre(sessions: Sessions, names: seq<string>)
    requires forall u :: u in sessions ==> sessions[u].key.username == u
    ensures OnlineMembers(sessions, names).Keys == set n | n in names && n in sessions
    ensures forall k :: k in OnlineMembers(sessions, names) ==> OnlineMembers(sessions, names)[k] == sessions[k].key
  {
    if |names| > 0 {
      var init := names[..|names| - 1];
      OnlineMembersAre(sessions, init);
      assert forall n :: n in names <==> n in init || n == names[|names| - 1];
    }
  }

  /** The group a `CREATE_GROUP:` command creates; None when the command names nothing (the call throws). */
  function CommandGroup(sessions: Sessions, cmd: string): (r: Option<Group>)
    requires StartsWith(cmd, CreateGroupPrefix)
  {
    var parts := Split(cmd[|CreateGroupPrefix|..], ',');
    if |parts| == 0 then None
    else Some(NewGroup(parts[0], Some(parts[0]), Some(OnlineMembers(sessions, parts[1..]))))
  }

  /**
   * `CREATE_GROUP:name,m1,...,mk` names the group `name`, shown as `name`,
   * whose members are the online users among m1..mk; only a command that
   * splits into nothing, such as "CREATE_GROUP:,", creates no group.
   */
  lemma CommandGroupIs(sessions: Sessions, name: string, members: seq<string>)
    requires forall u :: u in sessions ==> sessions[u].key.username == u
    requires ',' !in name && name != ""
    requires forall i :: 0 <= i < |members| ==> ',' !in members[i] && members[i] != ""
    ensures var cmd := CreateGroupPrefix + JoinWith([name] + members, ',');
      && StartsWith(cmd, CreateGroupPrefix)
      && CommandGroup(sessions, cmd).Some?
      && CommandGroup(sessions, cmd).value.name == name
      && GroupDisplayName(CommandGroup(sessions, cmd).value) == name
      && CommandGroup(sessions, cmd).value.members.value.Keys == set n | n in members && n in sessions
  {
    var parts := [name] + members;
    var cmd := CreateGroupPrefix + JoinWith(parts, ',');
    assert cmd[..|CreateGroupPrefix|] == CreateGroupPrefix;
    assert cmd[|CreateGroupPrefix|..] == JoinWith(parts, ',');
    SplitOfJoin(parts);
    assert parts[1..] == members;
    OnlineMembersAre(sessions, members);
  }

  /** Splitting joined parts that hold no separator, the last one non-empty, gives them back. */
  lemma SplitOfJoin(parts: seq<string>)
    requires |parts| >= 1 && parts[|parts| - 1] != ""
    requires forall i :: 0 <= i < |parts| ==> ',' !in parts[i]
    ensures Split(JoinWith(parts, ','), ',') == parts
  {
    var joined := JoinWith(parts, ',');
    SplitAllOfJoin(parts);
    if |parts| == 1 {
      assert joined == parts[0];
    } else {
      assert joined[|parts[0]|] == ',';
      assert DropTrailingEmpty(parts) == parts;
    }
  }

  lemma {:induction false} SplitAllOfJoin(parts: seq<string>)
    requires |parts| >= 1
    requires forall i :: 0 <= i < |parts| ==> ',' !in parts[i]
    ensures SplitAll(JoinWith(parts, ','), ',') == parts
  {
    if |parts| == 1 {
      SplitAllNoSeparator(parts[0]);
    } else {
      SplitAllOfJoin(parts[1..]);
      SplitAllFirstPiece(parts[0], JoinWith(parts[1..], ','));
    }
  }

  lemma {:induction false} SplitAllNoSeparator(s: string)
    requires ',' !in s
    ensures SplitAll(s, ',') == [s]
  {
    if |s| > 0 {
      assert forall c :: c in s[1..] ==> c in s;
      SplitAllNoSeparator(s[1..]);
      assert [s[0]] + s[1..] == s;
    }
  }

  lemma {:induction false} SplitAllFirstPiece(a: string, b: string)
    requires ',' !in a
    ensures SplitAll(a + [','] + b, ',') == [a] + SplitAll(b, ',')
  {
    var s := a + [','] + b;
    if |a| == 0 {
      assert s[1..] == b;
    } else {
      assert s[1..] == a[1..] + [','] + b;
      SplitAllFirstPiece(a[1..], b);
      assert [a[0]] + a[1..] == a;
    }
  }

  // ---------------------------------------------------------------- cleanup

  /** The group without `u` among its members. */
  function WithoutMember(g: Group, u: string): (r: Group)
    ensures r.name == g.name && r.displayName == g.displayName
    ensures r.members.Some? <==> g.members.Some?
    ensures g.members.Some? ==> r.members.value == g.members.value - {u}
  {
    if g.members.Some? then g.(members := Some(g.members.value - {u})) else g
  }

  /** Every group without `u`. */
  function RemovedEverywhere(groups: map<string, Group>, u: string): (r: map<string, Group>)
    ensures r.Keys == groups.Keys
    ensures forall g :: g in r ==> r[g] == WithoutMember(groups[g], u)
  {
    map g | g in groups :: WithoutMember(groups[g], u)
  }

  /** Each group is filed under its name and has a member set keyed by username. */
  ghost predicate GroupsWellFormed(groups: map<string, Group>) {
    forall g :: g in groups ==>
      groups[g].name == g && groups[g].members.Some? && MemberSetWellFormed(groups[g].members.value)
  }

  /** Removing a user from every group keeps the groups well formed. */
  lemma RemovalKeepsGroupsWellFormed(groups: map<string, Group>, u: string)
    requires GroupsWellFormed(groups)
    ensures GroupsWellFormed(RemovedEverywhere(groups, u))
  {
    var r := RemovedEverywhere(groups, u);
    forall g | g in r
      ensures r[g].name == g && r[g].members.Some? && MemberSetWellFormed(r[g].members.value)
    {
      assert r[g] == WithoutMember(groups[g], u);
    }
  }

  /** The groups whose members include `username`. */
  function GroupsOf(groups: map<string, Group>, username: string): set<Group> {
    set g | g in groups && groups[g].members.Some? && username in groups[g].members.value :: groups[g]
  }

  /** After the cleanup, the user belongs to no group, and every other membership is kept. */
  lemma CleanupLeavesNoGroup(groups: map<string, Group>, u: string, v: string)
    requires v != u
    ensures GroupsOf(RemovedEverywhere(groups, u), u) == {}
    ensures forall g :: g in groups && groups[g].members.Some? ==>
              (v in groups[g].members.value <==> v in RemovedEverywhere(groups, u)[g].members.value)
  {
    var r := RemovedEverywhere(groups, u);
    assert forall g :: g in r && r[g].members.Some? ==> u !in r[g].members.value;
  }

  /**
   * After a second login under the same username the first connection owns
   * no session, so its cleanup finds nothing to remove.
   */
  lemma OverwrittenConnectionOwnsNothing(sessions: Sessions, u: string, key: User, newConn: ConnId)
    requires u in sessions && newConn != sessions[u].conn
    requires forall a, b :: a in sessions && b in sessions && a != b ==> sessions[a].conn != sessions[b].conn
    ensures var s := sessions[u := Session(key, newConn)];
      forall v :: v in s ==> s[v].conn != sessions[u].conn
  {
  }

  // ---------------------------------------------------------------- the server

  /** The session table after a handshake by `user` on connection `conn` (the first key object kept). */
  function WithSession(sessions: Sessions, user: User, conn: ConnId): (r: Sessions)
    ensures r.Keys == sessions.Keys + {user.username}
    ensures r[user.username].conn == conn
    ensures user.username in sessions ==> r[user.username].key == sessions[user.username].key
    ensures forall u :: u in sessions && u != user.username ==> r[u] == sessions[u]
  {
    sessions[user.username := Session(if user.username in sessions then sessions[user.username].key else user, conn)]
  }

  /** What the handling of one input can change: history files, audio files, groups and outbox. */
  datatype Snapshot = Snapshot(files: MessageHistoryUtil.FileSystem, audio: map<string, seq<Byte>>,
                               groups: map<string, Group>, outbox: seq<Delivery>)

  /** Whether the read loop goes on after an input: false exactly when handling it throws. */
  predicate GoesOn(sessions: Sessions, p: Incoming) {
    match p
    case MessageIn(m) => AssignAudioPath(m).Some?
    case TextIn(t) => !StartsWith(t, CreateGroupPrefix) || CommandGroup(sessions, t).Some?
    case _ => true
  }

  /**
   * One input handled by the loop body of `handleClient`, from snapshot
   * `before` to snapshot `after`: a message is saved and routed when its
   * audio path can be assigned, a signal is routed, a CREATE_GROUP command
   * stores its group, and anything else changes nothing.
   */
  ghost predicate Handled(sessions: Sessions, historyDir: string, before: Snapshot, p: Incoming, now: Timestamp,
                          after: Snapshot)
  {
    match p
    case MessageIn(m) =>
      if AssignAudioPath(m).Some? then
        && after.groups == before.groups
        && after.files == HistoryAfter(before.files, before.groups, historyDir, AssignAudioPath(m).value)
        && after.audio == AudioAfter(before.audio, before.groups, historyDir, m)
        && |after.outbox| >= |before.outbox| && after.outbox[..|before.outbox|] == before.outbox
        && MessageRouted(sessions, before.groups, AssignAudioPath(m).value, after.outbox[|before.outbox|..])
      else after == before
    case SignalIn(s) => after == before.(outbox := before.outbox + SignalOutcome(sessions, s, now))
    case TextIn(t) =>
      if StartsWith(t, CreateGroupPrefix) && CommandGroup(sessions, t).Some? then
        after == before.(groups := before.groups[CommandGroup(sessions, t).value.name := CommandGroup(sessions, t).value])
      else after == before
    case OtherIn => after == before
  }

  /**
   * The read loop over `inbox`: the first `steps` inputs are handled in
   * turn, each from the snapshot the previous one left, and the loop stops
   * at the first input that throws or at the end of the input.
   */
  ghost predicate Ran(sessions: Sessions, historyDir: string, inbox: seq<(Incoming, Timestamp)>, steps: nat,
                      trace: seq<Snapshot>)
  {
    && HandledInTurn(sessions, historyDir, inbox, steps, trace)
    && (forall k :: 0 <= k < steps - 1 ==> GoesOn(sessions, inbox[k].0))
    && (steps == |inbox| || (0 < steps && !GoesOn(sessions, inbox[steps - 1].0)))
  }

  /** The first `steps` inputs handled in turn along `trace`. */
  ghost predicate HandledInTurn(sessions: Sessions, historyDir: string, inbox: seq<(Incoming, Timestamp)>, steps: nat,
                                trace: seq<Snapshot>)
  {
    && steps <= |inbox| && |trace| == steps + 1
    && (forall k :: 0 <= k < steps ==> Handled(sessions, historyDir, trace[k], inbox[k].0, inbox[k].1, trace[k + 1]))
  }

  /** Handling one more input extends the run by one snapshot. */
  lemma HandledOneMore(sessions: Sessions, historyDir: string, inbox: seq<(Incoming, Timestamp)>, steps: nat,
                       trace: seq<Snapshot>, next: Snapshot)
    requires HandledInTurn(sessions, historyDir, inbox, steps, trace) && steps < |inbox|
    requires Handled(sessions, historyDir, trace[steps], inbox[steps].0, inbox[steps].1, next)
    ensures HandledInTurn(sessions, historyDir, inbox, steps + 1, trace + [next])
  {
    var t := trace + [next];
    forall k | 0 <= k < steps + 1
      ensures Handled(sessions, historyDir, t[k], inbox[k].0, inbox[k].1, t[k + 1])
    {
      assert t[k] == trace[k];
      if k < steps {
        assert t[k + 1] == trace[k + 1];
      }
    }
  }

  /**
   * The read loop is determined by its input: two runs over the same inputs
   * from the same state stop after the same input and leave the same history
   * files, audio files and groups after every step. Only the order of a
   * group message's deliveries may differ.
   */
  lemma RunsAgree(sessions: Sessions, historyDir: string, inbox: seq<(Incoming, Timestamp)>,
                  s1: nat, t1: seq<Snapshot>, s2: nat, t2: seq<Snapshot>)
    requires Ran(sessions, historyDir, inbox, s1, t1) && Ran(sessions, historyDir, inbox, s2, t2)
    requires t1[0] == t2[0]
    ensures s1 == s2
    ensures forall k :: 0 <= k <= s1 ==>
              t1[k].files == t2[k].files && t1[k].audio == t2[k].audio && t1[k].groups == t2[k].groups
  {
    forall k | 0 <= k <= s1
      ensures t1[k].files == t2[k].files && t1[k].audio == t2[k].audio && t1[k].groups == t2[k].groups
    {
      StepsAgree(sessions, historyDir, inbox, s1, t1, t2, k);
    }
  }

  /** Induction over the steps of two runs of the same length. */
  lemma {:induction false} StepsAgree(sessions: Sessions, historyDir: string, inbox: seq<(Incoming, Timestamp)>,
                                      steps: nat, t1: seq<Snapshot>, t2: seq<Snapshot>, k: nat)
    requires HandledInTurn(sessions, historyDir, inbox, steps, t1) && HandledInTurn(sessions, historyDir, inbox, steps, t2)
    requires t1[0].files == t2[0].files && t1[0].audio == t2[0].audio && t1[0].groups == t2[0].groups
    requires k <= steps
    ensures t1[k].files == t2[k].files && t1[k].audio == t2[k].audio && t1[k].groups == t2[k].groups
  {
    if k > 0 {
      StepsAgree(sessions, historyDir, inbox, steps, t1, t2, k - 1);
      assert Handled(sessions, historyDir, t1[k - 1], inbox[k - 1].0, inbox[k - 1].1, t1[k]);
      assert Handled(sessions, historyDir, t2[k - 1], inbox[k - 1].0, inbox[k - 1].1, t2[k]);
      HandledAgrees(sessions, historyDir, t1[k - 1], t2[k - 1], inbox[k - 1].0, inbox[k - 1].1, t1[k], t2[k]);
    }
  }

  /** Handling one input from agreeing snapshots leaves agreeing snapshots. */
  lemma HandledAgrees(sessions: Sessions, historyDir: string, b1: Snapshot, b2: Snapshot, p: Incoming,
                      now: Timestamp, a1: Snapshot, a2: Snapshot)
    requires Handled(sessions, historyDir, b1, p, now, a1) && Handled(sessions, historyDir, b2, p, now, a2)
    requires b1.files == b2.files && b1.audio == b2.audio && b1.groups == b2.groups
    ensures a1.files == a2.files && a1.audio == a2.audio && a1.groups == a2.groups
  {
  }

  class ChatServer {
    /** HISTORY_DIR: the "userdata.dir" property, or "userdata", then "/". */
    const historyDir: string
    /** The history files. */
    const store: MessageHistoryUtil.HistoryStore

    var sessions: Sessions
    var groups: map<string, Group>
    var outbox: seq<Delivery>
    var audioFiles: map<string, seq<Byte>>
    /** The connections accepted so far are 0 .. nextConn - 1. */
    var nextConn: ConnId

    /**
     * Each session is filed under its key's username and has its own
     * connection; each group is filed under its name and has a member set
     * keyed by username.
     */
    /** The state the handling of an input can change. */
    ghost function Current(): Snapshot
      reads this, store
    {
      Snapshot(store.files, audioFiles, groups, outbox)
    }

    ghost predicate Valid()
      reads this
    {
      && (forall u :: u in sessions ==> sessions[u].key.username == u && sessions[u].conn < nextConn)
      && (forall u, v :: u in sessions && v in sessions && u != v ==> sessions[u].conn != sessions[v].conn)
      && GroupsWellFormed(groups)
    }

    constructor(userdataDirProperty: Option<string>, store: MessageHistoryUtil.HistoryStore)
      ensures historyDir == userdataDirProperty.GetOr("userdata") + "/" && this.store == store
      ensures sessions == map[] && groups == map[] && outbox == [] && audioFiles == map[] && nextConn == 0
      ensures Valid()
    {
      historyDir := userdataDirProperty.GetOr("userdata") + "/";
      this.store := store;
      sessions := map[];
      groups := map[];
      outbox := [];
      audioFiles := map[];
      nextConn := 0;
    }

    /**
     * A new connection and its handshake: the user read first is filed
     * under its username, replacing any earlier connection of that username
     * (the map keeps the User object it already had), and "OK" is written back.
     */
    method Connect(user: User) returns (conn: ConnId)
      requires Valid()
      modifies this
      ensures Valid()
      ensures conn == old(nextConn) && nextConn == old(nextConn) + 1
      ensures forall u :: u in old(sessions) ==> old(sessions)[u].conn != conn
      ensures sessions == old(sessions)[user.username := Session(
                if user.username in old(sessions) then old(sessions)[user.username].key else user, conn)]
      ensures sessions == WithSession(old(sessions), user, conn)
      ensures outbox == old(outbox) + [Delivery(user.username, conn, OkReply)]
      ensures groups == old(groups) && audioFiles == old(audioFiles)
    {
      conn := nextConn;
      nextConn := nextConn + 1;
      var key := if user.username in sessions then sessions[user.username].key else user;
      sessions := sessions[user.username := Session(key, conn)];
      outbox := outbox + [Delivery(user.username, conn, OkReply)];
    }

    /** The loop over `users.keySet()` looking for a username. */
    method FindOnline(name: string) returns (found: Option<User>)
      requires Valid()
      ensures found == if name in sessions then Some(sessions[name].key) else None
    {
      var remaining := sessions.Keys;
      while remaining != {}
        invariant remaining <= sessions.Keys
        invariant forall u :: u in sessions && u !in remaining ==> sessions[u].key.username != name
        decreases remaining
      {
        var u :| u in remaining;
        if sessions[u].key.username == name {
          return Some(sessions[u].key);
        }
        remaining := remaining - {u};
      }
      return None;
    }

    /** `sendMessage(socket, p)`: the user whose socket it is gets `p` on its stream. */
    method SendMessage(conn: ConnId, p: ChatPayload)
      requires Valid()
      modifies this
      ensures Valid()
      ensures sessions == old(sessions) && groups == old(groups) && audioFiles == old(audioFiles)
      ensures nextConn == old(nextConn)
      ensures forall u :: u in sessions && sessions[u].conn == conn ==>
                outbox == old(outbox) + [Delivery(u, conn, Forward(p))]
      ensures (forall u :: u in sessions ==> sessions[u].conn != conn) ==> outbox == old(outbox)
    {
      var remaining := sessions.Keys;
      while remaining != {}
        invariant remaining <= sessions.Keys
        invariant forall u :: u in sessions && u !in remaining ==> sessions[u].conn != conn
        invariant outbox == old(outbox)
        decreases remaining
      {
        var u :| u in remaining;
        if sessions[u].conn == conn {
          outbox := outbox + [Delivery(u, conn, Forward(p))];
          return;
        }
        remaining := remaining - {u};
      }
    }

    /** The loop over a group's members in `processTextMessage`, in the set's own order. */
    method FanOut(members: MemberSet, m: Message)
      requires Valid() && MemberSetWellFormed(members)
      modifies this
      ensures sessions == old(sessions) && groups == old(groups) && audioFiles == old(audioFiles)
      ensures nextConn == old(nextConn)
      ensures |outbox| >= |old(outbox)| && outbox[..|old(outbox)|] == old(outbox)
      ensures DeliveredOnceEach(outbox[|old(outbox)|..], GroupRecipients(members.Keys, sessions, m.from.Username()),
                                sessions, MessagePayload(m))
    {
      var from := m.from.Username();
      var remaining := members.Keys;
      ghost var done: set<string> := {};
      ghost var start := |outbox|;
      while remaining != {}
        invariant done + remaining == members.Keys && done !! remaining
        invariant sessions == old(sessions) && groups == old(groups) && audioFiles == old(audioFiles)
        invariant nextConn == old(nextConn) && Valid()
        invariant |outbox| >= start && outbox[..start] == old(outbox)
        invariant DeliveredOnceEach(outbox[start..], GroupRecipients(done, sessions, from), sessions, MessagePayload(m))
        decreases remaining
      {
        var k :| k in remaining;
        var member := members[k];
        ghost var before := outbox;
        if member.username in sessions && member.username != from {
          SendMessage(sessions[member.username].conn, MessagePayload(m));
          SuffixAfterAppend(before, start, Delivery(k, sessions[k].conn, Forward(MessagePayload(m))));
        }
        FanOutStep(before[start..], outbox[start..], done, k, sessions, from, MessagePayload(m));
        remaining := remaining - {k};
        done := done + {k};
      }
    }

    /** The loop over a group's members in `saveHistory`: each member's copy gets the message. */
    method SaveToMembers(members: MemberSet, group: string, m: Message)
      requires MemberSetWellFormed(members)
      modifies store
      ensures store.files == SaveToEach(old(store.files), MemberFiles(members.Keys, group), m)
    {
      var remaining := members.Keys;
      ghost var files0 := store.files;
      while remaining != {}
        invariant remaining <= members.Keys
        invariant store.files == SaveToEach(files0, MemberFiles(members.Keys - remaining, group), m)
        decreases remaining
      {
        var k :| k in remaining;
        var member := members[k];
        var done := members.Keys - remaining;
        if MemberHistoryFile(k, group) in MemberFiles(done, group) {
          var j :| j in done && MemberHistoryFile(j, group) == MemberHistoryFile(k, group);
          MemberFileInjective(j, k, group);
          assert false;
        }
        SaveToEachStep(files0, MemberFiles(done, group), MemberHistoryFile(k, group), m);
        store.SaveMessageToHistory(MemberHistoryFile(member.username, group), m);
        remaining := remaining - {k};
        assert MemberFiles(members.Keys - remaining, group) == MemberFiles(done, group) + {MemberHistoryFile(k, group)};
      }
      assert members.Keys - remaining == members.Keys;
    }

    /**
     * `saveHistory(msg)`: assigns a voice note its path, appends the message
     * to the history files and writes the audio files. Returns the message
     * as it now stands, or None when it throws.
     */
    method SaveHistory(m: Message) returns (saved: Option<Message>)
      requires Valid()
      modifies this, store
      ensures saved == AssignAudioPath(m)
      ensures sessions == old(sessions) && groups == old(groups) && outbox == old(outbox)
      ensures nextConn == old(nextConn)
      ensures saved.None? ==> store.files == old(store.files) && audioFiles == old(audioFiles)
      ensures saved.Some? ==> store.files == HistoryAfter(old(store.files), groups, historyDir, saved.value)
      ensures saved.Some? ==> audioFiles == AudioAfter(old(audioFiles), groups, historyDir, m)
    {
      var isAudio := m.msgType == AUDIO && m.audioData.Some?;
      var msg := m;
      var audioFileName := "";
      if isAudio {
        if m.audioFilePath.None? || m.audioFilePath.value == "" {
          if m.timestamp.None? {
            return None;
          }
          audioFileName := ServerAudioName(m.from.Username(), m.to.Username(), m.timestamp.value);
          msg := SetAudioFilePath(m, Some("history/audio/" + audioFileName));
        } else {
          audioFileName := FileNameOf(m.audioFilePath.value);
        }
      }
      if msg.to.Username() in groups {
        SaveGroupMessage(msg, isAudio);
      } else {
        SavePrivateMessage(msg, isAudio, audioFileName);
      }
      return Some(msg);
    }

    /** The group branch of `saveHistory`: the group's file, each member's copy, and the audio under the group. */
    method SaveGroupMessage(msg: Message, isAudio: bool)
      requires Valid() && msg.to.Username() in groups
      modifies this, store
      ensures sessions == old(sessions) && groups == old(groups) && outbox == old(outbox)
      ensures nextConn == old(nextConn)
      ensures store.files == HistoryAfter(old(store.files), groups, historyDir, msg)
      ensures audioFiles
              == if isAudio && msg.audioData.Some? && msg.timestamp.Some?
                 then old(audioFiles)[GroupAudioFile(msg.to.Username(), msg.timestamp.value, msg.from.Username())
                                      := msg.audioData.value]
                 else old(audioFiles)
    {
      var to, from := msg.to.Username(), msg.from.Username();
      store.SaveMessageToHistory(GroupHistoryFile(to), msg);
      var g := groups[to];
      if g.members.Some? {
        SaveToMembers(g.members.value, g.name, msg);
      }
      if isAudio && msg.audioData.Some? {
        if msg.timestamp.Some? {
          audioFiles := audioFiles[GroupAudioFile(to, msg.timestamp.value, from) := msg.audioData.value];
        }
      }
    }

    /** The private branch of `saveHistory`: both sides' files, and the audio under both users. */
    method SavePrivateMessage(msg: Message, isAudio: bool, audioFileName: string)
      requires msg.to.Username() !in groups
      requires isAudio ==> msg.audioData.Some?
      modifies this, store
      ensures sessions == old(sessions) && groups == old(groups) && outbox == old(outbox)
      ensures nextConn == old(nextConn)
      ensures store.files == HistoryAfter(old(store.files), groups, historyDir, msg)
      ensures audioFiles
              == if isAudio
                 then old(audioFiles)[historyDir + msg.from.Username() + "/history/audio/" + audioFileName
                                      := msg.audioData.value]
                                     [historyDir + msg.to.Username() + "/history/audio/" + audioFileName
                                      := msg.audioData.value]
                 else old(audioFiles)
    {
      var to, from := msg.to.Username(), msg.from.Username();
      var files := PrivateHistoryFiles(historyDir, from, to);
      store.SaveMessageToHistory(files.0, msg);
      store.SaveMessageToHistory(files.1, msg);
      if isAudio {
        audioFiles := audioFiles[historyDir + from + "/history/audio/" + audioFileName := msg.audioData.value];
        audioFiles := audioFiles[historyDir + to + "/history/audio/" + audioFileName := msg.audioData.value];
      }
    }

    /**
     * `processTextMessage(msg)`: saves the history first, then delivers.
     * Returns false when saving throws, which ends the client's session.
     */
    method ProcessTextMessage(m: Message) returns (ok: bool)
      requires Valid()
      modifies this, store
      ensures Valid()
      ensures ok <==> AssignAudioPath(m).Some?
      ensures sessions == old(sessions) && groups == old(groups) && nextConn == old(nextConn)
      ensures !ok ==> outbox == old(outbox) && store.files == old(store.files) && audioFiles == old(audioFiles)
      ensures ok ==> store.files == HistoryAfter(old(store.files), groups, historyDir, AssignAudioPath(m).value)
      ensures ok ==> audioFiles == AudioAfter(old(audioFiles), groups, historyDir, m)
      ensures ok ==> |outbox| >= |old(outbox)| && outbox[..|old(outbox)|] == old(outbox)
                     && MessageRouted(sessions, groups, AssignAudioPath(m).value, outbox[|old(outbox)|..])
    {
      var saved := SaveHistory(m);
      if saved.None? {
        return false;
      }
      var msg := saved.value;
      var to := msg.to.Username();
      if to in groups {
        var group := groups[to];
        if group.members.Some? {
          FanOut(group.members.value, msg);
        }
      } else if msg.to.UserTarget? && to in sessions {
        SendMessage(sessions[to].conn, MessagePayload(msg));
      }
      return true;
    }

    /** The call-signal branch of `handleClient`. */
    method RouteSignal(s: CallSignal, now: Timestamp)
      requires Valid()
      modifies this
      ensures Valid()
      ensures sessions == old(sessions) && groups == old(groups) && audioFiles == old(audioFiles)
      ensures nextConn == old(nextConn)
      ensures outbox == old(outbox) + SignalOutcome(sessions, s, now)
    {
      var toUser := FindOnline(SignalTo(s).username);
      if toUser.Some? && toUser.value.username in sessions {
        SendOn(toUser.value.username, SignalPayload(s));
      } else if s.callType == REQUEST {
        var cancel := NewSignal(CANCEL, s.toUser, s.fromUser, Some(UnavailableText), Some(now));
        var requester := NewUser(s.fromUser, Some(s.fromUser));
        if requester.username in sessions {
          SendOn(requester.username, SignalPayload(cancel));
        }
      }
    }

    /** A write to the stream `userOutputStreams` holds for a username. */
    method SendOn(u: string, p: ChatPayload)
      requires u in sessions
      modifies this
      ensures sessions == old(sessions) && groups == old(groups) && audioFiles == old(audioFiles)
      ensures nextConn == old(nextConn)
      ensures outbox == old(outbox) + [Delivery(u, sessions[u].conn, Forward(p))]
    {
      outbox := outbox + [Delivery(u, sessions[u].conn, Forward(p))];
    }

    /** The `CREATE_GROUP:` branch: returns false when the command names nothing (the call throws). */
    method CreateGroup(cmd: string) returns (ok: bool)
      requires Valid() && StartsWith(cmd, CreateGroupPrefix)
      modifies this
      ensures Valid()
      ensures ok <==> CommandGroup(old(sessions), cmd).Some?
      ensures ok ==> groups == old(groups)[CommandGroup(old(sessions), cmd).value.name
                                             := CommandGroup(old(sessions), cmd).value]
      ensures !ok ==> groups == old(groups)
      ensures sessions == old(sessions) && outbox == old(outbox) && audioFiles == old(audioFiles)
      ensures nextConn == old(nextConn)
    {
      var parts := Split(cmd[13..], ',');
      if |parts| == 0 {
        return false;
      }
      var groupName := parts[0];
      var members := CollectOnline(parts[1..]);
      var group := NewGroup(groupName, Some(groupName), Some(members));
      groups := groups[groupName := group];
      return true;
    }

    /** The loop of `CREATE_GROUP` over the listed names: each one online joins, as the User kept for it. */
    method CollectOnline(names: seq<string>) returns (members: MemberSet)
      requires Valid()
      ensures members == OnlineMembers(sessions, names)
      ensures MemberSetWellFormed(members)
    {
      members := map[];
      var i := 0;
      while i < |names|
        invariant 0 <= i <= |names|
        invariant members == OnlineMembers(sessions, names[..i])
      {
        var found := FindOnline(names[i]);
        assert names[..i + 1][..i] == names[..i];
        if found.Some? {
          members := AddMember(members, found.value);
        }
        i := i + 1;
      }
      assert names[..i] == names;
      OnlineMembersAre(sessions, names);
    }

    /**
     * One object read from a client. Returns false when handling it throws,
     * which ends the client's session.
     */
    method Dispatch(p: Incoming, now: Timestamp) returns (goesOn: bool)
      requires Valid()
      modifies this, store
      ensures Valid()
      ensures sessions == old(sessions) && nextConn == old(nextConn)
      ensures |outbox| >= |old(outbox)| && outbox[..|old(outbox)|] == old(outbox)
      ensures old(groups).Keys <= groups.Keys
      ensures p.MessageIn? ==> goesOn == AssignAudioPath(p.message).Some? && groups == old(groups)
      ensures p.MessageIn? && !goesOn ==>
                outbox == old(outbox) && store.files == old(store.files) && audioFiles == old(audioFiles)
      ensures p.MessageIn? && goesOn ==>
                && store.files == HistoryAfter(old(store.files), groups, historyDir, AssignAudioPath(p.message).value)
                && audioFiles == AudioAfter(old(audioFiles), groups, historyDir, p.message)
                && |outbox| >= |old(outbox)| && outbox[..|old(outbox)|] == old(outbox)
                && MessageRouted(sessions, groups, AssignAudioPath(p.message).value, outbox[|old(outbox)|..])
      ensures p.SignalIn? ==>
                goesOn && groups == old(groups) && store.files == old(store.files)
                && audioFiles == old(audioFiles) && outbox == old(outbox) + SignalOutcome(sessions, p.signal, now)
      ensures p.TextIn? && StartsWith(p.text, CreateGroupPrefix) ==>
                goesOn == CommandGroup(sessions, p.text).Some?
                && (goesOn ==> groups == old(groups)[CommandGroup(sessions, p.text).value.name
                                                      := CommandGroup(sessions, p.text).value])
                && (!goesOn ==> groups == old(groups))
                && outbox == old(outbox) && store.files == old(store.files) && audioFiles == old(audioFiles)
      ensures p.OtherIn? || (p.TextIn? && !StartsWith(p.text, CreateGroupPrefix)) ==>
                goesOn && groups == old(groups) && outbox == old(outbox)
                && store.files == old(store.files) && audioFiles == old(audioFiles)
      ensures goesOn == GoesOn(sessions, p)
      ensures Handled(sessions, historyDir, old(Current()), p, now, Current())
    {
      match p
      case MessageIn(m) =>
        goesOn := ProcessTextMessage(m);
      case SignalIn(s) =>
        RouteSignal(s, now);
        goesOn := true;
      case TextIn(cmd) =>
        if StartsWith(cmd, CreateGroupPrefix) {
          goesOn := CreateGroup(cmd);
        } else {
          goesOn := true;
        }
      case OtherIn =>
        goesOn := true;
    }

    /** One pass of the read loop, stated as the run relation sees it. */
    method Step(p: Incoming, now: Timestamp) returns (goesOn: bool)
      requires Valid()
      modifies this, store
      ensures Valid()
      ensures sessions == old(sessions) && nextConn == old(nextConn) && old(groups).Keys <= groups.Keys
      ensures |outbox| >= |old(outbox)| && outbox[..|old(outbox)|] == old(outbox)
      ensures goesOn == GoesOn(sessions, p)
      ensures Handled(sessions, historyDir, old(Current()), p, now, Current())
    {
      goesOn := Dispatch(p, now);
    }

    /**
     * The `finally` block of `handleClient`: the session whose socket this
     * is, if any, is removed, and its user leaves every group.
     */
    method Disconnect(conn: ConnId)
      requires Valid()
      modifies this
      ensures Valid()
      ensures (forall u :: u in old(sessions) ==> old(sessions)[u].conn != conn) ==>
                sessions == old(sessions) && groups == old(groups)
      ensures forall u :: u in old(sessions) && old(sessions)[u].conn == conn ==>
                sessions == old(sessions) - {u} && groups == RemovedEverywhere(old(groups), u)
      ensures forall u :: u in sessions ==> sessions[u].conn != conn
      ensures outbox == old(outbox) && audioFiles == old(audioFiles) && nextConn == old(nextConn)
    {
      var owner: Option<string> := None;
      var remaining := sessions.Keys;
      while remaining != {}
        invariant remaining <= sessions.Keys
        invariant forall u :: u in sessions && u !in remaining ==> sessions[u].conn != conn
        decreases remaining
      {
        var u :| u in remaining;
        if sessions[u].conn == conn {
          owner := Some(u);
          break;
        }
        remaining := remaining - {u};
      }
      if owner.Some? {
        var u := owner.value;
        sessions := sessions - {u};
        RemoveFromGroups(u);
      }
    }

    /** The loop over `groups.values()` removing the user from each member set. */
    method RemoveFromGroups(u: string)
      requires Valid()
      modifies this
      ensures Valid()
      ensures groups == RemovedEverywhere(old(groups), u)
      ensures sessions == old(sessions) && outbox == old(outbox) && audioFiles == old(audioFiles)
      ensures nextConn == old(nextConn)
    {
      var remaining := groups.Keys;
      ghost var groups0 := groups;
      while remaining != {}
        invariant remaining <= groups.Keys && groups.Keys == groups0.Keys
        invariant forall g :: g in groups ==> groups[g] == if g in remaining then groups0[g] else WithoutMember(groups0[g], u)
        invariant sessions == old(sessions) && outbox == old(outbox) && audioFiles == old(audioFiles)
        invariant nextConn == old(nextConn)
        decreases remaining
      {
        var g :| g in remaining;
        var group := groups[g];
        if group.members.Some? {
          groups := groups[g := group.(members := Some(group.members.value - {u}))];
        }
        remaining := remaining - {g};
      }
      assert groups == RemovedEverywhere(groups0, u);
      RemovalKeepsGroupsWellFormed(groups0, u);
    }

    /** `getGroupsForUser(user)`: the groups whose members include the user. */
    method GetGroupsForUser(user: User) returns (r: set<Group>)
      ensures r == GroupsOf(groups, user.username)
    {
      r := {};
      var remaining := groups.Keys;
      while remaining != {}
        invariant remaining <= groups.Keys
        invariant r == set g | g in groups && g !in remaining && groups[g].members.Some?
                                && user.username in groups[g].members.value :: groups[g]
        decreases remaining
      {
        var g :| g in remaining;
        var group := groups[g];
        if group.members.Some? && user.username in group.members.value {
          r := r + {group};
        }
        remaining := remaining - {g};
      }
    }

    /**
     * One client's whole session, on its own: the handshake, then each object
     * in turn until the input ends or one throws, then the cleanup.
     */
    method HandleClient(user: User, inbox: seq<(Incoming, Timestamp)>)
      returns (conn: ConnId, steps: nat, ghost trace: seq<Snapshot>)
      requires Valid()
      modifies this, store
      ensures Valid()
      ensures conn == old(nextConn) && nextConn == old(nextConn) + 1
      ensures forall u :: u in sessions ==> sessions[u].conn != conn
      ensures sessions == old(sessions) - {user.username}
      ensures |outbox| > |old(outbox)|
      ensures outbox[..|old(outbox)| + 1] == old(outbox) + [Delivery(user.username, conn, OkReply)]
      ensures old(groups).Keys <= groups.Keys
      ensures forall g :: g in groups && groups[g].members.Some? ==> user.username !in groups[g].members.value
      ensures Ran(WithSession(old(sessions), user, conn), historyDir, inbox, steps, trace)
      ensures trace[0] == old(Current()).(outbox := old(outbox) + [Delivery(user.username, conn, OkReply)])
      ensures store.files == trace[steps].files && audioFiles == trace[steps].audio && outbox == trace[steps].outbox
      ensures groups == RemovedEverywhere(trace[steps].groups, user.username)
    {
      conn := Connect(user);
      steps, trace := ServeThenLeave(user.username, conn, inbox);
    }

    /**
     * The part of `handleClient` after the handshake: the read loop, then
     * the `finally` block for the session of `name` on connection `conn`.
     */
    method ServeThenLeave(name: string, conn: ConnId, inbox: seq<(Incoming, Timestamp)>)
      returns (steps: nat, ghost trace: seq<Snapshot>)
      requires Valid() && name in sessions && sessions[name].conn == conn
      modifies this, store
      ensures Valid()
      ensures nextConn == old(nextConn)
      ensures forall u :: u in sessions ==> sessions[u].conn != conn
      ensures sessions == old(sessions) - {name}
      ensures |outbox| >= |old(outbox)| && outbox[..|old(outbox)|] == old(outbox)
      ensures old(groups).Keys <= groups.Keys
      ensures forall g :: g in groups && groups[g].members.Some? ==> name !in groups[g].members.value
      ensures Ran(old(sessions), historyDir, inbox, steps, trace)
      ensures trace[0] == old(Current())
      ensures store.files == trace[steps].files && audioFiles == trace[steps].audio && outbox == trace[steps].outbox
      ensures groups == RemovedEverywhere(trace[steps].groups, name)
    {
      steps, trace := Serve(inbox);
      ghost var served := Current();
      Disconnect(conn);
      assert groups == RemovedEverywhere(served.groups, name);
    }

    /**
     * The read loop of `handleClient`: dispatch each input until one stops
     * the loop or the input ends. `steps` counts the inputs dispatched and
     * `trace` the state before and after each of them.
     */
    method Serve(inbox: seq<(Incoming, Timestamp)>) returns (steps: nat, ghost trace: seq<Snapshot>)
      requires Valid()
      modifies this, store
      ensures Valid()
      ensures sessions == old(sessions) && nextConn == old(nextConn) && old(groups).Keys <= groups.Keys
      ensures |outbox| >= |old(outbox)| && outbox[..|old(outbox)|] == old(outbox)
      ensures Ran(sessions, historyDir, inbox, steps, trace)
      ensures trace[0] == old(Current()) && trace[steps] == Current()
    {
      steps := 0;
      trace := [Current()];
      while steps < |inbox|
        invariant steps <= |inbox| && |trace| == steps + 1
        invariant Valid()
        invariant sessions == old(sessions) && nextConn == old(nextConn) && old(groups).Keys <= groups.Keys
        invariant |outbox| >= |old(outbox)| && outbox[..|old(outbox)|] == old(outbox)
        invariant trace[0] == old(Current()) && trace[steps] == Current()
        invariant HandledInTurn(sessions, historyDir, inbox, steps, trace)
        invariant forall k :: 0 <= k < steps ==> GoesOn(sessions, inbox[k].0)
      {
        var goesOn := Step(inbox[steps].0, inbox[steps].1);
        HandledOneMore(sessions, historyDir, inbox, steps, trace, Current());
        trace := trace + [Current()];
        steps := steps + 1;
        if !goesOn {
          break;
        }
      }
    }
  }

  lemma SuffixAfterAppend(before: seq<Delivery>, start: nat, d: Delivery)
    requires start <= |before|
    ensures (before + [d])[start..] == before[start..] + [d]
    ensures (before + [d])[..start] == before[..start]
  {
  }

  /** One step of the fan-out loop keeps every reached recipient reached once. */
  lemma FanOutStep(before: seq<Delivery>, after: seq<Delivery>, done: set<string>, k: string,
                   sessions: Sessions, from: string, p: ChatPayload)
    requires k !in done
    requires DeliveredOnceEach(before, GroupRecipients(done, sessions, from), sessions, p)
    requires k in sessions && k != from ==> after == before + [Delivery(k, sessions[k].conn, Forward(p))]
    requires !(k in sessions && k != from) ==> after == before
    ensures DeliveredOnceEach(after, GroupRecipients(done + {k}, sessions, from), sessions, p)
  {
    var R := GroupRecipients(done + {k}, sessions, from);
    if k in sessions && k != from {
      forall r | r in R ensures exists i :: 0 <= i < |after| && after[i].to == r {
        if r == k {
          assert after[|before|].to == k;
        } else {
          var i :| 0 <= i < |before| && before[i].to == r;
          assert after[i].to == r;
        }
      }
    } else {
      assert GroupRecipients(done + {k}, sessions, from) == GroupRecipients(done, sessions, from);
    }
  }
}
