/**
 * The shared data model of the chat system (package chat.common.model):
 * users, groups, the ChatTarget sum of the two, messages, call signals and
 * the ChatPayload sum of the last two.
 *
 * These Java classes are serialisable records. Their few setters are
 * modelled as functions returning the updated copy: wherever the code calls
 * a setter, the caller holds the only reference to the object.
 */
module Model {
  import opened Wrappers

  /** One element of a Java `byte[]`, as its unsigned value. */
  type Byte = b: int | 0 <= b < 256

  /** A Java `int`. */
  type Int32 = x: int | -0x8000_0000 <= x < 0x8000_0000

  /** A LocalDateTime, represented by the text its toString() produces. */
  type Timestamp = string

  /** Reduces an integer to a Java `int` the way 32-bit two's-complement arithmetic does. */
  function Wrap32(x: int): (r: Int32)
    ensures (r - x) % 0x1_0000_0000 == 0
  {
    var m := x % 0x1_0000_0000;
    if m < 0x8000_0000 then m else m - 0x1_0000_0000
  }

  // ------------------------------------------------------------------ User

  /** chat.common.model.User; `connected` is a transient flag. */
  datatype User = User(username: string, displayName: Option<string>, connected: bool)

  /** `new User(username, displayName)`. */
  function NewUser(username: string, displayName: Option<string>): (u: User)
    ensures u.username == username && u.displayName == displayName
    ensures !u.connected
  {
    User(username, displayName, false)
  }

  /** `User.equals` between two users: the usernames decide. */
  predicate SameUser(a: User, b: User) {
    a.username == b.username
  }

  /** Java's `String.hashCode`: the base-31 polynomial of the characters, as an `int`. */
  function StringHash(s: string): Int32 {
    Wrap32(HashPolynomial(s))
  }

  function HashPolynomial(s: string): int {
    if |s| == 0 then 0 else HashPolynomial(s[..|s| - 1]) * 31 + s[|s| - 1] as int
  }

  /** `User.hashCode`. */
  function HashCode(u: User): Int32 {
    StringHash(u.username)
  }

  /** `User.toString`: the display name when there is one, else the username. */
  function UserToString(u: User): string {
    u.displayName.GetOr(u.username)
  }

  /** `setConnected`. */
  function SetConnected(u: User, connected: bool): User {
    u.(connected := connected)
  }

  /** `setDisplayName`. */
  function SetDisplayName(u: User, displayName: Option<string>): User {
    u.(displayName := displayName)
  }

  /**
   * Users are equal exactly when their usernames are, and equal users have
   * equal hash codes, so both agree as a HashMap key.
   */
  lemma HashCodeAgreesWithEquals(a: User, b: User)
    ensures SameUser(a, b) <==> a.username == b.username
    ensures SameUser(a, b) ==> HashCode(a) == HashCode(b)
  {
  }

  /** A user prints as its display name, falling back to the username. */
  lemma UserToStringChoice(u: User)
    ensures u.displayName.Some? ==> UserToString(u) == u.displayName.value
    ensures u.displayName.None? ==> UserToString(u) == u.username
  {
  }

  /** Renaming the display name keeps the identity: equality, hash and flag are unchanged. */
  lemma SetDisplayNameKeepsIdentity(u: User, d: Option<string>)
    ensures SameUser(SetDisplayName(u, d), u)
    ensures HashCode(SetDisplayName(u, d)) == HashCode(u)
    ensures SetDisplayName(u, d).connected == u.connected
    ensures SetDisplayName(u, d).displayName == d
  {
  }

  /** Only setConnected changes the connection flag, and it changes nothing else. */
  lemma SetConnectedOnlyFlag(u: User, c: bool)
    ensures SetConnected(u, c) == User(u.username, u.displayName, c)
    ensures SameUser(SetConnected(u, c), u)
  {
  }

  // ------------------------------------------------------------------ Group

  /**
   * A HashSet<User>: User equality is by username, so the set holds at most
   * one User per username — the one added first.
   */
  type MemberSet = map<string, User>

  ghost predicate MemberSetWellFormed(ms: MemberSet) {
    forall k :: k in ms ==> ms[k].username == k
  }

  /** `members.add(u)`: no effect when a user with that username is present. */
  function AddMember(ms: MemberSet, u: User): (r: MemberSet)
    ensures r.Keys == ms.Keys + {u.username}
    ensures u.username in ms ==> r == ms
    ensures MemberSetWellFormed(ms) ==> MemberSetWellFormed(r)
  {
    if u.username in ms then ms else ms[u.username := u]
  }

  /** chat.common.model.Group. `members` is None when set to null through setMembers. */
  datatype Group = Group(name: string, displayName: Option<string>, members: Option<MemberSet>)

  /** `new Group(name, displayName, members)`: a null member set becomes an empty one. */
  function NewGroup(name: string, displayName: Option<string>, members: Option<MemberSet>): (g: Group)
    ensures g.members.Some?
    ensures g.name == name && g.displayName == displayName
    ensures members.Some? ==> g.members == members
    ensures members.None? ==> g.members == Some(map[])
  {
    Group(name, displayName, Some(members.GetOr(map[])))
  }

  /** `new Group(name, displayName)`. */
  function NewNamedGroup(name: string, displayName: Option<string>): (g: Group)
    ensures g == Group(name, displayName, Some(map[]))
  {
    NewGroup(name, displayName, Some(map[]))
  }

  /** `getDisplayName`: the display name, falling back to the group name. */
  function GroupDisplayName(g: Group): string {
    g.displayName.GetOr(g.name)
  }

  /** `setMembers`: replaces the whole member set (null included). */
  function SetMembers(g: Group, members: Option<MemberSet>): Group {
    g.(members := members)
  }

  lemma GroupAccessors(g: Group, ms: Option<MemberSet>)
    ensures GroupDisplayName(g) == if g.displayName.Some? then g.displayName.value else g.name
    ensures SetMembers(g, ms).members == ms
    ensures SetMembers(g, ms).name == g.name && SetMembers(g, ms).displayName == g.displayName
    ensures GroupTarget(g).Username() == g.name && GroupTarget(g).IsGroup()
  {
  }

  // ------------------------------------------------------------------ ChatTarget

  /** chat.common.model.ChatTarget: either a user or a group. */
  datatype ChatTarget = UserTarget(user: User) | GroupTarget(group: Group) {

    /** `getUsername`: a user's username or a group's name. */
    function Username(): string {
      match this
      case UserTarget(u) => u.username
      case GroupTarget(g) => g.name
    }

    /** `getDisplayName`: a user's (possibly null) display name, a group's display name. */
    function DisplayName(): Option<string> {
      match this
      case UserTarget(u) => u.displayName
      case GroupTarget(g) => Some(GroupDisplayName(g))
    }

    /** `isGroup`. */
    predicate IsGroup() {
      GroupTarget?
    }
  }

  // ------------------------------------------------------------------ Message

  datatype MessageType = TEXT | AUDIO

  /** AudioFormatWrapper; the float sample rate is kept as a whole number of hertz. */
  datatype AudioFormat = AudioFormat(sampleRate: int, sampleSizeInBits: int, channels: int,
                                     signed: bool, bigEndian: bool)

  /** chat.common.model.Message. */
  datatype Message = Message(
    from: ChatTarget,
    to: ChatTarget,
    msgType: MessageType,
    content: string,
    timestamp: Option<Timestamp>,
    audioData: Option<seq<Byte>>,
    audioFilePath: Option<string>,
    audioFormat: Option<AudioFormat>)

  /** The text constructor. */
  function TextMessage(from: ChatTarget, to: ChatTarget, t: MessageType, content: string,
                       ts: Option<Timestamp>): (m: Message)
    ensures m.audioData.None? && m.audioFilePath.None? && m.audioFormat.None?
    ensures m.from == from && m.to == to && m.msgType == t && m.content == content && m.timestamp == ts
  {
    Message(from, to, t, content, ts, None, None, None)
  }

  /** The constructor for audio already stored in a file. */
  function FileAudioMessage(from: ChatTarget, to: ChatTarget, t: MessageType, content: string,
                            ts: Option<Timestamp>, path: Option<string>,
                            format: Option<AudioFormat>): (m: Message)
    ensures m.audioData.None? && m.audioFilePath == path && m.audioFormat == format
    ensures m.from == from && m.to == to && m.msgType == t && m.content == content && m.timestamp == ts
  {
    TextMessage(from, to, t, content, ts).(audioFilePath := path, audioFormat := format)
  }

  /** The constructor for audio captured in memory. */
  function MemoryAudioMessage(from: ChatTarget, to: ChatTarget, t: MessageType, content: string,
                              ts: Option<Timestamp>, data: Option<seq<Byte>>,
                              format: Option<AudioFormat>): (m: Message)
    ensures m.audioData == data && m.audioFilePath.None? && m.audioFormat == format
    ensures m.from == from && m.to == to && m.msgType == t && m.content == content && m.timestamp == ts
  {
    TextMessage(from, to, t, content, ts).(audioData := data, audioFormat := format)
  }

  /** `setAudioFilePath`. */
  function SetAudioFilePath(m: Message, path: Option<string>): Message {
    m.(audioFilePath := path)
  }

  /** `setAudioFormatWrapper`. */
  function SetAudioFormat(m: Message, format: Option<AudioFormat>): Message {
    m.(audioFormat := format)
  }

  /** The part of a message that has no setter. */
  predicate SameCore(a: Message, b: Message) {
    a.from == b.from && a.to == b.to && a.msgType == b.msgType
    && a.content == b.content && a.timestamp == b.timestamp
  }

  /** Each message setter changes its own field and nothing else. */
  lemma MessageSettersChangeOneField(m: Message, p: Option<string>, f: Option<AudioFormat>)
    ensures SameCore(SetAudioFilePath(m, p), m) && SameCore(SetAudioFormat(m, f), m)
    ensures SetAudioFilePath(m, p).audioFilePath == p
    ensures SetAudioFilePath(m, p).audioData == m.audioData
    ensures SetAudioFilePath(m, p).audioFormat == m.audioFormat
    ensures SetAudioFormat(m, f).audioFormat == f
    ensures SetAudioFormat(m, f).audioData == m.audioData
    ensures SetAudioFormat(m, f).audioFilePath == m.audioFilePath
  {
  }

  // ------------------------------------------------------------------ CallSignal

  datatype CallType = REQUEST | ACCEPT | REJECT | CANCEL | TIMEOUT

  /** chat.common.model.CallSignal; `udpPort` starts at -1 ("no port"). */
  datatype CallSignal = CallSignal(
    callType: CallType,
    fromUser: string,
    toUser: string,
    udpHost: Option<string>,
    udpPort: Int32,
    timestamp: Option<Timestamp>,
    content: Option<string>)

  /** The five-argument constructor: no UDP endpoint. */
  function NewSignal(t: CallType, fromUser: string, toUser: string, content: Option<string>,
                     ts: Option<Timestamp>): (s: CallSignal)
    ensures s.udpHost.None? && s.udpPort == -1
    ensures s.callType == t && s.fromUser == fromUser && s.toUser == toUser
    ensures s.content == content && s.timestamp == ts
  {
    CallSignal(t, fromUser, toUser, None, -1, ts, content)
  }

  /** The seven-argument constructor: also carries the sender's UDP endpoint. */
  function NewSignalWithEndpoint(t: CallType, fromUser: string, toUser: string, content: Option<string>,
                                 ts: Option<Timestamp>, host: Option<string>, port: Int32): (s: CallSignal)
    ensures s == NewSignal(t, fromUser, toUser, content, ts).(udpHost := host, udpPort := port)
  {
    NewSignal(t, fromUser, toUser, content, ts).(udpHost := host, udpPort := port)
  }

  function SetCallType(s: CallSignal, t: CallType): CallSignal { s.(callType := t) }
  function SetFromUser(s: CallSignal, u: string): CallSignal { s.(fromUser := u) }
  function SetToUser(s: CallSignal, u: string): CallSignal { s.(toUser := u) }
  function SetUdpHost(s: CallSignal, h: Option<string>): CallSignal { s.(udpHost := h) }
  function SetUdpPort(s: CallSignal, p: Int32): CallSignal { s.(udpPort := p) }
  function SetSignalTimestamp(s: CallSignal, ts: Option<Timestamp>): CallSignal { s.(timestamp := ts) }
  function SetSignalContent(s: CallSignal, c: Option<string>): CallSignal { s.(content := c) }

  /** Each call-signal setter changes exactly its own field. */
  lemma SignalSettersChangeOneField(s: CallSignal, t: CallType, u: string, h: Option<string>,
                                    p: Int32, ts: Option<Timestamp>, c: Option<string>)
    ensures SetCallType(s, t) == CallSignal(t, s.fromUser, s.toUser, s.udpHost, s.udpPort, s.timestamp, s.content)
    ensures SetFromUser(s, u) == CallSignal(s.callType, u, s.toUser, s.udpHost, s.udpPort, s.timestamp, s.content)
    ensures SetToUser(s, u) == CallSignal(s.callType, s.fromUser, u, s.udpHost, s.udpPort, s.timestamp, s.content)
    ensures SetUdpHost(s, h) == CallSignal(s.callType, s.fromUser, s.toUser, h, s.udpPort, s.timestamp, s.content)
    ensures SetUdpPort(s, p) == CallSignal(s.callType, s.fromUser, s.toUser, s.udpHost, p, s.timestamp, s.content)
    ensures SetSignalTimestamp(s, ts) == CallSignal(s.callType, s.fromUser, s.toUser, s.udpHost, s.udpPort, ts, s.content)
    ensures SetSignalContent(s, c) == CallSignal(s.callType, s.fromUser, s.toUser, s.udpHost, s.udpPort, s.timestamp, c)
  {
  }

  /** `getFrom()`: a fresh user whose username and display name are both `fromUser`. */
  function SignalFrom(s: CallSignal): (u: User)
    ensures u.username == s.fromUser && u.displayName == Some(s.fromUser)
  {
    NewUser(s.fromUser, Some(s.fromUser))
  }

  /** `getTo()`. */
  function SignalTo(s: CallSignal): (u: User)
    ensures u.username == s.toUser && u.displayName == Some(s.toUser)
  {
    NewUser(s.toUser, Some(s.toUser))
  }

  /** The users built by getFrom/getTo equal every user with that username. */
  lemma SignalEndpointsEqualByUsername(s: CallSignal, u: User)
    ensures SameUser(SignalFrom(s), u) <==> u.username == s.fromUser
    ensures SameUser(SignalTo(s), u) <==> u.username == s.toUser
  {
  }

  // ------------------------------------------------------------------ ChatPayload

  /** chat.common.model.ChatPayload: what travels between client and server. */
  datatype ChatPayload = MessagePayload(message: Message) | SignalPayload(signal: CallSignal) {

    function From(): ChatTarget {
      match this
      case MessagePayload(m) => m.from
      case SignalPayload(s) => UserTarget(SignalFrom(s))
    }

    function To(): ChatTarget {
      match this
      case MessagePayload(m) => m.to
      case SignalPayload(s) => UserTarget(SignalTo(s))
    }
  }
}
