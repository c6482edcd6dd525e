/**
 * chat.client.views.MessageCell: how one display line of the message list is
 * read back. A line has the form `[time] sender: content`; the cell parses it
 * with the regular expression `^\[(.*?)\] (.*?): (.*)$`, decides whether the
 * line is the user's own, and, for a voice note, derives the path of the WAV
 * file to play. Widgets, styles and playback are not modelled.
 */
module MessageCell {
  import opened Wrappers
  import opened JavaStrings
  import ChatHistoryManager

  // ---------------------------------------------------------------- regex primitives

  /** The characters that `.` does not match in a Java pattern compiled without DOTALL. */
  predicate LineTerminator(c: char) {
    c == '\n' || c == '\r' || c == '\U{0085}' || c == '\U{2028}' || c == '\U{2029}'
  }

  /** `s` has no line terminator, so `.*` can cover all of it. */
  predicate SingleLine(s: string) {
    forall i :: 0 <= i < |s| ==> !LineTerminator(s[i])
  }

  /** `s` ends with `suffix`. */
  predicate EndsWith(s: string, suffix: string) {
    |suffix| <= |s| && s[|s| - |suffix|..] == suffix
  }

  /** A "] " — the separator after the time group — starts at index `k`. */
  predicate CloseAt(s: string, k: nat) {
    k + 2 <= |s| && s[k] == ']' && s[k + 1] == ' '
  }

  /**
   * How a reluctant `(.*?)` followed by "] " picks its end: the first index
   * at or after `from` where "] " occurs and the rest of the input, after
   * it, is accepted by the remainder of the pattern.
   */
  function FirstSplit(s: string, from: nat, rest: string -> bool): (r: Option<nat>)
    requires from <= |s|
    decreases |s| - from
    ensures r.Some? ==> from <= r.value && CloseAt(s, r.value) && rest(s[r.value + 2..])
  {
    if CloseAt(s, from) && rest(s[from + 2..]) then Some(from)
    else if from == |s| then None
    else FirstSplit(s, from + 1, rest)
  }

  /** A "] " before the chosen one is followed by text the remainder rejects. */
  lemma {:induction false} SplitSkipped(s: string, from: nat, rest: string -> bool, i: nat, k: nat)
    requires from <= |s| && FirstSplit(s, from, rest) == Some(i)
    requires from <= k < i
    ensures CloseAt(s, k) ==> !rest(s[k + 2..])
    decreases k - from
  {
    if from < k {
      SplitSkipped(s, from + 1, rest, i, k);
    }
  }

  /** When no split is found, every "] " at or after `from` is followed by rejected text. */
  lemma {:induction false} NoSplit(s: string, from: nat, rest: string -> bool, k: nat)
    requires from <= |s| && FirstSplit(s, from, rest).None?
    requires from <= k
    ensures CloseAt(s, k) ==> !rest(s[k + 2..])
    decreases k - from
  {
    if from < k && from < |s| {
      NoSplit(s, from + 1, rest, k);
    }
  }

  // ---------------------------------------------------------------- the line format

  /** The three groups of a display line. */
  datatype Line = Line(time: string, sender: string, message: string)

  /** The display line `[time] sender: message`, as the chat view builds it. */
  function FormatLine(l: Line): string {
    "[" + l.time + "] " + l.sender + ": " + l.message
  }

  /** A line whose groups the parser gives back unchanged. */
  predicate WellFormed(l: Line) {
    !Contains(l.time, "] ") && !Contains(l.sender, ": ") && SingleLine(FormatLine(l))
  }

  /**
   * The text after "] " holds a ": ", so the rest of the pattern can match
   * it; written as a scan so that it agrees with `Contains(t, ": ")`
   * (SenderSeparatorIff) without unfolding an index search.
   */
  predicate HasSenderSeparator(t: string)
    decreases |t|
  {
    |t| >= 2 && ((t[0] == ':' && t[1] == ' ') || HasSenderSeparator(t[1..]))
  }

  /** The scan finds a ": " exactly when the text contains one. */
  lemma {:induction false} SenderSeparatorIff(t: string)
    ensures HasSenderSeparator(t) <==> Contains(t, ": ")
    decreases |t|
  {
    ContainsIff(t, ": ");
    if |t| >= 2 {
      SenderSeparatorIff(t[1..]);
      ContainsIff(t[1..], ": ");
      OccursAtPair(t, ": ", 0);
      if Contains(t, ": ") {
        var k: nat :| OccursAt(t, ": ", k);
        if k > 0 {
          OccursAtPair(t, ": ", k);
          OccursAtPair(t[1..], ": ", k - 1);
        }
      }
      if HasSenderSeparator(t[1..]) {
        var k: nat :| OccursAt(t[1..], ": ", k);
        OccursAtPair(t, ": ", k + 1);
        OccursAtPair(t[1..], ": ", k);
      }
    } else {
      forall k: nat
        ensures !OccursAt(t, ": ", k)
      {
      }
    }
  }

  /**
   * `matcher.matches()` on `^\[(.*?)\] (.*?): (.*)$` and its three groups:
   * the time ends at the first "] " after which a ": " still follows, the
   * sender ends at the first ": " after that, the message is the rest.
   */
  function ParseLine(item: string): (r: Option<Line>)
    ensures r.Some? ==> FormatLine(r.value) == item && WellFormed(r.value)
  {
    if !SingleLine(item) || |item| == 0 || item[0] != '[' then None
    else
      match FirstSplit(item, 1, HasSenderSeparator)
      case None => None
      case Some(i) =>
        SenderSeparatorIff(item[i + 2..]);
        var j := IndexOf(item[i + 2..], ": ").value;
        ParseLineSound(item, i, j);
        Some(GroupsAt(item, i, j))
  }

  /** The three groups once the "] " at `i` and the ": " at `j` after it are fixed. */
  function GroupsAt(item: string, i: nat, j: nat): Line
    requires 1 <= i && i + 2 + j + 2 <= |item|
  {
    Line(item[1..i], item[i + 2..][..j], item[i + 2..][j + 2..])
  }

  /** The groups chosen by ParseLine put the line back together and are well formed. */
  lemma ParseLineSound(item: string, i: nat, j: nat)
    requires SingleLine(item) && |item| > 0 && item[0] == '['
    requires FirstSplit(item, 1, HasSenderSeparator) == Some(i)
    requires IndexOf(item[i + 2..], ": ") == Some(j)
    ensures FormatLine(GroupsAt(item, i, j)) == item && WellFormed(GroupsAt(item, i, j))
  {
    var rest := item[i + 2..];
    var l := GroupsAt(item, i, j);
    ParseLineJoins(item, i, j);
    SenderSplitSkipped(item, i);
    TimeHasNoSeparator(item, i, j);
    NoEarlierOccurrence(rest, l.sender, ": ", j);
  }

  lemma ParseLineJoins(item: string, i: nat, j: nat)
    requires |item| > 0 && item[0] == '['
    requires 1 <= i && CloseAt(item, i) && OccursAt(item[i + 2..], ": ", j)
    ensures FormatLine(GroupsAt(item, i, j)) == item
  {
    var rest := item[i + 2..];
    OccursAtPair(item, "] ", i);
    assert GroupsAt(item, i, j) == Line(item[1..i], rest[..j], rest[j + 2..]);
    CutAt(rest, j, 2);
    FourParts(item, 1, i);
    assert item[..1] == "[";
    Regroup("[", item[1..i], "] ", rest[..j], ": ", rest[j + 2..]);
  }

  /** A string is its part before `a`, the next `n` characters, and the rest. */
  lemma CutAt(s: string, a: nat, n: nat)
    requires a + n <= |s|
    ensures s == s[..a] + s[a..a + n] + s[a + n..]
  {
  }

  /** A string cut before `a`, before `b` and two characters after `b`. */
  lemma FourParts(s: string, a: nat, b: nat)
    requires a <= b && b + 2 <= |s|
    ensures s == s[..a] + s[a..b] + s[b..b + 2] + s[b + 2..]
  {
  }

  /** Concatenation of six pieces, grouped as the parse groups them and as FormatLine does. */
  lemma Regroup(x: string, t: string, y: string, a: string, z: string, b: string)
    ensures x + t + y + (a + z + b) == x + t + y + a + z + b
  {
  }

  /** A "] " before index i is followed by the ": " that follows index i. */
  lemma LaterSeparator(item: string, k: nat, i: nat, j: nat)
    requires k <= i && i + 2 <= |item| && k + 2 <= |item|
    requires OccursAt(item[i + 2..], ": ", j)
    ensures HasSenderSeparator(item[k + 2..])
  {
    var restK := item[k + 2..];
    var off := i - k + j;
    assert restK[off..off + 2] == item[i + 2..][j..j + 2];
    assert OccursAt(restK, ": ", off);
    ContainsIff(restK, ": ");
    SenderSeparatorIff(restK);
  }

  /** The time group holds no "] ": an earlier one would have ended the reluctant group there. */
  lemma TimeHasNoSeparator(item: string, i: nat, j: nat)
    requires 1 <= i && i + 2 <= |item|
    requires SkippedSeparators(item, i)
    requires OccursAt(item[i + 2..], ": ", j)
    ensures !Contains(item[1..i], "] ")
  {
    var t := item[1..i];
    ContainsIff(t, "] ");
    forall m: nat
      ensures !OccursAt(t, "] ", m)
    {
      if m + 2 <= |t| {
        LaterSeparator(item, m + 1, i, j);
        NotSeparatorInSlice(item, i, m);
      }
    }
  }

  /** Every "] " before index i is followed by text without ": ". */
  predicate SkippedSeparators(item: string, i: nat)
    requires i + 2 <= |item|
  {
    forall k: nat :: 1 <= k < i && HasSenderSeparator(item[k + 2..]) ==> !CloseAt(item, k)
  }

  /** The reluctant time group ending at i skipped every earlier "] ". */
  lemma SenderSplitSkipped(item: string, i: nat)
    requires 1 <= |item| && FirstSplit(item, 1, HasSenderSeparator) == Some(i)
    ensures i + 2 <= |item| && SkippedSeparators(item, i)
  {
    forall k: nat | 1 <= k < i && HasSenderSeparator(item[k + 2..])
      ensures !CloseAt(item, k)
    {
      SplitSkipped(item, 1, HasSenderSeparator, i, k);
    }
  }

  /** A "] " inside `item[1..i]` would be one in `item`, one index further on. */
  lemma NotSeparatorInSlice(item: string, i: nat, m: nat)
    requires m + 3 <= i <= |item|
    requires !CloseAt(item, m + 1)
    ensures !OccursAt(item[1..i], "] ", m)
  {
    var t := item[1..i];
    OccursAtPair(t, "] ", m);
    assert t[m] == item[m + 1] && t[m + 1] == item[m + 2];
  }

  /** Where the pieces of a formatted line sit. */
  lemma FormatLineParts(l: Line)
    ensures var item := FormatLine(l);
      var i := 1 + |l.time|;
      && |item| == i + 2 + |l.sender| + 2 + |l.message|
      && item[0] == '[' && item[1..i] == l.time && item[i] == ']' && item[i + 1] == ' '
      && item[i + 2..] == l.sender + ": " + l.message
  {
  }

  /** Where the pieces of the text after the time sit. */
  lemma SenderParts(sender: string, message: string)
    ensures var rest := sender + ": " + message;
      && |rest| == |sender| + 2 + |message|
      && rest[..|sender|] == sender && rest[|sender|] == ':' && rest[|sender| + 1] == ' '
      && rest[|sender| + 2..] == message
  {
  }

  /** In a well-formed line the first "] " that a ": " follows is the one after the time. */
  lemma TimeEndsAfterTime(l: Line)
    requires WellFormed(l)
    ensures FirstSplit(FormatLine(l), 1, HasSenderSeparator) == Some(1 + |l.time|)
  {
    var item := FormatLine(l);
    var i := 1 + |l.time|;
    FormatLineParts(l);
    SenderEndsAtSeparator(l);
    SenderSeparatorIff(item[i + 2..]);
    NoSeparatorInTime(item, l.time);
    FirstSplitIs(item, 1, HasSenderSeparator, i);
  }

  /** No "] " starts inside the time group or at its last character. */
  lemma NoSeparatorInTime(item: string, time: string)
    requires |item| >= |time| + 2 && item[1..1 + |time|] == time && item[1 + |time|] == ']'
    requires !Contains(time, "] ")
    ensures forall k: nat :: 1 <= k < 1 + |time| ==> !CloseAt(item, k)
  {
    var i := 1 + |time|;
    ContainsIff(time, "] ");
    forall k: nat | 1 <= k < i
      ensures !CloseAt(item, k)
    {
      if k + 2 <= i {
        OccursAtPair(time, "] ", k - 1);
        assert time[k - 1] == item[k] && time[k] == item[k + 1];
      }
    }
  }

  /** In a well-formed line the first ": " after the time ends the sender. */
  lemma SenderEndsAtSeparator(l: Line)
    requires !Contains(l.sender, ": ")
    ensures IndexOf(l.sender + ": " + l.message, ": ") == Some(|l.sender|)
    ensures Contains(l.sender + ": " + l.message, ": ")
  {
    var rest := l.sender + ": " + l.message;
    var n := |l.sender|;
    SenderParts(l.sender, l.message);
    ContainsIff(l.sender, ": ");
    forall k: nat | k < n
      ensures !OccursAt(rest, ": ", k)
    {
      if k + 2 <= n {
        assert rest[k..k + 2] == rest[..n][k..k + 2];
        assert !OccursAt(l.sender, ": ", k);
      } else {
        assert rest[k..k + 2][1] == rest[n];
      }
    }
    assert rest[n..n + 2] == ": ";
    IndexOfIs(rest, ": ", n);
  }

  /** What ParseLine gives once the two separators are found. */
  lemma ParseLineIs(item: string, i: nat, j: nat)
    requires SingleLine(item) && |item| > 0 && item[0] == '['
    requires FirstSplit(item, 1, HasSenderSeparator) == Some(i)
    requires IndexOf(item[i + 2..], ": ") == Some(j)
    ensures ParseLine(item) == Some(GroupsAt(item, i, j))
  {
  }

  /** Parsing a well-formed line gives back its three groups. */
  lemma ParseFormatLine(l: Line)
    requires WellFormed(l)
    ensures ParseLine(FormatLine(l)) == Some(l)
  {
    var item := FormatLine(l);
    var i := 1 + |l.time|;
    FormatLineParts(l);
    SenderParts(l.sender, l.message);
    TimeEndsAfterTime(l);
    SenderEndsAtSeparator(l);
    ParseLineIs(item, i, |l.sender|);
  }

  /** Every single-line text of the form `[a] b: c` matches, whatever a, b and c hold. */
  lemma ParseLineMatches(a: string, b: string, c: string)
    requires SingleLine(FormatLine(Line(a, b, c)))
    ensures ParseLine(FormatLine(Line(a, b, c))).Some?
  {
    var item := FormatLine(Line(a, b, c));
    var i := 1 + |a|;
    var rest := b + ": " + c;
    assert item[i + 2..] == rest;
    assert OccursAt(rest, ": ", |b|);
    ContainsIff(rest, ": ");
    SenderSeparatorIff(rest);
    assert CloseAt(item, i);
    if FirstSplit(item, 1, HasSenderSeparator).None? {
      NoSplit(item, 1, HasSenderSeparator, i);
      assert false;
    }
  }

  // ---------------------------------------------------------------- the rendered cell

  /** The marker a voice note shows instead of its content. */
  const VoiceNoteText := ChatHistoryManager.VoiceNoteText

  /** What `updateItem` leaves in the cell. */
  datatype CellView =
    | Blank
    | Bubble(time: string, sender: string, message: string, own: bool, line: string)
  {
    /** A voice-note bubble, with a play button. */
    predicate IsVoice() {
      Bubble? && message == VoiceNoteText
    }
  }

  /**
   * The rendering decisions of `updateItem`. `hhmm` stands for parsing the
   * time group as a LocalDateTime and formatting it as "HH:mm" (None when
   * the parse throws, in which case the time group is shown as it is).
   */
  function Render(item: Option<string>, empty: bool, currentUsername: Option<string>,
                  hhmm: string -> Option<string>): (v: CellView)
    ensures v.Blank? <==> empty || item.None?
    ensures v.Bubble? ==> v.line == item.value
    ensures v.Bubble? && ParseLine(item.value).Some? ==>
              var l := ParseLine(item.value).value;
              v.sender == l.sender && v.message == l.message && v.time == hhmm(l.time).GetOr(l.time)
    ensures v.Bubble? && ParseLine(item.value).None? ==>
              v.sender == "" && v.message == item.value && v.time == ""
    ensures v.Bubble? ==> (v.own <==> currentUsername.Some? && v.sender == currentUsername.value)
  {
    if empty || item.None? then Blank
    else
      var line := item.value;
      var (time, sender, message) :=
        match ParseLine(line)
        case Some(l) => (hhmm(l.time).GetOr(l.time), l.sender, l.message)
        case None => ("", "", line);
      var own := currentUsername.Some? && sender == currentUsername.value;
      Bubble(time, sender, message, own, line)
  }

  // ---------------------------------------------------------------- the audio path

  /** The pattern's literal key, quotes included. */
  const PathKey := "\"audioFilePath\""

  /** `\s` in a Java pattern. */
  predicate Whitespace(c: char) {
    c == ' ' || c == '\t' || c == '\n' || c == '\U{000B}' || c == '\U{000C}' || c == '\r'
  }

  /** The end of the run of whitespace that starts at `k` (what a greedy `\s*` consumes). */
  function SkipWhitespace(s: string, k: nat): (j: nat)
    requires k <= |s|
    decreases |s| - k
    ensures k <= j <= |s|
    ensures forall i :: k <= i < j ==> Whitespace(s[i])
    ensures j < |s| ==> !Whitespace(s[j])
  {
    if k < |s| && Whitespace(s[k]) then SkipWhitespace(s, k + 1) else k
  }

  /** The end of the run of non-quote characters that starts at `k` (a greedy `[^"]+`). */
  function QuoteFreeEnd(s: string, k: nat): (j: nat)
    requires k <= |s|
    decreases |s| - k
    ensures k <= j <= |s|
    ensures forall i :: k <= i < j ==> s[i] != '"'
    ensures j < |s| ==> s[j] == '"'
  {
    if k < |s| && s[k] != '"' then QuoteFreeEnd(s, k + 1) else k
  }

  /**
   * `"audioFilePath"\s*:\s*"([^"]+)"` matched at index `k`, with its group.
   * Backtracking never helps: the character after a maximal `\s*` or `[^"]+`
   * run is the only one that can follow it.
   */
  function PathFieldAt(s: string, k: nat): (r: Option<string>)
    requires k <= |s|
    ensures r.Some? ==> OccursAt(s, PathKey, k) && |r.value| > 0 && '"' !in r.value
  {
    if !OccursAt(s, PathKey, k) then None
    else
      var a := SkipWhitespace(s, k + |PathKey|);
      if a == |s| || s[a] != ':' then None
      else
        var b := SkipWhitespace(s, a + 1);
        if b == |s| || s[b] != '"' then None
        else
          var e := QuoteFreeEnd(s, b + 1);
          if e == b + 1 || e == |s| then None
          else
            var g := s[b + 1..e];
            assert forall i :: 0 <= i < |g| ==> g[i] == s[b + 1 + i];
            Some(g)
  }

  /** `pathMatcher.find()` from index `from`, and the group of the first match. */
  function FindPathField(s: string, from: nat): (r: Option<string>)
    requires from <= |s|
    decreases |s| - from
    ensures r.Some? ==> |r.value| > 0 && '"' !in r.value
    ensures r.Some? ==> exists k: nat :: from <= k <= |s| && PathFieldAt(s, k) == r
    ensures r.None? ==> forall k: nat :: from <= k <= |s| ==> PathFieldAt(s, k).None?
  {
    var here := PathFieldAt(s, from);
    if here.Some? then here
    else if from == |s| then None
    else FindPathField(s, from + 1)
  }

  /** What the pattern needs before the path: the key, a colon, a space and a quote. */
  const PathHead := PathKey + ": \""

  /** A JSON member written as `"audioFilePath": "p"` is found, and its value is p. */
  lemma FindsPathField(p: string, rest: string)
    requires |p| > 0 && '"' !in p
    ensures FindPathField(PathKey + ": \"" + p + "\"" + rest, 0) == Some(p)
  {
    var s := PathHead + p + "\"" + rest;
    var e := |PathHead| + |p|;
    QuotedAfter(PathHead, p, rest);
    QuoteFreeEndIs(s, |PathHead|, e);
    PathFieldAtIs(s, e);
  }

  /** The pieces of `h + p + "\"" + rest`, for a quote-free p. */
  lemma QuotedAfter(h: string, p: string, rest: string)
    requires '"' !in p
    ensures var s := h + p + "\"" + rest;
      && s[..|h|] == h && s[|h|..|h| + |p|] == p && s[|h| + |p|] == '"'
      && forall i :: |h| <= i < |h| + |p| ==> s[i] != '"'
  {
    var s := h + p + "\"" + rest;
    assert forall i :: |h| <= i < |h| + |p| ==> s[i] == p[i - |h|];
  }

  /** The match at 0 of the head followed by a quote-free run and a quote. */
  lemma PathFieldAtIs(s: string, e: nat)
    requires |PathHead| < e < |s| && s[..|PathHead|] == PathHead
    requires QuoteFreeEnd(s, |PathHead|) == e
    ensures FindPathField(s, 0) == Some(s[|PathHead|..e])
  {
    var n := |PathKey|;
    HeadChars(s);
    assert OccursAt(s, PathKey, 0);
    assert SkipWhitespace(s, n) == n;
    assert SkipWhitespace(s, n + 2) == n + 2;
    assert SkipWhitespace(s, n + 1) == n + 2;
    assert PathFieldAt(s, 0) == Some(s[n + 3..e]);
  }

  /** A string that starts with the head holds the key, ':', ' ' and '"' there. */
  lemma HeadChars(s: string)
    requires |PathHead| <= |s| && s[..|PathHead|] == PathHead
    ensures |PathHead| == |PathKey| + 3 && s[..|PathKey|] == PathKey
    ensures s[|PathKey|] == ':' && s[|PathKey| + 1] == ' ' && s[|PathKey| + 2] == '"'
  {
    assert s[..|PathKey|] == s[..|PathHead|][..|PathKey|];
    assert s[|PathKey|] == PathHead[|PathKey|];
    assert s[|PathKey| + 1] == PathHead[|PathKey| + 1];
    assert s[|PathKey| + 2] == PathHead[|PathKey| + 2];
  }

  /** The end of a quote-free run is its first quote. */
  lemma QuoteFreeEndIs(s: string, k: nat, j: nat)
    requires k <= j < |s|
    requires forall i :: k <= i < j ==> s[i] != '"'
    requires s[j] == '"'
    ensures QuoteFreeEnd(s, k) == j
    decreases j - k
  {
    if k < j {
      QuoteFreeEndIs(s, k + 1, j);
    }
  }

  /** What the voice-note marker line ends with. */
  const VoiceSuffix := ": " + VoiceNoteText

  /** The rest of the line after "] " is accepted by `(.*?): \[Mensaje de voz\]$`. */
  predicate EndsWithVoiceSuffix(t: string) {
    EndsWith(t, VoiceSuffix)
  }

  /** The fallback pattern `^\[(.*?)\] (.*?): \[Mensaje de voz\]$`: its time and sender groups. */
  function MatchVoiceLine(item: string): (r: Option<(string, string)>)
    ensures r.Some? ==> item == "[" + r.value.0 + "] " + r.value.1 + VoiceSuffix
  {
    if !SingleLine(item) || |item| == 0 || item[0] != '[' then None
    else
      match FirstSplit(item, 1, EndsWithVoiceSuffix)
      case None => None
      case Some(i) =>
        VoiceLineSound(item, i);
        Some((item[1..i], item[i + 2..][..|item[i + 2..]| - |VoiceSuffix|]))
  }

  lemma VoiceLineSound(item: string, i: nat)
    requires |item| > 0 && item[0] == '['
    requires 1 <= i && CloseAt(item, i) && EndsWithVoiceSuffix(item[i + 2..])
    ensures var rest := item[i + 2..];
      item == "[" + item[1..i] + "] " + rest[..|rest| - |VoiceSuffix|] + VoiceSuffix
  {
    var rest := item[i + 2..];
    var p := |rest| - |VoiceSuffix|;
    assert rest == rest[..p] + rest[p..];
    FourParts(item, 1, i);
    OccursAtPair(item, "] ", i);
    assert item[..1] == "[";
    Associate("[" + item[1..i] + "] ", rest[..p], VoiceSuffix);
  }

  /** Appending a concatenation is appending its two parts in turn. */
  lemma Associate(p: string, a: string, b: string)
    ensures p + (a + b) == p + a + b
  {
  }

  /** `dateHour.replaceAll("[:.]", "-")`. */
  function SafeTimestamp(ts: string): (r: string)
    ensures |r| == |ts| && ':' !in r && '.' !in r
  {
    ReplaceChars(ts, {':', '.'}, '-')
  }

  /** The file name a voice note gets: `<user>_<timestamp with ':' and '.' as '-'>.wav`. */
  function VoiceNoteFileName(username: string, ts: string): string {
    username + "_" + SafeTimestamp(ts) + ".wav"
  }

  /**
   * The relative audio path the play button uses: the `audioFilePath` JSON
   * member when the current item holds one, else the path rebuilt from the
   * time and sender of a voice-note line, else none.
   */
  function AudioFilePath(current: Option<string>, line: string): (r: Option<string>)
    ensures (current.Some? && Contains(current.value, "audioFilePath") && FindPathField(current.value, 0).Some?)
            ==> r == FindPathField(current.value, 0)
    ensures !(current.Some? && Contains(current.value, "audioFilePath") && FindPathField(current.value, 0).Some?) ==>
              match MatchVoiceLine(line)
              case Some((t, s)) => r == Some("history/audio/" + VoiceNoteFileName(s, t))
              case None => r.None?
  {
    var fromJson :=
      if current.Some? && Contains(current.value, "audioFilePath") then FindPathField(current.value, 0)
      else None;
    if fromJson.Some? then fromJson
    else
      match MatchVoiceLine(line)
      case Some((t, s)) => Some("history/audio/" + VoiceNoteFileName(s, t))
      case None => None
  }

  /**
   * On a voice-note line both patterns agree: the fallback pattern finds the
   * same time and sender as the line parse.
   */
  lemma VoiceLineAgreesWithParse(l: Line)
    requires WellFormed(l) && l.message == VoiceNoteText
    ensures MatchVoiceLine(FormatLine(l)) == Some((l.time, l.sender))
  {
    var item := FormatLine(l);
    var i := 1 + |l.time|;
    FormatLineParts(l);
    VoiceRest(l.sender);
    NoSeparatorInTime(item, l.time);
    FirstSplitIs(item, 1, EndsWithVoiceSuffix, i);
    MatchVoiceLineIs(item, i);
  }

  /** The text after the time on a voice-note line, and its sender part. */
  lemma VoiceRest(sender: string)
    ensures var rest := sender + ": " + VoiceNoteText;
      && rest == sender + VoiceSuffix && EndsWithVoiceSuffix(rest)
      && rest[..|rest| - |VoiceSuffix|] == sender
  {
    var rest := sender + ": " + VoiceNoteText;
    assert rest == sender + VoiceSuffix;
    assert rest[|rest| - |VoiceSuffix|..] == VoiceSuffix;
  }

  /** What MatchVoiceLine gives once the first "] " before the suffix is found. */
  lemma MatchVoiceLineIs(item: string, i: nat)
    requires SingleLine(item) && |item| > 0 && item[0] == '['
    requires FirstSplit(item, 1, EndsWithVoiceSuffix) == Some(i)
    ensures var rest := item[i + 2..];
      MatchVoiceLine(item) == Some((item[1..i], rest[..|rest| - |VoiceSuffix|]))
  {
  }

  /** The time group of a parsed line ends at index 1 + |time|. */
  lemma FirstSplitIs(item: string, from: nat, rest: string -> bool, i: nat)
    requires from <= i <= |item|
    requires CloseAt(item, i) && rest(item[i + 2..])
    requires forall k: nat :: from <= k < i && CloseAt(item, k) ==> !rest(item[k + 2..])
    ensures FirstSplit(item, from, rest) == Some(i)
    decreases i - from
  {
    if from < i {
      FirstSplitIs(item, from + 1, rest, i);
    }
  }

  // ---------------------------------------------------------------- the cell

  /** A list cell: the current user's name, the item shown, and what it renders. */
  class MessageCell {
    var currentUsername: Option<string>
    var item: Option<string>
    var view: CellView

    /** `new MessageCell()`: an empty cell with no user yet. */
    constructor()
      ensures currentUsername.None? && item.None? && view.Blank?
    {
      currentUsername := None;
      item := None;
      view := Blank;
    }

    /** `setCurrentUsername(username)`: changes the user only; the cell is not redrawn. */
    method SetCurrentUsername(username: Option<string>)
      modifies this
      ensures currentUsername == username
      ensures item == old(item) && view == old(view)
    {
      currentUsername := username;
    }

    /** `updateItem(item, empty)`: stores the item and redraws the cell. */
    method UpdateItem(newItem: Option<string>, empty: bool, hhmm: string -> Option<string>)
      modifies this
      ensures item == newItem && currentUsername == old(currentUsername)
      ensures view == Render(newItem, empty, currentUsername, hhmm)
      ensures view.Blank? <==> empty || newItem.None?
      ensures view.Bubble? ==> (view.own <==> currentUsername.Some? && view.sender == currentUsername.value)
    {
      item := newItem;
      view := Render(newItem, empty, currentUsername, hhmm);
    }

    /**
     * The file the play button of a voice-note bubble opens:
     * `"userdata/" + (isOwn ? currentUsername : sender) + "/" + audioFilePath`,
     * or None when no path can be determined (the error dialog). The button
     * reads the cell's current item and user when it is pressed.
     */
    function PlayPath(): (r: Option<string>)
      reads this
      requires view.IsVoice()
      ensures r.None? <==> AudioFilePath(item, view.line).None?
      ensures r.Some? && (view.own ==> currentUsername == Some(view.sender)) ==>
                r.value == "userdata/" + view.sender + "/" + AudioFilePath(item, view.line).value
    {
      var v, user := view, currentUsername;
      match AudioFilePath(item, v.line)
      case None => None
      case Some(p) =>
        var owner := if v.own then user.GetOr("null") else v.sender;
        Some("userdata/" + owner + "/" + p)
    }
  }
}
