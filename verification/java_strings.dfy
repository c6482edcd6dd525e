/**
 * The parts of java.lang.String that the chat code relies on, over `seq<char>`:
 * indexOf / lastIndexOf / contains / startsWith, trim, ASCII case mapping,
 * split on a one-character delimiter, and the character replacements that the
 * code writes as regular expressions (`replaceAll("[:.]", "-")`).
 */
module JavaStrings {
  import opened Wrappers

  /** `pat` occurs in `s` starting at index `k`. */
  predicate OccursAt(s: string, pat: string, k: nat) {
    k + |pat| <= |s| && s[k..k + |pat|] == pat
  }

  /** `s.indexOf(pat, from)`: the first occurrence of `pat` at or after `from`. */
  function IndexOfFrom(s: string, pat: string, from: nat): (r: Option<nat>)
    requires from <= |s|
    decreases |s| - from
    ensures r.Some? ==> from <= r.value && OccursAt(s, pat, r.value)
    ensures r.Some? ==> forall k: nat :: from <= k < r.value ==> !OccursAt(s, pat, k)
    ensures r.None? ==> forall k: nat :: from <= k ==> !OccursAt(s, pat, k)
  {
    if OccursAt(s, pat, from) then Some(from)
    else if from == |s| then None
    else IndexOfFrom(s, pat, from + 1)
  }

  /** `s.indexOf(pat)`. */
  function IndexOf(s: string, pat: string): Option<nat> {
    IndexOfFrom(s, pat, 0)
  }

  /** `s.contains(pat)`. */
  predicate Contains(s: string, pat: string) {
    IndexOf(s, pat).Some?
  }

  lemma ContainsIff(s: string, pat: string)
    ensures Contains(s, pat) <==> exists k: nat :: OccursAt(s, pat, k)
  {
  }

  /** A prefix cut before the first occurrence of `pat` does not contain `pat`. */
  lemma NoEarlierOccurrence(s: string, r: string, pat: string, idx: nat)
    requires idx <= |s| && r == s[..idx] && |pat| > 0
    requires forall k: nat :: k < idx ==> !OccursAt(s, pat, k)
    ensures !Contains(r, pat)
  {
    ContainsIff(r, pat);
    forall k: nat
      ensures !OccursAt(r, pat, k)
    {
      if k + |pat| <= |r| {
        assert r[k..k + |pat|] == s[k..k + |pat|];
        assert !OccursAt(s, pat, k);
      }
    }
  }

  /** The first occurrence of `pat` is at `i` when it occurs there and nowhere before. */
  lemma IndexOfIs(s: string, pat: string, i: nat)
    requires OccursAt(s, pat, i)
    requires forall k: nat :: k < i ==> !OccursAt(s, pat, k)
    ensures IndexOf(s, pat) == Some(i)
  {
  }

  /** A two-character pattern occurs at `k` exactly when its two characters sit there. */
  lemma OccursAtPair(s: string, pat: string, k: nat)
    requires |pat| == 2
    ensures OccursAt(s, pat, k) <==> k + 2 <= |s| && s[k] == pat[0] && s[k + 1] == pat[1]
  {
    if k + 2 <= |s| && s[k] == pat[0] && s[k + 1] == pat[1] {
      assert s[k..k + 2] == pat;
    }
  }

  /** `s.startsWith(p)`. */
  predicate StartsWith(s: string, p: string) {
    OccursAt(s, p, 0)
  }

  /** `s.lastIndexOf(c)`. */
  function LastIndexOfChar(s: string, c: char): (r: Option<nat>)
    ensures r.Some? ==> r.value < |s| && s[r.value] == c && c !in s[r.value + 1..]
    ensures r.None? ==> c !in s
  {
    if |s| == 0 then None
    else if s[|s| - 1] == c then Some(|s| - 1)
    else
      var r := LastIndexOfChar(s[..|s| - 1], c);
      assert s == s[..|s| - 1] + [s[|s| - 1]];
      r
  }

  // ---------------------------------------------------------------- trim

  /** Java's trim() removes every character whose code is at most U+0020. */
  predicate Blank(c: char) {
    c <= ' '
  }

  function LeadingBlanks(s: string): (n: nat)
    ensures n <= |s|
    ensures forall k :: 0 <= k < n ==> Blank(s[k])
    ensures n < |s| ==> !Blank(s[n])
  {
    if |s| > 0 && Blank(s[0]) then 1 + LeadingBlanks(s[1..]) else 0
  }

  function TrailingBlanks(s: string): (n: nat)
    ensures n <= |s|
    ensures forall k :: |s| - n <= k < |s| ==> Blank(s[k])
    ensures n < |s| ==> !Blank(s[|s| - n - 1])
  {
    if |s| > 0 && Blank(s[|s| - 1]) then 1 + TrailingBlanks(s[..|s| - 1]) else 0
  }

  /** `s.trim()`. */
  function Trim(s: string): (r: string)
    ensures r == "" || (!Blank(r[0]) && !Blank(r[|r| - 1]))
  {
    var t := s[LeadingBlanks(s)..];
    t[..|t| - TrailingBlanks(t)]
  }

  // ---------------------------------------------------------------- case

  /** Lower-case mapping of one character, ASCII letters only. */
  function LowerChar(c: char): char {
    if 'A' <= c <= 'Z' then (c as int + 32) as char else c
  }

  /** `s.toLowerCase()`, ASCII letters only. */
  function ToLower(s: string): (r: string)
    ensures |r| == |s|
    ensures forall i :: 0 <= i < |s| ==> r[i] == LowerChar(s[i])
  {
    seq(|s|, i requires 0 <= i < |s| => LowerChar(s[i]))
  }

  /** `a.equalsIgnoreCase(b)`; a null `b` never matches. */
  predicate EqualsIgnoreCase(a: string, b: Option<string>) {
    b.Some? && ToLower(a) == ToLower(b.value)
  }

  // ---------------------------------------------------------------- split

  /** Every piece of `s` between occurrences of `d`, empty pieces included. */
  function SplitAll(s: string, d: char): (parts: seq<string>)
    ensures |parts| >= 1
    ensures forall i :: 0 <= i < |parts| ==> d !in parts[i]
  {
    if |s| == 0 then [""]
    else
      var rest := SplitAll(s[1..], d);
      if s[0] == d then [""] + rest
      else [[s[0]] + rest[0]] + rest[1..]
  }

  /** The inverse of SplitAll: the pieces glued back together with `d`. */
  function JoinWith(parts: seq<string>, d: char): string
    requires |parts| >= 1
  {
    if |parts| == 1 then parts[0] else parts[0] + [d] + JoinWith(parts[1..], d)
  }

  lemma {:induction false} SplitAllJoin(s: string, d: char)
    ensures JoinWith(SplitAll(s, d), d) == s
  {
    if |s| > 0 {
      var rest := SplitAll(s[1..], d);
      SplitAllJoin(s[1..], d);
      if s[0] == d {
        assert SplitAll(s, d)[1..] == rest;
      } else {
        var parts := SplitAll(s, d);
        if |rest| == 1 {
          assert parts == [[s[0]] + rest[0]];
        } else {
          assert parts[1..] == rest[1..];
          assert JoinWith(rest, d) == rest[0] + [d] + JoinWith(rest[1..], d);
        }
      }
    }
  }

  /** `parts` without its trailing empty strings. */
  function DropTrailingEmpty(parts: seq<string>): (r: seq<string>)
    ensures |r| <= |parts| && r == parts[..|r|]
    ensures r == [] || r[|r| - 1] != ""
    ensures forall i :: |r| <= i < |parts| ==> parts[i] == ""
  {
    if |parts| > 0 && parts[|parts| - 1] == "" then DropTrailingEmpty(parts[..|parts| - 1])
    else parts
  }

  /**
   * `s.split(String.valueOf(d))` for a delimiter that is not a regex
   * metacharacter: when `d` does not occur the result is `[s]` (so `""`
   * gives `[""]`); otherwise every piece, with trailing empty pieces removed.
   */
  function Split(s: string, d: char): (parts: seq<string>)
    ensures forall i :: 0 <= i < |parts| ==> d !in parts[i]
    ensures d !in s ==> parts == [s]
    ensures d in s ==> parts == [] || parts[|parts| - 1] != ""
  {
    if d !in s then [s] else DropTrailingEmpty(SplitAll(s, d))
  }

  // ---------------------------------------------------------------- replace

  /** `s.replaceAll("[...]", String.valueOf(repl))`: each character of `cs` becomes `repl`. */
  function ReplaceChars(s: string, cs: set<char>, repl: char): (r: string)
    ensures |r| == |s|
    ensures forall i :: 0 <= i < |s| ==> r[i] == (if s[i] in cs then repl else s[i])
  {
    seq(|s|, i requires 0 <= i < |s| => if s[i] in cs then repl else s[i])
  }

  /**
   * `s.replaceAll("[...]", "")`: the characters of `cs` are deleted. Every
   * other character is kept as often as it occurs, and a text with none of
   * them comes back unchanged.
   */
  function RemoveChars(s: string, cs: set<char>): (r: string)
    ensures |r| <= |s|
    ensures forall c :: c in r <==> c in s && c !in cs
    ensures forall c :: c !in cs ==> multiset(r)[c] == multiset(s)[c]
    ensures (forall i :: 0 <= i < |s| ==> s[i] !in cs) ==> r == s
  {
    if |s| == 0 then ""
    else
      assert s == [s[0]] + s[1..];
      if s[0] in cs then RemoveChars(s[1..], cs)
      else [s[0]] + RemoveChars(s[1..], cs)
  }

  /** Deleting characters from a concatenation deletes them from each part, keeping the order. */
  lemma {:induction false} RemoveCharsConcat(a: string, b: string, cs: set<char>)
    ensures RemoveChars(a + b, cs) == RemoveChars(a, cs) + RemoveChars(b, cs)
    decreases |a|
  {
    if |a| == 0 {
      assert a + b == b;
    } else {
      assert (a + b)[0] == a[0] && (a + b)[1..] == a[1..] + b;
      RemoveCharsConcat(a[1..], b, cs);
    }
  }
}
