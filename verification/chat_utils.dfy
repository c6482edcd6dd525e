/**
 * chat.common.util.ChatUtils: the on-disk user name scheme. A user's folder
 * is named `<name>__<hex>`, where `<hex>` is six lower-case hexadecimal
 * digits of the SHA-1 digest of the name; `getBaseName` recovers the name.
 *
 * SHA-1 (FIPS PUB 180-4, section 6.1) is not computed here: every member
 * that needs it takes the digest function `sha1` as a parameter.
 */
module ChatUtils {
  import opened Model
  import opened JavaStrings
  import opened Wrappers

  /** A SHA-1 digest: 20 bytes. */
  type Digest = d: seq<Byte> | |d| == 20 witness seq(20, _ => 0)

  /** `getBaseName`: the text before the first "__", or all of it when there is none. */
  function GetBaseName(dirName: string): (r: string)
    ensures r <= dirName
    ensures !Contains(r, "__")
    ensures Contains(dirName, "__") ==> OccursAt(dirName, "__", |r|)
    ensures !Contains(dirName, "__") ==> r == dirName
  {
    match IndexOf(dirName, "__")
    case Some(idx) =>
      var r := dirName[..idx];
      NoEarlierOccurrence(dirName, r, "__", idx);
      r
    case None => dirName
  }

  /** Base names are fixed points: the base name of a base name is itself. */
  lemma GetBaseNameIdempotent(s: string)
    ensures GetBaseName(GetBaseName(s)) == GetBaseName(s)
  {
  }

  /** The lower-case hexadecimal digits, in value order. */
  const HexDigits := "0123456789abcdef"

  /** One lower-case hexadecimal digit. */
  function HexDigit(v: nat): (c: char)
    requires v < 16
    ensures c in HexDigits
  {
    HexDigits[v]
  }

  /** `String.format("%02x", b)` of a byte: two lower-case hex digits, high nibble first. */
  function HexByte(b: Byte): (r: string)
    ensures |r| == 2 && r[0] in HexDigits && r[1] in HexDigits
  {
    [HexDigit(b / 16), HexDigit(b % 16)]
  }

  /** The value of a lower-case hexadecimal digit. */
  function HexValue(c: char): (v: nat)
    requires c in HexDigits
    ensures v < 16 && HexDigit(v) == c
  {
    if '0' <= c <= '9' then c as int - '0' as int else c as int - 'a' as int + 10
  }

  /** The hex digits of the first `n` digest bytes, in order. */
  function HexPrefix(digest: Digest, n: nat): (r: string)
    requires n <= 20
    ensures |r| == 2 * n
  {
    if n == 0 then "" else HexPrefix(digest, n - 1) + HexByte(digest[n - 1])
  }

  /** The hexadecimal suffix of a safe name: the first three digest bytes. */
  function HashSuffix(digest: Digest): (r: string)
    ensures |r| == 6
    ensures forall i :: 0 <= i < 6 ==> r[i] in HexDigits
  {
    var a, b, c := HexByte(digest[0]), HexByte(digest[1]), HexByte(digest[2]);
    assert forall i :: 0 <= i < 2 ==> a[i] in HexDigits && b[i] in HexDigits && c[i] in HexDigits;
    a + b + c
  }

  lemma HexPrefixThree(digest: Digest)
    ensures HexPrefix(digest, 3) == HashSuffix(digest)
  {
    assert HexPrefix(digest, 1) == HexByte(digest[0]);
  }

  /** `getSafeName(name)`. */
  function SafeName(name: string, sha1: string -> Digest): (r: string)
    ensures |r| == |name| + 8
    ensures r[..|name|] == name && r[|name|..|name| + 2] == "__"
  {
    name + "__" + HashSuffix(sha1(name))
  }

  /** Decoding the six digits of the suffix gives back the first three digest bytes. */
  lemma HashSuffixDecodes(digest: Digest)
    ensures var s := HashSuffix(digest);
      forall i :: 0 <= i < 3 ==> HexValue(s[2 * i]) * 16 + HexValue(s[2 * i + 1]) == digest[i]
  {
    forall i | 0 <= i < 3
      ensures HexValue(HashSuffix(digest)[2 * i]) * 16 + HexValue(HashSuffix(digest)[2 * i + 1]) == digest[i]
    {
      SuffixByteDecodes(digest, i);
    }
  }

  /** The digits at positions 2i and 2i+1 of the suffix are those of digest byte i. */
  lemma SuffixByteDecodes(digest: Digest, i: nat)
    requires i < 3
    ensures var s := HashSuffix(digest);
      HexValue(s[2 * i]) * 16 + HexValue(s[2 * i + 1]) == digest[i]
  {
    var s := HashSuffix(digest);
    var a, b, c := HexByte(digest[0]), HexByte(digest[1]), HexByte(digest[2]);
    assert s == a + b + c;
    HexByteDecodes(digest[i]);
    if i == 0 {
      assert s[0] == a[0] && s[1] == a[1];
    } else if i == 1 {
      assert s[2] == b[0] && s[3] == b[1];
    } else {
      assert s[4] == c[0] && s[5] == c[1];
    }
  }

  /** The two digits of a byte read back as a number are the byte. */
  lemma HexByteDecodes(b: Byte)
    ensures var h := HexByte(b); HexValue(h[0]) * 16 + HexValue(h[1]) == b
  {
    var h := HexByte(b);
    HexDigitInjective(HexValue(h[0]), b / 16);
    HexDigitInjective(HexValue(h[1]), b % 16);
  }

  lemma HexDigitInjective(a: nat, b: nat)
    requires a < 16 && b < 16 && HexDigit(a) == HexDigit(b)
    ensures a == b
  {
  }

  /**
   * `getSafeName`, as the source computes it: three passes of a loop that
   * append two hexadecimal digits each.
   */
  method GetSafeName(name: string, sha1: string -> Digest) returns (r: string)
    ensures r == SafeName(name, sha1)
  {
    var hash := sha1(name);
    var sb := "";
    var i := 0;
    while i < 3
      invariant 0 <= i <= 3
      invariant sb == HexPrefix(hash, i)
    {
      HexPrefixStep(hash, i);
      sb := sb + HexByte(hash[i]);
      i := i + 1;
    }
    SafeNameOfPrefix(name, sha1, sb);
    r := name + "__" + sb;
  }

  lemma HexPrefixStep(digest: Digest, i: nat)
    requires i < 20
    ensures HexPrefix(digest, i + 1) == HexPrefix(digest, i) + HexByte(digest[i])
  {
  }

  lemma SafeNameOfPrefix(name: string, sha1: string -> Digest, sb: string)
    requires sb == HexPrefix(sha1(name), 3)
    ensures name + "__" + sb == SafeName(name, sha1)
  {
    HexPrefixThree(sha1(name));
  }

  /**
   * The folder name of a safe name leads back to the name, provided the name
   * has no "__" and does not end in '_' (either would move the first "__").
   */
  lemma BaseOfSafeName(name: string, sha1: string -> Digest)
    requires !Contains(name, "__")
    requires name == [] || name[|name| - 1] != '_'
    ensures GetBaseName(SafeName(name, sha1)) == name
  {
    var t := "__" + HashSuffix(sha1(name));
    assert SafeName(name, sha1) == name + t;
    BaseBeforeUnderscores(name, t);
  }

  /** A name with no "__" and no trailing '_', followed by text starting "__", is cut back to the name. */
  lemma BaseBeforeUnderscores(name: string, t: string)
    requires !Contains(name, "__")
    requires name == [] || name[|name| - 1] != '_'
    requires |t| >= 2 && t[0] == '_' && t[1] == '_'
    ensures GetBaseName(name + t) == name
  {
    var s := name + t;
    ContainsIff(name, "__");
    forall k: nat | k < |name|
      ensures !OccursAt(s, "__", k)
    {
      OccursAtPair(s, "__", k);
      if k + 2 <= |name| {
        OccursAtPair(name, "__", k);
        assert s[k] == name[k] && s[k + 1] == name[k + 1];
      } else {
        assert s[k] == name[|name| - 1];
      }
    }
    OccursAtPair(s, "__", |name|);
    assert s[|name|] == t[0] && s[|name| + 1] == t[1];
    IndexOfIs(s, "__", |name|);
    assert s[..|name|] == name;
  }

  /** The safe name of a name that contains "__" does not lead back to it. */
  lemma BaseOfSafeNameLosesUnderscores(name: string, sha1: string -> Digest)
    requires Contains(name, "__")
    ensures GetBaseName(SafeName(name, sha1)) != name
  {
    // a base name never contains "__", and this name does
    var b := GetBaseName(SafeName(name, sha1));
    assert !Contains(b, "__");
  }

  /**
   * `ensureUserExists(displayName, userdataDir)`: its result is the safe name,
   * whatever the creation of the folder and of user.json does.
   */
  function EnsureUserExists(displayName: string, userdataDir: string, sha1: string -> Digest): (r: string)
    ensures |r| == |displayName| + 8
    ensures r[..|displayName|] == displayName && r[|displayName|..|displayName| + 2] == "__"
    ensures !Contains(displayName, "__") && (displayName == [] || displayName[|displayName| - 1] != '_')
            ==> GetBaseName(r) == displayName
  {
    var r := SafeName(displayName, sha1);
    if !Contains(displayName, "__") && (displayName == [] || displayName[|displayName| - 1] != '_') then
      BaseOfSafeName(displayName, sha1); r
    else r
  }
}
