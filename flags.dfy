/** Flag helpers shared by modified_sub-storenode.js and name.js:
    `getFlagEmoji` (a country code to its emoji flag sequence, Unicode
    Technical Standard #51, definition ED-14, with the TW flag replaced by
    the CN flag), `String.prototype.trim`, and `removeFlag` both as written
    and as evidently intended. Strings are sequences of Unicode scalar values;
    where JavaScript works on UTF-16 code units the model encodes explicitly. */
module Flags {

  /** 127397 = 0x1F1E6 - 'A': the offset from an ASCII capital letter to its
      regional indicator symbol. */
  const RegionalOffset: int := 127397

  /** `toUpperCase` on ASCII: a..z become A..Z, every other character is kept. */
  function UpperAscii(c: char): (u: char)
    ensures 'a' <= c <= 'z' ==> u as int == c as int - 32
    ensures !('a' <= c <= 'z') ==> u == c
  {
    if 'a' <= c <= 'z' then (c as int - 32) as char else c
  }

  function UpperAsciiString(s: string): (r: string)
    ensures |r| == |s|
    ensures forall i :: 0 <= i < |s| ==> r[i] == UpperAscii(s[i])
  {
    if s == [] then [] else [UpperAscii(s[0])] + UpperAsciiString(s[1..])
  }

  /** UTF-16 code units of one scalar value (what `split('')` and `charCodeAt` see). */
  function CodeUnits(c: char): (us: seq<int>)
    ensures 1 <= |us| <= 2
    ensures forall i :: 0 <= i < |us| ==> 0 <= us[i] < 0x10000
    ensures c as int < 0x10000 ==> us == [c as int]
  {
    if c as int < 0x10000 then [c as int]
    else
      var v := c as int - 0x10000;
      [0xD800 + v / 0x400, 0xDC00 + v % 0x400]
  }

  function Utf16(s: string): (us: seq<int>)
    ensures forall i :: 0 <= i < |us| ==> 0 <= us[i] < 0x10000
  {
    if s == [] then [] else CodeUnits(s[0]) + Utf16(s[1..])
  }

  /** The code point `127397 + u` for a code unit `u`; always a valid scalar value
      (between U+1F1A5 and U+2F1A4), so `String.fromCodePoint` never throws here. */
  function Indicator(u: int): (c: char)
    requires 0 <= u < 0x10000
    ensures c as int == RegionalOffset + u
  {
    (RegionalOffset + u) as char
  }

  function Indicators(us: seq<int>): (r: string)
    requires forall i :: 0 <= i < |us| ==> 0 <= us[i] < 0x10000
    ensures |r| == |us|
  {
    if us == [] then [] else [Indicator(us[0])] + Indicators(us[1..])
  }

  const RegionalT: char := '\U{1F1F9}'
  const RegionalW: char := '\U{1F1FC}'
  const RegionalC: char := '\U{1F1E8}'
  const RegionalN: char := '\U{1F1F3}'

  /** `.replace(/🇹🇼/g, '🇨🇳')` on a string of code points that are all outside the
      BMP, where UTF-16 matching and code-point matching agree. */
  function ReplaceTaiwan(s: string): (r: string)
    ensures |r| == |s|
  {
    if |s| >= 2 && s[0] == RegionalT && s[1] == RegionalW then [RegionalC, RegionalN] + ReplaceTaiwan(s[2..])
    else if s == [] then []
    else [s[0]] + ReplaceTaiwan(s[1..])
  }

  /** getFlagEmoji (modified_sub-storenode.js:75-83 and, identically, name.js:52-60). */
  function FlagEmoji(countryCode: string): string {
    ReplaceTaiwan(Indicators(Utf16(UpperAsciiString(countryCode))))
  }

  predicate IsRegional(c: char) {
    0x1F1E6 <= c as int <= 0x1F1FF
  }

  /** Whether a Taiwan flag (the pair T, W of regional indicators) starts at index i. */
  predicate TaiwanAt(s: string, i: int) {
    0 <= i && i + 1 < |s| && s[i] == RegionalT && s[i + 1] == RegionalW
  }

  lemma {:induction false} IndicatorsAt(us: seq<int>, i: nat)
    requires forall k :: 0 <= k < |us| ==> 0 <= us[k] < 0x10000
    requires i < |us|
    ensures Indicators(us)[i] as int == RegionalOffset + us[i]
  {
    if i > 0 {
      IndicatorsAt(us[1..], i - 1);
    }
  }

  lemma {:induction false} Utf16OfBmp(s: string)
    requires forall i :: 0 <= i < |s| ==> s[i] as int < 0x10000
    ensures |Utf16(s)| == |s|
    ensures forall i :: 0 <= i < |s| ==> Utf16(s)[i] == s[i] as int
  {
    if s != [] {
      Utf16OfBmp(s[1..]);
    }
  }

  /** Every index of the result keeps its code point, except the two halves of
      each Taiwan flag, which become the two halves of the China flag. */
  lemma {:induction false} ReplaceTaiwanAt(s: string, i: nat)
    requires i < |s|
    ensures ReplaceTaiwan(s)[i] ==
      if TaiwanAt(s, i) then RegionalC
      else if TaiwanAt(s, i - 1) then RegionalN
      else s[i]
  {
    if |s| >= 2 && s[0] == RegionalT && s[1] == RegionalW {
      if i >= 2 {
        var t := s[2..];
        ReplaceTaiwanAt(t, i - 2);
        assert forall k :: 2 <= k < |s| ==> s[k] == t[k - 2];
        assert TaiwanAt(s, i) == TaiwanAt(t, i - 2);
        assert TaiwanAt(s, i - 1) == TaiwanAt(t, i - 3);
      }
    } else if i > 0 {
      var t := s[1..];
      ReplaceTaiwanAt(t, i - 1);
      assert forall k :: 1 <= k < |s| ==> s[k] == t[k - 1];
      assert TaiwanAt(s, i) == TaiwanAt(t, i - 1);
      assert i >= 2 ==> TaiwanAt(s, i - 1) == TaiwanAt(t, i - 2);
    }
  }

  /** No Taiwan flag survives the replacement. */
  lemma ReplaceTaiwanLeavesNone(s: string, i: int)
    ensures !TaiwanAt(ReplaceTaiwan(s), i)
  {
    if 0 <= i && i + 1 < |s| {
      ReplaceTaiwanAt(s, i);
      ReplaceTaiwanAt(s, i + 1);
    }
  }

  /** For a country code of BMP characters, getFlagEmoji emits one code point per
      character, `127397 + code(upper(c))`, except that a TW pair becomes CN. */
  lemma FlagEmojiAt(countryCode: string, i: nat)
    requires forall k :: 0 <= k < |countryCode| ==> countryCode[k] as int < 0x10000
    requires i < |countryCode|
    ensures |FlagEmoji(countryCode)| == |countryCode|
    ensures var raw := Indicators(Utf16(UpperAsciiString(countryCode)));
      && raw[i] as int == RegionalOffset + UpperAscii(countryCode[i]) as int
      && FlagEmoji(countryCode)[i] ==
           if TaiwanAt(raw, i) then RegionalC else if TaiwanAt(raw, i - 1) then RegionalN else raw[i]
  {
    var up := UpperAsciiString(countryCode);
    assert forall k :: 0 <= k < |up| ==> up[k] as int < 0x10000;
    Utf16OfBmp(up);
    IndicatorsAt(Utf16(up), i);
    ReplaceTaiwanAt(Indicators(Utf16(up)), i);
  }

  /** An ASCII letter of either case maps to its regional indicator, U+1F1E6..U+1F1FF. */
  lemma FlagEmojiOfLetter(c: char)
    requires 'A' <= c <= 'Z' || 'a' <= c <= 'z'
    ensures |FlagEmoji([c])| == 1
    ensures IsRegional(FlagEmoji([c])[0])
    ensures FlagEmoji([c])[0] as int == 0x1F1E6 + (UpperAscii(c) as int - 'A' as int)
  {
    FlagEmojiAt([c], 0);
  }

  /** The TW flag is replaced by the CN flag, so Taiwan and China get the same emoji. */
  lemma TaiwanGetsChinaFlag()
    ensures FlagEmoji("tw") == FlagEmoji("CN") == [RegionalC, RegionalN]
  {
    FlagEmojiAt("tw", 0);
    FlagEmojiAt("tw", 1);
    FlagEmojiAt("CN", 0);
    FlagEmojiAt("CN", 1);
  }

  /** A two-letter country code yields exactly two regional indicators: one flag. */
  lemma FlagEmojiOfTwoLetters(countryCode: string)
    requires |countryCode| == 2
    requires forall k :: 0 <= k < 2 ==> 'A' <= countryCode[k] <= 'Z' || 'a' <= countryCode[k] <= 'z'
    ensures |FlagEmoji(countryCode)| == 2
    ensures IsRegional(FlagEmoji(countryCode)[0]) && IsRegional(FlagEmoji(countryCode)[1])
  {
    FlagEmojiAt(countryCode, 0);
    FlagEmojiAt(countryCode, 1);
  }

  // ---------------------------------------------------------------- trim

  /** ECMAScript WhiteSpace and LineTerminator, the characters `trim` removes. */
  predicate IsJsSpace(c: char) {
    c == '\t' || c == '\n' || c == '\U{000B}' || c == '\U{000C}' || c == '\r' || c == ' '
    || c == '\U{00A0}' || c == '\U{1680}' || ('\U{2000}' <= c <= '\U{200A}')
    || c == '\U{2028}' || c == '\U{2029}' || c == '\U{202F}' || c == '\U{205F}'
    || c == '\U{3000}' || c == '\U{FEFF}'
  }

  /** The first index at or after `i` that does not hold whitespace (or |s|). */
  function SpaceFrom(s: string, i: nat): (n: nat)
    requires i <= |s|
    ensures i <= n <= |s|
    ensures n == |s| || !IsJsSpace(s[n])
    decreases |s| - i
  {
    if i < |s| && IsJsSpace(s[i]) then SpaceFrom(s, i + 1) else i
  }

  lemma {:induction false} SpaceFromSkipsSpace(s: string, i: nat)
    requires i <= |s|
    ensures forall k :: i <= k < SpaceFrom(s, i) ==> IsJsSpace(s[k])
    decreases |s| - i
  {
    if i < |s| && IsJsSpace(s[i]) {
      SpaceFromSkipsSpace(s, i + 1);
    }
  }

  /** The end of `s[..j]` once its trailing whitespace is dropped. */
  function SpaceUntil(s: string, j: nat): (n: nat)
    requires j <= |s|
    ensures n <= j
    ensures n == 0 || !IsJsSpace(s[n - 1])
  {
    if j > 0 && IsJsSpace(s[j - 1]) then SpaceUntil(s, j - 1) else j
  }

  lemma {:induction false} SpaceUntilSkipsSpace(s: string, j: nat)
    requires j <= |s|
    ensures forall k :: SpaceUntil(s, j) <= k < j ==> IsJsSpace(s[k])
  {
    if j > 0 && IsJsSpace(s[j - 1]) {
      SpaceUntilSkipsSpace(s, j - 1);
    }
  }

  /** Drops leading whitespace. */
  function TrimStart(s: string): string {
    s[SpaceFrom(s, 0)..]
  }

  /** Drops trailing whitespace. */
  function TrimEnd(s: string): string {
    s[..SpaceUntil(s, |s|)]
  }

  /** `String.prototype.trim`. */
  function Trim(s: string): string {
    TrimEnd(TrimStart(s))
  }

  /** The trimmed string is the middle of the input between two whitespace-only
      margins, with no whitespace at either end. */
  lemma TrimSpec(s: string)
    ensures var r, i := Trim(s), SpaceFrom(s, 0);
      && (r == [] || (!IsJsSpace(r[0]) && !IsJsSpace(r[|r| - 1])))
      && i + |r| <= |s|
      && r == s[i..i + |r|]
      && (forall k :: 0 <= k < i ==> IsJsSpace(s[k]))
      && (forall k :: i + |r| <= k < |s| ==> IsJsSpace(s[k]))
  {
    var i := SpaceFrom(s, 0);
    var t := s[i..];
    var e := SpaceUntil(t, |t|);
    SpaceFromSkipsSpace(s, 0);
    SpaceUntilSkipsSpace(t, |t|);
    forall k | i + e <= k < |s|
      ensures IsJsSpace(s[k])
    {
      assert s[k] == t[k - i];
    }
  }

  lemma TrimIdempotent(s: string)
    ensures Trim(Trim(s)) == Trim(s)
  {
    var r := Trim(s);
    TrimSpec(s);
    assert SpaceFrom(r, 0) == 0;
    assert TrimStart(r) == r;
    assert SpaceUntil(r, |r|) == |r|;
  }

  lemma {:induction false} SpaceFromShift(c: char, s: string, i: nat)
    requires i <= |s|
    ensures SpaceFrom([c] + s, i + 1) == SpaceFrom(s, i) + 1
    decreases |s| - i
  {
    assert ([c] + s)[i + 1..] == s[i..];
    if i < |s| {
      assert ([c] + s)[i + 1] == s[i];
      if IsJsSpace(s[i]) {
        SpaceFromShift(c, s, i + 1);
      }
    }
  }

  /** Leading whitespace does not change the trimmed result. */
  lemma TrimSkipsLeadingSpace(s: string)
    ensures Trim(" " + s) == Trim(s)
  {
    SpaceFromShift(' ', s, 0);
    assert TrimStart(" " + s) == TrimStart(s);
  }

  // ---------------------------------------------------------------- removeFlag

  /** `[\\uD83C]` in a regex literal: the doubled backslash makes it a class of the
      six ASCII characters \ u D 8 3 C. */
  predicate InHighClass(c: char) {
    c == '\\' || c == 'u' || c == 'D' || c == '8' || c == '3' || c == 'C'
  }

  /** `[\\uDDE6-\\uDDFF]`: the characters \ u D E F, and the range from '6' to '\'
      (U+0036..U+005C, which holds the digits 6-9, the capitals and more). */
  predicate InLowClass(c: char) {
    c == 'u' || ('6' <= c <= '\\')
  }

  /** The four-character pattern of the regex as written. */
  predicate AsWrittenMatchAt(s: string) {
    |s| >= 4 && InHighClass(s[0]) && InLowClass(s[1]) && InHighClass(s[2]) && InLowClass(s[3])
  }

  /** Global replace of the as-written pattern by '': leftmost match first, scanning
      resumes after each match. */
  function StripAsWritten(s: string): string {
    if AsWrittenMatchAt(s) then StripAsWritten(s[4..])
    else if s == [] then []
    else [s[0]] + StripAsWritten(s[1..])
  }

  /** removeFlag as written (modified_sub-storenode.js:86-90). */
  function RemoveFlagAsWritten(str: string): string {
    Trim(StripAsWritten(str))
  }

  /** The as-written pattern matches nothing in a flagged name. */
  lemma StripAsWrittenKeepsFlag()
    ensures StripAsWritten("\U{1F1FA}\U{1F1F8} US") == "\U{1F1FA}\U{1F1F8} US"
  {
    var flagged := "\U{1F1FA}\U{1F1F8} US";
    assert StripAsWritten(" US") == " US" by {
      assert StripAsWritten("S") == "S";
      assert StripAsWritten("US") == "US";
    }
    assert flagged[1..][1..] == " US";
    assert StripAsWritten(flagged[1..]) == flagged[1..];
  }

  /** The as-written removeFlag keeps a flag emoji ... */
  lemma RemoveFlagAsWrittenKeepsFlag()
    ensures RemoveFlagAsWritten("\U{1F1FA}\U{1F1F8} US") == "\U{1F1FA}\U{1F1F8} US"
  {
    var flagged := "\U{1F1FA}\U{1F1F8} US";
    StripAsWrittenKeepsFlag();
    assert !IsJsSpace(flagged[0]) && !IsJsSpace(flagged[4]);
    assert SpaceFrom(flagged, 0) == 0;
    assert SpaceUntil(flagged, |flagged|) == |flagged|;
  }

  /** Whatever the pattern does, removeFlag's result has no whitespace at either end. */
  lemma RemoveFlagAsWrittenIsTrimmed(str: string)
    ensures var r := RemoveFlagAsWritten(str);
      r == [] || (!IsJsSpace(r[0]) && !IsJsSpace(r[|r| - 1]))
  {
    TrimSpec(StripAsWritten(str));
  }

  /** A string shorter than the pattern has nothing to strip. */
  lemma {:induction false} StripAsWrittenShort(s: string)
    requires |s| < 4
    ensures StripAsWritten(s) == s
  {
    if s != [] {
      StripAsWrittenShort(s[1..]);
    }
  }

  /** ... and deletes plain ASCII text that happens to fit its character classes. */
  lemma RemoveFlagAsWrittenDeletesText()
    ensures RemoveFlagAsWritten("CUDA HK") == "HK"
  {
    assert AsWrittenMatchAt("CUDA HK");
    assert "CUDA HK"[4..] == " HK";
    StripAsWrittenShort(" HK");
    assert " HK"[1..] == "HK";
    assert SpaceFrom(" HK", 0) == 1 by {
      assert !IsJsSpace(" HK"[1]);
    }
    assert SpaceUntil("HK", 2) == 2 by {
      assert !IsJsSpace("HK"[1]);
    }
  }

  /** The regional indicator symbols of a string, in order. */
  function Regionals(s: string): (r: string)
    ensures |r| <= |s|
    ensures forall i :: 0 <= i < |r| ==> IsRegional(r[i])
  {
    if s == [] then []
    else (if IsRegional(s[0]) then [s[0]] else []) + Regionals(s[1..])
  }

  lemma {:induction false} RegionalsAppend(a: string, b: string)
    ensures Regionals(a + b) == Regionals(a) + Regionals(b)
  {
    if a == [] {
      assert a + b == b;
    } else {
      assert (a + b)[0] == a[0];
      assert (a + b)[1..] == a[1..] + b;
      RegionalsAppend(a[1..], b);
    }
  }

  lemma {:induction false} RegionalsOfNone(s: string)
    requires forall i :: 0 <= i < |s| ==> !IsRegional(s[i])
    ensures Regionals(s) == []
  {
    if s != [] {
      RegionalsOfNone(s[1..]);
    }
  }

  /** The as-written pattern only ever matches ASCII characters, so the global
      replace keeps every regional indicator, in order. */
  lemma {:induction false} StripAsWrittenKeepsRegionals(s: string)
    ensures Regionals(StripAsWritten(s)) == Regionals(s)
    decreases |s|
  {
    if AsWrittenMatchAt(s) {
      assert s == s[..4] + s[4..];
      RegionalsOfNone(s[..4]);
      RegionalsAppend(s[..4], s[4..]);
      StripAsWrittenKeepsRegionals(s[4..]);
    } else if s != [] {
      var rest := StripAsWritten(s[1..]);
      assert ([s[0]] + rest)[1..] == rest;
      StripAsWrittenKeepsRegionals(s[1..]);
    }
  }

  /** Trimming removes whitespace only, never a regional indicator. */
  lemma TrimKeepsRegionals(s: string)
    ensures Regionals(Trim(s)) == Regionals(s)
  {
    var r, i := Trim(s), SpaceFrom(s, 0);
    TrimSpec(s);
    assert s == s[..i] + r + s[i + |r|..];
    RegionalsOfNone(s[..i]);
    RegionalsOfNone(s[i + |r|..]);
    RegionalsAppend(s[..i] + r, s[i + |r|..]);
    RegionalsAppend(s[..i], r);
  }

  /** removeFlag as written never deletes a regional indicator, so no flag is ever
      removed from a name: it keeps exactly the regional indicators it was given. */
  lemma RemoveFlagAsWrittenKeepsRegionals(str: string)
    ensures Regionals(RemoveFlagAsWritten(str)) == Regionals(str)
  {
    TrimKeepsRegionals(StripAsWritten(str));
    StripAsWrittenKeepsRegionals(str);
  }

  /** The regional indicators of `flag + ' ' + name`, for the flag of a two-letter
      code: that flag, then those of the name. */
  lemma RegionalsAfterFlag(countryCode: string, name: string)
    requires |countryCode| == 2
    requires forall k :: 0 <= k < 2 ==> 'A' <= countryCode[k] <= 'Z' || 'a' <= countryCode[k] <= 'z'
    ensures Regionals(FlagEmoji(countryCode) + " " + name) == FlagEmoji(countryCode) + Regionals(name)
  {
    var f := FlagEmoji(countryCode);
    FlagEmojiOfTwoLetters(countryCode);
    assert f == [f[0]] + [f[1]];
    assert Regionals([f[1]]) == [f[1]];
    RegionalsAppend([f[0]], [f[1]]);
    assert Regionals(f) == f;
    assert Regionals(" ") == [];
    RegionalsAppend(f, " ");
    RegionalsAppend(f + " ", name);
  }

  /** A flag: two consecutive regional indicator symbols, which is what the regex
      `/[\uD83C][\uDDE6-\uDDFF][\uD83C][\uDDE6-\uDDFF]/g` matches in UTF-16. */
  predicate FlagAt(s: string, i: int) {
    0 <= i && i + 1 < |s| && IsRegional(s[i]) && IsRegional(s[i + 1])
  }

  /** Global removal of flags, leftmost first, non-overlapping. */
  function StripFlags(s: string): string {
    if FlagAt(s, 0) then StripFlags(s[2..])
    else if s == [] then []
    else [s[0]] + StripFlags(s[1..])
  }

  /** removeFlag as evidently intended: strip the flags, then trim. */
  function RemoveFlag(str: string): string {
    Trim(StripFlags(str))
  }

  /** What StripFlags keeps starts with a character that is not the first half of
      a flag in the output, and the first output character is the first input
      character whenever the input does not start with a flag. */
  lemma {:induction false} StripFlagsHead(s: string)
    requires s != [] && !FlagAt(s, 0)
    ensures StripFlags(s) != [] && StripFlags(s)[0] == s[0]
  {
  }

  /** No flag is left in the output of StripFlags. */
  lemma {:induction false} StripFlagsLeavesNone(s: string, i: int)
    ensures !FlagAt(StripFlags(s), i)
    decreases |s|
  {
    if FlagAt(s, 0) {
      StripFlagsLeavesNone(s[2..], i);
    } else if s != [] {
      var rest := StripFlags(s[1..]);
      assert StripFlags(s) == [s[0]] + rest;
      if i == 0 {
        if IsRegional(s[0]) && |s| >= 2 {
          // s[1] is not regional, and it heads the rest
          assert !IsRegional(s[1]);
          StripFlagsHead(s[1..]);
        }
      } else {
        StripFlagsLeavesNone(s[1..], i - 1);
      }
    }
  }

  /** The corrected removeFlag leaves no flag in its result. */
  lemma RemoveFlagLeavesNoFlag(str: string, i: int)
    ensures !FlagAt(RemoveFlag(str), i)
  {
    var t := StripFlags(str);
    var k := SpaceFrom(t, 0);
    var r := Trim(t);
    assert r == t[k..][..SpaceUntil(t[k..], |t| - k)];
    if FlagAt(r, i) {
      assert r[i] == t[k + i] && r[i + 1] == t[k + i + 1];
      assert FlagAt(t, k + i);
      StripFlagsLeavesNone(str, k + i);
    }
  }

  /** StripFlags leaves a string without flags as it is. */
  lemma {:induction false} StripFlagsWithoutFlags(s: string)
    requires forall i :: !FlagAt(s, i)
    ensures StripFlags(s) == s
    decreases |s|
  {
    if s != [] {
      assert !FlagAt(s, 0);
      forall i
        ensures !FlagAt(s[1..], i)
      {
        assert !FlagAt(s, i + 1);
      }
      StripFlagsWithoutFlags(s[1..]);
    }
  }

  /** The corrected removeFlag is idempotent. */
  lemma RemoveFlagIdempotent(str: string)
    ensures RemoveFlag(RemoveFlag(str)) == RemoveFlag(str)
  {
    var r := RemoveFlag(str);
    forall i
      ensures !FlagAt(r, i)
    {
      RemoveFlagLeavesNoFlag(str, i);
    }
    StripFlagsWithoutFlags(r);
    TrimIdempotent(StripFlags(str));
  }

  /** With the corrected removeFlag, prefixing a flag and a space and then removing
      flags again gives back what removing flags gave before: renaming twice does
      not stack flags. */
  lemma RemoveFlagAfterPrefix(countryCode: string, name: string)
    requires |countryCode| == 2
    requires forall k :: 0 <= k < 2 ==> 'A' <= countryCode[k] <= 'Z' || 'a' <= countryCode[k] <= 'z'
    ensures RemoveFlag(FlagEmoji(countryCode) + " " + name) == RemoveFlag(name)
  {
    FlagEmojiOfTwoLetters(countryCode);
    var s := FlagEmoji(countryCode) + " " + name;
    assert FlagAt(s, 0);
    assert s[2..] == " " + name;
    assert !FlagAt(" " + name, 0);
    assert (" " + name)[1..] == name;
    assert StripFlags(s) == " " + StripFlags(name);
    TrimSkipsLeadingSpace(StripFlags(name));
  }

  /** Removing flags from a name the rule already produced gives the cleaned name
      back, whatever flag the rule put in front. */
  lemma RemoveFlagOfRenamed(countryCode: string, name: string)
    requires |countryCode| == 2
    requires forall k :: 0 <= k < 2 ==> 'A' <= countryCode[k] <= 'Z' || 'a' <= countryCode[k] <= 'z'
    ensures RemoveFlag(FlagEmoji(countryCode) + " " + RemoveFlag(name)) == RemoveFlag(name)
  {
    RemoveFlagAfterPrefix(countryCode, RemoveFlag(name));
    RemoveFlagIdempotent(name);
  }
}
