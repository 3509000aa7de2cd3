/**
 * Session detection: scanning the packet stream for the first Session and
 * Participants packets, decoding track, session type, weather and the
 * player's name, and turning them into a file name.
 *
 * Go strings are byte strings; a byte b is modelled as the character with
 * code b. Bytes of 0x80 and above only occur inside non-ASCII runes, which
 * the sanitiser removes, so this reading does not change any result of the
 * sanitiser.
 */
module Session {
  import opened Bytes
  import opened Wrappers
  import opened Packet

  /** Session packets shorter than this are ignored. */
  const SessionPacketMinSize: nat := 100
  /** Stride of one entry in the participants array. */
  const ParticipantSize: nat := 58
  /** Offset of the 32-byte name field inside a participant entry. */
  const NameFieldOffset: nat := 48
  const NameFieldSize: nat := 32
  const DefaultPlayerName: string := "Player"

  /** The track table; "" for an ID it does not list, as a Go map lookup gives. */
  function TrackTable(trackId: int8): string
  {
    match trackId
    case 0 => "Melbourne"
    case 2 => "Shanghai"
    case 3 => "Bahrain"
    case 4 => "Catalunya"
    case 5 => "Monaco"
    case 6 => "Montreal"
    case 7 => "Silverstone"
    case 9 => "Hungaroring"
    case 10 => "Spa"
    case 11 => "Monza"
    case 12 => "Singapore"
    case 13 => "Suzuka"
    case 14 => "AbuDhabi"
    case 15 => "Texas"
    case 16 => "Brazil"
    case 17 => "Austria"
    case 19 => "Mexico"
    case 20 => "Baku"
    case 26 => "Zandvoort"
    case 27 => "Imola"
    case 29 => "Jeddah"
    case 30 => "Miami"
    case 31 => "LasVegas"
    case 32 => "Losail"
    case 39 => "Silverstone_Rev"
    case 40 => "Austria_Rev"
    case 41 => "Zandvoort_Rev"
    case _ => ""
  }

  /** The session type table; "" for an unlisted code. */
  function SessionTypeTable(code: byte): string
  {
    match code
    case 0 => "Unknown"
    case 1 => "P1"
    case 2 => "P2"
    case 3 => "P3"
    case 4 => "Practice"
    case 5 => "Q1"
    case 6 => "Q2"
    case 7 => "Q3"
    case 8 => "Qualifying"
    case 9 => "OneShotQ"
    case 10 => "SS1"
    case 11 => "SS2"
    case 12 => "SS3"
    case 13 => "SprintShootout"
    case 14 => "OneShotSS"
    case 15 => "Race"
    case 16 => "Race2"
    case 17 => "Race3"
    case 18 => "TimeTrial"
    case _ => ""
  }

  /** The weather table; "" for an unlisted code. */
  function WeatherTable(code: byte): string
  {
    match code
    case 0 => "Clear"
    case 1 => "LightCloud"
    case 2 => "Overcast"
    case 3 => "LightRain"
    case 4 => "HeavyRain"
    case 5 => "Storm"
    case _ => ""
  }

  // ---------------------------------------------------------------------
  // Characters and strings

  /** The characters a file name may keep: [A-Za-z0-9_-]. */
  predicate IsFilenameChar(c: char)
  {
    ('a' <= c <= 'z') || ('A' <= c <= 'Z') || ('0' <= c <= '9') || c == '_' || c == '-'
  }

  predicate IsFilenameSafe(s: string)
  {
    forall i :: 0 <= i < |s| ==> IsFilenameChar(s[i])
  }

  /** The ASCII white space that strings.TrimSpace removes. */
  predicate IsSpace(c: char)
  {
    c == ' ' || c == '\t' || c == '\n' || c == '\r' || c == '\U{000B}' || c == '\U{000C}'
  }

  function DigitChar(d: nat): (c: char)
    requires d < 10
    ensures '0' <= c <= '9'
  {
    ('0' as int + d) as char
  }

  predicate AllDigits(s: string)
  {
    forall i :: 0 <= i < |s| ==> '0' <= s[i] <= '9'
  }

  /** Decimal digits of n, most significant first, with no leading zero. */
  function DecimalDigits(n: nat): (s: string)
    ensures |s| >= 1 && AllDigits(s)
    ensures |s| > 1 ==> s[0] != '0'
    decreases n
  {
    if n < 10 then [DigitChar(n)] else DecimalDigits(n / 10) + [DigitChar(n % 10)]
  }

  /** The value of a string of decimal digits. */
  function DigitsValue(s: string): nat
    requires AllDigits(s)
  {
    if s == [] then 0
    else DigitsValue(s[..|s| - 1]) * 10 + (s[|s| - 1] as int - '0' as int)
  }

  lemma {:induction false} DecimalRoundTrip(n: nat)
    ensures DigitsValue(DecimalDigits(n)) == n
    decreases n
  {
    if n >= 10 {
      var s := DecimalDigits(n);
      assert s[..|s| - 1] == DecimalDigits(n / 10);
      DecimalRoundTrip(n / 10);
    }
  }

  /** fmt's %d: an optional minus sign, then the decimal digits. */
  function FormatInt(i: int): (s: string)
    ensures |s| >= 1
    ensures (s[0] == '-') == (i < 0)
    ensures forall k :: 0 <= k < |s| ==> IsFilenameChar(s[k])
  {
    if i < 0 then "-" + DecimalDigits(-i) else DecimalDigits(i)
  }

  /** Reads back what FormatInt writes: a minus sign or none, then at least one digit. */
  function ParseInt(s: string): (r: Option<int>)
  {
    if |s| > 1 && s[0] == '-' && AllDigits(s[1..]) then Some(0 - DigitsValue(s[1..]))
    else if |s| > 0 && AllDigits(s) then Some(DigitsValue(s))
    else None
  }

  /** A negative number is written as a minus sign and its digits, and parses back. */
  lemma FormatNegativeRoundTrip(i: int)
    requires i < 0
    ensures ParseInt(FormatInt(i)) == Some(i)
  {
    var d := DecimalDigits(-i);
    DecimalRoundTrip(-i);
    var v := 0 - DigitsValue(d);
    assert v == i;
    FormatNegativeParses(i, d);
    assert ParseInt(FormatInt(i)) == Some(v);
  }

  /** FormatInt of a negative number, parsed, is the negated value of its digits. */
  lemma FormatNegativeParses(i: int, d: string)
    requires i < 0 && d == DecimalDigits(-i)
    ensures ParseInt(FormatInt(i)) == Some(0 - DigitsValue(d))
  {
    assert FormatInt(i)[1..] == d;
  }

  /** Any other number is written as its digits alone, and parses back. */
  lemma FormatNonNegativeRoundTrip(i: int)
    requires i >= 0
    ensures ParseInt(FormatInt(i)) == Some(i)
  {
    var d := DecimalDigits(i);
    assert FormatInt(i) == d && '0' <= d[0] <= '9';
    DecimalRoundTrip(i);
  }

  lemma FormatIntRoundTrip(i: int)
    ensures ParseInt(FormatInt(i)) == Some(i)
  {
    if i < 0 {
      FormatNegativeRoundTrip(i);
    } else {
      FormatNonNegativeRoundTrip(i);
    }
  }

  // ---------------------------------------------------------------------
  // Lookup tables

  /** The weather's name; "Unknown" when the table does not list the code. */
  function WeatherName(code: byte): (name: string)
    ensures name != ""
    ensures WeatherTable(code) != "" ==> name == WeatherTable(code)
    ensures WeatherTable(code) == "" ==> name == "Unknown"
  {
    var name := WeatherTable(code);
    if name == "" then "Unknown" else name
  }

  /** The session type's name; "Unknown" when the table does not list the code. */
  function SessionTypeName(code: byte): (name: string)
    ensures name != ""
    ensures SessionTypeTable(code) != "" ==> name == SessionTypeTable(code)
    ensures SessionTypeTable(code) == "" ==> name == "Unknown"
  {
    var name := SessionTypeTable(code);
    if name == "" then "Unknown" else name
  }

  /** Track names come from the table; an unlisted ID gives "Track" and the signed ID. */
  function TrackName(trackId: int8): (name: string)
    ensures TrackTable(trackId) != "" ==> name == TrackTable(trackId)
    ensures TrackTable(trackId) == "" ==> |name| > 5 && name[..5] == "Track"
  {
    var name := TrackTable(trackId);
    if name == "" then "Track" + FormatInt(trackId) else name
  }

  /** The name of an unlisted track carries its ID, which reads back exactly. */
  lemma UnlistedTrackNameHoldsId(trackId: int8)
    requires TrackTable(trackId) == ""
    ensures TrackName(trackId)[5..] == FormatInt(trackId as int)
    ensures ParseInt(TrackName(trackId)[5..]) == Some(trackId as int)
  {
    var s := TrackName(trackId);
    assert s[5..] == FormatInt(trackId);
    FormatIntRoundTrip(trackId);
  }

  /** IsFilenameSafe written as a recursion over positions, which evaluates on literals. */
  predicate SafeFrom(s: string, i: nat)
    decreases |s| - i
  {
    i >= |s| || (IsFilenameChar(s[i]) && SafeFrom(s, i + 1))
  }

  lemma {:induction false} SafeFromIsSafe(s: string, i: nat)
    requires SafeFrom(s, i)
    ensures forall k :: i <= k < |s| ==> IsFilenameChar(s[k])
    decreases |s| - i
  {
    if i < |s| {
      SafeFromIsSafe(s, i + 1);
    }
  }

  /** Every weather name is filename-safe; the proof goes through the table entry by entry. */
  lemma WeatherTableSafe(code: byte)
    ensures SafeFrom(WeatherTable(code), 0)
  {
    match code {
      case 0 => assert SafeFrom(WeatherTable(0), 0);
      case 1 => assert SafeFrom(WeatherTable(1), 0);
      case 2 => assert SafeFrom(WeatherTable(2), 0);
      case 3 => assert SafeFrom(WeatherTable(3), 0);
      case 4 => assert SafeFrom(WeatherTable(4), 0);
      case 5 => assert SafeFrom(WeatherTable(5), 0);
      case _ =>
    }
  }

  lemma SessionTypeTableSafe(code: byte)
    ensures SafeFrom(SessionTypeTable(code), 0)
  {
    if code < 10 {
      SessionTypeTableSafeBelow10(code);
    } else {
      match code {
        case 10 => assert SafeFrom(SessionTypeTable(10), 0);
        case 11 => assert SafeFrom(SessionTypeTable(11), 0);
        case 12 => assert SafeFrom(SessionTypeTable(12), 0);
        case 13 => assert SafeFrom(SessionTypeTable(13), 0);
        case 14 => assert SafeFrom(SessionTypeTable(14), 0);
        case 15 => assert SafeFrom(SessionTypeTable(15), 0);
        case 16 => assert SafeFrom(SessionTypeTable(16), 0);
        case 17 => assert SafeFrom(SessionTypeTable(17), 0);
        case 18 => assert SafeFrom(SessionTypeTable(18), 0);
        case _ =>
      }
    }
  }

  lemma SessionTypeTableSafeBelow10(code: byte)
    requires code < 10
    ensures SafeFrom(SessionTypeTable(code), 0)
  {
    match code {
      case 0 => assert SafeFrom(SessionTypeTable(0), 0);
      case 1 => assert SafeFrom(SessionTypeTable(1), 0);
      case 2 => assert SafeFrom(SessionTypeTable(2), 0);
      case 3 => assert SafeFrom(SessionTypeTable(3), 0);
      case 4 => assert SafeFrom(SessionTypeTable(4), 0);
      case 5 => assert SafeFrom(SessionTypeTable(5), 0);
      case 6 => assert SafeFrom(SessionTypeTable(6), 0);
      case 7 => assert SafeFrom(SessionTypeTable(7), 0);
      case 8 => assert SafeFrom(SessionTypeTable(8), 0);
      case 9 => assert SafeFrom(SessionTypeTable(9), 0);
    }
  }

  lemma TrackTableSafe(trackId: int8)
    ensures SafeFrom(TrackTable(trackId), 0)
  {
    if trackId < 15 {
      TrackTableSafeBelow15(trackId);
    } else if trackId < 29 {
      match trackId {
      case 15 => assert SafeFrom(TrackTable(15), 0);
      case 16 => assert SafeFrom(TrackTable(16), 0);
      case 17 => assert SafeFrom(TrackTable(17), 0);
      case 19 => assert SafeFrom(TrackTable(19), 0);
      case 20 => assert SafeFrom(TrackTable(20), 0);
      case 26 => assert SafeFrom(TrackTable(26), 0);
      case 27 => assert SafeFrom(TrackTable(27), 0);
      case _ =>
      }
    } else {
      TrackTableSafeFrom29(trackId);
    }
  }

  lemma TrackTableSafeFrom29(trackId: int8)
    requires trackId >= 29
    ensures SafeFrom(TrackTable(trackId), 0)
  {
    match trackId {
      case 29 => assert SafeFrom(TrackTable(29), 0);
      case 30 => assert SafeFrom(TrackTable(30), 0);
      case 31 => assert SafeFrom(TrackTable(31), 0);
      case 32 => assert SafeFrom(TrackTable(32), 0);
      case _ => TrackTableSafeFrom33(trackId);
    }
  }

  lemma TrackTableSafeFrom33(trackId: int8)
    requires trackId >= 33
    ensures SafeFrom(TrackTable(trackId), 0)
  {
    match trackId {
      case 39 => assert SafeFrom(TrackTable(39), 0);
      case _ => TrackTableSafeFrom40(trackId);
    }
  }

  lemma TrackTableSafeFrom40(trackId: int8)
    requires trackId >= 33 && trackId != 39
    ensures SafeFrom(TrackTable(trackId), 0)
  {
    match trackId {
      case 40 => assert SafeFrom(TrackTable(40), 0);
      case 41 => assert SafeFrom(TrackTable(41), 0);
      case _ =>
    }
  }

  lemma TrackTableSafeBelow15(trackId: int8)
    requires trackId < 15
    ensures SafeFrom(TrackTable(trackId), 0)
  {
    if trackId < 7 {
      match trackId {
        case 0 => assert SafeFrom(TrackTable(0), 0);
        case 2 => assert SafeFrom(TrackTable(2), 0);
        case 3 => assert SafeFrom(TrackTable(3), 0);
        case 4 => assert SafeFrom(TrackTable(4), 0);
        case 5 => assert SafeFrom(TrackTable(5), 0);
        case 6 => assert SafeFrom(TrackTable(6), 0);
        case _ =>
      }
    } else {
      TrackTableSafeFrom7(trackId);
    }
  }

  lemma TrackTableSafeFrom7(trackId: int8)
    requires 7 <= trackId < 15
    ensures SafeFrom(TrackTable(trackId), 0)
  {
    match trackId {
      case 7 => assert SafeFrom(TrackTable(7), 0);
      case 9 => assert SafeFrom(TrackTable(9), 0);
      case 10 => assert SafeFrom(TrackTable(10), 0);
      case 11 => assert SafeFrom(TrackTable(11), 0);
      case 12 => assert SafeFrom(TrackTable(12), 0);
      case 13 => assert SafeFrom(TrackTable(13), 0);
      case 14 => assert SafeFrom(TrackTable(14), 0);
      case _ =>
    }
  }

  lemma WeatherNameSafe(code: byte)
    ensures IsFilenameSafe(WeatherName(code))
  {
    WeatherTableSafe(code);
    assert SafeFrom("Unknown", 0);
    SafeFromIsSafe(WeatherName(code), 0);
  }

  lemma SessionTypeNameSafe(code: byte)
    ensures IsFilenameSafe(SessionTypeName(code))
  {
    SessionTypeTableSafe(code);
    assert SafeFrom("Unknown", 0);
    SafeFromIsSafe(SessionTypeName(code), 0);
  }

  lemma TrackNameSafe(trackId: int8)
    ensures IsFilenameSafe(TrackName(trackId))
  {
    var name := TrackTable(trackId);
    if name != "" {
      TrackTableSafe(trackId);
      SafeFromIsSafe(name, 0);
    } else {
      var t := "Track" + FormatInt(trackId);
      assert SafeFrom("Track", 0);
      SafeFromIsSafe("Track", 0);
      assert forall k :: 0 <= k < |t| ==> IsFilenameChar(t[k]) by {
        forall k | 0 <= k < |t| ensures IsFilenameChar(t[k]) {
          if k >= 5 {
            assert t[k] == FormatInt(trackId)[k - 5];
          } else {
            assert t[k] == "Track"[k];
          }
        }
      }
    }
  }

  lemma LookupNamesAreSafe(weather: byte, sessionType: byte, trackId: int8)
    ensures IsFilenameSafe(WeatherName(weather))
    ensures IsFilenameSafe(SessionTypeName(sessionType))
    ensures IsFilenameSafe(TrackName(trackId))
  {
    WeatherNameSafe(weather);
    SessionTypeNameSafe(sessionType);
    TrackNameSafe(trackId);
  }

  // ---------------------------------------------------------------------
  // Player names

  /** The index of the first zero byte at or after i, or |data| when there is none. */
  function NulIndex(data: seq<byte>, i: nat): (n: nat)
    requires i <= |data|
    ensures i <= n <= |data|
    ensures forall k :: i <= k < n ==> data[k] != 0
    ensures n < |data| ==> data[n] == 0
    decreases |data| - i
  {
    if i == |data| || data[i] == 0 then i else NulIndex(data, i + 1)
  }

  /** Go's string(b): one character per byte. */
  function BytesToString(b: seq<byte>): (s: string)
    ensures |s| == |b|
    ensures forall k :: 0 <= k < |b| ==> s[k] == b[k] as char
  {
    seq(|b|, k requires 0 <= k < |b| => b[k] as char)
  }

  /** The bytes before the first zero byte (all of them if there is none), as a string. */
  function ExtractNullTerminatedString(data: seq<byte>): (s: string)
    ensures |s| <= |data|
    ensures forall i :: 0 <= i < |s| ==> data[i] != 0 && s[i] == data[i] as char
    ensures |s| < |data| ==> data[|s|] == 0
  {
    BytesToString(data[..NulIndex(data, 0)])
  }

  /** The end of the run of white space that starts at i. */
  function SpaceRunEnd(s: string, i: nat): (j: nat)
    requires i <= |s|
    ensures i <= j <= |s|
    ensures forall k :: i <= k < j ==> IsSpace(s[k])
    ensures j < |s| ==> !IsSpace(s[j])
    decreases |s| - i
  {
    if i < |s| && IsSpace(s[i]) then SpaceRunEnd(s, i + 1) else i
  }

  /** The start of the run of white space that ends at j, going no lower than lo. */
  function SpaceRunStart(s: string, lo: nat, j: nat): (i: nat)
    requires lo <= j <= |s|
    ensures lo <= i <= j
    ensures forall k :: i <= k < j ==> IsSpace(s[k])
    ensures i > lo ==> !IsSpace(s[i - 1])
    decreases j
  {
    if j > lo && IsSpace(s[j - 1]) then SpaceRunStart(s, lo, j - 1) else j
  }

  /** strings.TrimSpace for ASCII white space: the leading run goes first, then the trailing one. */
  function TrimSpace(s: string): (t: string)
    ensures |t| <= |s|
    ensures t != [] ==> !IsSpace(t[0]) && !IsSpace(t[|t| - 1])
    ensures exists a, b :: (0 <= a <= b <= |s| && t == s[a..b]
      && (forall k :: 0 <= k < a ==> IsSpace(s[k])) && (forall k :: b <= k < |s| ==> IsSpace(s[k])))
  {
    var start := SpaceRunEnd(s, 0);
    var stop := SpaceRunStart(s, start, |s|);
    s[start..stop]
  }

  /** Trimming leaves nothing exactly when the string is all white space. */
  lemma TrimSpaceEmptyIffAllSpace(s: string)
    ensures TrimSpace(s) == [] <==> forall i :: 0 <= i < |s| ==> IsSpace(s[i])
  {
    var start := SpaceRunEnd(s, 0);
    var stop := SpaceRunStart(s, start, |s|);
    if start < |s| {
      assert !IsSpace(s[start]);
      assert stop > start;
    }
  }

  /** A string without white space at either end is its own trim. */
  lemma TrimSpaceKeepsTrimmed(s: string)
    requires s != [] ==> !IsSpace(s[0]) && !IsSpace(s[|s| - 1])
    ensures TrimSpace(s) == s
  {
  }

  /** strings.ReplaceAll(s, " ", "_") */
  function ReplaceSpaces(s: string): (r: string)
    ensures |r| == |s|
    ensures forall i :: 0 <= i < |s| ==> r[i] == (if s[i] == ' ' then '_' else s[i])
  {
    seq(|s|, i requires 0 <= i < |s| => if s[i] == ' ' then '_' else s[i])
  }

  /** The characters of s[..n] that may appear in a file name, in order. */
  function KeepFilenameCharsUpTo(s: string, n: nat): (r: string)
    requires n <= |s|
    ensures IsFilenameSafe(r)
    ensures |r| <= n
  {
    if n == 0 then ""
    else KeepFilenameCharsUpTo(s, n - 1) + (if IsFilenameChar(s[n - 1]) then [s[n - 1]] else "")
  }

  /** The characters of s that may appear in a file name, in order. */
  function KeepFilenameChars(s: string): (r: string)
    ensures IsFilenameSafe(r)
    ensures |r| <= |s|
  {
    KeepFilenameCharsUpTo(s, |s|)
  }

  /** Spaces become underscores, then every character outside [A-Za-z0-9_-] is dropped. */
  function SanitizeForFilename(s: string): (r: string)
    ensures IsFilenameSafe(r)
    ensures |r| <= |s|
  {
    KeepFilenameChars(ReplaceSpaces(s))
  }

  /** A string already safe for a file name is kept as it is. */
  lemma {:induction false} KeepSafeIsIdentity(s: string, n: nat)
    requires n <= |s| && IsFilenameSafe(s)
    ensures KeepFilenameCharsUpTo(s, n) == s[..n]
  {
    if n > 0 {
      KeepSafeIsIdentity(s, n - 1);
      assert s[..n] == s[..n - 1] + [s[n - 1]];
    }
  }

  lemma SanitizeSafeIsIdentity(s: string)
    requires IsFilenameSafe(s)
    ensures SanitizeForFilename(s) == s
  {
    assert ReplaceSpaces(s) == s;
    KeepSafeIsIdentity(s, |s|);
    assert s[..|s|] == s;
  }

  lemma SanitizeIdempotent(s: string)
    ensures SanitizeForFilename(SanitizeForFilename(s)) == SanitizeForFilename(s)
  {
    SanitizeSafeIsIdentity(SanitizeForFilename(s));
  }

  /** What follows the first n characters does not change what is kept of them. */
  lemma {:induction false} KeepUpToPrefix(x: string, y: string, n: nat)
    requires n <= |x|
    ensures KeepFilenameCharsUpTo(x + y, n) == KeepFilenameCharsUpTo(x, n)
  {
    if n > 0 {
      KeepUpToPrefix(x, y, n - 1);
      assert (x + y)[n - 1] == x[n - 1];
    }
  }

  lemma {:induction false} KeepAppendUpTo(x: string, y: string, m: nat)
    requires m <= |y|
    ensures KeepFilenameCharsUpTo(x + y, |x| + m) == KeepFilenameChars(x) + KeepFilenameCharsUpTo(y, m)
  {
    if m == 0 {
      KeepUpToPrefix(x, y, |x|);
    } else {
      var z := x + y;
      var c := y[m - 1];
      var extra := if IsFilenameChar(c) then [c] else "";
      KeepAppendUpTo(x, y, m - 1);
      assert z[|x| + m - 1] == c;
      assert KeepFilenameCharsUpTo(z, |x| + m) == KeepFilenameCharsUpTo(z, |x| + m - 1) + extra;
      assert KeepFilenameCharsUpTo(y, m) == KeepFilenameCharsUpTo(y, m - 1) + extra;
    }
  }

  /** Filtering works character by character: the kept part of a concatenation is the concatenation of the kept parts. */
  lemma KeepFilenameCharsAppend(x: string, y: string)
    ensures KeepFilenameChars(x + y) == KeepFilenameChars(x) + KeepFilenameChars(y)
  {
    KeepAppendUpTo(x, y, |y|);
  }

  lemma ReplaceSpacesAppend(x: string, y: string)
    ensures ReplaceSpaces(x + y) == ReplaceSpaces(x) + ReplaceSpaces(y)
  {
    var l, r := ReplaceSpaces(x + y), ReplaceSpaces(x) + ReplaceSpaces(y);
    assert |l| == |r|;
    forall i | 0 <= i < |l| ensures l[i] == r[i] {
      if i < |x| {
        assert (x + y)[i] == x[i];
      } else {
        assert (x + y)[i] == y[i - |x|];
      }
    }
  }

  /** Sanitising a concatenation sanitises each part. */
  lemma SanitizeAppend(x: string, y: string)
    ensures SanitizeForFilename(x + y) == SanitizeForFilename(x) + SanitizeForFilename(y)
  {
    ReplaceSpacesAppend(x, y);
    KeepFilenameCharsAppend(ReplaceSpaces(x), ReplaceSpaces(y));
  }

  /**
   * sanitizeForFilename, one character at a time: the empty name stays
   * empty; a space adds "_", a character of [A-Za-z0-9_-] adds itself and
   * any other character adds nothing.
   */
  lemma SanitizeSnoc(s: string, c: char)
    ensures SanitizeForFilename("") == ""
    ensures SanitizeForFilename(s + [c]) ==
      SanitizeForFilename(s) + (if c == ' ' then "_" else if IsFilenameChar(c) then [c] else "")
  {
    SanitizeAppend(s, [c]);
    var c' := if c == ' ' then '_' else c;
    assert ReplaceSpaces([c]) == [c'];
    assert KeepFilenameCharsUpTo([c'], 0) == "";
  }

  /**
   * The player's name as the participants decoder stores it: cut at the
   * first zero byte, trimmed, defaulted to "Player" when empty, then
   * sanitised. The default is applied before sanitising.
   */
  function PlayerNameFromField(field: seq<byte>): (name: string)
    ensures IsFilenameSafe(name)
    ensures var trimmed := TrimSpace(ExtractNullTerminatedString(field));
      name == SanitizeForFilename(if trimmed == "" then DefaultPlayerName else trimmed)
  {
    var name := TrimSpace(ExtractNullTerminatedString(field));
    var name := if name == "" then DefaultPlayerName else name;
    SanitizeForFilename(name)
  }

  // ---------------------------------------------------------------------
  // Packet decoders

  /** A packet of the given kind, as the scanner classifies it. */
  predicate IsKind(data: seq<byte>, packetId: byte)
  {
    |data| >= HeaderSize && data[6] == packetId
  }

  /** Weather, session type and track of a Session packet; None when it is too short. */
  function SessionFields(data: seq<byte>): (r: Option<(string, string, string)>)
    ensures r.None? <==> |data| < SessionPacketMinSize
    ensures r.Some? ==> r.value == (WeatherName(data[29]), SessionTypeName(data[35]), TrackName(Int8FromByte(data[36])))
    ensures r.Some? ==> IsFilenameSafe(r.value.0) && IsFilenameSafe(r.value.1) && IsFilenameSafe(r.value.2)
  {
    if |data| < SessionPacketMinSize then None
    else
      var offset := HeaderSize;
      var weather := WeatherName(data[offset]);
      var offset := offset + 1 + 1 + 1 + 1 + 2;  // weather, track and air temperature, total laps, track length
      var sessionType := SessionTypeName(data[offset]);
      var offset := offset + 1;
      var track := TrackName(Int8FromByte(data[offset]));
      LookupNamesAreSafe(data[HeaderSize], data[HeaderSize + 6], Int8FromByte(data[HeaderSize + 7]));
      Some((weather, sessionType, track))
  }

  /** Where the player's name field starts: past the header, the car count and playerCarIndex entries. */
  function NameFieldStart(data: seq<byte>): nat
    requires |data| >= HeaderSize + 1
  {
    HeaderSize + 1 + ParticipantSize * data[27] + NameFieldOffset
  }

  /** The 32 bytes of the player's name field. */
  function NameField(data: seq<byte>): (field: seq<byte>)
    requires |data| >= HeaderSize + 1 && NameFieldStart(data) + NameFieldSize <= |data|
    ensures |field| == NameFieldSize
    ensures field == data[NameFieldStart(data)..NameFieldStart(data) + NameFieldSize]
  {
    data[NameFieldStart(data)..NameFieldStart(data) + NameFieldSize]
  }

  /**
   * The player's name from a Participants packet: the 32-byte name field of
   * entry playerCarIndex (header byte 27). None when the packet does not
   * hold that entry's name field.
   */
  function ParticipantsPlayerName(data: seq<byte>): (r: Option<string>)
    ensures r.Some? <==> |data| >= HeaderSize + 1 && NameFieldStart(data) + NameFieldSize <= |data|
    ensures r.Some? ==>
      r.value == PlayerNameFromField(NameField(data))
  {
    if |data| < HeaderSize + 1 then None
    else
      var playerCarIndex := data[27];
      var offset := HeaderSize;
      if offset >= |data| then None
      else
        var offset := offset + 1;  // number of active cars
        var participantOffset := offset + ParticipantSize * playerCarIndex as int;
        if participantOffset + ParticipantSize > |data| then None
        else
          var nameOffset := NameFieldStart(data);
          if nameOffset + NameFieldSize > |data| then None
          else Some(PlayerNameFromField(NameField(data)))
  }

  /** Index of the first packet of the given kind, if any. */
  function FirstOfKind(packets: seq<seq<byte>>, packetId: byte): (r: Option<nat>)
    ensures r.Some? ==> r.value < |packets| && IsKind(packets[r.value], packetId)
    ensures r.Some? ==> forall j :: 0 <= j < r.value ==> !IsKind(packets[j], packetId)
    ensures r.None? <==> forall j :: 0 <= j < |packets| ==> !IsKind(packets[j], packetId)
  {
    if packets == [] then None
    else if IsKind(packets[0], packetId) then Some(0)
    else
      match FirstOfKind(packets[1..], packetId)
      case None => None
      case Some(i) => Some(i + 1)
  }

  // ---------------------------------------------------------------------
  // Joining

  /** strings.Join */
  function Join(parts: seq<string>, sep: string): (r: string)
    ensures parts == [] ==> r == ""
    ensures |parts| == 1 ==> r == parts[0]
    ensures parts != [] ==> |r| >= |parts[0]| && r[..|parts[0]|] == parts[0]
  {
    if |parts| == 0 then ""
    else if |parts| == 1 then parts[0]
    else parts[0] + sep + Join(parts[1..], sep)
  }

  lemma {:induction false} JoinSafe(parts: seq<string>, sep: string)
    requires IsFilenameSafe(sep)
    requires forall k :: 0 <= k < |parts| ==> IsFilenameSafe(parts[k])
    ensures IsFilenameSafe(Join(parts, sep))
  {
    if |parts| > 1 {
      JoinSafe(parts[1..], sep);
      var rest := Join(parts[1..], sep);
      var s := parts[0] + sep + rest;
      forall i | 0 <= i < |s| ensures IsFilenameChar(s[i]) {
        if i < |parts[0]| {
          assert s[i] == parts[0][i];
        } else if i < |parts[0]| + |sep| {
          assert s[i] == sep[i - |parts[0]|];
        } else {
          assert s[i] == rest[i - |parts[0]| - |sep|];
        }
      }
    }
  }

  /** strings.Join from the left: each further part comes after a separator. */
  lemma {:induction false} JoinSnoc(parts: seq<string>, sep: string, p: string)
    requires parts != []
    ensures Join(parts + [p], sep) == Join(parts, sep) + sep + p
  {
    if |parts| > 1 {
      JoinSnoc(parts[1..], sep, p);
      assert (parts + [p])[1..] == parts[1..] + [p];
    } else {
      assert (parts + [p])[1..] == [p];
    }
  }

  // ---------------------------------------------------------------------
  // The session record

  /** 1 for a field that is present, 0 for one that is left out. */
  function Bit(b: bool): nat
  {
    if b then 1 else 0
  }

  class SessionInfo {
    var playerName: string
    var trackName: string
    var sessionType: string
    var weather: string
    var timeOfDay: string
    var hasInfo: bool

    constructor ()
      ensures playerName == "" && trackName == "" && sessionType == "" && weather == ""
      ensures timeOfDay == "" && !hasInfo
    {
      playerName, trackName, sessionType, weather, timeOfDay := "", "", "", "", "";
      hasInfo := false;
    }

    /** A known track goes into the file name. */
    predicate NamesTrack()
      reads this
    {
      trackName != ""
    }

    /** A session type goes into the file name unless it is unknown. */
    predicate NamesSessionType()
      reads this
    {
      sessionType != "" && sessionType != "Unknown"
    }

    /** The player goes into the file name unless the name is the default. */
    predicate NamesPlayer()
      reads this
    {
      playerName != "" && playerName != DefaultPlayerName
    }

    /** The weather goes into the file name unless it is clear. */
    predicate NamesWeather()
      reads this
    {
      weather != "" && weather != "Clear"
    }

    /**
     * The parts that make it into the file name: each field exactly when it
     * qualifies, in the order track, session type, player, weather.
     */
    function FilenameParts(): (parts: seq<string>)
      reads this
      ensures |parts| == Bit(NamesTrack()) + Bit(NamesSessionType()) + Bit(NamesPlayer()) + Bit(NamesWeather())
      ensures NamesTrack() ==> parts[0] == trackName
      ensures NamesSessionType() ==> parts[Bit(NamesTrack())] == sessionType
      ensures NamesPlayer() ==> parts[Bit(NamesTrack()) + Bit(NamesSessionType())] == playerName
      ensures NamesWeather() ==> parts[|parts| - 1] == weather
      ensures forall k :: 0 <= k < |parts| ==> parts[k] != ""
    {
      (if NamesTrack() then [trackName] else [])
      + (if NamesSessionType() then [sessionType] else [])
      + (if NamesPlayer() then [playerName] else [])
      + (if NamesWeather() then [weather] else [])
    }

    /**
     * Track, session type, player and weather joined with "_", leaving out
     * empty and default values; "session" when nothing is left. Built from
     * filename-safe fields, the name is filename-safe.
     */
    function GenerateFilename(): (name: string)
      reads this
      ensures name != ""
      ensures FilenameParts() == [] ==> name == "session"
      ensures FilenameParts() != [] ==> name == Join(FilenameParts(), "_")
      ensures (IsFilenameSafe(trackName) && IsFilenameSafe(sessionType)
               && IsFilenameSafe(playerName) && IsFilenameSafe(weather)) ==> IsFilenameSafe(name)
    {
      var parts := FilenameParts();
      assert parts != [] ==> Join(parts, "_") != "" && (
        (IsFilenameSafe(trackName) && IsFilenameSafe(sessionType)
         && IsFilenameSafe(playerName) && IsFilenameSafe(weather)) ==> IsFilenameSafe(Join(parts, "_")))
      by {
        if parts != [] {
          if IsFilenameSafe(trackName) && IsFilenameSafe(sessionType)
            && IsFilenameSafe(playerName) && IsFilenameSafe(weather) {
            JoinSafe(parts, "_");
          }
        }
      }
      if |parts| == 0 then "session" else Join(parts, "_")
    }

    /** A known track opens the file name. */
    lemma TrackLeadsFilename()
      requires trackName != ""
      ensures |GenerateFilename()| > |trackName| || GenerateFilename() == trackName
      ensures GenerateFilename()[..|trackName|] == trackName
    {
      var parts := FilenameParts();
      assert parts[0] == trackName;
    }

    /**
     * The labelled fields of the description: each field exactly when it is
     * not empty, in the order player, track, session type, weather.
     */
    function DescriptionParts(): (parts: seq<string>)
      reads this
      ensures |parts| == Bit(playerName != "") + Bit(trackName != "") + Bit(sessionType != "") + Bit(weather != "")
      ensures playerName != "" ==> parts[0] == "Player: " + playerName
      ensures trackName != "" ==> parts[Bit(playerName != "")] == "Track: " + trackName
      ensures sessionType != "" ==> parts[Bit(playerName != "") + Bit(trackName != "")] == "Session: " + sessionType
      ensures weather != "" ==> parts[|parts| - 1] == "Weather: " + weather
      ensures forall k :: 0 <= k < |parts| ==> |parts[k]| > 0 && parts[k][0] in {'P', 'T', 'S', 'W'}
    {
      (if playerName != "" then ["Player: " + playerName] else [])
      + (if trackName != "" then ["Track: " + trackName] else [])
      + (if sessionType != "" then ["Session: " + sessionType] else [])
      + (if weather != "" then ["Weather: " + weather] else [])
    }

    /** A one-line description; it reads "No session info available" exactly when nothing was detected. */
    function String(): (text: string)
      reads this
      ensures text == "No session info available" <==> !hasInfo
      ensures hasInfo ==> text == Join(DescriptionParts(), " | ")
    {
      if !hasInfo then "No session info available"
      else
        var parts := DescriptionParts();
        assert Join(parts, " | ") != "No session info available" by {
          if parts != [] {
            assert Join(parts, " | ")[0] == parts[0][0];
          }
        }
        Join(parts, " | ")
    }
  }

  /** Fields a Session packet sets; nothing when it is shorter than 100 bytes. */
  method ParseSessionPacket(data: seq<byte>, info: SessionInfo)
    modifies info
    ensures SessionFields(data).None? ==> unchanged(info)
    ensures SessionFields(data).Some? ==>
      (info.weather, info.sessionType, info.trackName) == SessionFields(data).value
      && info.weather == WeatherName(data[29]) && info.sessionType == SessionTypeName(data[35])
      && info.trackName == TrackName(Int8FromByte(data[36]))
      && info.playerName == old(info.playerName) && info.timeOfDay == old(info.timeOfDay)
      && info.hasInfo == old(info.hasInfo)
  {
    if |data| < SessionPacketMinSize {
      return;
    }
    var offset := HeaderSize;
    var weatherCode := data[offset];
    var weather := WeatherTable(weatherCode);
    if weather == "" {
      weather := "Unknown";
    }
    assert weather == WeatherName(weatherCode);
    offset := offset + 1 + 1 + 1 + 1 + 2;  // weather, track and air temperature, total laps, track length
    var sessionCode := data[offset];
    var sessionType := SessionTypeTable(sessionCode);
    if sessionType == "" {
      sessionType := "Unknown";
    }
    assert sessionType == SessionTypeName(sessionCode);
    offset := offset + 1;
    var trackId := Int8FromByte(data[offset]);
    var trackName := TrackTable(trackId);
    if trackName == "" {
      trackName := "Track" + FormatInt(trackId);
    }
    assert trackName == TrackName(trackId);
    info.weather, info.sessionType, info.trackName := weather, sessionType, trackName;
  }

  /** Sets the player's name from a Participants packet that holds the player's entry. */
  method ParseParticipantsPacket(data: seq<byte>, info: SessionInfo)
    modifies info
    ensures ParticipantsPlayerName(data).None? ==> unchanged(info)
    ensures ParticipantsPlayerName(data).Some? ==>
      info.playerName == ParticipantsPlayerName(data).value
      && info.trackName == old(info.trackName) && info.sessionType == old(info.sessionType)
      && info.weather == old(info.weather) && info.timeOfDay == old(info.timeOfDay)
      && info.hasInfo == old(info.hasInfo)
  {
    match ParticipantsPlayerName(data)
    case None =>
    case Some(name) => info.playerName := name;
  }

  /** What a first Session packet sets: its decoded fields, or nothing when it is too short. */
  function SessionTriple(data: seq<byte>): (string, string, string)
  {
    match SessionFields(data)
    case None => ("", "", "")
    case Some(t) => t
  }

  /** What a first Participants packet sets: the decoded name, or nothing when the entry is missing. */
  function PlayerNameOrEmpty(data: seq<byte>): string
  {
    match ParticipantsPlayerName(data)
    case None => ""
    case Some(n) => n
  }

  /** Taking one more packet finds the first packet of a kind exactly when it is of that kind. */
  lemma FirstOfKindStep(packets: seq<seq<byte>>, packetId: byte, i: nat)
    requires i < |packets|
    ensures var f := FirstOfKind(packets, packetId);
      (f.Some? && f.value <= i) <==> ((f.Some? && f.value < i) || IsKind(packets[i], packetId))
  {
  }

  /** Weather, session type and track after the scan: from the first Session packet, if any. */
  function DetectedSession(packets: seq<seq<byte>>): (string, string, string)
  {
    match FirstOfKind(packets, SessionPacketId)
    case None => ("", "", "")
    case Some(i) => SessionTriple(packets[i])
  }

  /** The player's name after the scan: from the first Participants packet, if any. */
  function DetectedPlayer(packets: seq<seq<byte>>): string
  {
    match FirstOfKind(packets, ParticipantsPacketId)
    case None => ""
    case Some(i) => PlayerNameOrEmpty(packets[i])
  }

  /** The scan meets the first Session packet at i: what it decodes there is what DetectedSession gives. */
  lemma DetectedSessionAt(packets: seq<seq<byte>>, i: nat)
    requires i < |packets| && IsKind(packets[i], SessionPacketId)
    requires !(FirstOfKind(packets, SessionPacketId).Some? && FirstOfKind(packets, SessionPacketId).value < i)
    ensures DetectedSession(packets) == SessionTriple(packets[i])
  {
    FirstOfKindStep(packets, SessionPacketId, i);
  }

  /** The scan meets the first Participants packet at i: what it decodes there is what DetectedPlayer gives. */
  lemma DetectedPlayerAt(packets: seq<seq<byte>>, i: nat)
    requires i < |packets| && IsKind(packets[i], ParticipantsPacketId)
    requires !(FirstOfKind(packets, ParticipantsPacketId).Some? && FirstOfKind(packets, ParticipantsPacketId).value < i)
    ensures DetectedPlayer(packets) == PlayerNameOrEmpty(packets[i])
  {
    FirstOfKindStep(packets, ParticipantsPacketId, i);
  }

  /**
   * One step of the scan: a packet too short for a header is skipped; the
   * first Session packet and the first Participants packet are decoded into
   * info, and later ones of either kind are ignored.
   */
  method TakePacket(packetData: seq<byte>, info: SessionInfo, sessionSeen: bool, participantsSeen: bool)
    returns (sessionReceived: bool, participantsReceived: bool)
    modifies info
    ensures sessionReceived == (sessionSeen || IsKind(packetData, SessionPacketId))
    ensures participantsReceived == (participantsSeen || IsKind(packetData, ParticipantsPacketId))
    ensures info.hasInfo == old(info.hasInfo) && info.timeOfDay == old(info.timeOfDay)
    ensures IsKind(packetData, SessionPacketId) && !sessionSeen && SessionFields(packetData).Some? ==>
      (info.weather, info.sessionType, info.trackName) == SessionFields(packetData).value
    ensures !(IsKind(packetData, SessionPacketId) && !sessionSeen && SessionFields(packetData).Some?) ==>
      info.weather == old(info.weather) && info.sessionType == old(info.sessionType)
      && info.trackName == old(info.trackName)
    ensures IsKind(packetData, ParticipantsPacketId) && !participantsSeen && ParticipantsPlayerName(packetData).Some? ==>
      info.playerName == ParticipantsPlayerName(packetData).value
    ensures !(IsKind(packetData, ParticipantsPacketId) && !participantsSeen && ParticipantsPlayerName(packetData).Some?) ==>
      info.playerName == old(info.playerName)
  {
    sessionReceived, participantsReceived := sessionSeen, participantsSeen;
    if |packetData| < HeaderSize {
      return;
    }
    var packetId := packetData[6];
    if packetId == SessionPacketId {
      if !sessionReceived {
        ParseSessionPacket(packetData, info);
        sessionReceived := true;
      }
    } else if packetId == ParticipantsPacketId {
      if !participantsReceived {
        ParseParticipantsPacket(packetData, info);
        participantsReceived := true;
      }
    }
  }

  function Max(a: nat, b: nat): nat { if a < b then b else a }

  /** Monaco, Race, Max_Verstappen in clear weather: the weather is the default and is left out. */
  lemma FilenameExample(info: SessionInfo)
    requires info.trackName == "Monaco" && info.sessionType == "Race"
    requires info.playerName == "Max_Verstappen" && info.weather == "Clear"
    ensures info.GenerateFilename() == "Monaco_Race_Max_Verstappen"
  {
    var parts := info.FilenameParts();
    assert parts == ["Monaco", "Race", "Max_Verstappen"];
    var tail := ["Race", "Max_Verstappen"];
    assert parts[1..] == tail && tail[1..] == ["Max_Verstappen"];
    assert Join(tail, "_") == "Race" + "_" + "Max_Verstappen";
    assert Join(parts, "_") == "Monaco" + "_" + Join(tail, "_");
    assert info.GenerateFilename() == Join(parts, "_");
    ExampleNameSpelling();
  }

  lemma ExampleNameSpelling()
    ensures "Monaco" + "_" + ("Race" + "_" + "Max_Verstappen") == "Monaco_Race_Max_Verstappen"
  {
  }

  /**
   * Scans packets until one Session and one Participants packet have been
   * seen; only the first of each kind is decoded. hasInfo is set exactly
   * when both kinds occur, and then the scan stops right after the later of
   * the two first occurrences; consumed is the number of packets taken.
   */
  method ExtractSessionInfo(packets: seq<seq<byte>>) returns (info: SessionInfo, consumed: nat)
    ensures fresh(info)
    ensures info.hasInfo <==>
      FirstOfKind(packets, SessionPacketId).Some? && FirstOfKind(packets, ParticipantsPacketId).Some?
    ensures info.hasInfo ==>
      consumed == Max(FirstOfKind(packets, SessionPacketId).value, FirstOfKind(packets, ParticipantsPacketId).value) + 1
    ensures !info.hasInfo ==> consumed == |packets|
    ensures (info.weather, info.sessionType, info.trackName) == DetectedSession(packets)
    ensures info.playerName == DetectedPlayer(packets)
    ensures info.timeOfDay == ""
  {
    info := new SessionInfo();
    var sessionReceived := false;
    var participantsReceived := false;
    ghost var s := FirstOfKind(packets, SessionPacketId);
    ghost var p := FirstOfKind(packets, ParticipantsPacketId);
    ghost var triple := DetectedSession(packets);
    ghost var player := DetectedPlayer(packets);
    var i := 0;
    while i < |packets|
      invariant 0 <= i <= |packets|
      invariant sessionReceived <==> s.Some? && s.value < i
      invariant participantsReceived <==> p.Some? && p.value < i
      invariant !(sessionReceived && participantsReceived)
      invariant sessionReceived ==> info.weather == triple.0 && info.sessionType == triple.1 && info.trackName == triple.2
      invariant !sessionReceived ==> info.weather == "" && info.sessionType == "" && info.trackName == ""
      invariant info.playerName == if participantsReceived then player else ""
      invariant info.timeOfDay == "" && !info.hasInfo
    {
      FirstOfKindStep(packets, SessionPacketId, i);
      FirstOfKindStep(packets, ParticipantsPacketId, i);
      if IsKind(packets[i], SessionPacketId) && !sessionReceived {
        DetectedSessionAt(packets, i);
      }
      if IsKind(packets[i], ParticipantsPacketId) && !participantsReceived {
        DetectedPlayerAt(packets, i);
      }
      sessionReceived, participantsReceived := TakePacket(packets[i], info, sessionReceived, participantsReceived);
      if sessionReceived && participantsReceived {
        info.hasInfo := true;
        consumed := i + 1;
        return;
      }
      i := i + 1;
    }
    consumed := |packets|;
  }

  /**
   * Whatever the packets hold, the detected fields are filename-safe, so
   * the generated file name is too.
   */
  lemma DetectedFieldsAreSafe(packets: seq<seq<byte>>)
    ensures IsFilenameSafe(DetectedSession(packets).0)
    ensures IsFilenameSafe(DetectedSession(packets).1)
    ensures IsFilenameSafe(DetectedSession(packets).2)
    ensures IsFilenameSafe(DetectedPlayer(packets))
  {
  }

  /** The bytes of "Max Verstappen!!" followed by the terminating zero byte. */
  const ExampleNameField: seq<byte> :=
    [0x4D, 0x61, 0x78, 0x20, 0x56, 0x65, 0x72, 0x73, 0x74, 0x61, 0x70, 0x70, 0x65, 0x6E, 0x21, 0x21, 0]

  /** "Max Verstappen!!", whatever follows its zero byte, is stored as "Max_Verstappen". */
  lemma PlayerNameExample(padding: seq<byte>)
    ensures PlayerNameFromField(ExampleNameField + padding) == "Max_Verstappen"
  {
    var field := ExampleNameField + padding;
    var raw := "Max Verstappen!!";
    ExampleFieldCut(padding);
    TrimSpaceKeepsTrimmed(raw);
    ExampleNameSanitised();
  }

  lemma ExampleFieldCut(padding: seq<byte>)
    ensures ExtractNullTerminatedString(ExampleNameField + padding) == "Max Verstappen!!"
  {
    var field := ExampleNameField + padding;
    var n := NulIndex(field, 0);
    assert field[16] == 0;
    assert forall k :: 0 <= k < 16 ==> field[k] != 0;
    assert n == 16;
    var raw := "Max Verstappen!!";
    var name := ExtractNullTerminatedString(field);
    assert |name| == 16;
    forall i | 0 <= i < 16 ensures name[i] == raw[i] {
      assert name[i] == field[i] as char;
    }
  }

  lemma ExampleNameSanitised()
    ensures SanitizeForFilename("Max Verstappen!!") == "Max_Verstappen"
  {
    var first, space, second, bangs := "Max", " ", "Verstappen", "!!";
    ExampleNameSplits();
    SanitizeAppend(first + space + second, bangs);
    SanitizeAppend(first + space, second);
    SanitizeAppend(first, space);
    ExamplePiecesSanitised();
  }

  lemma ExampleNameSplits()
    ensures "Max Verstappen!!" == "Max" + " " + "Verstappen" + "!!"
    ensures "Max" + "_" + "Verstappen" + "" == "Max_Verstappen"
  {
  }

  lemma ExamplePiecesSanitised()
    ensures SanitizeForFilename("Max") == "Max" && SanitizeForFilename("Verstappen") == "Verstappen"
    ensures SanitizeForFilename(" ") == "_" && SanitizeForFilename("!!") == ""
  {
    SanitizeSafeIsIdentity("Max");
    SanitizeSafeIsIdentity("Verstappen");
    ExampleSymbolsSanitised();
  }

  lemma ExampleSymbolsSanitised()
    ensures SanitizeForFilename(" ") == "_" && SanitizeForFilename("!!") == ""
  {
    SanitizeSnoc("", ' ');
    assert " " == "" + [' '];
    SanitizeSnoc("", '!');
    SanitizeSnoc("!", '!');
    assert "!!" == "!" + ['!'] && "!" == "" + ['!'];
  }

  /** A name field that holds only white space before its terminator yields the default name. */
  lemma BlankNameBecomesDefault(field: seq<byte>)
    requires var raw := ExtractNullTerminatedString(field);
      forall i :: 0 <= i < |raw| ==> IsSpace(raw[i])
    ensures PlayerNameFromField(field) == DefaultPlayerName
  {
    TrimSpaceEmptyIffAllSpace(ExtractNullTerminatedString(field));
    assert SafeFrom(DefaultPlayerName, 0);
    SafeFromIsSafe(DefaultPlayerName, 0);
    SanitizeSafeIsIdentity(DefaultPlayerName);
  }

  /** A name of symbols only is defaulted before sanitising, so it ends up empty. */
  lemma SymbolOnlyNameIsEmpty(field: seq<byte>)
    requires var raw := ExtractNullTerminatedString(field);
      TrimSpace(raw) != "" && forall i :: 0 <= i < |raw| ==> !IsFilenameChar(raw[i]) && raw[i] != ' '
    ensures PlayerNameFromField(field) == ""
  {
    var raw := ExtractNullTerminatedString(field);
    var t := TrimSpace(raw);
    assert PlayerNameFromField(field) == SanitizeForFilename(t);
    var a, b :| 0 <= a <= b <= |raw| && t == raw[a..b];
    SymbolSliceHasNoFilenameChar(raw, a, b);
    SymbolOnlyKeepsNothing(ReplaceSpaces(t), |t|);
  }

  lemma SymbolSliceHasNoFilenameChar(raw: string, a: nat, b: nat)
    requires a <= b <= |raw|
    requires forall i :: 0 <= i < |raw| ==> !IsFilenameChar(raw[i]) && raw[i] != ' '
    ensures forall i :: 0 <= i < b - a ==> !IsFilenameChar(ReplaceSpaces(raw[a..b])[i])
  {
    var r := ReplaceSpaces(raw[a..b]);
    forall i | 0 <= i < b - a ensures !IsFilenameChar(r[i]) {
      assert raw[a..b][i] == raw[a + i];
    }
  }

  lemma {:induction false} SymbolOnlyKeepsNothing(s: string, n: nat)
    requires n <= |s|
    requires forall i :: 0 <= i < |s| ==> !IsFilenameChar(s[i])
    ensures KeepFilenameCharsUpTo(s, n) == ""
  {
    if n > 0 {
      SymbolOnlyKeepsNothing(s, n - 1);
    }
  }
}
