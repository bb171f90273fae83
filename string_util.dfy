// string_util: case mapping in the "C" locale, whitespace trimming, the
// ASCII letter test and joining with a delimiter.
module StringUtil {

  /** The characters Trim removes: " \t\n\r\f\v". */
  predicate IsTrimSpace(c: char)
  {
    c == ' ' || c == '\t' || c == '\n' || c == '\r' || c == 12 as char || c == 11 as char
  }

  predicate IsUpperAscii(c: char) { 'A' <= c <= 'Z' }
  predicate IsLowerAscii(c: char) { 'a' <= c <= 'z' }

  /** std::tolower on one byte in the "C" locale. */
  function LowerChar(c: char): char
  {
    if IsUpperAscii(c) then (c as int + 32) as char else c
  }

  /** std::toupper on one byte in the "C" locale. */
  function UpperChar(c: char): char
  {
    if IsLowerAscii(c) then (c as int - 32) as char else c
  }

  /** ToLower: every upper-case ASCII letter becomes its lower-case partner, nothing else moves. */
  function ToLower(s: string): (r: string)
    ensures |r| == |s|
    ensures forall i | 0 <= i < |s| :: IsUpperAscii(s[i]) ==> r[i] as int == s[i] as int + 32
    ensures forall i | 0 <= i < |s| :: !IsUpperAscii(s[i]) ==> r[i] == s[i]
  {
    seq(|s|, i requires 0 <= i < |s| => LowerChar(s[i]))
  }

  /** ToUpper: every lower-case ASCII letter becomes its upper-case partner, nothing else moves. */
  function ToUpper(s: string): (r: string)
    ensures |r| == |s|
    ensures forall i | 0 <= i < |s| :: IsLowerAscii(s[i]) ==> r[i] as int == s[i] as int - 32
    ensures forall i | 0 <= i < |s| :: !IsLowerAscii(s[i]) ==> r[i] == s[i]
  {
    seq(|s|, i requires 0 <= i < |s| => UpperChar(s[i]))
  }

  /** Lower-casing an upper-cased string is the same as lower-casing it directly, and vice versa. */
  lemma CaseMapsAgree(s: string)
    ensures ToLower(ToUpper(s)) == ToLower(s)
    ensures ToUpper(ToLower(s)) == ToUpper(s)
    ensures ToLower(ToLower(s)) == ToLower(s)
  {
  }

  /** IsAlpha: false when c lies outside both 'A'..'Z' and 'a'..'z'. */
  predicate IsAlpha(c: char)
  {
    !((c < 'A' || c > 'Z') && (c < 'a' || c > 'z'))
  }

  /** The letters are exactly the characters that the two case maps send to different places. */
  lemma IsAlphaIffCased(c: char)
    ensures IsAlpha(c) <==> ToLower([c]) != ToUpper([c])
  {
    assert ToLower([c])[0] == LowerChar(c);
    assert ToUpper([c])[0] == UpperChar(c);
  }

  /** Index of the first character that is not trim-space, or |s| (npos) when there is none. */
  function FirstNotSpace(s: string): (k: nat)
    ensures k <= |s|
    ensures forall i | 0 <= i < k :: IsTrimSpace(s[i])
    ensures k < |s| ==> !IsTrimSpace(s[k])
    decreases |s|
  {
    if |s| == 0 || !IsTrimSpace(s[0]) then 0 else 1 + FirstNotSpace(s[1..])
  }

  /** One past the index of the last character that is not trim-space, or 0 when there is none. */
  function EndNotSpace(s: string): (k: nat)
    ensures k <= |s|
    ensures forall i | k <= i < |s| :: IsTrimSpace(s[i])
    ensures k > 0 ==> !IsTrimSpace(s[k - 1])
    decreases |s|
  {
    if |s| == 0 || !IsTrimSpace(s[|s| - 1]) then |s| else EndNotSpace(s[..|s| - 1])
  }

  /** Trim: substring from the first to the last character outside " \t\n\r\f\v"; "" when there is none. */
  function Trim(s: string): (r: string)
    ensures r == [] || (!IsTrimSpace(r[0]) && !IsTrimSpace(r[|r| - 1]))
  {
    var first := FirstNotSpace(s);
    if first == |s| then "" else s[first..EndNotSpace(s)]
  }

  /** Trim drops exactly a leading and a trailing run of trim-space and keeps the middle unchanged. */
  lemma TrimSpec(s: string)
    ensures exists a, b | 0 <= a <= b <= |s| :: Trim(s) == s[a..b]
              && (forall i | 0 <= i < a :: IsTrimSpace(s[i]))
              && (forall i | b <= i < |s| :: IsTrimSpace(s[i]))
    ensures Trim(s) == [] <==> forall i | 0 <= i < |s| :: IsTrimSpace(s[i])
  {
    var first := FirstNotSpace(s);
    if first == |s| {
      assert Trim(s) == s[0..0];
    } else {
      var end := EndNotSpace(s);
      assert !IsTrimSpace(s[first]);
      assert Trim(s) == s[first..end];
      assert Trim(s)[0] == s[first];
    }
  }

  /** A string that neither starts nor ends with trim-space is its own Trim; hence Trim is idempotent. */
  lemma TrimFixpoint(s: string)
    requires s == [] || (!IsTrimSpace(s[0]) && !IsTrimSpace(s[|s| - 1]))
    ensures Trim(s) == s
  {
    if s != [] {
      assert FirstNotSpace(s) == 0;
      assert EndNotSpace(s) == |s|;
    }
  }

  lemma TrimIdempotent(s: string)
    ensures Trim(Trim(s)) == Trim(s)
  {
    TrimFixpoint(Trim(s));
  }

  /** folly::join: the parts with the delimiter between consecutive ones. */
  function Join(delim: string, parts: seq<string>): (r: string)
    ensures |parts| == 0 ==> r == ""
    ensures |parts| == 1 ==> r == parts[0]
    decreases |parts|
  {
    if |parts| == 0 then ""
    else if |parts| == 1 then parts[0]
    else Join(delim, parts[..|parts| - 1]) + delim + parts[|parts| - 1]
  }
}
