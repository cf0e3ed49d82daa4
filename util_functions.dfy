/** The two helpers of the viewer's utility file: the mobile check and the UUID generator. */
module Util {

  // ---------------------------------------------------------------------------
  // String search, as `String.prototype.indexOf` and `toLowerCase` behave on ASCII
  // ---------------------------------------------------------------------------

  /** `pat` occurs in `s` starting at index `i`. */
  predicate OccursAt(s: string, pat: string, i: int)
  {
    0 <= i && i + |pat| <= |s| && s[i..i + |pat|] == pat
  }

  predicate Contains(s: string, pat: string)
  {
    exists i :: 0 <= i <= |s| && OccursAt(s, pat, i)
  }

  /** `s.indexOf(pat, from)`: the first occurrence at or after `from`, or -1. */
  function IndexOfFrom(s: string, pat: string, from: nat): (r: int)
    requires from <= |s|
    decreases |s| - from
    ensures r == -1 || (from <= r && OccursAt(s, pat, r))
    ensures r == -1 <==> forall i :: from <= i <= |s| ==> !OccursAt(s, pat, i)
    ensures r != -1 ==> forall i :: from <= i < r ==> !OccursAt(s, pat, i)
  {
    if from + |pat| > |s| then -1
    else if s[from..from + |pat|] == pat then from
    else IndexOfFrom(s, pat, from + 1)
  }

  /** `s.indexOf(pat)`. */
  function IndexOf(s: string, pat: string): (r: int)
    ensures r > -1 <==> Contains(s, pat)
    ensures r > -1 ==> OccursAt(s, pat, r) && forall i :: 0 <= i < r ==> !OccursAt(s, pat, i)
  {
    IndexOfFrom(s, pat, 0)
  }

  function LowerChar(c: char): char
  {
    if 'A' <= c <= 'Z' then (c as int + 32) as char else c
  }

  /** `s.toLowerCase()`, restricted to the ASCII letters. */
  function ToLower(s: string): (r: string)
    ensures |r| == |s|
    ensures forall i :: 0 <= i < |s| ==> r[i] == LowerChar(s[i])
  {
    seq(|s|, i requires 0 <= i < |s| => LowerChar(s[i]))
  }

  lemma ToLowerIdempotent(s: string)
    ensures ToLower(ToLower(s)) == ToLower(s)
  {
  }

  // ---------------------------------------------------------------------------
  // isMobileDevice
  // ---------------------------------------------------------------------------

  /**
   * `isMobileDevice()` as a function of `navigator.userAgent` and of whether
   * `'ontouchend' in document` holds.
   */
  function IsMobileDevice(userAgent: string, touchEndSupported: bool): (mobile: bool)
    ensures mobile <==>
      || Contains(ToLower(userAgent), "iphone")
      || Contains(ToLower(userAgent), "ipad")
      || (Contains(ToLower(userAgent), "macintosh") && touchEndSupported)
      || Contains(ToLower(userAgent), "android")
  {
    var ua := ToLower(userAgent);
    if || IndexOf(ua, "iphone") > -1
       || IndexOf(ua, "ipad") > -1
       || (IndexOf(ua, "macintosh") > -1 && touchEndSupported)
       || IndexOf(ua, "android") > -1
    then true
    else false
  }

  /** The check ignores the letter case of the user agent. */
  lemma {:induction false} IsMobileDeviceIgnoresCase(userAgent: string, touchEndSupported: bool)
    ensures IsMobileDevice(ToLower(userAgent), touchEndSupported) == IsMobileDevice(userAgent, touchEndSupported)
  {
    ToLowerIdempotent(userAgent);
  }

  /** Upper-case letters in the user agent do not hide a mobile platform. */
  lemma MixedCaseIPhoneIsMobile(touchEndSupported: bool)
    ensures IsMobileDevice("Mozilla/5.0 (iPhone)", touchEndSupported)
  {
    var ua := ToLower("Mozilla/5.0 (iPhone)");
    assert ua[13..19] == "iphone";
    assert OccursAt(ua, "iphone", 13);
  }

  // ---------------------------------------------------------------------------
  // generateUuid: the version-4 layout of section 4.4 of RFC 4122
  // ---------------------------------------------------------------------------

  const UuidTemplate: string := "xxxxxxxx-xxxx-4xxx-yxxx-xxxxxxxxxxxx"

  const HexDigits: string := "0123456789abcdef"

  /** `n.toString(16)` for a single hexadecimal digit. */
  function HexDigit(n: int): (d: char)
    requires 0 <= n < 16
    ensures d in HexDigits
  {
    HexDigits[n]
  }

  /** A value `Math.random()` can return. */
  predicate IsRandom(r: real)
  {
    0.0 <= r < 1.0
  }

  /**
   * One template position filled from one random draw: `x` becomes
   * `Math.floor(r * 16).toString(16)`, `y` becomes
   * `(Math.floor(r * 4) + 8).toString(16)`, anything else stays.
   */
  function FillChar(c: char, r: real): (f: char)
    requires IsRandom(r)
    ensures c == 'x' || c == 'y' ==> f in HexDigits
    ensures c != 'x' && c != 'y' ==> f == c
  {
    if c == 'x' then HexDigit((r * 16.0).Floor)
    else if c == 'y' then HexDigit((r * 4.0).Floor + 8)
    else c
  }

  /** The identifier `generateUuid` produces when position `i` draws `rand[i]`. */
  function UuidFrom(rand: seq<real>): (uuid: string)
    requires |rand| == |UuidTemplate|
    requires forall i :: 0 <= i < |rand| ==> IsRandom(rand[i])
    ensures |uuid| == |UuidTemplate|
    ensures forall i :: 0 <= i < |uuid| && UuidTemplate[i] != 'x' && UuidTemplate[i] != 'y' ==> uuid[i] == UuidTemplate[i]
    ensures forall i :: 0 <= i < |uuid| && (UuidTemplate[i] == 'x' || UuidTemplate[i] == 'y') ==> uuid[i] in HexDigits
  {
    seq(|UuidTemplate|, i requires 0 <= i < |UuidTemplate| => FillChar(UuidTemplate[i], rand[i]))
  }

  /** The textual layout of a version-4 UUID with lower-case digits. */
  predicate IsUuidV4(s: string)
  {
    && |s| == 36
    && s[8] == '-' && s[13] == '-' && s[18] == '-' && s[23] == '-'
    && s[14] == '4'
    && s[19] in "89ab"
    && forall i :: 0 <= i < 36 && i !in {8, 13, 14, 18, 19, 23} ==> s[i] in HexDigits
  }

  lemma TemplateLayout(i: int)
    requires 0 <= i < 36
    ensures i in {8, 13, 18, 23} ==> UuidTemplate[i] == '-'
    ensures i == 14 ==> UuidTemplate[i] == '4'
    ensures i == 19 ==> UuidTemplate[i] == 'y'
    ensures i !in {8, 13, 14, 18, 19, 23} ==> UuidTemplate[i] == 'x'
  {
  }

  /** Every identifier the generator can produce has the version-4 layout. */
  lemma {:induction false} UuidFromIsV4(rand: seq<real>)
    requires |rand| == |UuidTemplate|
    requires forall i :: 0 <= i < |rand| ==> IsRandom(rand[i])
    ensures IsUuidV4(UuidFrom(rand))
  {
    var u := UuidFrom(rand);
    forall i | 0 <= i < 36
      ensures i in {8, 13, 18, 23} ==> u[i] == '-'
      ensures i == 14 ==> u[i] == '4'
      ensures i == 19 ==> u[i] in "89ab"
      ensures i !in {8, 13, 14, 18, 19, 23} ==> u[i] in HexDigits
    {
      TemplateLayout(i);
      if i == 19 {
        var d := (rand[i] * 4.0).Floor;
        assert 0 <= d < 4;
        assert HexDigits[d + 8] == "89ab"[d];
      }
    }
  }

  /**
   * `generateUuid()`: the template's characters are rewritten in place, one
   * position per iteration, with `rand[i]` standing for the `Math.random()`
   * draw made at position `i`.
   */
  method GenerateUuid(rand: seq<real>) returns (uuid: string)
    requires |rand| == |UuidTemplate|
    requires forall i :: 0 <= i < |rand| ==> IsRandom(rand[i])
    ensures uuid == UuidFrom(rand)
    ensures IsUuidV4(uuid)
  {
    var chars := new char[|UuidTemplate|](i requires 0 <= i < |UuidTemplate| => UuidTemplate[i]);
    var i := 0;
    while i < chars.Length
      invariant 0 <= i <= chars.Length == |UuidTemplate|
      invariant forall j :: 0 <= j < i ==> chars[j] == FillChar(UuidTemplate[j], rand[j])
      invariant forall j :: i <= j < chars.Length ==> chars[j] == UuidTemplate[j]
    {
      if chars[i] == 'x' {
        chars[i] := HexDigit((rand[i] * 16.0).Floor);
      } else if chars[i] == 'y' {
        chars[i] := HexDigit((rand[i] * 4.0).Floor + 8);
      }
      i := i + 1;
    }
    uuid := chars[..];
    UuidFromIsV4(rand);
  }
}
