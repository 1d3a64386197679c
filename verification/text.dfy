/** String helpers shared by the form validators: JavaScript's `trim`, the
    "blank" test `s.trim() === ''`, `includes` on a substring, and the decimal
    rendering of integers used by `toString` and template strings. */
module Text {

  /** The white-space and line-terminator characters `String.prototype.trim`
      strips (ASCII ones, NO-BREAK SPACE, BOM and the two Unicode line separators). */
  predicate IsSpace(c: char) {
    || c == ' ' || c == '\t' || c == '\n' || c == '\r'
    || c == '\U{000B}' || c == '\U{000C}'
    || c == '\U{00A0}' || c == '\U{FEFF}' || c == '\U{2028}' || c == '\U{2029}'
  }

  /** Every character is white space (true of the empty string). */
  predicate Blank(s: string) {
    forall i :: 0 <= i < |s| ==> IsSpace(s[i])
  }

  /** The number of white-space characters `s` starts with. */
  function LeadingSpaces(s: string): (k: nat)
    ensures k <= |s|
    ensures forall i :: 0 <= i < k ==> IsSpace(s[i])
    ensures k < |s| ==> !IsSpace(s[k])
  {
    if |s| > 0 && IsSpace(s[0]) then
      var k := LeadingSpaces(s[1..]);
      assert forall i :: 1 <= i < k + 1 ==> s[i] == s[1..][i - 1];
      k + 1
    else 0
  }

  /** The number of white-space characters `s` ends with. */
  function TrailingSpaces(s: string): (k: nat)
    ensures k <= |s|
    ensures forall i :: |s| - k <= i < |s| ==> IsSpace(s[i])
    ensures k < |s| ==> !IsSpace(s[|s| - k - 1])
  {
    if |s| > 0 && IsSpace(s[|s| - 1]) then
      var k := TrailingSpaces(s[..|s| - 1]);
      assert forall i :: |s| - 1 - k <= i < |s| - 1 ==> s[i] == s[..|s| - 1][i];
      k + 1
    else 0
  }

  /** `s` with its leading white space removed. */
  function TrimStart(s: string): (r: string)
    ensures |r| <= |s| && r == s[|s| - |r|..]
    ensures r == [] || !IsSpace(r[0])
    ensures Blank(s[..|s| - |r|])
  {
    s[LeadingSpaces(s)..]
  }

  /** `s` with its trailing white space removed. */
  function TrimEnd(s: string): (r: string)
    ensures |r| <= |s| && r == s[..|r|]
    ensures r == [] || !IsSpace(r[|r| - 1])
    ensures Blank(s[|r|..])
  {
    s[..|s| - TrailingSpaces(s)]
  }

  /** `s.trim()`. */
  function Trim(s: string): string {
    TrimEnd(TrimStart(s))
  }

  /** Trimming the front of an all-white-space string leaves nothing. */
  lemma BlankTrimStartEmpty(s: string)
    requires Blank(s)
    ensures TrimStart(s) == []
  {
  }

  /** A non-space character at `i` survives trimming the front. */
  lemma TrimStartKeepsNonSpace(s: string, i: int)
    requires 0 <= i < |s| && !IsSpace(s[i])
    ensures !Blank(TrimStart(s))
  {
    var k := LeadingSpaces(s);
    assert k <= i;
    assert TrimStart(s)[i - k] == s[i];
  }

  /** Trimming the back of a string with a non-space character leaves something. */
  lemma TrimEndNonBlank(s: string, i: int)
    requires 0 <= i < |s| && !IsSpace(s[i])
    ensures TrimEnd(s) != []
  {
    assert i < |s| - TrailingSpaces(s);
  }

  /** `s.trim() === ''` holds exactly when `s` consists of white space only. */
  lemma TrimEmptyIffBlank(s: string)
    ensures Trim(s) == "" <==> Blank(s)
  {
    if Blank(s) {
      BlankTrimStartEmpty(s);
    } else {
      var i :| 0 <= i < |s| && !IsSpace(s[i]);
      TrimStartKeepsNonSpace(s, i);
      var t := TrimStart(s);
      var j :| 0 <= j < |t| && !IsSpace(t[j]);
      TrimEndNonBlank(t, j);
    }
  }

  /** A string with a non-space character does not trim to empty. */
  lemma NonSpaceSurvivesTrim(s: string, i: int)
    requires 0 <= i < |s| && !IsSpace(s[i])
    ensures Trim(s) != ""
  {
    TrimEmptyIffBlank(s);
  }

  /** `t` occurs in `s` starting at index `i`. */
  predicate OccursAt(s: string, t: string, i: int) {
    0 <= i && i + |t| <= |s| && s[i..i + |t|] == t
  }

  /** `s.includes(t)`, written as a search from the left. */
  function Includes(s: string, t: string): (b: bool)
    decreases |s|
  {
    if |t| <= |s| && s[..|t|] == t then true
    else if s == [] then false
    else Includes(s[1..], t)
  }

  /** The search agrees with "some window of `s` equals `t`". */
  lemma {:induction false} IncludesIffWindow(s: string, t: string)
    ensures Includes(s, t) <==> exists i :: OccursAt(s, t, i)
    decreases |s|
  {
    if |t| <= |s| && s[..|t|] == t {
      assert OccursAt(s, t, 0);
    } else if s == [] {
    } else {
      IncludesIffWindow(s[1..], t);
      if exists i :: OccursAt(s, t, i) {
        var i :| OccursAt(s, t, i);
        assert i != 0;
        assert s[1..][i - 1..i - 1 + |t|] == s[i..i + |t|];
        assert OccursAt(s[1..], t, i - 1);
      }
      if exists j :: OccursAt(s[1..], t, j) {
        var j :| OccursAt(s[1..], t, j);
        assert s[j + 1..j + 1 + |t|] == s[1..][j..j + |t|];
        assert OccursAt(s, t, j + 1);
      }
    }
  }

  predicate IsDigit(c: char) {
    '0' <= c <= '9'
  }

  function DigitChar(d: nat): (c: char)
    requires d < 10
    ensures IsDigit(c)
  {
    ['0', '1', '2', '3', '4', '5', '6', '7', '8', '9'][d]
  }

  function DigitValue(c: char): (d: nat)
    requires IsDigit(c)
    ensures d < 10 && DigitChar(d) == c
  {
    (c as int - '0' as int) as nat
  }

  /** Decimal notation of a natural number, no leading zeros. */
  function NatToString(n: nat): (s: string)
    ensures |s| > 0
    ensures forall i :: 0 <= i < |s| ==> IsDigit(s[i])
    ensures s[0] == '0' ==> n == 0
    decreases n
  {
    if n < 10 then [DigitChar(n)] else NatToString(n / 10) + [DigitChar(n % 10)]
  }

  /** The number a string of digits denotes. */
  function DigitsValue(s: string): nat
    requires forall i :: 0 <= i < |s| ==> IsDigit(s[i])
  {
    if s == [] then 0 else DigitsValue(s[..|s| - 1]) * 10 + DigitValue(s[|s| - 1])
  }

  /** Reading back the decimal notation gives the number. */
  lemma {:induction false} NatToStringRoundTrip(n: nat)
    ensures DigitsValue(NatToString(n)) == n
    decreases n
  {
    var s := NatToString(n);
    if n >= 10 {
      NatToStringRoundTrip(n / 10);
      assert s[..|s| - 1] == NatToString(n / 10);
    }
  }

  /** JavaScript's rendering of an integer (`n.toString()`, `${n}`). */
  function IntToString(n: int): (s: string)
    ensures |s| > 0
    ensures s[0] == '-' <==> n < 0
    ensures n < 0 ==> s[1..] == NatToString(-n)
    ensures n >= 0 ==> s == NatToString(n)
  {
    if n < 0 then "-" + NatToString(-n) else NatToString(n)
  }
}
