/** `YoneticiForm`, the manager registration form: its `validateForm` (six
    required fields and three regular-expression checks, written out here as
    character predicates) and the payload `handleSubmit` forwards. */
module YoneticiForm {
  import opened Types
  import Js
  import Text
  import RegisterScreen

  datatype Fields = Fields(
    firstName: string,
    lastName: string,
    siteName: string,
    block: string,
    dueAmount: string,
    dueDate: string,
    iban: string)

  datatype FormError = MissingRequired | InvalidAmount | InvalidDate | InvalidIban

  predicate AllDigits(s: string) {
    forall i :: 0 <= i < |s| ==> Text.IsDigit(s[i])
  }

  /** `[A-Z]`: ASCII upper-case letters only. */
  predicate IsUpper(c: char) {
    'A' <= c <= 'Z'
  }

  /** The length of the longest all-digit prefix of `s`. */
  function LeadingDigits(s: string): (k: nat)
    ensures k <= |s|
    ensures forall i :: 0 <= i < k ==> Text.IsDigit(s[i])
    ensures k < |s| ==> !Text.IsDigit(s[k])
  {
    if s == [] || !Text.IsDigit(s[0]) then 0
    else
      var k := LeadingDigits(s[1..]);
      assert forall i :: 1 <= i < k + 1 ==> s[i] == s[1..][i - 1];
      k + 1
  }

  /** A digit run of length `j` ended by the end of input or a non-digit is the
      leading digit run. */
  lemma {:induction false} LeadingDigitsIs(s: string, j: nat)
    requires j <= |s| && AllDigits(s[..j])
    requires j < |s| ==> !Text.IsDigit(s[j])
    ensures LeadingDigits(s) == j
    decreases j
  {
    if j > 0 {
      assert s[..j][0] == s[0];
      assert s[1..][..j - 1] == s[..j][1..];
      LeadingDigitsIs(s[1..], j - 1);
    }
  }

  /** `/^\d+(\.\d{1,2})?$/`, scanned left to right: a run of digits, then
      either the end or a dot followed by one or two digits and the end. */
  predicate AmountMatches(s: string) {
    var k := LeadingDigits(s);
    k > 0 && (k == |s| || (s[k] == '.' && 2 <= |s| - k <= 3 && AllDigits(s[k + 1..])))
  }

  /** The amount as the two alternatives of the pattern: an integer part, or an
      integer part, a dot at `k` and a one- or two-digit fraction. */
  predicate DecimalAt(s: string, k: int) {
    && 1 <= k && k + 2 <= |s| <= k + 3
    && AllDigits(s[..k]) && s[k] == '.' && AllDigits(s[k + 1..])
  }

  ghost predicate AmountShape(s: string) {
    (|s| > 0 && AllDigits(s)) || exists k :: DecimalAt(s, k)
  }

  /** The scanner accepts exactly the strings of the pattern. */
  lemma AmountMatchesIffShape(s: string)
    ensures AmountMatches(s) <==> AmountShape(s)
  {
    var k := LeadingDigits(s);
    if AmountMatches(s) {
      if k == |s| {
        assert s[..k] == s;
      } else {
        assert DecimalAt(s, k);
      }
    }
    if exists j :: DecimalAt(s, j) {
      var j :| DecimalAt(s, j);
      LeadingDigitsIs(s, j);
    } else if |s| > 0 && AllDigits(s) {
      assert s[..|s|] == s;
      LeadingDigitsIs(s, |s|);
    }
  }

  /** An amount has no sign, no bare dot and no trailing dot. */
  lemma AmountRejections()
    ensures !AmountMatches("-5") && !AmountMatches(".5") && !AmountMatches("5.")
    ensures !AmountMatches("5.123")
    ensures AmountMatches("300") && AmountMatches("12.5") && AmountMatches("0.75")
  {
    assert LeadingDigits("5.") == 1;
    assert LeadingDigits("5.123") == 1;
    assert LeadingDigits("12.5") == 2;
    assert LeadingDigits("0.75") == 1;
    assert LeadingDigits("300") == 3;
  }

  /** `/^\d{4}-\d{2}-\d{2}$/`, position by position. */
  predicate DateMatches(s: string) {
    && |s| == 10
    && (forall i :: 0 <= i < 10 && i != 4 && i != 7 ==> Text.IsDigit(s[i]))
    && s[4] == '-' && s[7] == '-'
  }

  /** The date as three digit groups of lengths 4, 2, 2 joined by dashes. */
  ghost predicate DateShape(s: string) {
    && |s| == 10
    && AllDigits(s[..4]) && s[4] == '-' && AllDigits(s[5..7]) && s[7] == '-' && AllDigits(s[8..])
  }

  lemma DateMatchesIffShape(s: string)
    ensures DateMatches(s) <==> DateShape(s)
  {
    if DateShape(s) {
      forall i | 0 <= i < 10 && i != 4 && i != 7 ensures Text.IsDigit(s[i]) {
        if i < 4 { assert s[..4][i] == s[i]; }
        else if i < 7 { assert s[5..7][i - 5] == s[i]; }
        else { assert s[8..][i - 8] == s[i]; }
      }
    }
  }

  /** The date check is about shape only: month 13 and day 45 pass. */
  lemma DateHasNoRangeCheck()
    ensures DateMatches("2024-13-45")
  {
  }

  /** `/^[A-Z]{2}\d{2}[A-Z0-9]{1,30}$/`: country letters, two digits, then one
      to thirty upper-case letters or digits. */
  predicate IbanMatches(s: string) {
    && 5 <= |s| <= 34
    && IsUpper(s[0]) && IsUpper(s[1]) && Text.IsDigit(s[2]) && Text.IsDigit(s[3])
    && forall i :: 4 <= i < |s| ==> IsUpper(s[i]) || Text.IsDigit(s[i])
  }

  /** An accepted IBAN is 5 to 34 characters long and contains no lower-case letter. */
  lemma IbanAcceptedShape(s: string)
    requires IbanMatches(s)
    ensures 5 <= |s| <= 34
    ensures forall i :: 0 <= i < |s| ==> !('a' <= s[i] <= 'z')
  {
  }

  /** Only the layout is checked: check digits "00" pass, although no IBAN
      can carry them under the mod-97 rule. */
  lemma IbanCheckDigitsNotVerified()
    ensures IbanMatches("TR00123")
  {
  }

  /** The six fields `validateForm` requires to be non-empty (`block` is not one). */
  predicate RequiredFilled(f: Fields) {
    f.firstName != "" && f.lastName != "" && f.siteName != "" && f.dueAmount != "" && f.dueDate != "" && f.iban != ""
  }

  /** `validateForm`: the first failing check, in the order required fields,
      amount, date, IBAN (`None`: valid). Each error is reported exactly when
      every earlier check passed and its own check fails. */
  function Validate(f: Fields): (r: Option<FormError>)
    ensures r == Some(MissingRequired) <==> !RequiredFilled(f)
    ensures r == Some(InvalidAmount) <==> RequiredFilled(f) && !AmountShape(f.dueAmount)
    ensures r == Some(InvalidDate) <==>
      RequiredFilled(f) && AmountShape(f.dueAmount) && !DateShape(f.dueDate)
    ensures r == Some(InvalidIban) <==>
      RequiredFilled(f) && AmountShape(f.dueAmount) && DateShape(f.dueDate) && !IbanMatches(f.iban)
    ensures r == None <==>
      && RequiredFilled(f)
      && AmountShape(f.dueAmount) && DateShape(f.dueDate) && IbanMatches(f.iban)
  {
    AmountMatchesIffShape(f.dueAmount);
    DateMatchesIffShape(f.dueDate);
    if !RequiredFilled(f) then Some(MissingRequired)
    else if !AmountMatches(f.dueAmount) then Some(InvalidAmount)
    else if !DateMatches(f.dueDate) then Some(InvalidDate)
    else if !IbanMatches(f.iban) then Some(InvalidIban)
    else None
  }

  /** `handleSubmit`: the data handed to `onSubmit`. `dueAmount` stands for
      `Number(dueAmount)`, computed outside the model. */
  function SubmitPayload(username: string, f: Fields, dueAmount: int): (p: map<string, Js.Value>)
    ensures p.Keys == {"username", "firstName", "lastName", "siteName", "block", "dueAmount", "dueDate", "IBAN"}
    ensures "iban" !in p && p["IBAN"] == Js.Str(f.iban)
    ensures p["block"] == Js.Str(f.block)
    ensures p["dueAmount"] == Js.Num(dueAmount)
  {
    map[
      "username" := Js.Str(username),
      "firstName" := Js.Str(f.firstName),
      "lastName" := Js.Str(f.lastName),
      "siteName" := Js.Str(f.siteName),
      "block" := Js.Str(f.block),
      "dueAmount" := Js.Num(dueAmount),
      "dueDate" := Js.Str(f.dueDate),
      "IBAN" := Js.Str(f.iban)]
  }

  /** Submitting is not gated by `validateForm`: a manager registration is sent
      whenever the common fields pass, whatever the form's own checks say. */
  lemma SubmitNotGated(c: RegisterScreen.CommonFields, f: Fields, dueAmount: int, reply: RegisterScreen.RegisterReply)
    requires RegisterScreen.ValidateForm(c).None?
    ensures var r := RegisterScreen.HandleRegister(c, "yonetici", SubmitPayload(c.username, f, dueAmount), reply);
      && r.Submitted?
      && r.request.endpoint == RegisterScreen.ManagerEndpoint
      && r.request.payload["IBAN"] == Js.Str(f.iban)
      && r.request.payload["role"] == Js.Str("yonetici")
  {
  }
}
