/** The hex colour check of utils/colors.py. */
module Colors {
  import opened Wrappers
  import opened Errors

  const HexDigits: string := "0123456789abcdef"

  /** str.lower() on one character, for the letters that matter here: no character other than
      'A'..'F' lowers to a character of HexDigits, so other characters are left as they are. */
  function ToLower(c: char): char {
    if 'A' <= c <= 'Z' then (c as int - 'A' as int + 'a' as int) as char else c
  }

  function Lowered(s: string): (r: string)
    ensures |r| == |s|
    ensures forall i :: 0 <= i < |s| ==> r[i] == ToLower(s[i])
  {
    if s == [] then [] else [ToLower(s[0])] + Lowered(s[1..])
  }

  /** all(c in "0123456789abcdef" for c in s) */
  predicate AllHexDigits(s: string) {
    s == [] || (s[0] in HexDigits && AllHexDigits(s[1..]))
  }

  /** is_valid_color: starts with '#', has length 7, and the rest, lower-cased, is all hex
      digits. So a valid colour is '#' followed by exactly six hex digits of either case, and
      anything without a leading '#', or of another length, is rejected. */
  function IsValidColor(color: string): (b: bool)
    ensures b <==> |color| == 7 && color[0] == '#' && forall i :: 1 <= i < 7 ==> IsHexDigit(color[i])
  {
    |color| > 0 && color[0] == '#' && |color| == 7 &&
      (AllHexDigitsLowered(color[1..]);
       assert forall i :: 1 <= i < 7 ==> color[i] == color[1..][i - 1];
       AllHexDigits(Lowered(color[1..])))
  }

  /** A hex digit in either case. */
  predicate IsHexDigit(c: char) {
    '0' <= c <= '9' || 'a' <= c <= 'f' || 'A' <= c <= 'F'
  }

  /** Lower-casing turns exactly the hex digits of either case into HexDigits. */
  lemma LoweredHexDigit(c: char)
    ensures ToLower(c) in HexDigits <==> IsHexDigit(c)
  {
  }

  lemma {:induction false} AllHexDigitsLowered(s: string)
    ensures AllHexDigits(Lowered(s)) <==> forall i :: 0 <= i < |s| ==> IsHexDigit(s[i])
  {
    if s != [] {
      var rest := Lowered(s[1..]);
      assert Lowered(s) == [ToLower(s[0])] + rest;
      assert ([ToLower(s[0])] + rest)[1..] == rest;
      LoweredHexDigit(s[0]);
      AllHexDigitsLowered(s[1..]);
      assert forall i :: 1 <= i < |s| ==> s[i] == s[1..][i - 1];
    }
  }

  /** assert_valid_color: ValueError exactly when the colour is not valid. */
  function AssertValidColor(color: string): (r: Outcome<Error>)
    ensures r.Pass? <==> |color| == 7 && color[0] == '#' && forall i :: 1 <= i < 7 ==> IsHexDigit(color[i])
    ensures r.Fail? ==> r.error == ValueError("Invalid color")
  {
    if !IsValidColor(color) then Fail(ValueError("Invalid color")) else Pass
  }

  /** Upper-case hex digits are accepted. */
  lemma UpperCaseAccepted()
    ensures IsValidColor("#A0B1C2")
  {
    var color := "#A0B1C2";
    assert forall i :: 1 <= i < 7 ==> IsHexDigit(color[i]);
  }

  /** A non-hex letter is rejected. */
  lemma NonHexRejected()
    ensures !IsValidColor("#12345g")
  {
  }
}
