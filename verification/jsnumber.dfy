/** When JavaScript's unary `+` turns a string into a number other than NaN.

    `+s` applies StringToNumber (section 7.1.4.1.1 of ECMA-262): the result is NaN
    exactly when `s` does not match the StringNumericLiteral grammar, which is
    StrWhiteSpace, optionally surrounding one StrNumericLiteral:
      - StrDecimalLiteral: an optional sign, then `Infinity`, or DecimalDigits with
        an optional `.` fraction, or `.` DecimalDigits; after the digits comes an
        optional ExponentPart `e`/`E`, an optional sign and DecimalDigits;
      - NonDecimalIntegerLiteral: `0b`, `0o` or `0x` (either case) and at least one
        digit of that base, with no sign and no `_` separators.
    The grammar is regular; this module recognises it with the finite automaton
    below, one state per position in the grammar. The numeric value itself is
    never computed: the paginator only asks whether it is NaN.
 */
module JsNumber {

  /** WhiteSpace (section 12.2) and LineTerminator (section 12.3) code points: the
      StrWhiteSpaceChar set. The space separators are the Unicode category Zs. */
  predicate IsStrWhiteSpaceChar(c: char) {
    || c == '\t' || c == '\U{000B}' || c == '\U{000C}' || c == '\U{FEFF}'
    || c == ' ' || c == '\U{00A0}' || c == '\U{1680}' || ('\U{2000}' <= c <= '\U{200A}')
    || c == '\U{202F}' || c == '\U{205F}' || c == '\U{3000}'
    || c == '\n' || c == '\r' || c == '\U{2028}' || c == '\U{2029}'
  }

  predicate IsDecimalDigit(c: char) { '0' <= c <= '9' }

  /** A digit of radix 2, 8 or 16. */
  predicate IsRadixDigit(radix: nat, c: char) {
    if radix == 2 then c == '0' || c == '1'
    else if radix == 8 then '0' <= c <= '7'
    else IsDecimalDigit(c) || 'a' <= c <= 'f' || 'A' <= c <= 'F'
  }

  const Infinity: string := "Infinity"

  /** Where the scanner stands in the StringNumericLiteral grammar. */
  datatype State =
    | Lead                    // only white space so far
    | Signed                  // a sign, nothing after it yet
    | Zero                    // a lone unsigned `0`: may still become `0x…`
    | Whole                   // DecimalDigits before any `.`
    | Dot                     // a `.` with no digit on either side yet
    | Fraction                // digits and a `.`, or `.` and digits
    | Exponent                // `e` or `E`
    | ExponentSign            // `e` or `E`, then a sign
    | ExponentDigits          // the exponent's DecimalDigits
    | Radix(radix: nat)       // `0b`, `0o` or `0x`
    | RadixDigits(radix: nat) // `0b`, `0o` or `0x`, then its digits
    | Word(matched: nat)      // the first `matched` characters of `Infinity`
    | Trail                   // white space after a complete literal
    | Reject                  // no continuation can match

  /** The states in which the input read so far is a StringNumericLiteral. */
  predicate Accepting(s: State) {
    || s.Lead? || s.Zero? || s.Whole? || s.Fraction? || s.ExponentDigits?
    || s.RadixDigits? || s == Word(|Infinity|) || s.Trail?
  }

  /** A character that can open a StrNumericLiteral. */
  predicate CanStartNumber(c: char) {
    IsDecimalDigit(c) || c == '+' || c == '-' || c == '.' || c == Infinity[0]
  }

  /** The transition on one character. */
  function Step(s: State, c: char): State {
    match s
    case Lead =>
      if IsStrWhiteSpaceChar(c) then Lead
      else if c == '+' || c == '-' then Signed
      else if c == '0' then Zero
      else if IsDecimalDigit(c) then Whole
      else if c == '.' then Dot
      else if c == Infinity[0] then Word(1)
      else Reject
    case Signed =>
      if IsDecimalDigit(c) then Whole
      else if c == '.' then Dot
      else if c == Infinity[0] then Word(1)
      else Reject
    case Zero =>
      if c == 'b' || c == 'B' then Radix(2)
      else if c == 'o' || c == 'O' then Radix(8)
      else if c == 'x' || c == 'X' then Radix(16)
      else if IsDecimalDigit(c) then Whole
      else if c == '.' then Fraction
      else if c == 'e' || c == 'E' then Exponent
      else if IsStrWhiteSpaceChar(c) then Trail
      else Reject
    case Whole =>
      if IsDecimalDigit(c) then Whole
      else if c == '.' then Fraction
      else if c == 'e' || c == 'E' then Exponent
      else if IsStrWhiteSpaceChar(c) then Trail
      else Reject
    case Dot =>
      if IsDecimalDigit(c) then Fraction else Reject
    case Fraction =>
      if IsDecimalDigit(c) then Fraction
      else if c == 'e' || c == 'E' then Exponent
      else if IsStrWhiteSpaceChar(c) then Trail
      else Reject
    case Exponent =>
      if c == '+' || c == '-' then ExponentSign
      else if IsDecimalDigit(c) then ExponentDigits
      else Reject
    case ExponentSign =>
      if IsDecimalDigit(c) then ExponentDigits else Reject
    case ExponentDigits =>
      if IsDecimalDigit(c) then ExponentDigits
      else if IsStrWhiteSpaceChar(c) then Trail
      else Reject
    case Radix(r) =>
      if IsRadixDigit(r, c) then RadixDigits(r) else Reject
    case RadixDigits(r) =>
      if IsRadixDigit(r, c) then RadixDigits(r)
      else if IsStrWhiteSpaceChar(c) then Trail
      else Reject
    case Word(k) =>
      if k < |Infinity| && c == Infinity[k] then Word(k + 1)
      else if k == |Infinity| && IsStrWhiteSpaceChar(c) then Trail
      else Reject
    case Trail =>
      if IsStrWhiteSpaceChar(c) then Trail else Reject
    case Reject => Reject
  }

  /** The state reached from `s` after reading all of `text`. */
  function Run(s: State, text: string): State
    decreases |text|
  {
    if |text| == 0 then s else Run(Step(s, text[0]), text[1..])
  }

  /** `!isNaN(+text)`. */
  predicate IsNumericLabel(text: string) {
    Accepting(Run(Lead, text))
  }

  /** Once rejected, a label stays rejected whatever follows. */
  lemma {:induction false} RejectIsFinal(text: string)
    ensures Run(Reject, text) == Reject
  {
    if |text| > 0 {
      RejectIsFinal(text[1..]);
    }
  }

  /** Leading white space is skipped. */
  lemma {:induction false} LeadSkipsWhiteSpace(blank: string, text: string)
    requires forall i :: 0 <= i < |blank| ==> IsStrWhiteSpaceChar(blank[i])
    ensures Run(Lead, blank + text) == Run(Lead, text)
  {
    if |blank| > 0 {
      var whole := blank + text;
      assert whole[0] == blank[0] && whole[1..] == blank[1..] + text;
      LeadSkipsWhiteSpace(blank[1..], text);
    } else {
      assert blank + text == text;
    }
  }

  /** Digits keep a whole number whole. */
  lemma {:induction false} DigitsStayWhole(s: State, digits: string)
    requires s == Zero || s == Whole
    requires forall i :: 0 <= i < |digits| ==> IsDecimalDigit(digits[i])
    ensures Run(s, digits) == Zero || Run(s, digits) == Whole
    decreases |digits|
  {
    if |digits| > 0 {
      DigitsStayWhole(Whole, digits[1..]);
    }
  }

  /** Page numbers are numeric labels: every non-empty string of decimal digits. */
  lemma DigitStringIsNumeric(text: string)
    requires |text| > 0
    requires forall i :: 0 <= i < |text| ==> IsDecimalDigit(text[i])
    ensures IsNumericLabel(text)
  {
    DigitsStayWhole(Step(Lead, text[0]), text[1..]);
  }

  /** JavaScript's `+""` is 0, not NaN, so an empty or blank label counts as numeric. */
  lemma BlankLabelIsNumeric(text: string)
    requires forall i :: 0 <= i < |text| ==> IsStrWhiteSpaceChar(text[i])
    ensures IsNumericLabel(text)
  {
    LeadSkipsWhiteSpace(text, "");
    assert text + "" == text;
  }

  /** The separator `...` is not numeric: a `.` needs a digit on one side. */
  lemma EllipsisIsNotNumeric()
    ensures !IsNumericLabel("...")
  {
    assert Run(Lead, "...") == Run(Dot, "..") == Run(Reject, ".") == Reject;
  }

  /** A label whose first character is neither white space nor able to open a
      number is not numeric. */
  lemma OpeningRejects(text: string)
    requires |text| > 0 && !IsStrWhiteSpaceChar(text[0]) && !CanStartNumber(text[0])
    ensures !IsNumericLabel(text)
  {
    assert Step(Lead, text[0]) == Reject;
    RejectIsFinal(text[1..]);
  }

  /** The position of the first character that is not white space, or the length
      of `text` when there is none. */
  function FirstVisible(text: string): (k: nat)
    ensures k <= |text|
    decreases |text|
  {
    if |text| > 0 && IsStrWhiteSpaceChar(text[0]) then 1 + FirstVisible(text[1..]) else 0
  }

  /** The scanner skips straight to the first visible character. */
  lemma {:induction false} LeadSkipsToFirstVisible(text: string)
    ensures Run(Lead, text) == Run(Lead, text[FirstVisible(text)..])
    decreases |text|
  {
    if |text| > 0 && IsStrWhiteSpaceChar(text[0]) {
      LeadSkipsToFirstVisible(text[1..]);
      assert text[1..][FirstVisible(text[1..])..] == text[FirstVisible(text)..];
    }
  }

  /** A caption, as Laravel puts on its previous and next links (`&laquo; Previous`,
      `Next &raquo;`): its first visible character cannot open a number. */
  predicate IsCaption(text: string) {
    FirstVisible(text) < |text| && !CanStartNumber(text[FirstVisible(text)])
  }

  /** A caption is neither numeric nor the separator. */
  lemma CaptionIsNotNumeric(text: string)
    requires IsCaption(text)
    ensures !IsNumericLabel(text)
    ensures text != "..."
  {
    var k := FirstVisible(text);
    LeadSkipsToFirstVisible(text);
    assert !IsStrWhiteSpaceChar(text[k]) by {
      FirstVisibleIsVisible(text);
    }
    OpeningRejects(text[k..]);
  }

  /** The character at `FirstVisible` is not white space. */
  lemma {:induction false} FirstVisibleIsVisible(text: string)
    requires FirstVisible(text) < |text|
    ensures !IsStrWhiteSpaceChar(text[FirstVisible(text)])
    decreases |text|
  {
    if IsStrWhiteSpaceChar(text[0]) {
      FirstVisibleIsVisible(text[1..]);
    }
  }
}
