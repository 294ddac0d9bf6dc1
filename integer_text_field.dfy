/**
 * IntegerTextField: a text field whose edits are filtered so only digits can be typed,
 * and whose value is the text read as a Java int.
 */
module IntegerTextField {

  import opened Wrappers
  import opened Text
  import opened JavaInt

  /** A TextFormatter.Change: the range of the old text it replaces and the text it inserts. */
  datatype Change = Change(rangeStart: nat, rangeEnd: nat, text: string)

  /** The filter lambda: the change itself when its text matches [0-9]*, null otherwise. */
  function IntegerFilter(change: Change): (r: Option<Change>)
    ensures r.Some? <==> AllDigits(change.text)
    ensures r.Some? ==> r.value == change
  {
    if AllDigits(change.text) then Some(change) else None
  }

  /** The field's text after an accepted change. */
  function Apply(text: string, change: Change): string
    requires change.rangeStart <= change.rangeEnd <= |text|
  {
    text[..change.rangeStart] + change.text + text[change.rangeEnd..]
  }

  /** A change that inserts nothing, such as a deletion, always passes the filter. */
  lemma DeletionAccepted(start: nat, end: nat)
    ensures IntegerFilter(Change(start, end, "")).Some?
  {
  }

  /** Edits that pass the filter keep an all-digit text all digits. */
  lemma FilterKeepsDigits(text: string, change: Change)
    requires AllDigits(text)
    requires change.rangeStart <= change.rangeEnd <= |text|
    requires IntegerFilter(change).Some?
    ensures AllDigits(Apply(text, change))
  {
    var r := Apply(text, change);
    forall i | 0 <= i < |r| ensures IsDigit(r[i]) {
      if i < change.rangeStart {
        assert r[i] == text[i];
      } else if i < change.rangeStart + |change.text| {
        assert r[i] == change.text[i - change.rangeStart];
      } else {
        assert r[i] == text[change.rangeEnd + (i - change.rangeStart - |change.text|)];
      }
    }
  }

  /** Integer.parseInt: an optional sign and one or more digits whose value fits in an int. */
  function ParseJavaInt(s: string): (r: Option<int>)
    ensures r.Some? ==> IsInt32(r.value)
  {
    var negative := |s| > 0 && s[0] == '-';
    var digits := if |s| > 0 && (s[0] == '-' || s[0] == '+') then s[1..] else s;
    if digits == [] || !AllDigits(digits) then None
    else
      var v := if negative then 0 - DigitsValue(digits) else DigitsValue(digits);
      if IsInt32(v) then Some(v) else None
  }

  /** getValue: 0 for an empty field, otherwise parseInt of the text (None: NumberFormatException). */
  function GetValue(text: string): (r: Option<int>)
    ensures text == "" ==> r == Some(0)
    ensures text != "" && AllDigits(text) ==>
              (r.Some? <==> DigitsValue(text) <= MaxInt) && (r.Some? ==> r.value == DigitsValue(text) >= 0)
  {
    if text == "" then Some(0) else ParseJavaInt(text)
  }

  /** Every non-negative int typed in decimal reads back as itself. */
  lemma GetValueRoundTrip(n: nat)
    requires n <= MaxInt
    ensures GetValue(NatToString(n)) == Some(n)
  {
    NatToStringRoundTrip(n);
    assert NatToString(n)[0] != '-' && NatToString(n)[0] != '+' by {
      assert IsDigit(NatToString(n)[0]);
    }
  }

  /** Digits beyond the int range are refused, e.g. 2147483648. */
  lemma TooLargeRefused()
    ensures GetValue(NatToString(MaxInt + 1)).None?
  {
    NatToStringRoundTrip(MaxInt + 1);
    assert IsDigit(NatToString(MaxInt + 1)[0]);
  }
}
