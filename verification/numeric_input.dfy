/**
 The numeric input fields: the text a field holds is read as a number with
 a decimal comma or point, clamped from below by the field's minimum, and
 the arrow buttons step it up or down.

 JavaScript's `Number(text)` is a parameter: its exact grammar is not
 modelled. `text.replace(",", ".")`, `trim`, `Math.max` and `toFixed(2)`
 are.
 */
module NumericInput {
  import opened JsNumber

  /** `Number(text)`. */
  type Parse = string -> Num

  /** What a text change leaves in the field: nothing, or the text of a
      number. */
  datatype FieldText = Blank | Number(value: real)

  /** The arrow pressed. */
  datatype Direction = Up | Down {
    function Sign(): real {
      match this
      case Up => 1.0
      case Down => -1.0
    }
  }

  /** The characters `String.prototype.trim` removes: ECMAScript's
      WhiteSpace and LineTerminator. */
  predicate IsJsWhitespace(c: char) {
    c == '\t' || c == '\n' || c == '\U{000B}' || c == '\U{000C}' || c == '\r' || c == ' '
    || c == '\U{00A0}' || c == '\U{1680}' || ('\U{2000}' <= c <= '\U{200A}')
    || c == '\U{2028}' || c == '\U{2029}' || c == '\U{202F}' || c == '\U{205F}'
    || c == '\U{3000}' || c == '\U{FEFF}'
  }

  /** `text.trim() === ""`. */
  predicate IsBlank(text: string) {
    forall i :: 0 <= i < |text| ==> IsJsWhitespace(text[i])
  }

  /** The position of the first c in s. */
  function FirstIndexOf(s: string, c: char): (i: nat)
    requires c in s
    ensures i < |s| && s[i] == c
    ensures c !in s[..i]
  {
    if s[0] == c then 0 else 1 + FirstIndexOf(s[1..], c)
  }

  /** `text.replace(",", ".")`: a string pattern replaces only its first
      occurrence, so the first comma becomes a point and the rest of the
      text, any later comma included, is kept. */
  function ReplaceFirstComma(text: string): (r: string)
    ensures |r| == |text|
    ensures ',' !in text ==> r == text
    ensures ',' in text ==>
              var i := FirstIndexOf(text, ',');
              r == text[..i] + "." + text[i + 1..]
  {
    if |text| == 0 then text
    else if text[0] == ',' then "." + text[1..]
    else
      var rest := ReplaceFirstComma(text[1..]);
      ReplaceAfterFirst(text, rest);
      [text[0]] + rest
  }

  /** Replacing in the tail of a text that does not start with a comma
      replaces in the whole text. */
  lemma ReplaceAfterFirst(text: string, rest: string)
    requires |text| > 0 && text[0] != ','
    requires |rest| == |text| - 1
    requires ',' !in text[1..] ==> rest == text[1..]
    requires ',' in text[1..] ==>
               var i := FirstIndexOf(text[1..], ',');
               rest == text[1..][..i] + "." + text[1..][i + 1..]
    ensures ',' !in text ==> [text[0]] + rest == text
    ensures ',' in text ==>
              var i := FirstIndexOf(text, ',');
              [text[0]] + rest == text[..i] + "." + text[i + 1..]
  {
    var t := text[1..];
    assert text == [text[0]] + t;
    if ',' in text {
      assert ',' in t;
      var j := FirstIndexOf(t, ',');
      assert FirstIndexOf(text, ',') == j + 1;
      assert text[..j + 1] == [text[0]] + t[..j] by {
        assert forall k :: 0 <= k < j + 1 ==> text[..j + 1][k] == ([text[0]] + t[..j])[k];
      }
      assert text[j + 2..] == t[j + 1..];
      ConcatRegroup([text[0]], t[..j], ".", t[j + 1..]);
    }
  }

  lemma ConcatRegroup(a: string, b: string, c: string, d: string)
    ensures a + (b + c + d) == a + b + c + d
  {
  }

  /** `toNumberValue`: the field's number, never below its minimum; a text
      that does not read as a finite number gives the minimum. */
  function ToNumberValue(text: string, min: real, parse: Parse): (r: real)
    ensures r >= min
    ensures r == min || (parse(ReplaceFirstComma(text)).Finite? && r == parse(ReplaceFirstComma(text)).value)
    ensures !parse(ReplaceFirstComma(text)).Finite? ==> r == min
    ensures parse(ReplaceFirstComma(text)).Finite? && parse(ReplaceFirstComma(text)).value >= min ==>
              r == parse(ReplaceFirstComma(text)).value
  {
    var parsed := parse(ReplaceFirstComma(text));
    if !parsed.Finite? then min else Max(min, parsed.value)
  }

  /** `normalizeInputValue`: what the field keeps after the user types.
      Blank text stays blank, so does text that is not a finite number;
      anything else is replaced by its number, raised to the minimum. */
  function NormalizeInputValue(text: string, min: real, parse: Parse): (f: FieldText)
    ensures IsBlank(text) ==> f == Blank
    ensures f.Number? ==> f.value >= min
    ensures !IsBlank(text) ==> (f.Number? <==> parse(ReplaceFirstComma(text)).Finite?)
  {
    if IsBlank(text) then Blank
    else
      var parsed := parse(ReplaceFirstComma(text));
      if !parsed.Finite? then Blank else Number(Max(min, parsed.value))
  }

  /** Whenever typing leaves a number in the field, reading the same text
      gives that number. */
  lemma NormalizeAgreesWithRead(text: string, min: real, parse: Parse)
    requires NormalizeInputValue(text, min, parse).Number?
    ensures ToNumberValue(text, min, parse) == NormalizeInputValue(text, min, parse).value
  {
  }

  /** `adjustValue`: the field's number (zero if it does not read as a
      finite number) moved by one step, rounded to two decimals, and never
      below the minimum. The result is the minimum or a whole number of
      hundredths within half a hundredth of the moved value, and it is the
      latter whenever the moved value is clear of the minimum. */
  function AdjustValue(text: string, step: real, min: real, direction: Direction, parse: Parse): (r: real)
    ensures r >= min
    ensures r == min || IsMultiple(r, 2)
    ensures var b := parse(ReplaceFirstComma(text));
            var x := (if b.Finite? then b.value else 0.0) + direction.Sign() * step;
            (r == min || x - 0.005 <= r <= x + 0.005)
            && (min <= x - 0.005 ==> x - 0.005 <= r <= x + 0.005)
  {
    HalfHundredth();
    var base := parse(ReplaceFirstComma(text));
    var safeBase := if base.Finite? then base.value else 0.0;
    var moved := ToFixed(safeBase + direction.Sign() * step, 2);
    ToFixedSpec(safeBase + direction.Sign() * step, 2);
    Max(min, moved)
  }

  /** Half a unit of the second decimal. */
  lemma HalfHundredth()
    ensures Pow10(2) == 100.0 && 0.5 / Pow10(2) == 0.005
  {
    assert Pow10(2) == 100.0;
  }

  /** With a non-negative step the up arrow never gives less than the down
      arrow. */
  lemma AdjustUpNotBelowDown(text: string, step: real, min: real, parse: Parse)
    requires step >= 0.0
    ensures AdjustValue(text, step, min, Down, parse) <= AdjustValue(text, step, min, Up, parse)
  {
    var base := parse(ReplaceFirstComma(text));
    var safeBase := if base.Finite? then base.value else 0.0;
    ToFixedMonotone(safeBase + -1.0 * step, safeBase + 1.0 * step, 2);
  }

  /** On the two-decimal grid a step is exact: from a number of hundredths,
      a step of hundredths lands exactly on the sum, unless that falls
      below the minimum. */
  lemma AdjustExactOnGrid(text: string, step: real, min: real, direction: Direction, parse: Parse)
    requires parse(ReplaceFirstComma(text)).Finite?
    requires IsMultiple(parse(ReplaceFirstComma(text)).value, 2) && IsMultiple(step, 2)
    requires parse(ReplaceFirstComma(text)).value + direction.Sign() * step >= min
    ensures AdjustValue(text, step, min, direction, parse)
            == parse(ReplaceFirstComma(text)).value + direction.Sign() * step
  {
    var v := parse(ReplaceFirstComma(text)).value;
    var delta := direction.Sign() * step;
    assert delta == step || delta == -step;
    GridSum(v, delta, step);
    ToFixedOfMultiple(v + delta, 2);
    AdjustUnfold(text, step, min, direction, parse, v);
  }

  /** The computation of `AdjustValue` for a text that reads as v. */
  lemma AdjustUnfold(text: string, step: real, min: real, direction: Direction, parse: Parse, v: real)
    requires parse(ReplaceFirstComma(text)) == Finite(v)
    ensures AdjustValue(text, step, min, direction, parse) == Max(min, ToFixed(v + direction.Sign() * step, 2))
  {
  }

  lemma GridSum(a: real, b: real, step: real)
    requires IsMultiple(a, 2) && IsMultiple(step, 2)
    requires b == step || b == -step
    ensures IsMultiple(a + b, 2)
  {
    OnGridAddSubtract(a, step, Pow10(2));
    assert a + b == a + step || a + b == a - step;
  }
}
