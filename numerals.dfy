/** Reading numerals back: is_roman and roman_to_number
    (outlineize.py:251-268), and get_order_of_outline_formatted_numeral,
    which turns a code such as "1A1b3" into an order vector
    (outlineize.py:126-150). */
module Numerals {
  import opened Wrappers
  import opened PyText
  import opened OrderVector
  import opened Renderer

  /** The symbol table of roman_to_number (outlineize.py:258). */
  const Symbols: map<char, int> := map['I' := 1, 'V' := 5, 'X' := 10]

  /** is_roman: the text holds an I, a V or an X anywhere. */
  predicate IsRoman(s: string) {
    'I' in s || 'V' in s || 'X' in s
  }

  /** str.replace(c, ""): every other character is kept, as often as it
      occurs (WithoutCounts), and in its order (WithoutConcat). */
  function Without(s: string, c: char): (r: string)
    ensures forall x :: x in r <==> x in s && x != c
  {
    if s == [] then [] else (if s[0] == c then [] else [s[0]]) + Without(s[1..], c)
  }

  /** Removing c drops every occurrence of c and no other character. */
  lemma {:induction false} WithoutCounts(s: string, c: char)
    ensures multiset(Without(s, c)) == multiset(s)[c := 0]
  {
    if s != [] {
      assert s == [s[0]] + s[1..];
      WithoutCounts(s[1..], c);
    }
  }

  /** Removing c from a concatenation removes it from each part in place, so
      the characters kept stay in their order. */
  lemma {:induction false} WithoutConcat(a: string, b: string, c: char)
    ensures Without(a + b, c) == Without(a, c) + Without(b, c)
  {
    if a == [] {
      assert a + b == b;
    } else {
      assert (a + b)[1..] == a[1..] + b;
      WithoutConcat(a[1..], b, c);
      calc {
        Without(a + b, c);
        (if a[0] == c then [] else [a[0]]) + Without(a[1..] + b, c);
        (if a[0] == c then [] else [a[0]]) + (Without(a[1..], c) + Without(b, c));
      }
    }
  }

  /** One turn of the loop: add the symbol's value unless it is smaller than
      prev_value, the value of the symbol just to its right. */
  function Step(state: (int, int), value: int): (int, int) {
    if value >= state.1 then (state.0 + value, value) else (state.0 - value, value)
  }

  /** (number, prev_value) once the loop has read t from right to left.  A
      symbol outside the table raises KeyError when the loop reaches it, so
      the error names the rightmost such symbol. */
  function Fold(t: string): Result<(int, int)> {
    if t == [] then Ok((0, 0))
    else
      var state :- Fold(t[1..]);
      if t[0] in Symbols then Ok(Step(state, Symbols[t[0]])) else Err(KeyError(t[0]))
  }

  /** The value roman_to_number returns, or the KeyError it raises. */
  function RomanValue(roman: string): Result<int> {
    var state :- Fold(Without(roman, '.'));
    Ok(state.0)
  }

  /** roman_to_number: drop the dots, then walk the symbols from the right. */
  method RomanToNumber(roman: string) returns (r: Result<int>)
    ensures r == RomanValue(roman)
  {
    var symbols := Without(roman, '.');
    var number, prevValue := 0, 0;
    var i := |symbols|;
    while i > 0
      invariant 0 <= i <= |symbols|
      invariant Fold(symbols[i..]) == Ok((number, prevValue))
    {
      var symbol := symbols[i - 1];
      assert symbols[i - 1..][1..] == symbols[i..];
      if symbol !in Symbols {
        FoldSuffixError(symbols, i - 1);
        return Err(KeyError(symbol));
      }
      var value := Symbols[symbol];
      if value >= prevValue {
        number := number + value;
      } else {
        number := number - value;
      }
      prevValue := value;
      i := i - 1;
    }
    assert symbols[0..] == symbols;
    return Ok(number);
  }

  /** A KeyError raised on a suffix ends the whole loop with that error. */
  lemma {:induction false} FoldSuffixError(t: string, j: nat)
    requires j <= |t| && Fold(t[j..]).Err?
    ensures Fold(t) == Fold(t[j..])
  {
    if j > 0 {
      assert t[1..][j - 1..] == t[j..];
      FoldSuffixError(t[1..], j - 1);
    }
  }

  predicate AllSymbols(t: string) {
    forall i :: 0 <= i < |t| ==> t[i] in Symbols
  }

  /** The textbook subtractive reading restricted to I, V and X: a symbol
      counts negatively exactly when the symbol right after it is worth more. */
  function Standard(t: string): int
    requires AllSymbols(t)
  {
    if t == [] then 0
    else
      var v := Symbols[t[0]];
      (if |t| > 1 && v < Symbols[t[1]] then -v else v) + Standard(t[1..])
  }

  /** The loop fails exactly on a symbol outside the table, and otherwise
      computes the textbook value, with prev_value the leftmost symbol's. */
  lemma {:induction false} FoldIsStandard(t: string)
    ensures Fold(t).Ok? <==> AllSymbols(t)
    ensures Fold(t).Err? ==>
      (Fold(t).error.KeyError? && Fold(t).error.symbol in t && Fold(t).error.symbol !in Symbols)
    ensures AllSymbols(t) ==>
      Fold(t) == Ok((Standard(t), if t == [] then 0 else Symbols[t[0]]))
  {
    if t != [] {
      FoldIsStandard(t[1..]);
      assert forall i :: 1 <= i < |t| ==> t[i] == t[1..][i - 1];
    }
  }

  /** The running number never drops below the value of the last symbol
      read, which is 0, 1, 5 or 10. */
  lemma {:induction false} FoldBounds(t: string)
    requires Fold(t).Ok?
    ensures var state := Fold(t).value;
      state.0 >= state.1 >= 0 &&
      (state.1 == 0 || state.1 == 1 || state.1 == 5 || state.1 == 10) &&
      (t != [] ==> state.1 >= 1)
  {
    if t != [] {
      FoldBounds(t[1..]);
    }
  }

  /** roman_to_number never returns a negative number, and returns 0 exactly
      when the text holds no I, V or X (only dots, or nothing). */
  lemma RomanValueRange(roman: string)
    requires RomanValue(roman).Ok?
    ensures RomanValue(roman).value >= 0
    ensures RomanValue(roman).value >= 1 <==> IsRoman(roman)
  {
    var t := Without(roman, '.');
    FoldBounds(t);
    FoldIsStandard(t);
    if t != [] {
      assert t[0] in Symbols && t[0] in roman;
    }
  }

  /** Any character other than I, V, X and '.' makes roman_to_number raise
      KeyError, and nothing else does. */
  lemma RomanErrors(roman: string)
    ensures RomanValue(roman).Err? <==>
      exists i :: 0 <= i < |roman| && roman[i] != '.' && roman[i] !in Symbols
    ensures RomanValue(roman).Err? ==>
      (RomanValue(roman).error.KeyError? && RomanValue(roman).error.symbol in roman &&
       RomanValue(roman).error.symbol != '.' && RomanValue(roman).error.symbol !in Symbols)
  {
    var t := Without(roman, '.');
    FoldIsStandard(t);
    if RomanValue(roman).Err? {
      var c := Fold(t).error.symbol;
      var i :| 0 <= i < |roman| && roman[i] == c;
    } else {
      forall i | 0 <= i < |roman| && roman[i] != '.'
        ensures roman[i] in Symbols
      {
        assert roman[i] in t;
      }
    }
  }

  lemma RomanExamples()
    ensures RomanValue("III.") == Ok(3)
    ensures RomanValue("IV") == Ok(4)
    ensures RomanValue("IX") == Ok(9)
  {
    assert Without("III.", '.') == "III";
  }

  /** A longer numeral, the empty marker, and a symbol outside the table. */
  lemma RomanEdgeExamples()
    ensures RomanValue("XIV") == Ok(14)
    ensures RomanValue("") == Ok(0)
    ensures RomanValue("XL") == Err(KeyError('L'))
  {
  }

  /** get_order_of_outline_formatted_numeral on a string: int() of a
      character that is not a digit raises ValueError. */
  function GetOrderOfNumeral(text: string): (r: Result<Order>)
    ensures r.Err? <==>
      (|text| >= 1 && !IsDigit(text[0])) || (|text| > 2 && !IsDigit(text[2])) ||
      (|text| > 4 && !IsDigit(text[4]))
    ensures r.Err? ==> r.error.ValueError?
    ensures text == "" ==> r == Ok(Base)
  {
    if text == "" then Ok(Base)
    else if !IsDigit(text[0]) then Err(ValueError(text[..1]))
    else
      var r0 := Base[0 := DigitValue(text[0])];
      var r1 :=
        if |text| <= 1 then r0
        else if IsDigit(text[1]) && AllDigits(text) then r0[0 := DigitsValue(text)]
        else r0[1 := UpperChar(text[1]) as int - 64];
      if |text| > 2 && !IsDigit(text[2]) then Err(ValueError(text[2..3]))
      else
        var r2 := if |text| > 2 then r1[2 := DigitValue(text[2])] else r1;
        var r3 := if |text| > 3 then r2[3 := text[3] as int - 96] else r2;
        if |text| > 4 && !IsDigit(text[4]) then Err(ValueError(text[4..5]))
        else
          var r4 := if |text| > 4 then r3[4 := DigitValue(text[4])] else r3;
          var r5 := if |text| > 5 then r4[5 := text[5] as int - 96] else r4;
          Ok(r5)
  }

  /** Two vectors with the same counters are the same vector. */
  lemma SameVector(a: Order, b: Order)
    requires forall k :: 0 <= k < 6 ==> a[k] == b[k]
    ensures a == b
  {
  }

  /** The docstring example and the edge cases of the code as written: a
      second character that is not a digit is read as a capital letter,
      even a '.'. */
  lemma NumeralExamples()
    ensures GetOrderOfNumeral("1A1b3") == Ok([1, 1, 1, 2, 3, 0])
    ensures GetOrderOfNumeral("") == Ok(Base)
    ensures GetOrderOfNumeral("12") == Ok([12, 0, 0, 0, 0, 0])
    ensures GetOrderOfNumeral("1.") == Ok([1, -18, 0, 0, 0, 0])
    ensures GetOrderOfNumeral("A1") == Err(ValueError("A"))
  {
    var t := "1A1b3";
    assert DigitValue(t[0]) == 1 && !IsDigit(t[1]) && UpperChar(t[1]) == 'A';
    assert DigitValue(t[2]) == 1 && t[3] as int - 96 == 2 && DigitValue(t[4]) == 3;
    assert GetOrderOfNumeral(t).value == Base[0 := 1][1 := 1][2 := 1][3 := 2][4 := 3];
    SameVector(Base[0 := 1][1 := 1][2 := 1][3 := 2][4 := 3], [1, 1, 1, 2, 3, 0]);
    assert AllDigits("12") && DigitsValue("12") == 12 by {
      assert "12"[..1] == "1";
    }
    assert GetOrderOfNumeral("12").value == Base[0 := 1][0 := 12];
    SameVector(Base[0 := 1][0 := 12], [12, 0, 0, 0, 0, 0]);
    assert !IsDigit("1."[1]) && UpperChar("1."[1]) as int - 64 == -18;
    assert GetOrderOfNumeral("1.").value == Base[0 := 1][1 := -18];
    SameVector(Base[0 := 1][1 := -18], [1, -18, 0, 0, 0, 0]);
    assert "A1"[..1] == "A";
  }

  /** The roman fallback passes an int, so the text is str(n): it never
      raises, always puts n itself at depth 0, and for n below 100 gives
      exactly [n, 0, 0, 0, 0, 0]. */
  lemma CountNumeral(n: nat)
    ensures GetOrderOfNumeral(IntToString(n)).Ok?
    ensures var r := GetOrderOfNumeral(IntToString(n)).value;
      r[0] == n && r[1] == 0 && (n < 100 ==> r == Zero[0 := n])
  {
    var s := IntToString(n);
    DigitsRoundTrip(n);
    if n < 10 {
      assert s == [DigitChar(n)];
    }
  }

  /** The one character each compact unit is when every counter fits one
      glyph. */
  function Glyph(o: Order, k: nat): char
    requires k < 6
  {
    if k == 1 then UpperLetter(o[1])
    else if k == 3 || k == 5 then LowerLetter(o[3])
    else if 0 <= o[k] < 10 then DigitChar(o[k])
    else '?'
  }

  /** Counters that render as one character each: digits 1 to 9 at the even
      depths, letters A to Y (a to y) at the odd ones. */
  predicate SingleGlyphs(o: Order) {
    WellFormed(o) &&
    forall k :: 0 <= k <= Depth(o) && k < 5 ==> o[k] <= (if k % 2 == 0 then 9 else 25)
  }

  lemma {:induction false} CompactChainGlyphs(o: Order, k: nat)
    requires SingleGlyphs(o) && k <= Depth(o)
    ensures |Chain(o, k, false)| == k + 1
    ensures forall j :: 0 <= j <= k ==> Chain(o, k, false)[j] == Glyph(o, j)
  {
    if k == 0 || k == 2 || k == 4 {
      assert IntToString(o[k]) == [DigitChar(o[k])];
    }
    assert Unit(o, k, false) == [Glyph(o, k)];
    if k > 0 {
      CompactChainGlyphs(o, k - 1);
    }
  }

  /** Reading the compact body back gives the vector again, except at depth
      5, where the last unit repeats order[3] and so order[5] comes back as
      order[3]. */
  lemma CompactRoundTrip(o: Order)
    requires SingleGlyphs(o)
    ensures GetOrderOfNumeral(Body(o, false)) == Ok(if Depth(o) == 5 then o[5 := o[3]] else o)
  {
    var d := Depth(o);
    var s := Body(o, false);
    CompactChainGlyphs(o, d);
    assert |s| == d + 1;
    assert d >= 1 ==> !IsDigit(s[1]) && UpperChar(s[1]) as int - 64 == o[1];
    assert d >= 3 ==> s[3] as int - 96 == o[3];
    assert d >= 5 ==> s[5] as int - 96 == o[3];
    var r := GetOrderOfNumeral(s);
    assert r.Ok?;
    var expected := if d == 5 then o[5 := o[3]] else o;
    assert forall k :: 0 <= k < 6 ==> r.value[k] == expected[k];
    SameVector(r.value, expected);
  }
}
