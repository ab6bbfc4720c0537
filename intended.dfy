/**
 * The number scanner as its lookahead test implies it was meant: the loop runs while the
 * current byte is a digit or a dot, so a run of digits is collected whole and parsed as an
 * Int. The lexer as written tests the current byte with IsLetter instead and never collects
 * a digit (LexProps.DigitDispatch, LexProps.DigitsExample).
 */
module IntendedNumber {
  import opened Utils
  import opened Token
  import opened LexSpec

  /** The corrected number loop: it runs while the current byte is a digit or a dot and steps
      on while the lookahead is a digit or a dot. */
  function IntendedNumberScan(code: seq<byte>, q: nat): (r: (seq<byte>, nat))
    requires Terminated(code) && q < |code|
    ensures q <= r.1 < |code|
    decreases |code| - q
  {
    if !(IsDigit(code[q]) || code[q] == '.' as byte) then ([], q)
    else if IsDigit(code[q + 1]) || code[q + 1] == '.' as byte then
      var (text, end) := IntendedNumberScan(code, q + 1);
      ([code[q]] + text, end)
    else ([code[q]], q)
  }

  /** The index of the first dot in text, or |text| when there is none. */
  function FirstDot(text: seq<byte>): (k: nat)
    ensures k <= |text|
    ensures k < |text| ==> text[k] == '.' as byte
  {
    if text == [] || text[0] == '.' as byte then 0 else 1 + FirstDot(text[1..])
  }

  /** hasDot: the first dot lies inside the text exactly when the text holds a dot. */
  lemma {:induction false} FirstDotFindsDot(text: seq<byte>)
    ensures FirstDot(text) < |text| <==> '.' as byte in text
  {
    if text != [] && text[0] != '.' as byte {
      FirstDotFindsDot(text[1..]);
      assert text == [text[0]] + text[1..];
    }
  }

  function Pow10(n: nat): nat {
    if n == 0 then 1 else 10 * Pow10(n - 1)
  }

  /** strconv.ParseFloat(text, 64) on the texts the corrected loop collects, made of digits and
      dots: it succeeds when the text holds exactly one dot and at least one digit. The value is
      given exactly as a mantissa, the digits read without the dot, and a scale, the number of
      digits after the dot: it is mantissa / 10^scale (DecimalConcat). */
  function ParseDecimalFloat(text: seq<byte>): (r: Option<(nat, nat)>)
    ensures r.Some? ==> FirstDot(text) < |text| && r.value.1 == |text| - FirstDot(text) - 1
  {
    var k := FirstDot(text);
    if k == |text| then None
    else
      var digits := text[..k] + text[k + 1..];
      if digits != [] && AllDigits(digits) then Some((DecimalValue(digits), |text| - k - 1)) else None
  }

  /** handleNumber over the corrected loop: a text with a dot is parsed as a float, giving a
      Float token or an Invalid "NaN" token and an error; a text without one is parsed as an
      integer, giving an Int token or an error and no token. */
  function IntendedNumberStep(code: seq<byte>, file: string, s: Scan): (r: (Scan, Option<LexError>))
    requires Terminated(code) && 0 <= s.pos < |code|
    ensures s.pos <= r.0.pos < |code| && r.0.line == s.line && r.0.errors == s.errors
  {
    var (text, end) := IntendedNumberScan(code, s.pos);
    if FirstDot(text) < |text| then
      match ParseDecimalFloat(text)
      case Some((m, e)) => (Emit(s, Float, FloatVal(m, e), file).(pos := end), None)
      case None => (Emit(s, Invalid, Text(NaNText), file).(pos := end), Some(NotANumber(text, s.line)))
    else
      match ParseInt64(text)
      case None => (s.(pos := end), Some(NotANumber(text, s.line)))
      case Some(v) => (Emit(s, Int, IntVal(v), file).(pos := end), None)
  }

  /** The bytes of code from q on begin with d. */
  predicate Spells(code: seq<byte>, q: nat, d: seq<byte>) {
    q + |d| <= |code| && forall k :: 0 <= k < |d| ==> code[q + k] == d[k]
  }

  /** The corrected loop started at q collects text and stops with the cursor on end. */
  predicate Collects(code: seq<byte>, q: nat, text: seq<byte>, end: nat)
    requires Terminated(code) && q < |code|
  {
    IntendedNumberScan(code, q) == (text, end)
  }

  /** The bytes the corrected loop collects: digits and dots. */
  predicate NumberBytes(d: seq<byte>) {
    forall k :: 0 <= k < |d| ==> IsDigit(d[k]) || d[k] == '.' as byte
  }

  /** Each byte of a digit string is a digit. */
  lemma {:induction false} DigitAt(d: seq<byte>, k: nat)
    requires AllDigits(d) && k < |d|
    ensures IsDigit(d[k])
    decreases |d|
  {
    if k < |d| - 1 {
      DigitAt(d[..|d| - 1], k);
    }
  }

  lemma AllDigitsAreNumberBytes(d: seq<byte>)
    requires AllDigits(d)
    ensures NumberBytes(d)
  {
    forall k | 0 <= k < |d| ensures IsDigit(d[k]) {
      DigitAt(d, k);
    }
  }

  /** An unsigned run of digits parses to its decimal value when that fits in 64 bits. */
  lemma ParseDigits(d: seq<byte>)
    requires |d| > 0 && AllDigits(d)
    ensures '.' as byte !in d
    ensures DecimalValue(d) <= MaxInt64 ==> ParseInt64(d) == Some(DecimalValue(d))
    ensures DecimalValue(d) > MaxInt64 ==> ParseInt64(d) == None
  {
    DigitAt(d, 0);
    AllDigitsNoDot(d);
  }

  /** The corrected loop collects a run of digits and dots whole and stops on its last byte. */
  lemma {:induction false} DigitRunScan(code: seq<byte>, q: nat, d: seq<byte>)
    requires Terminated(code) && q + |d| < |code| && |d| > 0 && NumberBytes(d)
    requires code[q..q + |d|] == d
    requires !IsDigit(code[q + |d|]) && code[q + |d|] != '.' as byte
    ensures IntendedNumberScan(code, q) == (d, q + |d| - 1)
    decreases |d|
  {
    assert code[q] == d[0];
    if |d| == 1 {
      assert d == [d[0]];
    } else {
      assert code[q + 1] == d[1];
      assert code[q + 1..q + 1 + |d[1..]|] == d[1..];
      DigitRunScan(code, q + 1, d[1..]);
      assert [d[0]] + d[1..] == d;
    }
  }

  /** Integers round-trip through the corrected scanner: a run of digits followed by neither a
      digit nor a dot becomes one Int token holding its decimal value, with the cursor on its
      last digit; a value beyond the 64-bit range is an error and no token. */
  lemma IntendedNumberRoundTrip(code: seq<byte>, file: string, s: Scan, d: seq<byte>)
    requires Terminated(code) && 0 <= s.pos && s.pos + |d| < |code| && |d| > 0 && AllDigits(d)
    requires Spells(code, s.pos, d)
    requires !IsDigit(code[s.pos + |d|]) && code[s.pos + |d|] != '.' as byte
    ensures DecimalValue(d) <= MaxInt64 ==>
              IntendedNumberStep(code, file, s) == (Emit(s, Int, IntVal(DecimalValue(d)), file).(pos := s.pos + |d| - 1), None)
    ensures DecimalValue(d) > MaxInt64 ==>
              IntendedNumberStep(code, file, s) == (s.(pos := s.pos + |d| - 1), Some(NotANumber(d, s.line)))
  {
    ScanOfDigits(code, s.pos, d);
    IntendedStepOfDigits(code, file, s, d, s.pos + |d| - 1);
  }

  /** The corrected loop collects a run of digits whole. */
  lemma ScanOfDigits(code: seq<byte>, q: nat, d: seq<byte>)
    requires Terminated(code) && q + |d| < |code| && |d| > 0 && AllDigits(d)
    requires Spells(code, q, d)
    requires !IsDigit(code[q + |d|]) && code[q + |d|] != '.' as byte
    ensures Collects(code, q, d, q + |d| - 1)
  {
    AllDigitsAreNumberBytes(d);
    assert code[q..q + |d|] == d;
    DigitRunScan(code, q, d);
  }

  /** Without a dot the step parses the text as an integer. */
  lemma IntendedStepOfDigits(code: seq<byte>, file: string, s: Scan, d: seq<byte>, end: nat)
    requires Terminated(code) && 0 <= s.pos < |code|
    requires Collects(code, s.pos, d, end) && |d| > 0 && AllDigits(d)
    ensures DecimalValue(d) <= MaxInt64 ==>
              IntendedNumberStep(code, file, s) == (Emit(s, Int, IntVal(DecimalValue(d)), file).(pos := end), None)
    ensures DecimalValue(d) > MaxInt64 ==>
              IntendedNumberStep(code, file, s) == (s.(pos := end), Some(NotANumber(d, s.line)))
  {
    ParseDigits(d);
    NoDotFirstDot(d);
  }

  /** "42" lexes to the Int 42 under the corrected loop. */
  lemma FortyTwoIntended(file: string)
    ensures IntendedNumberStep(['4' as byte, '2' as byte, 0], file, Start()) ==
            (Emit(Start(), Int, IntVal(42), file).(pos := 1), None)
  {
    var code: seq<byte> := ['4' as byte, '2' as byte, 0];
    var d := code[0..2];
    assert d[..1] == ['4' as byte] && d[..1][..0] == [];
    assert AllDigits(d);
    assert DecimalValue(d[..1]) == 4;
    assert DecimalValue(d) == 42;
    IntendedNumberRoundTrip(code, file, Start(), d);
  }

  /** A text without a dot has its first dot at its end. */
  lemma {:induction false} NoDotFirstDot(d: seq<byte>)
    requires '.' as byte !in d
    ensures FirstDot(d) == |d|
  {
    if d != [] {
      assert d[0] in d;
      assert forall x :: x in d[1..] ==> x in d;
      NoDotFirstDot(d[1..]);
    }
  }

  /** Decimal fractions round-trip through the corrected scanner: digits a, a dot and digits b,
      followed by neither a digit nor a dot, become one Float token whose mantissa is the digits
      of a and b and whose scale is |b|, with the cursor on the last byte. */
  lemma FloatRoundTrip(code: seq<byte>, file: string, s: Scan, a: seq<byte>, b: seq<byte>)
    requires Terminated(code) && 0 <= s.pos && |a| > 0 && AllDigits(a) && AllDigits(b)
    requires s.pos + |a| + 1 + |b| < |code| && code[s.pos..s.pos + |a| + 1 + |b|] == a + ['.' as byte] + b
    requires !IsDigit(code[s.pos + |a| + 1 + |b|]) && code[s.pos + |a| + 1 + |b|] != '.' as byte
    ensures AllDigits(a + b)
    ensures IntendedNumberStep(code, file, s) ==
              (Emit(s, Float, FloatVal(DecimalValue(a + b), |b|), file).(pos := s.pos + |a| + |b|), None)
  {
    ScanOfParts(code, s.pos, a, b, a + ['.' as byte] + b);
    FloatOfScan(code, file, s, a, b);
  }

  /** The corrected step on the scanned text a.b. */
  lemma FloatOfScan(code: seq<byte>, file: string, s: Scan, a: seq<byte>, b: seq<byte>)
    requires Terminated(code) && 0 <= s.pos < |code| && |a| > 0 && AllDigits(a) && AllDigits(b)
    requires Collects(code, s.pos, a + ['.' as byte] + b, s.pos + |a| + |b|)
    ensures AllDigits(a + b)
    ensures IntendedNumberStep(code, file, s) ==
              (Emit(s, Float, FloatVal(DecimalValue(a + b), |b|), file).(pos := s.pos + |a| + |b|), None)
  {
    var d := a + ['.' as byte] + b;
    DigitsOfParts(a, b);
    var m, e: nat := DecimalValue(a + b), |b|;
    assert FirstDot(d) < |d| && ParseDecimalFloat(d) == Some((m, e)) by {
      AllDigitsNoDot(a);
      NoDotFirstDot(a);
      FloatOfParts(a, b, d);
    }
  }

  lemma {:induction false} DigitsOfParts(a: seq<byte>, b: seq<byte>)
    requires AllDigits(a) && AllDigits(b)
    ensures AllDigits(a + b)
    decreases |b|
  {
    if b == [] {
      assert a + b == a;
    } else {
      assert (a + b)[..|a + b| - 1] == a + b[..|b| - 1] && (a + b)[|a + b| - 1] == b[|b| - 1];
      DigitsOfParts(a, b[..|b| - 1]);
    }
  }

  /** The corrected loop collects digits, a dot and digits whole. */
  lemma ScanOfParts(code: seq<byte>, q: nat, a: seq<byte>, b: seq<byte>, d: seq<byte>)
    requires Terminated(code) && AllDigits(a) && AllDigits(b) && d == a + ['.' as byte] + b
    requires q + |d| < |code| && code[q..q + |d|] == d
    requires !IsDigit(code[q + |d|]) && code[q + |d|] != '.' as byte
    ensures Collects(code, q, d, q + |a| + |b|)
  {
    PartsAreNumberBytes(a, b);
    DigitRunScan(code, q, d);
  }

  lemma PartsAreNumberBytes(a: seq<byte>, b: seq<byte>)
    requires AllDigits(a) && AllDigits(b)
    ensures NumberBytes(a + ['.' as byte] + b)
  {
    var d := a + ['.' as byte] + b;
    forall k | 0 <= k < |d| ensures IsDigit(d[k]) || d[k] == '.' as byte {
      if k < |a| {
        DigitAt(a, k);
        assert d[k] == a[k];
      } else if k > |a| {
        DigitAt(b, k - |a| - 1);
        assert d[k] == b[k - |a| - 1];
      }
    }
  }

  /** The text a.b parses with the digits of a and b as mantissa and |b| as scale. */
  lemma FloatOfParts(a: seq<byte>, b: seq<byte>, d: seq<byte>)
    requires |a| > 0 && AllDigits(a + b) && FirstDot(a) == |a|
    requires d == a + ['.' as byte] + b
    ensures FirstDot(d) == |a|
    ensures ParseDecimalFloat(d) == Some((DecimalValue(a + b), |b|))
  {
    SplitAtDot(a, b, d);
  }

  /** The text a.b splits at its first dot into a and b. */
  lemma SplitAtDot(a: seq<byte>, b: seq<byte>, d: seq<byte>)
    requires FirstDot(a) == |a| && d == a + ['.' as byte] + b
    ensures FirstDot(d) == |a| && d[..|a|] == a && d[|a| + 1..] == b
  {
    assert d[..|a|] == a && d[|a| + 1..] == b;
    assert d == a + (['.' as byte] + b);
    FirstDotAfter(a, ['.' as byte] + b);
  }

  /** The first dot of a dot-free prefix followed by more text lies in the rest. */
  lemma {:induction false} FirstDotAfter(a: seq<byte>, rest: seq<byte>)
    requires FirstDot(a) == |a|
    ensures FirstDot(a + rest) == |a| + FirstDot(rest)
  {
    if a == [] {
      assert a + rest == rest;
    } else {
      assert a[0] != '.' as byte && (a + rest)[0] == a[0];
      assert (a + rest)[1..] == a[1..] + rest;
      FirstDotAfter(a[1..], rest);
    }
  }

  /** A second dot makes the float parse fail: "1.2.3" becomes Invalid "NaN" and an error. */
  lemma TwoDotsFail(text: seq<byte>)
    requires FirstDot(text) < |text| && '.' as byte in text[FirstDot(text) + 1..]
    ensures ParseDecimalFloat(text) == None
  {
    var k := FirstDot(text);
    var digits := text[..k] + text[k + 1..];
    assert '.' as byte in digits;
    if AllDigits(digits) {
      AllDigitsNoDot(digits);
    }
  }

  lemma {:induction false} AllDigitsNoDot(d: seq<byte>)
    requires AllDigits(d)
    ensures '.' as byte !in d
  {
    SeparatorsAreNotWordBytes('.' as byte);
    if d != [] {
      AllDigitsNoDot(d[..|d| - 1]);
      assert d == d[..|d| - 1] + [d[|d| - 1]];
    }
  }

  /** The mantissa of a.b is a * 10^|b| + b, so mantissa / 10^|b| is the value a.b spells. */
  lemma {:induction false} DecimalConcat(a: seq<byte>, b: seq<byte>)
    requires AllDigits(a) && AllDigits(b) && AllDigits(a + b)
    ensures DecimalValue(a + b) == DecimalValue(a) * Pow10(|b|) + DecimalValue(b)
    decreases |b|
  {
    if b == [] {
      assert a + b == a;
    } else {
      var init, x := b[..|b| - 1], b[|b| - 1];
      var va, p := DecimalValue(a), Pow10(|init|);
      assert 10 * (va * p) == va * (10 * p);
      assert (a + b)[..|a + b| - 1] == a + init && (a + b)[|a + b| - 1] == x;
      DecimalConcat(a, init);
      var vi := DecimalValue(init);
      assert DecimalValue(a + b) == 10 * (va * p + vi) + (x - '0' as byte) as int;
    }
  }

  /** "1.5" lexes to the Float 15 / 10^1 under the corrected loop. */
  lemma OneAndAHalfIntended(file: string)
    ensures IntendedNumberStep(['1' as byte, '.' as byte, '5' as byte, 0], file, Start()) ==
            (Emit(Start(), Float, FloatVal(15, 1), file).(pos := 2), None)
  {
    var code: seq<byte> := ['1' as byte, '.' as byte, '5' as byte, 0];
    var a, b := code[0..1], code[2..3];
    assert code[0..3] == a + ['.' as byte] + b;
    assert a[..0] == [] && b[..0] == [];
    FloatRoundTrip(code, file, Start(), a, b);
    var d := a + b;
    assert d == ['1' as byte, '5' as byte];
    assert d[..1] == ['1' as byte] && d[..1][..0] == [];
    assert DecimalValue(d[..1]) == 1;
    assert DecimalValue(d) == 15;
  }
}
