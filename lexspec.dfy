/**
 * A pure reference for the lexer of package `lexer`: one step of the dispatch switch
 * (Dispatch) and the tail-recursive driver (Lex), over a value-level snapshot of the
 * lexer's state. The class in module Lexer is proved to compute exactly this.
 */
module LexSpec {
  import opened Utils
  import opened Token

  /** A recorded lexical error: the offending byte or text and the line it was found on. */
  datatype LexError = InvalidCharacter(ch: byte, line: int) | NotANumber(text: seq<byte>, line: int)

  /** How a run of the driver ends: EOF seen; the stop test indexing an empty token list
      (a run-time panic); or a string with no closing quote, on which the scanner would spin forever. */
  datatype Outcome = Finished | IndexOutOfRange | NoClosingQuote

  /** The parts of the lexer's state that change: cursor, line counter and the two outputs.
      The current and lookahead bytes are At(code, pos) and At(code, pos + 1). */
  datatype Scan = Scan(pos: int, line: int, tokens: seq<Token>, errors: seq<LexError>)

  /** The calling convention: the buffer holds at least two bytes and ends in the 0 sentinel. */
  predicate Terminated(code: seq<byte>) {
    |code| >= 2 && code[|code| - 1] == 0
  }

  /** The byte the lexer sees at index i: past the end of the buffer the lookahead is never
      refreshed, so it keeps the buffer's last byte. */
  function At(code: seq<byte>, i: nat): (b: byte)
    requires |code| > 0
    ensures i < |code| ==> b == code[i]
    ensures i >= |code| ==> b == code[|code| - 1]
  {
    code[if i < |code| then i else |code| - 1]
  }

  function Last<T>(s: seq<T>): T
    requires |s| > 0
  {
    s[|s| - 1]
  }

  /** The length of the run of IsLetter bytes that starts at index i. */
  function LetterRun(code: seq<byte>, i: nat): (n: nat)
    ensures n == 0 || i + n <= |code|
    decreases |code| - i
  {
    if i < |code| && IsLetter(code[i]) then 1 + LetterRun(code, i + 1) else 0
  }

  /** The run is made of letters and is maximal: the byte after it, if any, is not a letter. */
  lemma {:induction false} LetterRunMaximal(code: seq<byte>, i: nat)
    ensures forall k :: i <= k < i + LetterRun(code, i) ==> IsLetter(code[k])
    ensures i + LetterRun(code, i) < |code| ==> !IsLetter(code[i + LetterRun(code, i)])
    decreases |code| - i
  {
    if i < |code| && IsLetter(code[i]) {
      LetterRunMaximal(code, i + 1);
    }
  }

  /** In a terminated buffer every letter run ends before the 0 sentinel. */
  lemma LetterRunStops(code: seq<byte>, i: nat)
    requires Terminated(code) && i < |code|
    ensures i + LetterRun(code, i) < |code|
  {
    LetterRunMaximal(code, i);
    if LetterRun(code, i) > 0 {
      assert !IsLetter(code[|code| - 1]);
    }
  }

  /** The index of the first double quote at or after i, or |code| when there is none. */
  function FindQuote(code: seq<byte>, i: nat): (j: nat)
    requires i <= |code|
    ensures i <= j <= |code|
    ensures j < |code| ==> code[j] == '"' as byte
    decreases |code| - i
  {
    if i == |code| then i
    else if code[i] == '"' as byte then i
    else FindQuote(code, i + 1)
  }

  /** FindQuote finds the first double quote: none lies before it. */
  lemma {:induction false} FindQuoteFirst(code: seq<byte>, i: nat)
    requires i <= |code|
    ensures forall k :: i <= k < FindQuote(code, i) ==> code[k] != '"' as byte
    decreases |code| - i
  {
    if i < |code| && code[i] != '"' as byte {
      FindQuoteFirst(code, i + 1);
    }
  }

  /** The text the number loop accumulates from index q, and the index its cursor stops on.
      The loop runs while the current byte is a letter or a dot and steps on while the
      lookahead is a digit or a dot. */
  function NumberScan(code: seq<byte>, q: nat): (r: (seq<byte>, nat))
    requires Terminated(code) && q < |code|
    ensures q <= r.1 < |code|
    ensures r.1 == q || code[r.1] != 0
    decreases |code| - q
  {
    if !(IsLetter(code[q]) || code[q] == '.' as byte) then ([], q)
    else if IsDigit(code[q + 1]) || code[q + 1] == '.' as byte then
      var (text, end) := NumberScan(code, q + 1);
      ([code[q]] + text, end)
    else ([code[q]], q)
  }

  predicate HasDigit(s: seq<byte>) {
    exists k :: 0 <= k < |s| && IsDigit(s[k])
  }

  /** Every byte is a digit; checked from the last byte back, the order DecimalValue reads them. */
  predicate AllDigits(s: seq<byte>) {
    |s| == 0 || (IsDigit(s[|s| - 1]) && AllDigits(s[..|s| - 1]))
  }

  /** The value of a string of decimal digits. */
  function DecimalValue(s: seq<byte>): (v: nat)
    requires AllDigits(s)
  {
    if s == [] then 0 else 10 * DecimalValue(s[..|s| - 1]) + (s[|s| - 1] - '0' as byte) as int
  }

  const MinInt64: int := -0x8000_0000_0000_0000
  const MaxInt64: int := 0x7FFF_FFFF_FFFF_FFFF

  /** strconv.ParseInt(s, 10, 64): an optional sign and at least one decimal digit, with a
      value inside the 64-bit signed range; anything else is an error (None). */
  function ParseInt64(s: seq<byte>): (r: Option<int>)
    ensures r.Some? ==> MinInt64 <= r.value <= MaxInt64
  {
    var signed := |s| > 0 && (s[0] == '+' as byte || s[0] == '-' as byte);
    var digits := if signed then s[1..] else s;
    if digits == [] || !AllDigits(digits) then None
    else
      var v: int := if signed && s[0] == '-' as byte then -(DecimalValue(digits) as int) else DecimalValue(digits);
      if MinInt64 <= v <= MaxInt64 then Some(v) else None
  }

  /** NewToken: append a token stamped with the current line and the file name. */
  function Emit(s: Scan, kind: TokenType, value: Literal, file: string): (r: Scan)
    ensures r.tokens == s.tokens + [Token(kind, value, s.line, file)]
    ensures r.pos == s.pos && r.line == s.line && r.errors == s.errors
  {
    s.(tokens := s.tokens + [Token(kind, value, s.line, file)])
  }

  /** The kind of a scanned word: Keyword when its text is one of KeyWords, else Identifier. */
  function WordKind(text: seq<byte>): TokenType {
    if Chars(text) in KeyWords then Keyword else Identifier
  }

  /** handleIdOrKeyword: one Keyword or Identifier token whose payload is the letter run at
      pos; the cursor is left on the run's last byte. */
  function IdStep(code: seq<byte>, file: string, s: Scan): (r: Scan)
    requires 0 <= s.pos && s.pos + LetterRun(code, s.pos) < |code|
    ensures r.line == s.line && r.errors == s.errors
    ensures s.pos <= r.pos && (r.pos == s.pos || r.pos < s.pos + LetterRun(code, s.pos))
  {
    var n := LetterRun(code, s.pos);
    var text := code[s.pos..s.pos + n];
    Emit(s, WordKind(text), Text(text), file).(pos := if n == 0 then s.pos else s.pos + n - 1)
  }

  /** handleString: one String token holding the bytes between the opening quote at pos and
      the next double quote, with the cursor left on that quote; None when there is none. */
  function StringStep(code: seq<byte>, file: string, s: Scan): (r: Option<Scan>)
    requires 0 <= s.pos < |code|
    ensures r.Some? ==> s.pos < r.value.pos < |code| && code[r.value.pos] == '"' as byte
    ensures r.Some? ==> r.value.line == s.line && r.value.errors == s.errors
  {
    var j := FindQuote(code, s.pos + 1);
    if j == |code| then None
    else Some(Emit(s, String, Text(code[s.pos + 1..j]), file).(pos := j))
  }

  /** A parse succeeds only on text that holds a decimal digit. */
  lemma ParseInt64NeedsDigit(s: seq<byte>)
    ensures ParseInt64(s).Some? ==> HasDigit(s)
  {
    var signed := |s| > 0 && (s[0] == '+' as byte || s[0] == '-' as byte);
    var digits := if signed then s[1..] else s;
    if ParseInt64(s).Some? {
      assert IsDigit(digits[|digits| - 1]);
      assert s[|s| - 1] == digits[|digits| - 1];
    }
  }

  /** What the number loop can collect: its first byte is a letter or a dot and every later
      byte is a dot, because the loop steps on only to a digit or a dot and then stops at once
      on a digit. So the text holds no digit. */
  lemma {:induction false} NumberTextShape(code: seq<byte>, q: nat)
    requires Terminated(code) && q < |code|
    ensures var text := NumberScan(code, q).0;
            (|text| > 0 ==> IsLetter(text[0]) || text[0] == '.' as byte) &&
            (forall k :: 1 <= k < |text| ==> text[k] == '.' as byte) &&
            !HasDigit(text)
    decreases |code| - q
  {
    if (IsLetter(code[q]) || code[q] == '.' as byte) && (IsDigit(code[q + 1]) || code[q + 1] == '.' as byte) {
      NumberTextShape(code, q + 1);
      var rest := NumberScan(code, q + 1).0;
      assert NumberScan(code, q).0 == [code[q]] + rest;
      if IsDigit(code[q + 1]) {
        assert rest == [];
      }
      forall k | 0 <= k < |[code[q]] + rest|
        ensures !IsDigit(([code[q]] + rest)[k])
      {
        if k > 0 {
          assert ([code[q]] + rest)[k] == rest[k - 1];
          if k > 1 {
            assert rest[k - 1] == '.' as byte;
          }
        }
      }
    }
  }

  /** The number text never parses as an integer: it has no digit. */
  lemma NumberTextNotInt(code: seq<byte>, q: nat)
    requires Terminated(code) && q < |code|
    ensures ParseInt64(NumberScan(code, q).0).None?
  {
    NumberTextShape(code, q);
    ParseInt64NeedsDigit(NumberScan(code, q).0);
  }

  /** The payload of the Invalid token a malformed number leaves behind: the text "NaN". */
  const NaNText: seq<byte> := ['N' as byte, 'a' as byte, 'N' as byte]

  /** handleNumber: the state after the number loop and the error it returns, if any.
      The error is recorded by the caller, not here. */
  function NumberStep(code: seq<byte>, file: string, s: Scan): (r: (Scan, Option<LexError>))
    requires Terminated(code) && 0 <= s.pos < |code|
    ensures s.pos <= r.0.pos < |code| && (r.0.pos == s.pos || code[r.0.pos] != 0)
    ensures r.0.line == s.line && r.0.errors == s.errors
  {
    var (text, end) := NumberScan(code, s.pos);
    if '.' as byte in text then
      // strconv.ParseFloat: its success branch is not modelled (see README).
      (Emit(s, Invalid, Text(NaNText), file).(pos := end), Some(NotANumber(text, s.line)))
    else
      match ParseInt64(text)
      case None => (s.(pos := end), Some(NotANumber(text, s.line)))
      case Some(v) => (Emit(s, Int, IntVal(v), file).(pos := end), None)
  }

  /** The number step as written always fails: it returns an error for the text it collected,
      appends an Invalid "NaN" token exactly when that text holds a dot, and appends nothing
      otherwise, because the integer parse never succeeds. */
  lemma NumberStepFails(code: seq<byte>, file: string, s: Scan)
    requires Terminated(code) && 0 <= s.pos < |code|
    ensures ParseInt64(NumberScan(code, s.pos).0).None?
    ensures NumberStep(code, file, s) ==
              ((if '.' as byte in NumberScan(code, s.pos).0 then Emit(s, Invalid, Text(NaNText), file) else s)
                 .(pos := NumberScan(code, s.pos).1),
               Some(NotANumber(NumberScan(code, s.pos).0, s.line)))
  {
    NumberTextNotInt(code, s.pos);
  }

  /** One pass through the switch of NextToken, before the stop test. None when the current
      byte opens a string that no later double quote closes. */
  function Dispatch(code: seq<byte>, file: string, s: Scan): (r: Option<Scan>)
    requires Terminated(code) && 0 <= s.pos < |code|
    ensures r.Some? ==> s.pos <= r.value.pos < |code|
    ensures r.Some? && code[s.pos] != 0 ==> r.value.pos < |code| - 1
    ensures code[s.pos] == 0 ==> r.Some? && |r.value.tokens| > 0 && Last(r.value.tokens).Type == EOF
  {
    var cur, after := At(code, s.pos), At(code, s.pos + 1);
    if cur == 0 then
      Some(Emit(s, EOF, Zero, file))
    else if IsLetter(cur) then
      LetterRunStops(code, s.pos);
      Some(IdStep(code, file, s))
    else if IsDigit(cur) then
      var (t, err) := NumberStep(code, file, s);
      Some(if err.Some? then t.(errors := t.errors + [err.value]) else t)
    else if cur == '<' as byte && after == '=' as byte then
      Some(Emit(s, LessThanOrEqual, Text(['<' as byte, '=' as byte]), file).(pos := s.pos + 1))
    else if cur == '>' as byte && after == '=' as byte then
      Some(Emit(s, MoreThanOrEqual, Text(['>' as byte, '=' as byte]), file).(pos := s.pos + 1))
    else if cur == '!' as byte && after == '=' as byte then
      Some(Emit(s, NotEqual, Text(['!' as byte, '=' as byte]), file).(pos := s.pos + 1))
    else if cur == '=' as byte && after == '=' as byte then
      Some(Emit(s, DoubleEqual, Text(['=' as byte, '=' as byte]), file).(pos := s.pos + 1))
    else if cur == '"' as byte then
      StringStep(code, file, s)
    else if cur == '\n' as byte then
      var s' := Emit(s, NewInstruction, Char(cur), file).(line := s.line + 1);
      Some(if after == '\t' as byte then s'.(pos := s.pos + 1) else s')
    else if cur == ' ' as byte || cur == '\t' as byte then
      Some(s)
    else if cur as int in SymbolMap then
      Some(Emit(s, SymbolMap[cur as int], Char(cur), file))
    else
      Some(Emit(s, Invalid, Char(cur), file).(errors := s.errors + [InvalidCharacter(cur, s.line)]))
  }

  /** The driver: dispatch, then stop when the last token is EOF, else step the cursor and go on. */
  function Lex(code: seq<byte>, file: string, s: Scan): (r: (Scan, Outcome))
    requires Terminated(code) && 0 <= s.pos < |code|
    ensures s.pos <= r.0.pos < |code|
    ensures r.1 == Finished ==> |r.0.tokens| > 0 && Last(r.0.tokens).Type == EOF
    decreases |code| - s.pos
  {
    match Dispatch(code, file, s)
    case None => (s, NoClosingQuote)
    case Some(t) =>
      if |t.tokens| == 0 then (t, IndexOutOfRange)
      else if Last(t.tokens).Type == EOF then (t, Finished)
      else Lex(code, file, t.(pos := t.pos + 1))
  }

  /** One step of the driver: after a dispatch that yields t, the run stops on an empty
      token list or a final EOF, and otherwise goes on from the byte after t's cursor. */
  lemma LexUnfold(code: seq<byte>, file: string, s: Scan, t: Scan)
    requires Terminated(code) && 0 <= s.pos < |code|
    requires Dispatch(code, file, s) == Some(t)
    ensures |t.tokens| == 0 ==> Lex(code, file, s) == (t, IndexOutOfRange)
    ensures |t.tokens| > 0 && Last(t.tokens).Type == EOF ==> Lex(code, file, s) == (t, Finished)
    ensures |t.tokens| > 0 && Last(t.tokens).Type != EOF ==>
              t.pos + 1 < |code| && Lex(code, file, s) == Lex(code, file, t.(pos := t.pos + 1))
  {
  }

  /** The state New builds: cursor on the first byte, line 1, no tokens and no errors. */
  function Start(): Scan {
    Scan(0, 1, [], [])
  }
}
