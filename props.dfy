/**
 * What the reference lexer promises about its output: the shape of one dispatch step, and
 * the invariants of a whole run that follow from it by induction.
 */
module LexProps {
  import opened Utils
  import opened Token
  import opened LexSpec

  /** The blanks the switch skips without a token. */
  predicate Blank(c: byte) {
    c == ' ' as byte || c == '\t' as byte
  }

  /** A byte that no case of the switch claims: it becomes an Invalid token and an error. */
  predicate Unknown(c: byte) {
    c != 0 && !IsLetter(c) && !IsDigit(c) && c != '"' as byte && c != '\n' as byte &&
    !Blank(c) && c as int !in SymbolMap
  }

  /** The kinds the lexer can append: the quote kinds are never looked up, and the number
      scanner never completes an Int or a Float. */
  predicate Emittable(k: TokenType) {
    !(k.SingleQuote? || k.DoubleQuote? || k.Int? || k.Float?)
  }

  predicate NoEOF(ts: seq<Token>) {
    forall k :: 0 <= k < |ts| ==> ts[k].Type != EOF
  }

  /** The number loop does not start on a digit, so a number scan from a digit collects nothing. */
  lemma DigitScansNothing(code: seq<byte>, q: nat)
    requires Terminated(code) && q < |code| && IsDigit(code[q])
    ensures NumberScan(code, q) == ([], q)
  {
  }

  /** The 0 sentinel under the cursor yields the EOF token and nothing else. */
  lemma SentinelDispatch(code: seq<byte>, file: string, s: Scan)
    requires Terminated(code) && 0 <= s.pos < |code| && code[s.pos] == 0
    ensures Dispatch(code, file, s) == Some(Emit(s, EOF, Zero, file))
  {
  }

  /** A digit under the cursor yields the error for the empty text, no token, and an unmoved
      cursor: the number scanner never accumulates a digit. */
  lemma DigitDispatch(code: seq<byte>, file: string, s: Scan)
    requires Terminated(code) && 0 <= s.pos < |code| && IsDigit(code[s.pos])
    ensures Dispatch(code, file, s) == Some(s.(errors := s.errors + [NotANumber([], s.line)]))
  {
    DigitScansNothing(code, s.pos);
    assert ParseInt64([]).None?;
  }

  /** The bytes that start a two-byte operator when a '=' follows. */
  const PairStarts: set<byte> := {'<' as byte, '>' as byte, '!' as byte, '=' as byte}

  /** One dispatch step appends at most one token, stamped with the current line and the file;
      it appends none exactly on a blank or a digit; the token is EOF exactly on the 0 byte; it
      records an error exactly on a digit or an unknown byte; and only a newline moves the line. */
  lemma DispatchShape(code: seq<byte>, file: string, s: Scan, t: Scan)
    requires Terminated(code) && 0 <= s.pos < |code|
    requires Dispatch(code, file, s) == Some(t)
    ensures t.line == s.line + (if code[s.pos] == '\n' as byte then 1 else 0)
    ensures code[s.pos] == 0 ==> t.pos == s.pos
    ensures t.tokens == s.tokens <==> Blank(code[s.pos]) || IsDigit(code[s.pos])
    ensures t.tokens != s.tokens ==>
              |t.tokens| == |s.tokens| + 1 && t.tokens[..|s.tokens|] == s.tokens &&
              Emittable(Last(t.tokens).Type) && Last(t.tokens).Line == s.line && Last(t.tokens).File == file &&
              (Last(t.tokens).Type == EOF <==> code[s.pos] == 0) &&
              (Last(t.tokens).Type == Invalid <==> Unknown(code[s.pos]))
    ensures t.errors == s.errors + (if IsDigit(code[s.pos]) then [NotANumber([], s.line)]
                                    else if Unknown(code[s.pos]) then [InvalidCharacter(code[s.pos], s.line)]
                                    else [])
  {
    var c := code[s.pos];
    if IsDigit(c) {
      DigitDispatch(code, file, s);
    } else if c as int in SymbolMap {
      SymbolMapKeys(c as int);
      QuoteKindsNotInSymbolMap();
      assert SymbolMap[c as int] in SymbolMap.Values;
    }
  }

  /** The payload of a one-byte token: an unknown byte becomes Invalid carrying the byte, and a
      symbol not starting a two-byte operator becomes its SymbolMap kind carrying the byte. */
  lemma DispatchPayload(code: seq<byte>, file: string, s: Scan, t: Scan)
    requires Terminated(code) && 0 <= s.pos < |code|
    requires Dispatch(code, file, s) == Some(t)
    ensures Unknown(code[s.pos]) ==> t.tokens == s.tokens + [Token(Invalid, Char(code[s.pos]), s.line, file)]
    ensures code[s.pos] as int in SymbolMap && !(code[s.pos] in PairStarts && At(code, s.pos + 1) == '=' as byte) ==>
              t.tokens == s.tokens + [Token(SymbolMap[code[s.pos] as int], Char(code[s.pos]), s.line, file)]
  {
  }

  /** r extends s: the tokens and errors of s are kept, and every token appended has an
      emittable kind and the file's name. */
  predicate Extends(file: string, s: Scan, r: Scan) {
    |s.tokens| <= |r.tokens| && r.tokens[..|s.tokens|] == s.tokens &&
    (forall k :: |s.tokens| <= k < |r.tokens| ==> Emittable(r.tokens[k].Type) && r.tokens[k].File == file) &&
    |s.errors| <= |r.errors| && r.errors[..|s.errors|] == s.errors
  }

  /** The shape of a whole run from s ending in state r with outcome out: r extends s, no token
      but the last is EOF, the run finishes exactly when the last token is EOF, which was emitted
      on a 0 byte, and the stop test fails only on an empty token list. */
  predicate RunShape(code: seq<byte>, file: string, s: Scan, r: Scan, out: Outcome) {
    Extends(file, s, r) &&
    (forall k :: 0 <= k < |r.tokens| - 1 ==> r.tokens[k].Type != EOF) &&
    (out == Finished <==> |r.tokens| > 0 && Last(r.tokens).Type == EOF) &&
    (out == Finished ==> 0 <= r.pos < |code| && code[r.pos] == 0) &&
    (out == IndexOutOfRange ==> r.tokens == [])
  }

  lemma ExtendsTrans(file: string, s: Scan, t: Scan, r: Scan)
    requires Extends(file, s, t) && Extends(file, t, r)
    ensures Extends(file, s, r)
  {
    assert r.tokens[..|s.tokens|] == r.tokens[..|t.tokens|][..|s.tokens|];
    assert r.errors[..|s.errors|] == r.errors[..|t.errors|][..|s.errors|];
  }

  /** One dispatch step from a state without EOF extends it; when the run stops there, the
      step alone has the shape of the run, and otherwise the new state has no EOF either. */
  lemma StepShape(code: seq<byte>, file: string, s: Scan, t: Scan)
    requires Terminated(code) && 0 <= s.pos < |code| && NoEOF(s.tokens)
    requires Dispatch(code, file, s) == Some(t)
    ensures Extends(file, s, t)
    ensures |t.tokens| == 0 ==> RunShape(code, file, s, t, IndexOutOfRange)
    ensures |t.tokens| > 0 && Last(t.tokens).Type == EOF ==> RunShape(code, file, s, t, Finished)
    ensures |t.tokens| > 0 && Last(t.tokens).Type != EOF ==> NoEOF(t.tokens)
  {
    DispatchShape(code, file, s, t);
    StepKeepsNoEOF(code, file, s, t);
  }

  /** Off the 0 byte a step never ends in EOF, and a step that does not end the run keeps EOF
      out of the token list. */
  lemma StepKeepsNoEOF(code: seq<byte>, file: string, s: Scan, t: Scan)
    requires Terminated(code) && 0 <= s.pos < |code| && NoEOF(s.tokens)
    requires Dispatch(code, file, s) == Some(t)
    ensures code[s.pos] != 0 && |t.tokens| > 0 ==> Last(t.tokens).Type != EOF
    ensures |t.tokens| > 0 && Last(t.tokens).Type != EOF ==> NoEOF(t.tokens)
  {
    DispatchShape(code, file, s, t);
    if t.tokens != s.tokens {
      forall k | 0 <= k < |t.tokens| - 1 ensures t.tokens[k].Type != EOF {
        assert t.tokens[k] == t.tokens[..|s.tokens|][k];
      }
    }
  }

  /** A whole run from a state without EOF has the shape RunShape. */
  lemma {:induction false} LexOutput(code: seq<byte>, file: string, s: Scan)
    requires Terminated(code) && 0 <= s.pos < |code| && NoEOF(s.tokens)
    ensures RunShape(code, file, s, Lex(code, file, s).0, Lex(code, file, s).1)
    decreases |code| - s.pos
  {
    match Dispatch(code, file, s)
    case None =>
      assert Extends(file, s, s);
    case Some(t) =>
      StepShape(code, file, s, t);
      LexUnfold(code, file, s, t);
      if |t.tokens| > 0 && Last(t.tokens).Type != EOF {
        var u := t.(pos := t.pos + 1);
        LexOutput(code, file, u);
        ExtendsTrans(file, s, u, Lex(code, file, u).0);
      }
  }

  /** The run from the initial state fails on its first stop test exactly when the first byte is
      a blank or a digit: those are the only bytes that append no token, and once a token is
      there the list is never empty again. */
  lemma PanicsOnFirstByte(code: seq<byte>, file: string)
    requires Terminated(code)
    ensures Lex(code, file, Start()).1 == IndexOutOfRange <==> Blank(code[0]) || IsDigit(code[0])
  {
    var s := Start();
    match Dispatch(code, file, s)
    case None =>
    case Some(t) =>
      DispatchShape(code, file, s, t);
      LexUnfold(code, file, s, t);
      if |t.tokens| > 0 && Last(t.tokens).Type != EOF {
        LexOutput(code, file, t.(pos := t.pos + 1));
      }
  }

  /** The dispatch fails only on a double quote with no double quote after it. */
  lemma DispatchNone(code: seq<byte>, file: string, s: Scan)
    requires Terminated(code) && 0 <= s.pos < |code|
    ensures Dispatch(code, file, s).None? <==>
              code[s.pos] == '"' as byte && forall k :: s.pos < k < |code| ==> code[k] != '"' as byte
  {
    if code[s.pos] == '"' as byte {
      FindQuoteFirst(code, s.pos + 1);
    }
  }

  /** The tab after a newline is skipped by the newline case, but it would have been skipped as
      a blank anyway: the run from a tab, once a token other than EOF is out, is the run from
      the byte after it. */
  lemma TabSkipHarmless(code: seq<byte>, file: string, s: Scan)
    requires Terminated(code) && 0 <= s.pos < |code| && code[s.pos] == '\t' as byte
    requires |s.tokens| > 0 && Last(s.tokens).Type != EOF
    ensures Lex(code, file, s) == Lex(code, file, s.(pos := s.pos + 1))
  {
    LexUnfold(code, file, s, s);
  }

  /** A newline appends one NewInstruction token and counts a line; whether or not a tab
      follows, the run goes on as from the byte after the newline. */
  lemma NewlineStep(code: seq<byte>, file: string, s: Scan)
    requires Terminated(code) && 0 <= s.pos < |code| && code[s.pos] == '\n' as byte
    ensures var t := Emit(s, NewInstruction, Char('\n' as byte), file).(line := s.line + 1);
            Lex(code, file, s) == Lex(code, file, t.(pos := s.pos + 1))
  {
    var t := Emit(s, NewInstruction, Char('\n' as byte), file).(line := s.line + 1);
    if code[s.pos + 1] == '\t' as byte {
      LexUnfold(code, file, s, t.(pos := s.pos + 1));
      TabSkipHarmless(code, file, t.(pos := s.pos + 1));
    } else {
      LexUnfold(code, file, s, t);
    }
  }

  /** The kind of the two-byte operator that starts with c. */
  function PairKind(c: byte): (k: TokenType)
    requires c in PairStarts
    ensures k in {LessThanOrEqual, MoreThanOrEqual, NotEqual, DoubleEqual}
  {
    if c == '<' as byte then LessThanOrEqual
    else if c == '>' as byte then MoreThanOrEqual
    else if c == '!' as byte then NotEqual
    else DoubleEqual
  }

  /** Maximal munch on operators: '<', '>', '!' and '=' followed by '=' make one two-byte token
      and consume both bytes; followed by anything else they are the one-byte symbol. */
  lemma OperatorMunch(code: seq<byte>, file: string, s: Scan)
    requires Terminated(code) && 0 <= s.pos < |code|
    requires code[s.pos] in PairStarts
    ensures var c := code[s.pos];
            s.pos + 1 < |code| &&
            (code[s.pos + 1] == '=' as byte ==>
               Dispatch(code, file, s) == Some(Emit(s, PairKind(c), Text([c, '=' as byte]), file).(pos := s.pos + 1))) &&
            (code[s.pos + 1] != '=' as byte ==>
               c as int in SymbolMap && Dispatch(code, file, s) == Some(Emit(s, SymbolMap[c as int], Char(c), file)))
  {
  }

  /** Strings round-trip: a payload without a double quote, written between two double quotes,
      comes back verbatim as the String token, with the cursor on the closing quote. */
  lemma StringRoundTrip(code: seq<byte>, file: string, s: Scan, payload: seq<byte>)
    requires Terminated(code) && 0 <= s.pos && s.pos + |payload| + 1 < |code|
    requires code[s.pos] == '"' as byte && code[s.pos + 1..s.pos + 1 + |payload|] == payload
    requires code[s.pos + 1 + |payload|] == '"' as byte && '"' as byte !in payload
    ensures Dispatch(code, file, s) == Some(Emit(s, String, Text(payload), file).(pos := s.pos + 1 + |payload|))
  {
    var j := s.pos + 1 + |payload|;
    FindQuoteFirst(code, s.pos + 1);
    assert FindQuote(code, s.pos + 1) == j;
  }

  /** The letter run at i is exactly n long when n letters follow i and the next byte is not one. */
  lemma {:induction false} LetterRunIs(code: seq<byte>, i: nat, n: nat)
    requires i + n < |code| && !IsLetter(code[i + n])
    requires forall k :: i <= k < i + n ==> IsLetter(code[k])
    ensures LetterRun(code, i) == n
    decreases n
  {
    if n > 0 {
      LetterRunIs(code, i + 1, n - 1);
    }
  }

  /** Words round-trip with maximal munch: a run of letters followed by a non-letter comes back
      whole as one token of kind WordKind (see WordKindKeyword), with the cursor left on its
      last letter. */
  lemma WordRoundTrip(code: seq<byte>, file: string, s: Scan, word: seq<byte>)
    requires Terminated(code) && 0 <= s.pos && s.pos + |word| < |code| && |word| > 0
    requires code[s.pos..s.pos + |word|] == word && !IsLetter(code[s.pos + |word|])
    requires forall k :: 0 <= k < |word| ==> IsLetter(word[k])
    ensures Dispatch(code, file, s) == Some(Emit(s, WordKind(word), Text(word), file).(pos := s.pos + |word| - 1))
  {
    WordRun(code, s.pos, word);
    LetterDispatch(code, file, s);
    IdStepWord(code, file, s, word);
  }

  /** A word is a Keyword exactly when its spelling is listed in KeyWords, and an Identifier otherwise. */
  lemma WordKindKeyword(word: seq<byte>)
    ensures WordKind(word) == Keyword <==> Chars(word) in KeyWords
    ensures WordKind(word) != Keyword ==> WordKind(word) == Identifier
  {
  }

  /** A word of letters in the buffer, followed by a non-letter, is the letter run there. */
  lemma WordRun(code: seq<byte>, i: nat, word: seq<byte>)
    requires i + |word| < |code| && |word| > 0
    requires code[i..i + |word|] == word && !IsLetter(code[i + |word|])
    requires forall k :: 0 <= k < |word| ==> IsLetter(word[k])
    ensures IsLetter(code[i]) && LetterRun(code, i) == |word|
  {
    forall k | i <= k < i + |word| ensures IsLetter(code[k]) {
      assert code[k] == word[k - i];
    }
    LetterRunIs(code, i, |word|);
    assert code[i] == word[0];
  }

  /** A letter under the cursor is dispatched to the identifier scanner. */
  lemma LetterDispatch(code: seq<byte>, file: string, s: Scan)
    requires Terminated(code) && 0 <= s.pos < |code| && IsLetter(code[s.pos])
    ensures s.pos + LetterRun(code, s.pos) < |code|
    ensures Dispatch(code, file, s) == Some(IdStep(code, file, s))
  {
    LetterRunStops(code, s.pos);
    SeparatorsAreNotWordBytes(0);
  }

  lemma IdStepWord(code: seq<byte>, file: string, s: Scan, word: seq<byte>)
    requires 0 <= s.pos && s.pos + |word| < |code| && |word| > 0
    requires LetterRun(code, s.pos) == |word| && code[s.pos..s.pos + |word|] == word
    ensures IdStep(code, file, s) == Emit(s, WordKind(word), Text(word), file).(pos := s.pos + |word| - 1)
  {
    var text := code[s.pos..s.pos + LetterRun(code, s.pos)];
    assert text == word;
    assert WordKind(text) == WordKind(word);
  }

  /** The number of newline bytes in code[i..j]. */
  function Newlines(code: seq<byte>, i: nat, j: nat): (n: nat)
    requires i <= j <= |code|
    ensures n <= j - i
    decreases j - i
  {
    if i == j then 0 else Newlines(code, i, j - 1) + (if code[j - 1] == '\n' as byte then 1 else 0)
  }

  lemma {:induction false} NewlinesSplit(code: seq<byte>, i: nat, j: nat, k: nat)
    requires i <= j <= k <= |code|
    ensures Newlines(code, i, k) == Newlines(code, i, j) + Newlines(code, j, k)
    decreases k - j
  {
    if j < k {
      NewlinesSplit(code, i, j, k - 1);
    }
  }

  /** Apart from words and strings, a dispatch step moves the cursor by at most one byte, and
      only over the '=' of a two-byte operator or the tab after a newline. */
  lemma ShortStep(code: seq<byte>, file: string, s: Scan, t: Scan)
    requires Terminated(code) && 0 <= s.pos < |code|
    requires code[s.pos] != '"' as byte && !IsLetter(code[s.pos])
    requires Dispatch(code, file, s) == Some(t)
    ensures t.pos == s.pos || (t.pos == s.pos + 1 && (code[t.pos] == '=' as byte || code[t.pos] == '\t' as byte))
    ensures t.line == s.line + (if code[s.pos] == '\n' as byte then 1 else 0)
  {
    if IsDigit(code[s.pos]) {
      DigitDispatch(code, file, s);
    }
  }

  /** The newlines the lexer counts from index i on: those outside string literals, up to the
      first 0 byte outside a string. A double quote jumps past the string it opens; a string
      that is never closed counts nothing, as the lexer never gets past it. */
  function TopLevelNewlines(code: seq<byte>, i: nat): (n: nat)
    requires i <= |code|
    ensures n <= |code| - i
    decreases |code| - i
  {
    if i == |code| || code[i] == 0 then 0
    else if code[i] == '"' as byte then
      var j := FindQuote(code, i + 1);
      if j == |code| then 0 else TopLevelNewlines(code, j + 1)
    else (if code[i] == '\n' as byte then 1 else 0) + TopLevelNewlines(code, i + 1)
  }

  /** Letters are neither newlines, quotes nor 0: a run of them counts nothing. */
  lemma {:induction false} LetterLines(code: seq<byte>, i: nat, k: nat)
    requires i <= k < |code|
    requires forall m :: i <= m <= k ==> IsLetter(code[m])
    ensures TopLevelNewlines(code, i) == TopLevelNewlines(code, k + 1)
    decreases k - i
  {
    assert IsLetter(code[i]);
    if i < k {
      LetterLines(code, i + 1, k);
    }
  }

  /** From s to t the line counter grew by the top-level newlines between s's cursor and the
      byte after t's cursor. */
  predicate LinesStep(code: seq<byte>, s: Scan, t: Scan) {
    0 <= s.pos < |code| && 0 <= t.pos && t.pos + 1 < |code| &&
    TopLevelNewlines(code, s.pos) == (t.line - s.line) + TopLevelNewlines(code, t.pos + 1)
  }

  /** A word step counts no line and passes over letters only. */
  lemma LetterStepLines(code: seq<byte>, file: string, s: Scan, t: Scan)
    requires Terminated(code) && 0 <= s.pos < |code| && IsLetter(code[s.pos])
    requires Dispatch(code, file, s) == Some(t)
    ensures t.line == s.line && LinesStep(code, s, t)
  {
    LetterDispatch(code, file, s);
    LetterRunMaximal(code, s.pos);
    LetterLines(code, s.pos, t.pos);
  }

  /** A double quote under the cursor moves it to the closing quote and counts no line. */
  lemma QuoteDispatch(code: seq<byte>, file: string, s: Scan, t: Scan)
    requires Terminated(code) && 0 <= s.pos < |code| && code[s.pos] == '"' as byte
    requires Dispatch(code, file, s) == Some(t)
    ensures t.pos == FindQuote(code, s.pos + 1) < |code| - 1 && t.line == s.line
  {
    assert Some(t) == StringStep(code, file, s);
  }

  /** A string counts none of the newlines inside it. */
  lemma QuoteLines(code: seq<byte>, s: Scan, t: Scan)
    requires 0 <= s.pos < |code| && code[s.pos] == '"' as byte
    requires t.pos == FindQuote(code, s.pos + 1) < |code| - 1 && t.line == s.line
    ensures LinesStep(code, s, t)
  {
  }

  /** Any other step off a non-zero byte moves at most one byte, past a '=' or a tab, and
      counts only its own byte's newline. */
  lemma ShortStepLines(code: seq<byte>, file: string, s: Scan, t: Scan)
    requires Terminated(code) && 0 <= s.pos < |code| && code[s.pos] != 0
    requires code[s.pos] != '"' as byte && !IsLetter(code[s.pos])
    requires Dispatch(code, file, s) == Some(t)
    ensures LinesStep(code, s, t)
  {
    ShortStep(code, file, s, t);
    if t.pos == s.pos + 1 {
      assert TopLevelNewlines(code, s.pos + 1) == TopLevelNewlines(code, s.pos + 2);
    }
  }

  /** A step off a non-zero byte counts exactly the top-level newlines it passes over: those
      from its start are the lines it counted plus those from the byte after its cursor. */
  lemma StepLines(code: seq<byte>, file: string, s: Scan, t: Scan)
    requires Terminated(code) && 0 <= s.pos < |code| && code[s.pos] != 0
    requires Dispatch(code, file, s) == Some(t)
    ensures LinesStep(code, s, t)
  {
    if IsLetter(code[s.pos]) {
      LetterStepLines(code, file, s, t);
    } else if code[s.pos] == '"' as byte {
      QuoteDispatch(code, file, s, t);
      QuoteLines(code, s, t);
    } else {
      ShortStepLines(code, file, s, t);
    }
  }

  /** A run that finishes has counted exactly the top-level newlines from its start. */
  lemma {:induction false} LexLines(code: seq<byte>, file: string, s: Scan)
    requires Terminated(code) && 0 <= s.pos < |code| && NoEOF(s.tokens)
    ensures Lex(code, file, s).1 == Finished ==> Lex(code, file, s).0.line == s.line + TopLevelNewlines(code, s.pos)
    decreases |code| - s.pos
  {
    match Dispatch(code, file, s)
    case None =>
    case Some(t) =>
      LexUnfold(code, file, s, t);
      if code[s.pos] == 0 {
        SentinelDispatch(code, file, s);
      } else {
        StepLines(code, file, s, t);
        StepKeepsNoEOF(code, file, s, t);
        if |t.tokens| > 0 && Last(t.tokens).Type != EOF {
          LexLines(code, file, t.(pos := t.pos + 1));
        }
      }
  }

  /** A program that lexes to the end is stamped with one line more than it has newlines
      outside its strings. */
  lemma LineCount(code: seq<byte>, file: string)
    requires Terminated(code)
    ensures Lex(code, file, Start()).1 == Finished ==> Lex(code, file, Start()).0.line == 1 + TopLevelNewlines(code, 0)
  {
    LexLines(code, file, Start());
  }

  /** Every double quote outside a string, up to the first 0, has a closing double quote after
      it. Like TopLevelNewlines, the walk jumps from an opening quote past its closing one. */
  predicate Closed(code: seq<byte>, i: nat)
    requires i <= |code|
    decreases |code| - i
  {
    if i == |code| || code[i] == 0 then true
    else if code[i] == '"' as byte then
      var j := FindQuote(code, i + 1);
      j < |code| && Closed(code, j + 1)
    else Closed(code, i + 1)
  }

  /** A run of letters holds no double quote and no 0: it does not change Closed. */
  lemma {:induction false} LetterClosed(code: seq<byte>, i: nat, k: nat)
    requires i <= k < |code|
    requires forall m :: i <= m <= k ==> IsLetter(code[m])
    ensures Closed(code, i) == Closed(code, k + 1)
    decreases k - i
  {
    assert IsLetter(code[i]);
    if i < k {
      LetterClosed(code, i + 1, k);
    }
  }

  /** A word step passes over letters only, which leaves Closed as it was. */
  lemma LetterStepClosed(code: seq<byte>, file: string, s: Scan, t: Scan)
    requires Terminated(code) && 0 <= s.pos < |code| && IsLetter(code[s.pos])
    requires Dispatch(code, file, s) == Some(t)
    ensures t.pos + 1 < |code| && (Closed(code, s.pos) <==> Closed(code, t.pos + 1))
  {
    LetterDispatch(code, file, s);
    LetterRunMaximal(code, s.pos);
    LetterClosed(code, s.pos, t.pos);
  }

  /** A string step jumps from the opening quote to its closing one, which is the jump Closed
      makes. */
  lemma QuoteStepClosed(code: seq<byte>, file: string, s: Scan, t: Scan)
    requires Terminated(code) && 0 <= s.pos < |code| && code[s.pos] == '"' as byte
    requires Dispatch(code, file, s) == Some(t)
    ensures t.pos + 1 < |code| && (Closed(code, s.pos) <==> Closed(code, t.pos + 1))
  {
    QuoteDispatch(code, file, s, t);
  }

  /** Any other step, off a byte that is neither 0 nor a double quote, moves at most one byte,
      over a '=' or a tab, neither of which is a quote or 0. */
  lemma ShortStepClosed(code: seq<byte>, file: string, s: Scan, t: Scan)
    requires Terminated(code) && 0 <= s.pos < |code| && code[s.pos] != 0
    requires code[s.pos] != '"' as byte && !IsLetter(code[s.pos])
    requires Dispatch(code, file, s) == Some(t)
    ensures t.pos + 1 < |code| && (Closed(code, s.pos) <==> Closed(code, t.pos + 1))
  {
    ShortStep(code, file, s, t);
    ShortClosed(code, s.pos, t.pos);
  }

  /** Moving past a byte that is neither a double quote nor 0, and then perhaps past a '=' or
      a tab, keeps Closed as it was. */
  lemma ShortClosed(code: seq<byte>, i: nat, j: nat)
    requires i < |code| && code[i] != 0 && code[i] != '"' as byte
    requires j == i || (j == i + 1 < |code| && (code[j] == '=' as byte || code[j] == '\t' as byte))
    ensures Closed(code, i) == Closed(code, j + 1)
  {
    if j == i + 1 {
      assert Closed(code, i + 1) == Closed(code, i + 2);
    }
  }

  /** A step off a non-zero byte passes over no unclosed string: the rest is closed from its
      start exactly when it is closed from the byte after its cursor. */
  lemma StepClosed(code: seq<byte>, file: string, s: Scan, t: Scan)
    requires Terminated(code) && 0 <= s.pos < |code| && code[s.pos] != 0
    requires Dispatch(code, file, s) == Some(t)
    ensures t.pos + 1 < |code| && (Closed(code, s.pos) <==> Closed(code, t.pos + 1))
  {
    if IsLetter(code[s.pos]) {
      LetterStepClosed(code, file, s, t);
    } else if code[s.pos] == '"' as byte {
      QuoteStepClosed(code, file, s, t);
    } else {
      ShortStepClosed(code, file, s, t);
    }
  }

  /** A run over closed strings never spins on a string: its outcome is not NoClosingQuote. */
  lemma {:induction false} ClosedRunsEnd(code: seq<byte>, file: string, s: Scan)
    requires Terminated(code) && 0 <= s.pos < |code| && Closed(code, s.pos)
    ensures Lex(code, file, s).1 != NoClosingQuote
    decreases |code| - s.pos
  {
    match Dispatch(code, file, s)
    case None =>
      assert false;
    case Some(t) =>
      LexUnfold(code, file, s, t);
      if code[s.pos] != 0 && |t.tokens| > 0 && Last(t.tokens).Type != EOF {
        StepClosed(code, file, s, t);
        ClosedRunsEnd(code, file, t.(pos := t.pos + 1));
      }
  }

  /** A run over a string that is never closed reaches it and spins there, once a token is out
      so that the stop test cannot fail first. */
  lemma {:induction false} OpenRunsStuck(code: seq<byte>, file: string, s: Scan)
    requires Terminated(code) && 0 <= s.pos < |code| && |s.tokens| > 0 && NoEOF(s.tokens)
    requires !Closed(code, s.pos)
    ensures Lex(code, file, s).1 == NoClosingQuote
    decreases |code| - s.pos
  {
    match Dispatch(code, file, s)
    case None =>
    case Some(t) =>
      DispatchShape(code, file, s, t);
      StepKeepsNoEOF(code, file, s, t);
      LexUnfold(code, file, s, t);
      StepClosed(code, file, s, t);
      OpenRunsStuck(code, file, t.(pos := t.pos + 1));
  }

  /** Once a token other than EOF is out, a run finishes exactly when every string ahead of
      it is closed. */
  lemma RunFinishes(code: seq<byte>, file: string, s: Scan)
    requires Terminated(code) && 0 <= s.pos < |code| && |s.tokens| > 0 && NoEOF(s.tokens)
    ensures Lex(code, file, s).1 == Finished <==> Closed(code, s.pos)
  {
    if Closed(code, s.pos) {
      ClosedRunsEnd(code, file, s);
      LexOutput(code, file, s);
    } else {
      OpenRunsStuck(code, file, s);
    }
  }

  /** A terminated program lexes to the end exactly when its strings are all closed and its
      first byte is neither a blank nor a digit; it then holds exactly one EOF token, the last. */
  lemma ClosedFinishes(code: seq<byte>, file: string)
    requires Terminated(code)
    ensures Lex(code, file, Start()).1 == Finished <==> Closed(code, 0) && !Blank(code[0]) && !IsDigit(code[0])
    ensures Lex(code, file, Start()).1 == Finished ==>
              var r := Lex(code, file, Start()).0;
              |r.tokens| > 0 && Last(r.tokens).Type == EOF &&
              forall k :: 0 <= k < |r.tokens| - 1 ==> r.tokens[k].Type != EOF
  {
    PanicsOnFirstByte(code, file);
    LexOutput(code, file, Start());
    if !Blank(code[0]) && !IsDigit(code[0]) {
      FirstStepFinishes(code, file);
    }
  }

  /** From a first byte that appends a token, the run finishes exactly when the program's
      strings are all closed. */
  lemma FirstStepFinishes(code: seq<byte>, file: string)
    requires Terminated(code) && !Blank(code[0]) && !IsDigit(code[0])
    ensures Lex(code, file, Start()).1 == Finished <==> Closed(code, 0)
  {
    var s := Start();
    match Dispatch(code, file, s)
    case None =>
      DispatchNone(code, file, s);
      FindQuoteFirst(code, 1);
    case Some(t) =>
      LexUnfold(code, file, s, t);
      if code[0] != 0 {
        TokenStep(code, file, s, t);
        RunFinishes(code, file, t.(pos := t.pos + 1));
      }
  }

  /** A step off a byte that appends a token, other than EOF, leaves a non-empty token list
      without EOF, goes on from the next byte and keeps Closed as it was. */
  lemma TokenStep(code: seq<byte>, file: string, s: Scan, t: Scan)
    requires Terminated(code) && 0 <= s.pos < |code| && NoEOF(s.tokens)
    requires code[s.pos] != 0 && !Blank(code[s.pos]) && !IsDigit(code[s.pos])
    requires Dispatch(code, file, s) == Some(t)
    ensures |t.tokens| > 0 && NoEOF(t.tokens) && t.pos + 1 < |code|
    ensures Lex(code, file, s) == Lex(code, file, t.(pos := t.pos + 1))
    ensures Closed(code, s.pos) <==> Closed(code, t.pos + 1)
  {
    DispatchShape(code, file, s, t);
    StepKeepsNoEOF(code, file, s, t);
    LexUnfold(code, file, s, t);
    StepClosed(code, file, s, t);
  }

  /** Without strings, and with the sentinel as the only 0 byte, the top-level newlines are all
      the newlines. */
  lemma {:induction false} StringFreeLines(code: seq<byte>, i: nat)
    requires Terminated(code) && i < |code|
    requires forall k :: i <= k < |code| ==> code[k] != '"' as byte
    requires forall k :: i <= k < |code| - 1 ==> code[k] != 0
    ensures TopLevelNewlines(code, i) == Newlines(code, i, |code|)
    decreases |code| - i
  {
    NewlinesSplit(code, i, i + 1, |code|);
    assert Newlines(code, i, i + 1) == if code[i] == '\n' as byte then 1 else 0;
    if i < |code| - 1 {
      StringFreeLines(code, i + 1);
    }
  }

  /** The program "a 42", with its sentinel. */
  const DigitsCode: seq<byte> := ['a' as byte, ' ' as byte, '4' as byte, '2' as byte, 0]

  /** "a 42": the word is an Identifier, the blank is skipped, and each digit of 42 yields an
      error for the empty text and no token; the run finishes on the sentinel with no Int. */
  lemma DigitsExample(file: string)
    ensures Lex(DigitsCode, file, Start()) ==
              (Scan(4, 1, [Token(Identifier, Text(['a' as byte]), 1, file), Token(EOF, Zero, 1, file)],
                    [NotANumber([], 1), NotANumber([], 1)]),
               Finished)
  {
    DigitsExampleWord(file);
    DigitsExampleNumber(file);
  }

  lemma DigitsExampleWord(file: string)
    ensures Lex(DigitsCode, file, Start()) ==
            Lex(DigitsCode, file, Scan(2, 1, [Token(Identifier, Text(['a' as byte]), 1, file)], []))
  {
    var code := DigitsCode;
    var word: seq<byte> := ['a' as byte];
    var ident := Token(Identifier, Text(word), 1, file);
    assert Chars(word) == "a" && "a" !in KeyWords;
    WordKindKeyword(word);
    assert code[0..1] == word;
    WordRoundTrip(code, file, Start(), word);
    assert Emit(Start(), Identifier, Text(word), file).(pos := 0) == Scan(0, 1, [ident], []);
    LexUnfold(code, file, Start(), Scan(0, 1, [ident], []));
    LexUnfold(code, file, Scan(1, 1, [ident], []), Scan(1, 1, [ident], []));
  }

  lemma DigitsExampleNumber(file: string)
    ensures var ident := Token(Identifier, Text(['a' as byte]), 1, file);
            Lex(DigitsCode, file, Scan(2, 1, [ident], [])) ==
              (Scan(4, 1, [ident, Token(EOF, Zero, 1, file)], [NotANumber([], 1), NotANumber([], 1)]), Finished)
  {
    var code := DigitsCode;
    var ident := Token(Identifier, Text(['a' as byte]), 1, file);
    var err := NotANumber([], 1);
    DigitDispatch(code, file, Scan(2, 1, [ident], []));
    assert [] + [err] == [err];
    LexUnfold(code, file, Scan(2, 1, [ident], []), Scan(2, 1, [ident], [err]));
    DigitDispatch(code, file, Scan(3, 1, [ident], [err]));
    assert [err] + [err] == [err, err];
    LexUnfold(code, file, Scan(3, 1, [ident], [err]), Scan(3, 1, [ident], [err, err]));
    SentinelDispatch(code, file, Scan(4, 1, [ident], [err, err]));
    assert [ident] + [Token(EOF, Zero, 1, file)] == [ident, Token(EOF, Zero, 1, file)];
    LexUnfold(code, file, Scan(4, 1, [ident], [err, err]), Scan(4, 1, [ident, Token(EOF, Zero, 1, file)], [err, err]));
  }

  /** The program made of a string holding a newline, then a newline, with its sentinel. */
  const StringLinesCode: seq<byte> := ['"' as byte, '\n' as byte, '"' as byte, '\n' as byte, 0]

  /** The newline inside the string is not counted: the program has two newlines, one of them
      outside the string, and it finishes on line 2. */
  lemma StringLinesExample(file: string)
    ensures Newlines(StringLinesCode, 0, |StringLinesCode|) == 2
    ensures TopLevelNewlines(StringLinesCode, 0) == 1
    ensures Lex(StringLinesCode, file, Start()).1 == Finished
    ensures Lex(StringLinesCode, file, Start()).0.line == 2
  {
    var code := StringLinesCode;
    StringLinesRun(file);
    assert FindQuote(code, 1) == 2;
    assert TopLevelNewlines(code, 4) == 0;
    assert TopLevelNewlines(code, 3) == 1;
    LineCount(code, file);
  }

  /** The run over StringLinesCode: a String token holding the newline, a NewInstruction on
      line 1, then EOF on line 2. */
  lemma StringLinesRun(file: string)
    ensures Lex(StringLinesCode, file, Start()).1 == Finished
  {
    var code := StringLinesCode;
    var t1 := Emit(Start(), String, Text(['\n' as byte]), file).(pos := 2);
    assert FindQuote(code, 1) == 2;
    assert code[1..2] == ['\n' as byte];
    assert Dispatch(code, file, Start()) == Some(t1);
    LexUnfold(code, file, Start(), t1);
    var t2 := Emit(t1.(pos := 3), NewInstruction, Char('\n' as byte), file).(line := 2);
    assert Dispatch(code, file, t1.(pos := 3)) == Some(t2);
    LexUnfold(code, file, t1.(pos := 3), t2);
    SentinelDispatch(code, file, t2.(pos := 4));
    LexUnfold(code, file, t2.(pos := 4), Emit(t2.(pos := 4), EOF, Zero, file));
  }

  /** The keyword test is on the whole word, never a prefix: "if" is a Keyword, "iff" an Identifier. */
  lemma KeywordIsWholeWord()
    ensures WordKind(['i' as byte, 'f' as byte]) == Keyword
    ensures WordKind(['i' as byte, 'f' as byte, 'f' as byte]) == Identifier
  {
    assert Chars(['i' as byte, 'f' as byte]) == "if";
    assert Chars(['i' as byte, 'f' as byte, 'f' as byte]) == "iff";
  }
}
