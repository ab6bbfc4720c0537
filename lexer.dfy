/** The lexer of package `lexer`: a cursor over a byte buffer that appends tokens and errors. */
module Lexer {
  import opened Utils
  import opened Token
  import opened LexSpec
  import LexProps

  class Lexer {
    /** The input, with the caller's 0 sentinel; never written after New. */
    const Code: seq<byte>
    /** The file name stamped on every token. */
    const File: string
    var Pos: int
    var Line: int
    var CurChar: byte
    var CharAfter: byte
    var Tokens: seq<Token>
    var Errors: seq<LexError>

    /** The cursor invariant: CurChar and CharAfter are the bytes the lexer sees at Pos and
        Pos + 1, where past the end of the buffer the lookahead stays on the last byte. */
    ghost predicate Valid()
      reads this`Pos, this`CurChar, this`CharAfter
    {
      |Code| >= 2 && 0 <= Pos && CurChar == At(Code, Pos) && CharAfter == At(Code, Pos + 1)
    }

    /** The changing state as a value of the reference model. */
    ghost function Snapshot(): Scan
      reads this
    {
      Scan(Pos, Line, Tokens, Errors)
    }

    /** New reads the first two bytes, so the buffer must hold at least two. */
    constructor New(code: seq<byte>, file: string)
      requires |code| >= 2
      ensures Valid()
      ensures Code == code && File == file
      ensures Pos == 0 && Line == 1 && CurChar == code[0] && CharAfter == code[1]
      ensures Tokens == [] && Errors == []
      ensures Snapshot() == Start()
    {
      Code, Pos, Line := code, 0, 1;
      CurChar, CharAfter := code[0], code[1];
      Tokens, File, Errors := [], file, [];
    }

    /** Step the cursor: the lookahead becomes current and is refreshed only while in bounds. */
    method NextChar()
      requires Valid()
      modifies this`Pos, this`CurChar, this`CharAfter
      ensures Valid()
      ensures Pos == old(Pos) + 1 && CurChar == old(CharAfter)
      ensures CharAfter == if Pos + 1 < |Code| then Code[Pos + 1] else old(CharAfter)
    {
      Pos := Pos + 1;
      CurChar := CharAfter;
      if Pos + 1 < |Code| {
        CharAfter := Code[Pos + 1];
      }
    }

    /** Append a token stamped with the current line and file. */
    method NewToken(tokentype: TokenType, value: Literal)
      modifies this`Tokens
      ensures Tokens == old(Tokens) + [Token(tokentype, value, Line, File)]
    {
      Tokens := Tokens + [Token(tokentype, value, Line, File)];
    }

    /** Scan the maximal run of letters from Pos into one Keyword or Identifier token and leave
        the cursor on the run's last byte. The run must end inside the buffer: otherwise the
        stale lookahead stays a letter and the loop never stops. */
    method HandleIdOrKeyword()
      requires Valid() && Pos + LetterRun(Code, Pos) < |Code|
      modifies this`Pos, this`CurChar, this`CharAfter, this`Tokens
      ensures Valid() && Pos < |Code| && Snapshot() == IdStep(Code, File, old(Snapshot()))
    {
      ghost var s0, start, n := Snapshot(), Pos, LetterRun(Code, Pos);
      LetterRunMaximal(Code, start);
      var str: seq<byte> := [];
      while IsLetter(CurChar)
        invariant Valid()
        invariant start <= Pos && (n == 0 ==> Pos == start) && (n > 0 ==> Pos < start + n)
        invariant str == Code[start..Pos]
        modifies this`Pos, this`CurChar, this`CharAfter
        decreases |Code| - Pos
      {
        assert n > 0;
        str := str + [CurChar];
        assert str == Code[start..Pos + 1];
        if IsLetter(CharAfter) {
          NextChar();
        } else {
          assert !IsLetter(Code[Pos + 1]);
          assert Pos == start + n - 1 && str == Code[start..start + n];
          break;
        }
      }
      assert Pos == (if n == 0 then start else start + n - 1);
      assert str == Code[start..start + n];
      NewToken(WordKind(str), Text(str));
      assert Snapshot() == Emit(s0, WordKind(str), Text(str), File).(pos := Pos);
    }

    /** The number scanner as written: it accumulates while the current byte is a letter or a
        dot and steps on while the lookahead is a digit or a dot, then parses the text. A text
        with a dot leaves an Invalid "NaN" token; every failed parse returns an error for the
        caller to record. The parse never succeeds (NumberTextNotInt). */
    method HandleNumber() returns (err: Option<LexError>)
      requires Valid() && Terminated(Code) && Pos < |Code|
      modifies this`Pos, this`CurChar, this`CharAfter, this`Tokens
      ensures Valid() && Pos < |Code|
      ensures (Snapshot(), err) == NumberStep(Code, File, old(Snapshot()))
    {
      ghost var s0, start := Snapshot(), Pos;
      var num: seq<byte> := [];
      var hasDot := false;
      while IsLetter(CurChar) || CurChar == '.' as byte
        invariant Valid() && start <= Pos < |Code|
        invariant num + NumberScan(Code, Pos).0 == NumberScan(Code, start).0
        invariant NumberScan(Code, Pos).1 == NumberScan(Code, start).1
        invariant hasDot <==> '.' as byte in num
        modifies this`Pos, this`CurChar, this`CharAfter
        decreases |Code| - Pos
      {
        num := num + [CurChar];
        if CurChar == '.' as byte {
          hasDot := true;
        }
        if IsDigit(CharAfter) || CharAfter == '.' as byte {
          ghost var rest := NumberScan(Code, Pos + 1);
          assert NumberScan(Code, Pos) == ([Code[Pos]] + rest.0, rest.1);
          assert num + rest.0 == NumberScan(Code, start).0;
          NextChar();
        } else {
          assert NumberScan(Code, Pos) == ([Code[Pos]], Pos);
          break;
        }
      }
      assert num == NumberScan(Code, start).0 && Pos == NumberScan(Code, start).1;
      if hasDot {
        // strconv.ParseFloat cannot succeed on this text either (see README).
        NewToken(Invalid, Text(NaNText));
        assert Snapshot() == Emit(s0, Invalid, Text(NaNText), File).(pos := Pos);
        return Some(NotANumber(num, Line));
      }
      NumberTextNotInt(Code, start);
      match ParseInt64(num)
      case None =>
        assert Snapshot() == s0.(pos := Pos);
        return Some(NotANumber(num, Line));
      case Some(_) =>
        // The Int token would be appended here, but strconv.ParseInt never succeeds on this
        // text (NumberTextNotInt), so the branch is dead.
        assert false;
    }

    /** Scan a string: the payload is the bytes strictly between the opening quote and the next
        double quote, verbatim; the cursor is left on the closing quote. Without a closing quote
        the loop never stops, hence the precondition. */
    method HandleString()
      requires Valid() && Pos < |Code| && FindQuote(Code, Pos + 1) < |Code|
      modifies this`Pos, this`CurChar, this`CharAfter, this`Tokens
      ensures Valid() && Pos < |Code| && Some(Snapshot()) == StringStep(Code, File, old(Snapshot()))
    {
      ghost var s0, j := Snapshot(), FindQuote(Code, Pos + 1);
      FindQuoteFirst(Code, Pos + 1);
      NextChar();
      ghost var start := Pos;
      var str: seq<byte> := [];
      while CurChar != '"' as byte
        invariant Valid() && start <= Pos <= j
        invariant str == Code[start..Pos]
        modifies this`Pos, this`CurChar, this`CharAfter
        decreases j - Pos
      {
        str := str + [CurChar];
        assert str == Code[start..Pos + 1];
        NextChar();
      }
      assert Code[Pos] == '"' as byte;
      assert str == Code[old(Pos) + 1..j];
      NewToken(String, Text(str));
      assert Snapshot() == Emit(s0, String, Text(str), File).(pos := j);
    }

    /** The switch of NextToken on the current byte, in its priority order: one step of the
        reference Dispatch. */
    method Switch()
      requires Valid() && Terminated(Code) && Pos < |Code|
      requires Dispatch(Code, File, Snapshot()).Some?
      modifies this`Pos, this`CurChar, this`CharAfter, this`Line, this`Tokens, this`Errors
      ensures Some(Snapshot()) == Dispatch(Code, File, old(Snapshot()))
      ensures Valid() && Pos < |Code|
    {
      ghost var s0 := Snapshot();
      if CurChar == 0 {
        NewToken(EOF, Zero);
        assert Snapshot() == Emit(s0, EOF, Zero, File);
      } else if IsLetter(CurChar) {
        LetterRunStops(Code, Pos);
        HandleIdOrKeyword();
      } else if IsDigit(CurChar) {
        var err := HandleNumber();
        ghost var t := Snapshot();
        if err.Some? {
          Errors := Errors + [err.value];
        }
        assert Snapshot() == if err.Some? then t.(errors := t.errors + [err.value]) else t;
      } else if CurChar == '<' as byte && CharAfter == '=' as byte {
        NewToken(LessThanOrEqual, Text(['<' as byte, '=' as byte]));
        NextChar();
        assert Snapshot() == Emit(s0, LessThanOrEqual, Text(['<' as byte, '=' as byte]), File).(pos := s0.pos + 1);
      } else if CurChar == '>' as byte && CharAfter == '=' as byte {
        NewToken(MoreThanOrEqual, Text(['>' as byte, '=' as byte]));
        NextChar();
        assert Snapshot() == Emit(s0, MoreThanOrEqual, Text(['>' as byte, '=' as byte]), File).(pos := s0.pos + 1);
      } else if CurChar == '!' as byte && CharAfter == '=' as byte {
        NewToken(NotEqual, Text(['!' as byte, '=' as byte]));
        NextChar();
        assert Snapshot() == Emit(s0, NotEqual, Text(['!' as byte, '=' as byte]), File).(pos := s0.pos + 1);
      } else if CurChar == '=' as byte && CharAfter == '=' as byte {
        NewToken(DoubleEqual, Text(['=' as byte, '=' as byte]));
        NextChar();
        assert Snapshot() == Emit(s0, DoubleEqual, Text(['=' as byte, '=' as byte]), File).(pos := s0.pos + 1);
      } else if CurChar == '"' as byte {
        HandleString();
      } else if CurChar == '\n' as byte {
        NewToken(NewInstruction, Char(CurChar));
        Line := Line + 1;
        if CharAfter == '\t' as byte {
          NextChar();
        }
        assert Snapshot() == Emit(s0, NewInstruction, Char('\n' as byte), File).(line := s0.line + 1,
          pos := if At(Code, s0.pos + 1) == '\t' as byte then s0.pos + 1 else s0.pos);
      } else if CurChar == ' ' as byte || CurChar == '\t' as byte {
        assert Snapshot() == s0;
      } else if CurChar as int in SymbolMap {
        NewToken(SymbolMap[CurChar as int], Char(CurChar));
        assert Snapshot() == Emit(s0, SymbolMap[CurChar as int], Char(CurChar), File);
      } else {
        NewToken(Invalid, Char(CurChar));
        Errors := Errors + [InvalidCharacter(CurChar, Line)];
        assert Snapshot() == Emit(s0, Invalid, Char(CurChar), File).(errors := s0.errors + [InvalidCharacter(CurChar, s0.line)]);
      }
    }

    /** The driver: classify the current byte, then stop if the last token is EOF, else step
        the cursor and go round again (the source's tail call). The stop test reads the last
        token, which fails (IndexOutOfRange) when no token has been appended yet. Every string
        ahead must be closed, since the string loop never stops otherwise; the run then never
        ends in NoClosingQuote. */
    method NextToken() returns (outcome: Outcome)
      requires Valid() && Terminated(Code) && Pos < |Code|
      requires LexProps.Closed(Code, Pos)
      modifies this`Pos, this`CurChar, this`CharAfter, this`Line, this`Tokens, this`Errors
      ensures Valid()
      ensures (Snapshot(), outcome) == Lex(Code, File, old(Snapshot()))
      ensures outcome != NoClosingQuote
    {
      LexProps.ClosedRunsEnd(Code, File, Snapshot());
      ghost var goal := Lex(Code, File, Snapshot());
      while true
        invariant Valid() && Pos < |Code|
        invariant Lex(Code, File, Snapshot()) == goal
        decreases |Code| - Pos
      {
        ghost var s := Snapshot();
        Switch();
        ghost var t := Snapshot();
        LexUnfold(Code, File, s, t);
        if |Tokens| == 0 {
          return IndexOutOfRange;
        }
        // Kinds are compared by their constant strings, which NameInjective shows is the same test.
        if Tokens[|Tokens| - 1].Type == EOF {
          return Finished;
        }
        NextChar();
        assert Snapshot() == t.(pos := t.pos + 1);
      }
    }
  }
}
