/** Token kinds, the token record and the lexer's fixed lookup tables (package `token`). */
module Token {
  import opened Utils

  datatype Option<T> = None | Some(value: T)

  /** The kinds of token; each stands for one of the package's string constants (see Name). */
  datatype TokenType =
    | Invalid | EOF
    | OpenParen | CloseParen | OpenBrace | CloseBrace
    | Plus | Minus | Multiply | Divide | Backslash
    | NewInstruction | SingleQuote | DoubleQuote
    | Equal | Not | Comma
    | LessThan | LessThanOrEqual | MoreThan | MoreThanOrEqual
    | Int | String | Identifier | Keyword
    | DoubleEqual | NotEqual | Float
    | OpenBracket | CloseBracket

  /** The string value of each kind's constant; tokens are compared by this string. */
  function Name(t: TokenType): string {
    match t
    case Invalid => "INVALID"
    case EOF => "EOF"
    case OpenParen => "OPENPAREN"
    case CloseParen => "CLOSEPAREN"
    case OpenBrace => "OPENBRACE"
    case CloseBrace => "CLOSEBRACE"
    case Plus => "PLUS"
    case Minus => "MINUS"
    case Multiply => "MULTIPLY"
    case Divide => "DIVIDE"
    case Backslash => "BACKSLASH"
    case NewInstruction => "NEWINSTRUCTION"
    case SingleQuote => "SINGLEQUOTE"
    case DoubleQuote => "DOUBLEQUOTE"
    case Equal => "EQUAL"
    case Not => "NOT"
    case Comma => "COMMA"
    case LessThan => "LESSTHAN"
    case LessThanOrEqual => "LESSTHANOREQUAL"
    case MoreThan => "MORETHAN"
    case MoreThanOrEqual => "MORETHANOREQUAL"
    case Int => "INT"
    case String => "STRING"
    case Identifier => "IDENTIFIER"
    case Keyword => "KEYWORD"
    case DoubleEqual => "DOUBLEEQUAL"
    case NotEqual => "NOTEQUAL"
    case Float => "FLOAT"
    case OpenBracket => "OPENBRACKET"
    case CloseBracket => "CLOSEBRACKET"
  }

  /** The kind whose constant is the given string, if any; looked up by the first letter. */
  function FromName(s: string): Option<TokenType> {
    if |s| == 0 then None
    else match s[0]
      case 'B' => if s == "BACKSLASH" then Some(Backslash) else None
      case 'C' =>
        if s == "CLOSEPAREN" then Some(CloseParen)
        else if s == "CLOSEBRACE" then Some(CloseBrace)
        else if s == "CLOSEBRACKET" then Some(CloseBracket)
        else if s == "COMMA" then Some(Comma)
        else None
      case 'D' =>
        if s == "DIVIDE" then Some(Divide)
        else if s == "DOUBLEQUOTE" then Some(DoubleQuote)
        else if s == "DOUBLEEQUAL" then Some(DoubleEqual)
        else None
      case 'E' =>
        if s == "EOF" then Some(EOF)
        else if s == "EQUAL" then Some(Equal)
        else None
      case 'F' => if s == "FLOAT" then Some(Float) else None
      case 'I' =>
        if s == "INVALID" then Some(Invalid)
        else if s == "INT" then Some(Int)
        else if s == "IDENTIFIER" then Some(Identifier)
        else None
      case 'K' => if s == "KEYWORD" then Some(Keyword) else None
      case 'L' =>
        if s == "LESSTHAN" then Some(LessThan)
        else if s == "LESSTHANOREQUAL" then Some(LessThanOrEqual)
        else None
      case 'M' =>
        if s == "MINUS" then Some(Minus)
        else if s == "MULTIPLY" then Some(Multiply)
        else if s == "MORETHAN" then Some(MoreThan)
        else if s == "MORETHANOREQUAL" then Some(MoreThanOrEqual)
        else None
      case 'N' =>
        if s == "NEWINSTRUCTION" then Some(NewInstruction)
        else if s == "NOT" then Some(Not)
        else if s == "NOTEQUAL" then Some(NotEqual)
        else None
      case 'O' =>
        if s == "OPENPAREN" then Some(OpenParen)
        else if s == "OPENBRACE" then Some(OpenBrace)
        else if s == "OPENBRACKET" then Some(OpenBracket)
        else None
      case 'P' => if s == "PLUS" then Some(Plus) else None
      case 'S' =>
        if s == "SINGLEQUOTE" then Some(SingleQuote)
        else if s == "STRING" then Some(String)
        else None
      case _ => None
  }

  /** A token's payload: a raw byte, a byte string, a parsed integer, a parsed float given
      exactly as mantissa / 10^scale, or the integer 0 carried by EOF. */
  datatype Literal = Char(c: byte) | Text(s: seq<byte>) | IntVal(i: int) | FloatVal(mantissa: nat, scale: nat) | Zero

  /** A token: kind, payload, and the line and file name current when it was emitted. */
  datatype Token = Token(Type: TokenType, Value: Literal, Line: int, File: string)

  /** The one-byte symbols, keyed by the symbol's code point. */
  const SymbolMap: map<int, TokenType> := map[
    '(' as int := OpenParen,
    ')' as int := CloseParen,
    '{' as int := OpenBrace,
    '}' as int := CloseBrace,
    '+' as int := Plus,
    '-' as int := Minus,
    '*' as int := Multiply,
    '/' as int := Divide,
    '\\' as int := Backslash,
    '=' as int := Equal,
    '!' as int := Not,
    ',' as int := Comma,
    '<' as int := LessThan,
    '>' as int := MoreThan,
    ';' as int := NewInstruction,
    '[' as int := OpenBracket,
    ']' as int := CloseBracket
  ]

  /** The reserved identifier spellings. */
  const KeyWords: seq<string> := ["if", "else", "for", "func", "return", "string", "int", "float", "bool", "void"]

  /** A byte string read as text, one character per byte (Go's string(bytes) conversion). */
  function Chars(b: seq<byte>): (s: string)
    ensures |s| == |b|
  {
    if b == [] then [] else [b[0] as int as char] + Chars(b[1..])
  }

  /** Every kind's constant is recovered from its string, so no two constants share a string. */
  lemma NameRoundTrip(t: TokenType)
    ensures FromName(Name(t)) == Some(t)
  {
    match t
    case Invalid =>
    case EOF =>
    case OpenParen =>
    case CloseParen =>
    case OpenBrace =>
    case CloseBrace =>
    case Plus =>
    case Minus =>
    case Multiply =>
    case Divide =>
    case Backslash =>
    case NewInstruction =>
    case SingleQuote =>
    case DoubleQuote =>
    case Equal =>
    case Not =>
    case Comma =>
    case LessThan =>
    case LessThanOrEqual =>
    case MoreThan =>
    case MoreThanOrEqual =>
    case Int =>
    case String =>
    case Identifier =>
    case Keyword =>
    case DoubleEqual =>
    case NotEqual =>
    case Float =>
    case OpenBracket =>
    case CloseBracket =>
  }

  /** The constants are pairwise distinct: equal strings mean equal kinds. */
  lemma NameInjective(a: TokenType, b: TokenType)
    ensures Name(a) == Name(b) <==> a == b
  {
    NameRoundTrip(a);
    NameRoundTrip(b);
  }

  /** The keys of SymbolMap in increasing order. */
  const SymbolKeys: seq<int> := [
    '!' as int, '(' as int, ')' as int, '*' as int, '+' as int, ',' as int, '-' as int, '/' as int,
    ';' as int, '<' as int, '=' as int, '>' as int, '[' as int, '\\' as int, ']' as int, '{' as int, '}' as int
  ]

  /** A strictly increasing sequence has as many distinct elements as it is long. */
  lemma {:induction false} IncreasingElements(s: seq<int>)
    requires forall i, j :: 0 <= i < j < |s| ==> s[i] < s[j]
    ensures |set x | x in s| == |s|
  {
    if s != [] {
      var init := s[..|s| - 1];
      assert (set x | x in s) == (set x | x in init) + {s[|s| - 1]};
      IncreasingElements(init);
    }
  }

  /** SymbolMap has exactly 17 keys, and ';' shares its kind with a newline. */
  lemma SymbolMapSize()
    ensures |SymbolMap| == 17
    ensures SymbolMap[';' as int] == NewInstruction
  {
    assert SymbolMap.Keys == set x | x in SymbolKeys;
    IncreasingElements(SymbolKeys);
  }

  /** Every SymbolMap key is a byte that no earlier dispatch case claims. */
  lemma SymbolMapKeys(k: int)
    requires k in SymbolMap
    ensures 0 < k < 256
    ensures !IsLetter(k as byte) && !IsDigit(k as byte)
    ensures k != ' ' as int && k != '\t' as int && k != '\n' as int && k != '"' as int
  {
  }

  /** SingleQuote and DoubleQuote are no symbol's kind. */
  lemma QuoteKindsNotInSymbolMap()
    ensures SingleQuote !in SymbolMap.Values && DoubleQuote !in SymbolMap.Values
  {
  }

  /** KeyWords holds ten distinct spellings. */
  lemma KeyWordsDistinct()
    ensures |KeyWords| == 10
    ensures forall i, j :: 0 <= i < j < |KeyWords| ==> KeyWords[i] != KeyWords[j]
  {
  }

  /** Every keyword is a non-empty run of lower-case letters, so each byte of it satisfies IsLetter and the identifier scanner can produce it. */
  lemma KeyWordsAreLetters()
    ensures forall w :: w in KeyWords ==> |w| > 0 && forall k :: 0 <= k < |w| ==> 'a' <= w[k] <= 'z'
    ensures forall w, k :: w in KeyWords && 0 <= k < |w| ==> IsLetter(w[k] as int as byte)
  {
  }
}
