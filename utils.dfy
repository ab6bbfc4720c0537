/** Character-class predicates over raw bytes (package `utils`). */
module Utils {

  /** Go's `byte`: an unsigned 8-bit value. */
  newtype byte = x: int | 0 <= x < 256

  /** A letter in the lexer's sense: ASCII a-z, A-Z or underscore. */
  predicate IsLetter(c: byte) {
    ('a' as byte <= c <= 'z' as byte) || ('A' as byte <= c <= 'Z' as byte) || c == '_' as byte
  }

  /** An ASCII decimal digit. */
  predicate IsDigit(c: byte) {
    '0' as byte <= c <= '9' as byte
  }

  /** The set of bytes that are letters. */
  ghost function LetterSet(): set<byte> {
    set c: byte | IsLetter(c)
  }

  /** The set of bytes that are digits. */
  ghost function DigitSet(): set<byte> {
    set c: byte | IsDigit(c)
  }

  /** The bytes with values lo..hi-1, built one value at a time. */
  ghost function ByteRange(lo: int, hi: int): (r: set<byte>)
    requires 0 <= lo && hi <= 256
    ensures forall c: byte :: c in r <==> lo <= c as int < hi
    ensures lo <= hi ==> |r| == hi - lo
    decreases hi - lo
  {
    if lo >= hi then {} else ByteRange(lo, hi - 1) + {(hi - 1) as byte}
  }

  /** Two ranges that do not overlap have as many bytes together as apart. */
  lemma {:induction false} DisjointRanges(a: int, b: int, c: int, d: int)
    requires 0 <= a <= b <= c <= d <= 256
    ensures |ByteRange(a, b) + ByteRange(c, d)| == (b - a) + (d - c)
  {
    assert ByteRange(a, b) * ByteRange(c, d) == {};
  }

  /** IsLetter holds for exactly 53 byte values: 26 upper-case, '_' and 26 lower-case. */
  lemma LetterCount()
    ensures |LetterSet()| == 53
  {
    LetterRanges(65, 91, 95, 97, 123);
  }

  /** LetterCount with the range bounds passed in, so that they are not unfolded as literals. */
  lemma {:induction false} LetterRanges(upperLo: int, upperHi: int, underscore: int, lowerLo: int, lowerHi: int)
    requires upperLo == 'A' as int && upperHi == 'Z' as int + 1 && underscore == '_' as int
    requires lowerLo == 'a' as int && lowerHi == 'z' as int + 1
    ensures |LetterSet()| == 53
  {
    var upperAndUnderscore := ByteRange(upperLo, upperHi) + ByteRange(underscore, underscore + 1);
    DisjointRanges(upperLo, upperHi, underscore, underscore + 1);
    forall c: byte
      ensures c in LetterSet() <==> c in upperAndUnderscore + ByteRange(lowerLo, lowerHi)
    {
    }
    assert LetterSet() == upperAndUnderscore + ByteRange(lowerLo, lowerHi);
    assert upperAndUnderscore * ByteRange(lowerLo, lowerHi) == {};
  }

  /** IsDigit holds for exactly the ten values '0'..'9'. */
  lemma DigitCount()
    ensures |DigitSet()| == 10
  {
    assert DigitSet() == ByteRange(48, 58);
  }

  /** No byte is both a letter and a digit. */
  lemma LetterDigitDisjoint(c: byte)
    ensures !(IsLetter(c) && IsDigit(c))
  {
  }

  /** The sentinel, blanks, newline, double quote and dot are neither letters nor digits. */
  lemma SeparatorsAreNotWordBytes(c: byte)
    requires c in {0, ' ' as byte, '\t' as byte, '\n' as byte, '"' as byte, '.' as byte}
    ensures !IsLetter(c) && !IsDigit(c)
  {
  }
}
