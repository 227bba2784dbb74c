/**
 * The two 128-entry character tables that drive the lexer, and the token
 * types it reports.  Codes outside 0..127 (and the "not a number" that
 * reading past the end of the string produces, written -1 here) index
 * nothing in either table.
 */
module LexTables {

  /** Token types; each one stands for the power of two the lexer stores. */
  datatype TokenType =
    | Num | Ident | Str | WhiteSpace | OpenBracket | CloseBracket
    | Operator | Symbol | NewLine | DataLink | NoType

  /** The numeric type id (a single bit; NoType is the "non-value" 1 << 15). */
  function TypeValue(t: TokenType): (v: int)
    ensures v > 0
  {
    match t
    case Num => 1
    case Ident => 2
    case Str => 4
    case WhiteSpace => 8
    case OpenBracket => 16
    case CloseBracket => 32
    case Operator => 64
    case Symbol => 128
    case NewLine => 256
    case DataLink => 512
    case NoType => 32768
  }

  /** The index of that bit, which is what the lexer packs into its state word. */
  function TypeIndex(t: TokenType): (k: nat)
    ensures k < 16
  {
    match t
    case Num => 0
    case Ident => 1
    case Str => 2
    case WhiteSpace => 3
    case OpenBracket => 4
    case CloseBracket => 5
    case Operator => 6
    case Symbol => 7
    case NewLine => 8
    case DataLink => 9
    case NoType => 15
  }

  predicate IsDigit(code: int) { '0' as int <= code <= '9' as int }

  predicate IsLetter(code: int) {
    ('A' as int <= code <= 'Z' as int) || ('a' as int <= code <= 'z' as int)
  }

  /**
   * The jump table: 0 number, 1 identifier, 2 quote, 3 space, 4 tab,
   * 5 carriage return, 6 line feed, 7 symbol, 8 operator, 9 open bracket,
   * 10 close bracket, 11 data-link escape.
   */
  function JumpClass(code: int): (k: nat)
    requires 0 <= code < 128
    ensures k <= 11
    ensures k == 0 <==> IsDigit(code)
    ensures k == 1 <==> IsLetter(code)
  {
    if IsDigit(code) then 0
    else if IsLetter(code) then 1
    else if code == '"' as int || code == '\'' as int || code == '`' as int then 2
    else if code == 32 then 3
    else if code == 9 then 4
    else if code == 13 then 5
    else if code == 10 then 6
    else if code == 15 then 11
    else if code in {'!' as int, '%' as int, '&' as int, '*' as int, '+' as int,
                     ':' as int, '<' as int, '=' as int, '>' as int} then 8
    else if code == '(' as int || code == '[' as int || code == '{' as int then 9
    else if code == ')' as int || code == ']' as int || code == '}' as int then 10
    else 7
  }

  /**
   * The number/identifier table: 8 in both sets, 4 number set only,
   * 2 identifier set only, 0 in neither.
   */
  function NumIdBits(code: int): (m: nat)
    ensures m in {0, 2, 4, 8}
  {
    if !(0 <= code < 128) then 0
    else if code == '$' as int || IsDigit(code)
         || code in {'B' as int, 'E' as int, 'O' as int, 'X' as int,
                     'b' as int, 'o' as int, 'x' as int} then 8
    else if code == '.' as int then 4
    else if code == '-' as int || code == '_' as int || IsLetter(code) then 2
    else 0
  }

  /** Membership in the number set: the table entry masked with 12. */
  predicate InNumberSet(code: int) { NumIdBits(code) == 8 || NumIdBits(code) == 4 }

  /** Membership in the identifier set: the table entry masked with 10. */
  predicate InIdentSet(code: int) { NumIdBits(code) == 8 || NumIdBits(code) == 2 }

  /** The classes the lexer treats as white space or line breaks. */
  predicate IsBlankClass(code: int) { 0 <= code < 128 && 3 <= JumpClass(code) <= 6 }

  /** Every number-set character is a digit, a letter, or one of `$` and `.`; none is blank. */
  lemma NumberSetCharacters(code: int)
    requires InNumberSet(code)
    ensures IsDigit(code) || IsLetter(code) || code == '$' as int || code == '.' as int
    ensures !IsBlankClass(code)
    ensures code != '-' as int
  {
  }

  /** `e` is not in the number set but `E` is, and `-` is in the identifier set only. */
  lemma NumberSetExponentLetters()
    ensures !InNumberSet('e' as int) && InNumberSet('E' as int)
    ensures InIdentSet('-' as int) && !InNumberSet('-' as int)
  {
  }
}
