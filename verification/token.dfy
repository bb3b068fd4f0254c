/**
 * The token vocabulary of the TSDoc lexer: the closed set of token kinds with
 * their numeric codes, the immutable Token record, its string form, and the
 * per-kind shape every token the lexer produces is documented to have.
 */
module Tokens {
  import opened TextRanges

  /** The closed set of token kinds, listed in declaration order. */
  datatype TokenKind =
    | None
    | EndOfInput
    | Newline
    | Spacing
    | AsciiWord
    | OtherPunctuation
    | Other
    | Backslash
    | LessThan
    | GreaterThan
    | Equals
    | SingleQuote
    | DoubleQuote
    | Slash
    | Hyphen
    | AtSign
    | LeftCurlyBracket
    | RightCurlyBracket
    | Backtick
    | Period
    | Colon
    | Comma
    | LeftSquareBracket
    | RightSquareBracket
    | Pipe

  /** The numeric code of the first kind, `None`. */
  const FirstCode: int := 2000

  /** How many kinds the enumeration declares. */
  const KindCount: nat := 25

  /** Every kind, in declaration order. */
  const AllKinds: seq<TokenKind> := [
    None, EndOfInput, Newline, Spacing, AsciiWord, OtherPunctuation, Other,
    Backslash, LessThan, GreaterThan, Equals, SingleQuote, DoubleQuote, Slash,
    Hyphen, AtSign, LeftCurlyBracket, RightCurlyBracket, Backtick, Period,
    Colon, Comma, LeftSquareBracket, RightSquareBracket, Pipe
  ]

  /** The numeric value each kind is given in the enumeration. */
  function Code(k: TokenKind): (c: int)
    ensures FirstCode <= c < FirstCode + KindCount
  {
    match k
    case None => 2000
    case EndOfInput => 2001
    case Newline => 2002
    case Spacing => 2003
    case AsciiWord => 2004
    case OtherPunctuation => 2005
    case Other => 2006
    case Backslash => 2007
    case LessThan => 2008
    case GreaterThan => 2009
    case Equals => 2010
    case SingleQuote => 2011
    case DoubleQuote => 2012
    case Slash => 2013
    case Hyphen => 2014
    case AtSign => 2015
    case LeftCurlyBracket => 2016
    case RightCurlyBracket => 2017
    case Backtick => 2018
    case Period => 2019
    case Colon => 2020
    case Comma => 2021
    case LeftSquareBracket => 2022
    case RightSquareBracket => 2023
    case Pipe => 2024
  }

  /**
   * The codes run consecutively from 2000 in declaration order: the kind
   * declared at position i has code 2000 + i, and every kind is declared.
   */
  lemma CodesAreConsecutive()
    ensures |AllKinds| == KindCount
    ensures forall i :: 0 <= i < |AllKinds| ==> Code(AllKinds[i]) == FirstCode + i
    ensures forall k: TokenKind :: k in AllKinds
  {
    forall k: TokenKind
      ensures k in AllKinds
    {
      CodeIndexesDeclaration(k);
    }
  }

  /** A kind's code, read as a position in the declaration order, gives the kind back. */
  lemma CodeIndexesDeclaration(k: TokenKind)
    ensures 0 <= Code(k) - FirstCode < |AllKinds|
    ensures AllKinds[Code(k) - FirstCode] == k
  {
  }

  /** No two kinds share a code. */
  lemma CodeInjective(a: TokenKind, b: TokenKind)
    ensures Code(a) == Code(b) <==> a == b
  {
    CodeIndexesDeclaration(a);
    CodeIndexesDeclaration(b);
  }

  /** The kinds from Backslash through Pipe each stand for one dedicated character. */
  predicate IsSymbol(k: TokenKind) {
    Code(Backslash) <= Code(k)
  }

  /**
   * The one character a symbol kind stands for: always a visible ASCII
   * character that is neither a letter nor a digit.
   */
  function SymbolChar(k: TokenKind): (c: char)
    requires IsSymbol(k)
    ensures IsVisibleAscii(c) && !IsAsciiWordChar(c)
  {
    match k
    case Backslash => '\\'
    case LessThan => '<'
    case GreaterThan => '>'
    case Equals => '='
    case SingleQuote => '\''
    case DoubleQuote => '"'
    case Slash => '/'
    case Hyphen => '-'
    case AtSign => '@'
    case LeftCurlyBracket => '{'
    case RightCurlyBracket => '}'
    case Backtick => '`'
    case Period => '.'
    case Colon => ':'
    case Comma => ','
    case LeftSquareBracket => '['
    case RightSquareBracket => ']'
    case Pipe => '|'
  }

  /**
   * The symbol kind dedicated to character `c`, or the sentinel `None` when
   * `c` has no dedicated kind. It inverts SymbolChar.
   */
  function SymbolKind(c: char): (k: TokenKind)
    ensures k == None || (IsSymbol(k) && SymbolChar(k) == c)
    ensures k != None <==> exists s: TokenKind :: IsSymbol(s) && SymbolChar(s) == c
  {
    match c
    case '\\' => Backslash
    case '<' => LessThan
    case '>' => GreaterThan
    case '=' => Equals
    case '\'' => SingleQuote
    case '"' => DoubleQuote
    case '/' => Slash
    case '-' => Hyphen
    case '@' => AtSign
    case '{' => LeftCurlyBracket
    case '}' => RightCurlyBracket
    case '`' => Backtick
    case '.' => Period
    case ':' => Colon
    case ',' => Comma
    case '[' => LeftSquareBracket
    case ']' => RightSquareBracket
    case '|' => Pipe
    case _ => None
  }

  /** Each symbol kind is recovered from its own character. */
  lemma SymbolCharRoundTrip(k: TokenKind)
    requires IsSymbol(k)
    ensures SymbolKind(SymbolChar(k)) == k
  {
  }

  /** Distinct symbol kinds stand for distinct characters. */
  lemma SymbolCharInjective(a: TokenKind, b: TokenKind)
    requires IsSymbol(a) && IsSymbol(b)
    ensures SymbolChar(a) == SymbolChar(b) <==> a == b
  {
    SymbolCharRoundTrip(a);
    SymbolCharRoundTrip(b);
  }

  /** A space or a horizontal tab. */
  predicate IsSpacingChar(c: char) {
    c == ' ' || c == '\t'
  }

  /** An ASCII letter or digit. */
  predicate IsAsciiWordChar(c: char) {
    ('a' <= c <= 'z') || ('A' <= c <= 'Z') || ('0' <= c <= '9')
  }

  /** A character in the 7-bit ASCII range. */
  predicate IsAscii(c: char) {
    (c as int) < 128
  }

  /** A visible ASCII character: neither a control character nor a space. */
  predicate IsVisibleAscii(c: char) {
    '!' <= c <= '~'
  }

  /**
   * The kind a token covering character `c` must have, following the
   * character classes the kinds are documented with: a newline only ever
   * stands for a Newline token, spaces and tabs are Spacing, ASCII letters
   * and digits are AsciiWord, each dedicated symbol has its own kind, any
   * other visible ASCII character is OtherPunctuation, and non-ASCII text is
   * Other. The remaining ASCII control characters have no documented kind:
   * for them the result is the sentinel `None`.
   */
  function KindOfChar(c: char): (k: TokenKind)
    ensures k != EndOfInput
    ensures k == None <==> IsAscii(c) && !IsVisibleAscii(c) && !IsSpacingChar(c) && c != '\n'
    ensures k == OtherPunctuation || IsSymbol(k) <==> IsVisibleAscii(c) && !IsAsciiWordChar(c)
  {
    if c == '\n' then Newline
    else if IsSpacingChar(c) then Spacing
    else if IsAsciiWordChar(c) then AsciiWord
    else if SymbolKind(c) != None then SymbolKind(c)
    else if IsVisibleAscii(c) then OtherPunctuation
    else if IsAscii(c) then None
    else Other
  }

  /**
   * A token: its kind, the characters it covers, and the doc comment line it
   * was extracted from. Being a datatype value, it never changes once built.
   */
  datatype Token = Token(kind: TokenKind, range: TextRange, line: TextRange)

  /**
   * The shape the lexer's tokens are documented to have: the range lies in
   * the token's line and never holds a newline, and each kind constrains the
   * characters it covers. A well-formed token that covers any characters has
   * the kind its first character calls for.
   */
  function WellFormed(t: Token): (ok: bool)
    ensures ok ==> Within(t.range, t.line)
    ensures ok && t.kind != None && Text(t.range) != "" ==>
      KindOfChar(Text(t.range)[0]) == t.kind
  {
    var s := Text(t.range);
    && Within(t.range, t.line)
    && '\n' !in s
    && match t.kind
       case None => true
       case EndOfInput => s == ""
       case Newline => s == ""
       case Spacing => s != "" && forall i :: 0 <= i < |s| ==> IsSpacingChar(s[i])
       case AsciiWord => s != "" && forall i :: 0 <= i < |s| ==> IsAsciiWordChar(s[i])
       case OtherPunctuation =>
         && |s| == 1
         && IsVisibleAscii(s[0])
         && !IsAsciiWordChar(s[0])
         && SymbolKind(s[0]) == None
       case Other => s != "" && forall i :: 0 <= i < |s| ==> !IsAscii(s[i])
       case _ => s == [SymbolChar(t.kind)]
  }

  /**
   * The token's string: a single newline for a Newline token, whatever its
   * range covers, and the range's text for every other kind. For a
   * well-formed token it holds a newline exactly when the token is a Newline.
   */
  function ToString(t: Token): (s: string)
    ensures t.kind == Newline ==> s == ['\n']
    ensures t.kind != Newline ==> s == Text(t.range)
    ensures WellFormed(t) ==> ('\n' in s <==> t.kind == Newline)
  {
    if t.kind == Newline then "\n" else Text(t.range)
  }

  /** The constructor keeps the kind, range and line it is given. */
  lemma ConstructorStoresFields(kind: TokenKind, range: TextRange, line: TextRange)
    ensures Token(kind, range, line).kind == kind
    ensures Token(kind, range, line).range == range
    ensures Token(kind, range, line).line == line
  {
  }

  /**
   * A well-formed token's text is the slice of its line's text at the
   * token's offsets within that line, so a token never reaches outside the
   * doc comment line it was extracted from.
   */
  lemma TokenTextFromLine(t: Token)
    requires WellFormed(t)
    ensures Length(t.range) <= Length(t.line)
    ensures Text(t.range) == Text(t.line)[t.range.pos - t.line.pos..t.range.end - t.line.pos]
  {
    WithinText(t.range, t.line);
  }

  /**
   * Well-formed EndOfInput and Newline tokens cover no characters, so a
   * well-formed Newline token's string differs from its range's text.
   */
  lemma SyntheticTokensAreEmpty(t: Token)
    requires WellFormed(t)
    requires t.kind == EndOfInput || t.kind == Newline
    ensures IsEmpty(t.range) && Text(t.range) == ""
    ensures t.kind == EndOfInput ==> ToString(t) == ""
    ensures t.kind == Newline ==> ToString(t) != Text(t.range)
  {
    EmptyIffNoText(t.range);
  }

  /**
   * A well-formed symbol token covers exactly one character, that character
   * is the kind's own, and the kind is recovered from the token's string.
   */
  lemma SymbolTokenText(t: Token)
    requires WellFormed(t) && IsSymbol(t.kind)
    ensures Length(t.range) == 1
    ensures ToString(t) == [SymbolChar(t.kind)]
    ensures SymbolKind(ToString(t)[0]) == t.kind
  {
    SymbolCharRoundTrip(t.kind);
  }

  /** The kinds whose tokens always cover exactly one character. */
  predicate IsSingleChar(k: TokenKind) {
    k == OtherPunctuation || IsSymbol(k)
  }

  /**
   * Among the single-character kinds, a well-formed token's string decides
   * its kind; two symbol tokens have equal strings exactly when they have
   * the same kind.
   */
  lemma SymbolKindFromText(a: Token, b: Token)
    requires WellFormed(a) && IsSingleChar(a.kind)
    requires WellFormed(b) && IsSingleChar(b.kind)
    ensures ToString(a) == ToString(b) ==> a.kind == b.kind
    ensures IsSymbol(a.kind) && IsSymbol(b.kind) ==>
      (ToString(a) == ToString(b) <==> a.kind == b.kind)
  {
    if IsSymbol(a.kind) {
      SymbolTokenText(a);
    }
    if IsSymbol(b.kind) {
      SymbolTokenText(b);
    }
  }

  /**
   * Two well-formed tokens of real kinds that cover the same non-empty text
   * have the same kind: the kinds never overlap on the characters they cover.
   */
  lemma SameTextSameKind(a: Token, b: Token)
    requires WellFormed(a) && WellFormed(b)
    requires a.kind != None && b.kind != None
    requires Text(a.range) == Text(b.range) != ""
    ensures a.kind == b.kind
  {
  }

  /**
   * ASCII control characters other than the tab have no documented kind, so
   * a well-formed token of a real kind never covers one.
   */
  lemma NoControlCharacters(t: Token)
    requires WellFormed(t) && t.kind != None
    ensures forall i :: 0 <= i < Length(t.range) ==>
      var c := Text(t.range)[i];
      !IsAscii(c) || IsVisibleAscii(c) || IsSpacingChar(c)
  {
  }

  /**
   * A well-formed OtherPunctuation token covers exactly one visible ASCII
   * character that behaves like punctuation: not a control character, not a
   * letter or digit, not a space or tab, and not one of the characters that
   * have a dedicated kind.
   */
  lemma OtherPunctuationText(t: Token)
    requires WellFormed(t) && t.kind == OtherPunctuation
    ensures Length(t.range) == 1
    ensures |ToString(t)| == 1
    ensures IsVisibleAscii(ToString(t)[0])
    ensures !IsAsciiWordChar(ToString(t)[0]) && !IsSpacingChar(ToString(t)[0])
    ensures SymbolKind(ToString(t)[0]) == None
  {
  }

  /**
   * Well-formed Spacing, AsciiWord and Other tokens are non-empty runs of
   * their character class, and so is their string.
   */
  lemma RunTokenText(t: Token)
    requires WellFormed(t)
    ensures t.kind == Spacing ==>
      ToString(t) != "" && forall c :: c in ToString(t) ==> IsSpacingChar(c)
    ensures t.kind == AsciiWord ==>
      ToString(t) != "" && forall c :: c in ToString(t) ==> IsAsciiWordChar(c)
    ensures t.kind == Other ==>
      ToString(t) != "" && forall c :: c in ToString(t) ==> !IsAscii(c)
  {
  }
}
