# TSDoc token vocabulary, in Dafny

This project models the vocabulary of the TSDoc lexer, which is defined in
`tsdoc/src/parser/Token.ts`. The lexer turns doc comment lines into a flat
sequence of tokens. The model covers the tokens themselves, not the scanner
that produces them.

- `TokenKind` is the closed enumeration of 25 kinds. Each kind has a fixed
  numeric code, from `None = 2000` through `Pipe = 2024`. `Tokens.Code` gives
  the codes and `Tokens.AllKinds` gives the declaration order.
- `Token` is an immutable record. It holds a kind, the range of characters the
  token covers, and the doc comment line the token came from.
- `Tokens.ToString` models `Token.toString`. A `Newline` token renders as
  `"\n"`. Every other token renders as its range's text.
- `Tokens.WellFormed` collects the shape rules that the doc comments state for
  each kind:
  - a range lies inside the token's line and never contains a newline;
  - `EndOfInput` and `Newline` tokens cover no characters;
  - `Spacing` is a non-empty run of spaces and tabs;
  - `AsciiWord` is a non-empty run of ASCII letters and digits;
  - `OtherPunctuation` is one visible ASCII character that is not a letter or
    digit and has no dedicated kind;
  - `Other` is a non-empty run of non-ASCII characters;
  - each kind from `Backslash` through `Pipe` covers exactly its own character.
- `Tokens.SymbolChar` maps each of those 18 symbol kinds to its character.
  `Tokens.SymbolKind` is the reverse map. For characters with no dedicated kind,
  it returns the enumeration's own sentinel, `None`.
- `TokenSequences` covers runs of tokens. It shows that rendering well-formed
  tokens one after another produces a newline exactly where a `Newline` token
  stands.

`TextRange` is not part of this model. It appears here only as an abstract
slice (module `TextRanges`). A slice is a buffer plus offsets `pos` and `end`
with `0 <= pos <= end <= |buffer|`. Its text is `buffer[pos..end]`. A token's
range lies inside its line, over the same buffer (`TextRanges.Within`).

Two shape rules follow the doc comments of `Token.ts` closely:

- There are 18 single-character symbol kinds, `Backslash` through `Pipe`
  (`Token.ts:46-152`).
- `OtherPunctuation` is a single ASCII character that behaves like punctuation
  (`Token.ts:35-37`). The model reads "behaves like punctuation" as: a visible
  ASCII character (`!` through `~`), not a letter or digit (those are
  `AsciiWord`), and not one of the 18 characters that have a dedicated kind.
  ASCII control characters other than the tab and the newline have no
  documented kind, so no well-formed token of a real kind covers one.

`Tokens.KindOfChar` is the character classification these rules add up to. A
well-formed token that covers any characters, and whose kind is not `None`,
has the kind its first character calls for. So two well-formed tokens whose
kinds are not `None` and that cover the same non-empty text have the same kind
(`Tokens.SameTextSameKind`).

## Model

| member | source | states |
|---|---|---|
| Tokens.Code | tsdoc/src/parser/Token.ts:6-152 | Every kind's numeric code lies between 2000 and 2024 |
| Tokens.CodesAreConsecutive | tsdoc/src/parser/Token.ts:6-152 | 25 kinds are declared. The kind at declaration position i has code 2000 + i. Every kind is among them. |
| Tokens.CodeIndexesDeclaration | tsdoc/src/parser/Token.ts:6-152 | Taking a kind's code minus 2000 as a position in the declaration order gives the same kind back |
| Tokens.CodeInjective | tsdoc/src/parser/Token.ts:6-152 | Two kinds have the same code if and only if they are the same kind |
| Tokens.SymbolChar | tsdoc/src/parser/Token.ts:46-152 | Each symbol kind's character is a visible ASCII character and is not a letter or digit |
| Tokens.SymbolKind | tsdoc/src/parser/Token.ts:46-152 | A character's dedicated kind is `None` or a symbol kind whose own character is that character. It is non-`None` exactly when some symbol kind owns the character. |
| Tokens.SymbolCharRoundTrip | tsdoc/src/parser/Token.ts:46-152 | Each symbol kind from `Backslash` through `Pipe` is recovered from its own character |
| Tokens.SymbolCharInjective | tsdoc/src/parser/Token.ts:46-152 | Two symbol kinds share a character if and only if they are the same kind |
| Tokens.KindOfChar | tsdoc/src/parser/Token.ts:25-152 | No character calls for `EndOfInput`. A character calls for no kind (`None`) exactly when it is an ASCII control character other than the tab and the newline. It calls for `OtherPunctuation` or a symbol kind exactly when it is a visible ASCII character other than a letter or digit. |
| Tokens.WellFormed | tsdoc/src/parser/Token.ts:25-174 | A well-formed token's range lies within its line. If it covers any characters and is not `None`, its kind is the one its first character calls for. |
| TextRanges.Text | tsdoc/src/parser/Token.ts:186 | A range's text has exactly as many characters as the range covers |
| Tokens.ToString | tsdoc/src/parser/Token.ts:182-187 | A `Newline` token's string is a single newline, whatever its range covers. Any other token's string is its range's text. A well-formed token's string contains a newline if and only if the token is a `Newline` token. |
| Tokens.TokenTextFromLine | tsdoc/src/parser/Token.ts:155-174 | A well-formed token's text is the slice of its line's text at the token's offsets within the line. It is no longer than the line. |
| Tokens.ConstructorStoresFields | tsdoc/src/parser/Token.ts:161-180 | A constructed token holds exactly the kind, range and line it was given |
| Tokens.SyntheticTokensAreEmpty | tsdoc/src/parser/Token.ts:12-23 | Well-formed `EndOfInput` and `Newline` tokens have empty ranges. `EndOfInput` renders as `""`. A `Newline` token's string differs from its range text. |
| Tokens.SymbolTokenText | tsdoc/src/parser/Token.ts:46-152 | A well-formed symbol token covers exactly one character, which is its kind's own character. The kind is recovered from the token's string. |
| Tokens.SymbolKindFromText | tsdoc/src/parser/Token.ts:35-152 | Among the single-character kinds (`OtherPunctuation` and the symbol kinds), two well-formed tokens with equal strings have the same kind. Two symbol tokens have equal strings if and only if they have the same kind. |
| Tokens.OtherPunctuationText | tsdoc/src/parser/Token.ts:35-39 | A well-formed `OtherPunctuation` token covers exactly one visible ASCII character. That character is not a letter, digit, space or tab, and it has no dedicated kind. |
| Tokens.SameTextSameKind | tsdoc/src/parser/Token.ts:25-152 | Two well-formed tokens whose kinds are not `None` and that cover the same non-empty text have the same kind |
| Tokens.NoControlCharacters | tsdoc/src/parser/Token.ts:25-152 | A well-formed token whose kind is not `None` covers no ASCII control character other than the tab |
| Tokens.RunTokenText | tsdoc/src/parser/Token.ts:25-44 | Well-formed `Spacing`, `AsciiWord` and `Other` tokens have non-empty strings. Every character is, in turn, a space or tab, an ASCII letter or digit, or non-ASCII. |
| TokenSequences.RenderNewlineCount | tsdoc/src/parser/Token.ts:155-158 | Rendering well-formed tokens in order gives exactly one newline character per `Newline` token |
| TokenSequences.RenderWithoutNewlineTokens | tsdoc/src/parser/Token.ts:155-158 | Well-formed tokens with no `Newline` among them render to text with no newline, so no token spans two lines |
| TokenSequences.FirstLineOfRender | tsdoc/src/parser/Token.ts:155-158 | Splitting well-formed tokens at their first `Newline` token splits the rendered text at its first newline |

## Left out

- The tokenizer and the `TextRange` class: neither is part of this model, so their scanning rules and slicing behaviour are not modelled. Well-formedness is stated as a predicate on tokens, not proved of a tokenizer.
- Tokens.WellFormed: its `Other` case accepts any non-empty run of non-ASCII characters. `Token.ts:42` says the run is printable and not punctuation, but no doc comment gives a kind to non-ASCII punctuation (such as U+2014) or to non-printable non-ASCII characters (such as U+200B or U+2028), and the code defines neither class. The model therefore counts all of them as `Other`.
- Tokens.KindOfChar: for the same reason, every non-ASCII character calls for `Other`.
- The `line` field beyond containment: the model requires a token's range to lie inside its line, as the doc comments say, but it does not relate tokens of one line to each other or to the line list.
- Tokens.SyntheticTokensAreEmpty: does not state that the empty range of an `EndOfInput` token sits at the end of the provided input. That input is the tokenizer's list of lines, which is not part of this model. Only the emptiness, and containment in the token's line, are stated.
- Character units: Dafny's `string` is a sequence of Unicode scalar values, while TypeScript strings and `TextRange` offsets count UTF-16 code units. The model does not represent surrogate pairs. So for non-ASCII text, such as an `Other` run, `Length` counts characters where the source counts code units, and a range that splits a surrogate pair cannot be expressed.
- The reverse mapping from a numeric code to a kind name: this is a TypeScript language feature, not repository logic. `Tokens.CodeIndexesDeclaration` states the same correspondence through the declaration order.
- The `None` kind: its doc comment gives no shape, so only the rules that apply to every token hold for it: the range lies in the line and contains no newline.
