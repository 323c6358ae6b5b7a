# Monkey lexer (early iteration) in Dafny

This project models the tokenizer of the Rust Monkey interpreter as it
stands in this early iteration. It covers the token model (`rust/src/token.rs`) and
the lexer (`rust/src/lexer.rs`).

- **Token model** (`token.dfy`, module `Token`). `TokenType` is the closed
  enumeration of token kinds. Being a Dafny datatype, its variants are
  pairwise distinct and equality is structural. `Token` is the
  (type, literal) value. `Token::new` is the datatype constructor
  `Token(tokenType, literal)`, whose destructors give both arguments back
  unchanged. `LookupIdentifier` is the keyword table, which knows only
  `let` and `fn`. `SymbolByte` records the one-byte spelling documented
  beside each operator and delimiter variant. Text is modelled as bytes:
  a Rust `String` is its UTF-8 byte sequence (`seq<Byte>`).
- **Lexer** (`lexer.dfy`, module `Lexer`). The class `Lexer.Lexer` has the
  struct's four fields: `input`, `position`, `readPosition` and `ch` (the
  current byte, or the sentinel 0 past the end). `ReadChar` and
  `NextToken` update them in place. Its invariant `Valid()` says that
  `readPosition == position + 1` and that `ch` is the byte at `position`,
  or 0 past the end. Beside the class, a pure specification says what the
  lexer yields:
  - `Classify` is the `match` of `next_token`.
  - `NewToken` is `new_token`. Its `requires b < 128` is the condition
    under which the source's UTF-8 decode-and-unwrap of one byte succeeds.
  - `TokenAt` is the result of `next_token` at a given position.
  - `TokensFrom` / `Tokens` is the stream of successive calls, up to and
    including the first EOF, or `Panic`.

  The ghost function `Lexer.Lexer.Remaining()` is the stream still ahead of
  the cursor. `NextToken` is proved to return its head and, for a token other
  than EOF, to leave its tail.

The lexer recognises exactly the eight bytes `= ; ( ) { } , +` and the 0
sentinel. Every other byte panics: whitespace, letters, digits, `<`, `>`,
`!` and `-` included. The EOF token's literal is the one byte 0 (the
string `"\0"`), and `position` keeps growing on every call past the end.
A NUL byte inside the input gives the same EOF token as the end of input,
so the token stream up to the first EOF ends there. It is not the end of
input for later calls, though: the next call reads the byte after the NUL.
Inside the input, EOF repeats only across a run of NULs; past the real end
it repeats forever.

This early lexer lacks much of what the finished Monkey scanner does. The
model follows the code as written:
- There is no whitespace skipping.
- There is no identifier, keyword or number scanning.
- There is no `==` lookahead.
- There are no `ILLEGAL` tokens: an unrecognised byte panics.
- The EOF literal is `"\0"`, not the empty string.

## Model

| member | source | states |
|---|---|---|
| `Token.LookupIdentifier` | rust/src/token.rs:32-38 | the result is `Let` exactly when the text is "let", `Function` exactly when it is "fn", and otherwise `Ident`; it is total and never yields anything else |
| `Token.LookupIdentifierExamples` | rust/src/token.rs:32-38 | the match is exact and case-sensitive: "Let", "LET", "", "function" and "lets" are identifiers |
| `Lexer.Classify` | rust/src/lexer.rs:25-37 | a byte is accepted exactly when it is one of the eight symbols or 0; it yields EOF exactly for 0; every other accepted byte yields the variant whose documented spelling is that byte |
| `Lexer.ClassifySymbolByte` | rust/src/token.rs:11-25 | every variant documented with a one-byte spelling is recognised from that byte, except `Lt` and `Gt`, whose bytes panic |
| `Lexer.NewToken` | rust/src/lexer.rs:43-48 | the token has the given type and its literal is the one byte `b`; `requires b < 128` is the condition under which the source's UTF-8 decode-and-unwrap of that single byte succeeds |
| `Lexer.TokenAt` | rust/src/lexer.rs:22-48 | `next_token` at a position panics exactly on a byte that is neither a symbol nor 0; otherwise its literal is the one current byte and its type is that byte's; NUL and every position at or past the end give EOF with literal "\0" |
| `Lexer.TokensFrom` | rust/src/lexer.rs:22-58 | the stream from a position is non-empty, ends with its only EOF, ends by the end of input at the latest, and its k-th token is what `next_token` returns at position + k |
| `Lexer.TokensFromPanics` | rust/src/lexer.rs:25-37 | scanning panics if and only if some byte before the first NUL is neither a symbol nor NUL |
| `Lexer.TokensOfSymbols` | rust/src/lexer.rs:25-58 | on input made only of the eight symbols, there are len + 1 tokens: token k carries byte k as its literal and that byte's type, and token len is EOF |
| `Lexer.TokensFromStopAtNul` | rust/src/lexer.rs:34 | from any position up to a NUL byte, the stream equals the stream of the input cut at that NUL |
| `Lexer.TokensStopAtNul` | rust/src/lexer.rs:50-55 | bytes after a NUL never reach the token stream up to the first EOF: that stream equals the stream of the input cut at the NUL |
| `Lexer.NulThenNextByte` | rust/src/lexer.rs:50-57 | a NUL inside the input followed by a symbol byte gives EOF, and the next call gives that symbol's token, not EOF |
| `Lexer.NulThenAssign` | rust/src/lexer.rs:25-57 | on [0, '='] the calls give EOF, then ASSIGN "=", then EOF |
| `Lexer.TestInputTokens` | rust/src/lexer.rs:68-79 | at each index of "=+(){},;", `next_token` yields the expected (type, literal) pair |
| `Lexer.TestLexerTokens` | rust/src/lexer.rs:66-86 | the whole stream of "=+(){},;" is ASSIGN, PLUS, LPAREN, RPAREN, LBRACE, RBRACE, COMMA, SEMICOLON, each with its byte as literal, then EOF |
| `Lexer.Lexer.constructor` | rust/src/lexer.rs:11-20 | a new lexer has `position == 0`, `readPosition == 1`, `ch` equal to the first byte or 0 for empty input, and its remaining stream is the whole input's stream |
| `Lexer.Lexer.ReadChar` | rust/src/lexer.rs:50-58 | `position` takes the old `readPosition`, `readPosition` becomes `position + 1`, and `ch` is `input[position]` or 0 past the end; only the three cursor fields change |
| `Lexer.Lexer.NextToken` | rust/src/lexer.rs:22-41 | returns the token for the current byte and advances `position` by exactly one; on a panicking byte nothing changes; `input` is never modified; past the end every call returns EOF while `position` keeps growing; the token is the head of the remaining stream, and, unless the token is EOF, the stream after it is the tail; a remaining stream that panics keeps panicking after a non-EOF token |
| `Lexer.ExpectTokens` | rust/src/lexer.rs:81-85 | one `next_token` per expected token, each asserted equal, yields exactly the expected tokens and moves the cursor by their number |
| `Lexer.TestLexer` | rust/src/lexer.rs:66-86 | a lexer on "=+(){},;" yields the eight expected (type, literal) pairs in order |

## Left out

- `rust/src/repl.rs` is not part of this model. It is the interactive prompt loop: stdin and stdout, `exit(0)` on "exit", and the `whoami` subprocess for the greeting. This is I/O and a foreign process. Its `for_each` also relies on an `Iterator` implementation that the lexer does not have.
- `repl/repl.go` and `go/main.go` are not part of this model. They are the same kind of I/O loop. The Go `lexer` and `token` packages that `repl/repl.go` imports are outside this model.
- Lexer.Lexer.NextToken: on an unrecognised byte the source panics: the thread unwinds and the lexer is never used again. The model returns `Panic` and leaves the lexer unchanged, which is where the panic leaves it, before `read_char`.
- Lexer.Lexer.ReadChar: `position` and `readPosition` are `nat`. The `usize` overflow after about 2^64 calls past the end is not modelled.
- UTF-8 decoding is not modelled. The input is a byte sequence, and literals are the bytes of Rust's `String`. The UTF-8 unwrap in `new_token` appears only as `NewToken`'s `requires b < 128`, which every byte the dispatch accepts meets.
- The derived `Debug` formatting of `TokenType` is not modelled. It is used by the failure message of `test_lexer`'s `assert_eq!`, and, in a later version of the program, by the prompt loop's printing; neither is modelled.
