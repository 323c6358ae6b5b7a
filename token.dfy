/**
  The token model of the Monkey interpreter: the closed set of token types,
  the token value (a type and its literal text) and the keyword table.
  Text is modelled as bytes: a Rust `String` is its UTF-8 byte sequence.

  The module and its token datatype share the name `Token`; a client that
  opens the module still sees the datatype under that name, so import it
  under an alias (`import T = Token`) and write `T.Token(T.Eof, [0])`.
 */
module Token {

  import opened Wrappers

  /** One byte of source text (a Rust `u8`). */
  newtype Byte = b: int | 0 <= b < 256

  /** The bytes of an ASCII string literal. */
  function Ascii(s: string): (r: seq<Byte>)
    requires forall i | 0 <= i < |s| :: s[i] < 128 as char
    ensures |r| == |s|
  {
    seq(|s|, i requires 0 <= i < |s| => s[i] as Byte)
  }

  /** Every kind of token, in declaration order. Equality is structural. */
  datatype TokenType =
    | Illegal
    | Eof
      // identifier and literal
    | Ident
    | Int
      // operator
    | Assign
    | Plus
    | Lt
    | Gt
    | Eq
      // delimiter
    | Comma
    | Semicolon
    | LParen
    | RParen
    | LBrace
    | RBrace
      // keyword
    | Function
    | Let

  /**
    The one-byte spelling documented beside each operator and delimiter
    variant. The two-byte `Eq` ("=="), the keywords, identifiers, integers,
    EOF and ILLEGAL have none.
   */
  function SymbolByte(t: TokenType): Option<Byte>
  {
    match t
    case Assign => Some('=' as Byte)
    case Plus => Some('+' as Byte)
    case Lt => Some('<' as Byte)
    case Gt => Some('>' as Byte)
    case Comma => Some(',' as Byte)
    case Semicolon => Some(';' as Byte)
    case LParen => Some('(' as Byte)
    case RParen => Some(')' as Byte)
    case LBrace => Some('{' as Byte)
    case RBrace => Some('}' as Byte)
    case _ => None
  }

  /**
    A token: its type and the exact literal it was made from. `Token::new`
    is the datatype constructor itself: it stores both arguments unchanged.
   */
  datatype Token = Token(tokenType: TokenType, literal: seq<Byte>)

  /**
    The keyword table: exactly "let" and "fn" are keywords (case-sensitive);
    every other text, the empty one included, is an identifier.
   */
  function LookupIdentifier(identifier: seq<Byte>): (r: TokenType)
    ensures r == Let <==> identifier == Ascii("let")
    ensures r == Function <==> identifier == Ascii("fn")
    ensures r == Let || r == Function || r == Ident
  {
    if identifier == Ascii("let") then Let
    else if identifier == Ascii("fn") then Function
    else Ident
  }

  /** Near misses of the two keywords stay identifiers. */
  lemma LookupIdentifierExamples()
    ensures LookupIdentifier(Ascii("let")) == Let
    ensures LookupIdentifier(Ascii("fn")) == Function
    ensures LookupIdentifier(Ascii("Let")) == Ident
    ensures LookupIdentifier(Ascii("LET")) == Ident
    ensures LookupIdentifier(Ascii("")) == Ident
    ensures LookupIdentifier(Ascii("function")) == Ident
    ensures LookupIdentifier(Ascii("lets")) == Ident
  {
    assert Ascii("Let")[0] != Ascii("let")[0];
    assert Ascii("LET")[0] != Ascii("let")[0];
  }
}
