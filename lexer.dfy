/**
  The lexer: a byte cursor over the input that yields one token per call.
  This is the early lexer that recognises eight one-byte symbols and the
  end-of-input sentinel and panics on every other byte (whitespace,
  letters and digits included).

  The pure part (`Classify`, `TokenAt`, `TokensFrom`) says what the lexer
  yields; the class `Lexer` is the cursor that the Rust struct updates in
  place, and its methods are proved against the pure part.

  The module and its class share the name `Lexer`; a client that opens the
  module still sees the class under that name, so import it under an alias
  (`import L = Lexer`) and write `new L.Lexer(input)`.
 */
module Lexer {

  import opened Wrappers
  import opened Token

  /** Outcome of one `next_token` call: a token, or the `panic!()` raised on an unrecognised byte. */
  datatype Result<+T> = Ok(value: T) | Panic

  /** The token `next_token` returns at end of input; its literal is the single byte 0. */
  const EofToken: Token := Token(Eof, [0])

  /** The byte `read_char` loads for index `i`: `input[i]`, or the sentinel 0 past the end. */
  function ByteAt(input: seq<Byte>, i: nat): Byte
  {
    if i < |input| then input[i] else 0
  }

  /** The eight symbol bytes the lexer recognises. */
  predicate IsSymbol(b: Byte)
  {
    b == '=' as Byte || b == ';' as Byte || b == '(' as Byte || b == ')' as Byte ||
    b == '{' as Byte || b == '}' as Byte || b == ',' as Byte || b == '+' as Byte
  }

  /**
    The dispatch of `next_token` on the current byte: the token type, or
    None for the bytes on which it panics.
   */
  function Classify(b: Byte): (r: Option<TokenType>)
    ensures r.Some? <==> IsSymbol(b) || b == 0
    ensures r == Some(Eof) <==> b == 0
    ensures r.Some? && r.value != Eof ==> SymbolByte(r.value) == Some(b)
  {
    if b == '=' as Byte then Some(Assign)
    else if b == ';' as Byte then Some(Semicolon)
    else if b == '(' as Byte then Some(LParen)
    else if b == ')' as Byte then Some(RParen)
    else if b == '{' as Byte then Some(LBrace)
    else if b == '}' as Byte then Some(RBrace)
    else if b == ',' as Byte then Some(Comma)
    else if b == '+' as Byte then Some(Plus)
    else if b == 0 then Some(Eof)
    else None
  }

  /**
    Every documented one-byte spelling is recognised, except those of `Lt`
    and `Gt`: the lexer panics on '<' and '>'.
   */
  lemma ClassifySymbolByte(t: TokenType)
    requires SymbolByte(t).Some?
    ensures Classify(SymbolByte(t).value) == (if t == Lt || t == Gt then None else Some(t))
  {
  }

  /**
    `new_token`: a token whose literal is the one byte `b`. The source
    decodes `[b]` as UTF-8 and unwraps, which succeeds exactly for ASCII.
   */
  function NewToken(tokenType: TokenType, b: Byte): (r: Token)
    requires b < 128
    ensures r.tokenType == tokenType
    ensures |r.literal| == 1 && r.literal[0] == b
  {
    Token(tokenType, [b])
  }

  /** What `next_token` returns when the cursor is at `position`. */
  function TokenAt(input: seq<Byte>, position: nat): (r: Result<Token>)
    ensures r.Panic? <==> !IsSymbol(ByteAt(input, position)) && ByteAt(input, position) != 0
    ensures r.Ok? ==> r.value.literal == [ByteAt(input, position)]
    ensures r.Ok? ==> Classify(ByteAt(input, position)) == Some(r.value.tokenType)
    ensures ByteAt(input, position) == 0 ==> r == Ok(EofToken)
    ensures position >= |input| ==> r == Ok(EofToken)
  {
    var b := ByteAt(input, position);
    match Classify(b)
    case Some(t) => Ok(NewToken(t, b))
    case None => Panic
  }

  /**
    The tokens successive `next_token` calls yield from `position` on, up
    to and including the first EOF; Panic if a call panics before that.
   */
  function TokensFrom(input: seq<Byte>, position: nat): (r: Result<seq<Token>>)
    ensures r.Ok? ==> 1 <= |r.value| && (|r.value| == 1 || position + |r.value| <= |input| + 1)
    ensures r.Ok? ==> r.value[|r.value| - 1].tokenType == Eof
    ensures r.Ok? ==> forall k | 0 <= k < |r.value| - 1 :: r.value[k].tokenType != Eof
    ensures r.Ok? ==> forall k | 0 <= k < |r.value| :: TokenAt(input, position + k) == Ok(r.value[k])
    decreases |input| - position
  {
    match TokenAt(input, position)
    case Panic => Panic
    case Ok(t) =>
      if t.tokenType == Eof then Ok([t])
      else
        match TokensFrom(input, position + 1)
        case Panic => Panic
        case Ok(rest) => Ok([t] + rest)
  }

  /** The whole token stream of `input`, as a fresh lexer yields it. */
  function Tokens(input: seq<Byte>): Result<seq<Token>>
  {
    TokensFrom(input, 0)
  }

  /**
    Scanning from `position` panics exactly when some byte before the first
    NUL is neither a symbol nor NUL.
   */
  lemma {:induction false} TokensFromPanics(input: seq<Byte>, position: nat)
    ensures TokensFrom(input, position).Panic? <==>
      exists k :: position <= k < |input| && !IsSymbol(input[k]) && input[k] != 0 &&
        forall j | position <= j < k :: input[j] != 0
    decreases |input| - position
  {
    if position < |input| && input[position] != 0 && IsSymbol(input[position]) {
      TokensFromPanics(input, position + 1);
      if TokensFrom(input, position).Panic? {
        var k :| position + 1 <= k < |input| && !IsSymbol(input[k]) && input[k] != 0 &&
          forall j | position + 1 <= j < k :: input[j] != 0;
        assert forall j | position <= j < k :: input[j] != 0;
      }
    } else if position < |input| && input[position] != 0 {
      assert !IsSymbol(input[position]);
    }
  }

  /**
    When every byte is one of the eight symbols, the k-th token is that
    byte's token, and token number |input| is EOF.
   */
  lemma TokensOfSymbols(input: seq<Byte>)
    requires forall k | 0 <= k < |input| :: IsSymbol(input[k])
    ensures Tokens(input).Ok?
    ensures |Tokens(input).value| == |input| + 1
    ensures forall k | 0 <= k < |input| ::
      Tokens(input).value[k] == Token(Classify(input[k]).value, [input[k]])
    ensures Tokens(input).value[|input|] == EofToken
  {
    TokensFromPanics(input, 0);
    var ts := Tokens(input).value;
    assert TokenAt(input, |input|) == Ok(ts[|input|]);
  }

  /**
    Bytes after the first NUL never reach the token stream up to its first
    EOF: that stream is the one of the input cut at the NUL.
   */
  lemma {:induction false} TokensFromStopAtNul(input: seq<Byte>, position: nat, k: nat)
    requires position <= k < |input| && input[k] == 0
    ensures TokensFrom(input, position) == TokensFrom(input[..k], position)
    decreases k - position
  {
    assert ByteAt(input, position) == ByteAt(input[..k], position);
    if position < k {
      TokensFromStopAtNul(input, position + 1, k);
    }
  }

  /**
    A NUL byte inside the input ends the token stream up to the first EOF
    as the end of input would.
   */
  lemma TokensStopAtNul(input: seq<Byte>, k: nat)
    requires k < |input| && input[k] == 0
    ensures Tokens(input) == Tokens(input[..k])
  {
    TokensFromStopAtNul(input, 0, k);
  }

  /**
    A NUL inside the input is not the end of input for later calls: when a
    symbol byte follows it, the EOF it gives is followed by that symbol's
    token, not by another EOF.
   */
  lemma NulThenNextByte(input: seq<Byte>, k: nat)
    requires k + 1 < |input| && input[k] == 0 && IsSymbol(input[k + 1])
    ensures TokenAt(input, k) == Ok(EofToken)
    ensures TokenAt(input, k + 1) == Ok(Token(Classify(input[k + 1]).value, [input[k + 1]]))
    ensures TokenAt(input, k + 1) != Ok(EofToken)
  {
  }

  /** On [0, '='], the first call gives EOF and the second gives ASSIGN "=". */
  lemma NulThenAssign()
    ensures TokenAt([0, '=' as Byte], 0) == Ok(EofToken)
    ensures TokenAt([0, '=' as Byte], 1) == Ok(Token(Assign, ['=' as Byte]))
    ensures TokenAt([0, '=' as Byte], 2) == Ok(EofToken)
  {
  }

  /** The input of `test_lexer`, "=+(){},;", byte by byte. */
  const TestInput: seq<Byte> :=
    ['=' as Byte, '+' as Byte, '(' as Byte, ')' as Byte, '{' as Byte, '}' as Byte, ',' as Byte, ';' as Byte]

  /** The (type, literal) pairs `test_lexer` expects, in order. */
  const TestExpects: seq<Token> := [
    Token(Assign, ['=' as Byte]), Token(Plus, ['+' as Byte]),
    Token(LParen, ['(' as Byte]), Token(RParen, [')' as Byte]),
    Token(LBrace, ['{' as Byte]), Token(RBrace, ['}' as Byte]),
    Token(Comma, [',' as Byte]), Token(Semicolon, [';' as Byte])]

  /** At each index of the `test_lexer` input, `next_token` yields the expected pair. */
  lemma TestInputTokens()
    ensures forall k | 0 <= k < |TestExpects| ::
      TokenAt(TestInput, k) == Ok(TestExpects[k])
  {
  }

  /** The token stream of the `test_lexer` input: the expected tokens, then EOF. */
  lemma TestLexerTokens()
    ensures Tokens(TestInput) == Ok(TestExpects + [EofToken])
  {
    TokensOfSymbols(TestInput);
    TestInputTokens();
    var ts := Tokens(TestInput).value;
    forall k | 0 <= k < |TestExpects|
      ensures ts[k] == TestExpects[k]
    {
      assert TokenAt(TestInput, k) == Ok(ts[k]);
    }
    assert ts == TestExpects + [EofToken];
  }

  /**
    The lexer state: the input, the current index `position`, the next
    index `readPosition` and the current byte `ch` (0 past the end).
   */
  class Lexer {
    var input: seq<Byte>
    var position: nat
    var readPosition: nat
    var ch: Byte

    /** The cursor invariant every `read_char` re-establishes. */
    ghost predicate Valid()
      reads this
    {
      readPosition == position + 1 && ch == ByteAt(input, position)
    }

    /** The tokens the following `NextToken` calls yield, up to the next EOF. */
    ghost function Remaining(): Result<seq<Token>>
      reads this
    {
      TokensFrom(input, position)
    }

    /** `Lexer::new`: a cursor on the first byte, or on the sentinel for empty input. */
    constructor (input: seq<Byte>)
      ensures Valid()
      ensures this.input == input && position == 0 && readPosition == 1
      ensures ch == if |input| == 0 then 0 else input[0]
      ensures Remaining() == Tokens(input)
    {
      this.input := input;
      position := 0;
      readPosition := 0;
      ch := 0;
      new;
      ReadChar();
    }

    /** `read_char`: load the byte at `readPosition` (0 past the end) and step both indices. */
    method ReadChar()
      modifies this`position, this`readPosition, this`ch
      ensures position == old(readPosition) && readPosition == position + 1
      ensures position < |input| ==> ch == input[position]
      ensures position >= |input| ==> ch == 0
      ensures Valid()
    {
      if readPosition >= |input| {
        ch := 0;
      } else {
        ch := input[readPosition];
      }
      position := readPosition;
      readPosition := readPosition + 1;
    }

    /**
      `next_token`: the token for the current byte, after which the cursor
      moves on by exactly one; on any other byte the source panics, which
      is modelled as `Panic` with the state left as it was.
     */
    method NextToken() returns (r: Result<Token>)
      requires Valid()
      modifies this`position, this`readPosition, this`ch
      ensures Valid() && input == old(input)
      ensures r == TokenAt(input, old(position))
      ensures r.Ok? ==> position == old(position) + 1
      ensures r.Panic? ==> position == old(position)
      ensures old(position) >= |input| ==> r == Ok(EofToken) && position > |input|
      ensures old(Remaining()).Ok? ==> r == Ok(old(Remaining()).value[0])
      ensures old(Remaining()).Ok? && r.value.tokenType != Eof ==>
        Remaining() == Ok(old(Remaining()).value[1..])
      ensures old(Remaining()).Panic? && r.Ok? ==> r.value.tokenType != Eof && Remaining().Panic?
    {
      match Classify(ch)
      case Some(t) =>
        r := Ok(NewToken(t, ch));
        ReadChar();
      case None =>
        r := Panic;
    }
  }

  /**
    The loop of `test_lexer`: one `next_token` call per expected token,
    each checked against it; the lexer yields exactly `expects`.
   */
  method ExpectTokens(l: Lexer, expects: seq<Token>) returns (got: seq<Token>)
    requires l.Valid()
    requires forall k | 0 <= k < |expects| :: TokenAt(l.input, l.position + k) == Ok(expects[k])
    modifies l`position, l`readPosition, l`ch
    ensures l.Valid() && l.input == old(l.input) && l.position == old(l.position) + |expects|
    ensures got == expects
  {
    got := [];
    for i := 0 to |expects|
      invariant l.Valid() && l.input == old(l.input) && l.position == old(l.position) + i
      invariant got == expects[..i]
    {
      var t := l.NextToken();
      assert t == Ok(expects[i]);
      got := got + [t.value];
    }
  }

  /**
    The scenario of `test_lexer`: a lexer on "=+(){},;" yields the eight
    expected (type, literal) pairs in order.
   */
  method TestLexer() returns (got: seq<Token>)
    ensures got == TestExpects
  {
    var l := new Lexer(TestInput);
    TestInputTokens();
    got := ExpectTokens(l, TestExpects);
  }
}
