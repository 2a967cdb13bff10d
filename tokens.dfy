/** Token kinds and tokens, as the lexer hands them to the parser. */
module Tokens {

  /** An optional value; `None` also stands for a rule that failed, so `:-` can propagate it. */
  datatype Option<T> = None | Some(value: T) {
    predicate IsFailure() { None? }
    function PropagateFailure<U>(): Option<U> requires None? { None }
    function Extract(): T requires Some? { value }
  }

  /** The closed set of token kinds, in declaration order. `EOF` closes every token stream. The kind names
      are the language's own. */
  datatype TokenType =
    // Single-character tokens.
    | LEFT_PAREN | RIGHT_PAREN | LEFT_BRACE | RIGHT_BRACE
    | COMMA | DOT | MINUS | PLUS | SEMICOLON | SLASH | STAR | MODULUS
    // One or two character tokens.
    | BANG | BANG_EQUAL
    | EQUAL | EQUAL_EQUAL
    | GREATER | GREATER_EQUAL
    | LESS | LESS_EQUAL | DOT_PLUS | STAR_STAR | PLUS_EQUAL
    | MINUS_EQUAL | SLASH_EQUAL | STAR_EQUAL | TERNARY | TERNARY_ELSE | PLUS_PLUS | MINUS_MINUS
    // Literals.
    | IDENTIFIER | STRING | NUMBER
    // Keywords.
    | AND | CLASS | ELSE | FALSE | FUN | FOR | IF | NIL | OR
    | PRINT | RETURN | SUPER | THIS | TRUE | VAR | WHILE | DO
    | EOF

  /** The position of a kind in the enumeration (its ordinal). */
  function Ordinal(k: TokenType): nat
  {
    match k
    case LEFT_PAREN => 0 case RIGHT_PAREN => 1 case LEFT_BRACE => 2 case RIGHT_BRACE => 3
    case COMMA => 4 case DOT => 5 case MINUS => 6 case PLUS => 7 case SEMICOLON => 8
    case SLASH => 9 case STAR => 10 case MODULUS => 11
    case BANG => 12 case BANG_EQUAL => 13
    case EQUAL => 14 case EQUAL_EQUAL => 15
    case GREATER => 16 case GREATER_EQUAL => 17
    case LESS => 18 case LESS_EQUAL => 19 case DOT_PLUS => 20 case STAR_STAR => 21 case PLUS_EQUAL => 22
    case MINUS_EQUAL => 23 case SLASH_EQUAL => 24 case STAR_EQUAL => 25 case TERNARY => 26
    case TERNARY_ELSE => 27 case PLUS_PLUS => 28 case MINUS_MINUS => 29
    case IDENTIFIER => 30 case STRING => 31 case NUMBER => 32
    case AND => 33 case CLASS => 34 case ELSE => 35 case FALSE => 36 case FUN => 37
    case FOR => 38 case IF => 39 case NIL => 40 case OR => 41
    case PRINT => 42 case RETURN => 43 case SUPER => 44 case THIS => 45 case TRUE => 46
    case VAR => 47 case WHILE => 48 case DO => 49
    case EOF => 50
  }

  /** The kind with a given ordinal, if there is one (the enumeration's `values()[n]`). */
  function KindOf(n: nat): Option<TokenType>
  {
    if n < 13 then
      match n
      case 0 => Some(LEFT_PAREN) case 1 => Some(RIGHT_PAREN) case 2 => Some(LEFT_BRACE) case 3 => Some(RIGHT_BRACE)
      case 4 => Some(COMMA) case 5 => Some(DOT) case 6 => Some(MINUS) case 7 => Some(PLUS)
      case 8 => Some(SEMICOLON) case 9 => Some(SLASH) case 10 => Some(STAR) case 11 => Some(MODULUS)
      case _ => Some(BANG)
    else if n < 26 then
      match n
      case 13 => Some(BANG_EQUAL) case 14 => Some(EQUAL) case 15 => Some(EQUAL_EQUAL)
      case 16 => Some(GREATER) case 17 => Some(GREATER_EQUAL) case 18 => Some(LESS) case 19 => Some(LESS_EQUAL)
      case 20 => Some(DOT_PLUS) case 21 => Some(STAR_STAR) case 22 => Some(PLUS_EQUAL) case 23 => Some(MINUS_EQUAL)
      case 24 => Some(SLASH_EQUAL) case _ => Some(STAR_EQUAL)
    else if n < 39 then
      match n
      case 26 => Some(TERNARY) case 27 => Some(TERNARY_ELSE)
      case 28 => Some(PLUS_PLUS) case 29 => Some(MINUS_MINUS) case 30 => Some(IDENTIFIER) case 31 => Some(STRING)
      case 32 => Some(NUMBER) case 33 => Some(AND) case 34 => Some(CLASS) case 35 => Some(ELSE)
      case 36 => Some(FALSE) case 37 => Some(FUN) case _ => Some(FOR)
    else
      match n
      case 39 => Some(IF) case 40 => Some(NIL) case 41 => Some(OR) case 42 => Some(PRINT) case 43 => Some(RETURN)
      case 44 => Some(SUPER) case 45 => Some(THIS) case 46 => Some(TRUE) case 47 => Some(VAR)
      case 48 => Some(WHILE) case 49 => Some(DO) case 50 => Some(EOF)
      case _ => None
  }

  /** The enumeration is closed and its members are pairwise distinct: each kind is recovered
      from its ordinal. */
  lemma {:induction false} OrdinalRoundTrip(k: TokenType)
    ensures KindOf(Ordinal(k)) == Some(k)
  {
    match k
    case LEFT_PAREN => case RIGHT_PAREN => case LEFT_BRACE => case RIGHT_BRACE => case COMMA => case DOT =>
    case MINUS => case PLUS => case SEMICOLON => case SLASH => case STAR => case MODULUS =>
    case BANG => case BANG_EQUAL => case EQUAL => case EQUAL_EQUAL => case GREATER => case GREATER_EQUAL =>
    case LESS => case LESS_EQUAL => case DOT_PLUS => case STAR_STAR => case PLUS_EQUAL => case MINUS_EQUAL =>
    case SLASH_EQUAL => case STAR_EQUAL => case TERNARY => case TERNARY_ELSE => case PLUS_PLUS => case MINUS_MINUS =>
    case IDENTIFIER => case STRING => case NUMBER => case AND => case CLASS => case ELSE =>
    case FALSE => case FUN => case FOR => case IF => case NIL => case OR =>
    case PRINT => case RETURN => case SUPER => case THIS => case TRUE => case VAR =>
    case WHILE => case DO => case EOF =>
  }

  /** The ordinals run from 0 to 50, nothing lies beyond them, and `EOF` is the last member. */
  lemma EofIsLast(k: TokenType)
    ensures k != EOF <==> Ordinal(k) < Ordinal(EOF)
    ensures KindOf(Ordinal(EOF) + 1) == None
  {
    if k != EOF {
      OrdinalRoundTrip(k);
      OrdinalRoundTrip(EOF);
    }
  }

  /** Two kinds are the same exactly when their ordinals are: in particular `EQUAL` and
      `EQUAL_EQUAL`, `BANG` and `BANG_EQUAL`, the six compound-assignment kinds and the two
      ternary kinds are all separate members. */
  lemma OrdinalInjective(a: TokenType, b: TokenType)
    ensures a == b <==> Ordinal(a) == Ordinal(b)
  {
    if Ordinal(a) == Ordinal(b) {
      OrdinalRoundTrip(a);
      OrdinalRoundTrip(b);
      assert Some(a) == KindOf(Ordinal(b)) == Some(b);
    }
  }

  /** The kinds that carry a literal value from the lexer. */
  predicate IsLiteralKind(k: TokenType)
  {
    k == IDENTIFIER || k == STRING || k == NUMBER
  }

  /** The operators that the parser turns into a compound assignment with a right-hand side. */
  const CompoundOperators: seq<TokenType> := [PLUS_EQUAL, MINUS_EQUAL, STAR_EQUAL, SLASH_EQUAL]

  /** The keywords at which error recovery stops, because they start a new statement. */
  const StatementStarters: set<TokenType> := {CLASS, FUN, VAR, FOR, IF, WHILE, PRINT, RETURN}

  /** A literal value as the lexer or the parser stores it in a token or a literal node;
      `NilLiteral` stands for Java's `null`. Numbers are doubles in the source and reals here. */
  datatype LiteralValue =
    | NilLiteral
    | BoolLiteral(b: bool)
    | NumberLiteral(n: real)
    | StringLiteral(s: string)

  /** A lexical token. */
  datatype Token = Token(kind: TokenType, lexeme: string, literal: LiteralValue, line: int)

  /** A token stream as the lexer produces it: closed by its only `EOF` token. */
  predicate ValidTokens(tokens: seq<Token>)
  {
    && |tokens| > 0
    && tokens[|tokens| - 1].kind == EOF
    && forall i | 0 <= i < |tokens| - 1 :: tokens[i].kind != EOF
  }
}
