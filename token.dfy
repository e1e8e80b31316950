/** Token kinds, tokens and the keyword table (token/token.js). */
module Token {
  import opened Wrappers

  /** The members of the `tokenTypes` table. */
  datatype TokenType =
    | ILLEGAL | EOF
    | IDENT | INT
    | ASSIGN | PLUS
    | COMMA | SEMICOLON
    | LPAREN | RPAREN | LBRACE | RBRACE
    | FUNCTION | LET

  /** A token: its kind and the source text it was read from. */
  datatype Token = Token(tokenType: TokenType, literal: string)

  /** The string each kind stands for in `tokenTypes`. */
  function Tag(t: TokenType): string
  {
    match t
    case ILLEGAL => "ILLEGAL"
    case EOF => "EOF"
    case IDENT => "IDENT"
    case INT => "INT"
    case ASSIGN => "="
    case PLUS => "+"
    case COMMA => ","
    case SEMICOLON => ";"
    case LPAREN => "("
    case RPAREN => ")"
    case LBRACE => "{"
    case RBRACE => "}"
    case FUNCTION => "FUNCTION"
    case LET => "LET"
  }

  /** The kind whose tag is `s`, if there is one. */
  function KindOfTag(s: string): Option<TokenType>
  {
    if s == "ILLEGAL" then Some(ILLEGAL)
    else if s == "EOF" then Some(EOF)
    else if s == "IDENT" then Some(IDENT)
    else if s == "INT" then Some(INT)
    else if s == "=" then Some(ASSIGN)
    else if s == "+" then Some(PLUS)
    else if s == "," then Some(COMMA)
    else if s == ";" then Some(SEMICOLON)
    else if s == "(" then Some(LPAREN)
    else if s == ")" then Some(RPAREN)
    else if s == "{" then Some(LBRACE)
    else if s == "}" then Some(RBRACE)
    else if s == "FUNCTION" then Some(FUNCTION)
    else if s == "LET" then Some(LET)
    else None
  }

  /** Every tag reads back as its own kind. */
  lemma TagRoundTrip(t: TokenType)
    ensures KindOfTag(Tag(t)) == Some(t)
  {
    match t
    case ILLEGAL =>
    case EOF =>
    case IDENT =>
    case INT =>
    case ASSIGN =>
    case PLUS =>
    case COMMA =>
    case SEMICOLON =>
    case LPAREN =>
    case RPAREN =>
    case LBRACE =>
    case RBRACE =>
    case FUNCTION =>
    case LET =>
  }

  /** No two kinds share a tag. */
  lemma TagsDistinct(a: TokenType, b: TokenType)
    ensures Tag(a) == Tag(b) <==> a == b
  {
    TagRoundTrip(a);
    TagRoundTrip(b);
  }

  predicate IsPunctuation(t: TokenType)
  {
    t in {ASSIGN, PLUS, COMMA, SEMICOLON, LPAREN, RPAREN, LBRACE, RBRACE}
  }

  /** A punctuation kind's tag is the single character it stands for. */
  lemma PunctuationTags(t: TokenType)
    ensures IsPunctuation(t) <==> |Tag(t)| == 1
    ensures Tag(ASSIGN) == "=" && Tag(PLUS) == "+" && Tag(COMMA) == "," && Tag(SEMICOLON) == ";"
    ensures Tag(LPAREN) == "(" && Tag(RPAREN) == ")" && Tag(LBRACE) == "{" && Tag(RBRACE) == "}"
  {
  }

  /** The `keywords` table. */
  const Keywords: map<string, TokenType> := map["fn" := FUNCTION, "let" := LET]

  /** `lookupIdent`: the keyword kind of a word, or IDENT for any other word. */
  function LookupIdent(ident: string): (r: TokenType)
    ensures r == FUNCTION <==> ident == "fn"
    ensures r == LET <==> ident == "let"
    ensures r == IDENT <==> ident !in Keywords
    ensures r in {FUNCTION, LET, IDENT}
  {
    if ident in Keywords then Keywords[ident] else IDENT
  }

  /** A looked-up word is never ILLEGAL, EOF, INT or a punctuation kind. */
  lemma LookupIdentNeverPunctuation(ident: string)
    ensures !IsPunctuation(LookupIdent(ident))
    ensures LookupIdent(ident) !in {ILLEGAL, EOF, INT}
  {
  }
}
