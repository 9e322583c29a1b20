/** Bracket structure of JSON text: structural characters and strings as in sections 2 and 7
    of RFC 8259, everything else being plain. */
module BracketGrammar {

  /** A character of a string body: itself, or a backslash and whatever follows it. */
  datatype Piece = Literal(c: char) | Escape(c: char)

  /** Well-bracketed text, as a derivation. */
  datatype Text =
    | Empty
    | Plain(c: char, rest: Text)
    | Quoted(body: seq<Piece>, rest: Text)
    | Nested(open: char, inner: Text, rest: Text)

  function Closer(open: char): char {
    if open == '{' then '}' else ']'
  }

  predicate IsOpener(c: char) { c == '{' || c == '[' }

  predicate IsCloser(c: char) { c == '}' || c == ']' }

  predicate PieceOk(p: Piece) {
    p.Literal? ==> p.c != '"' && p.c != '\\'
  }

  predicate BodyOk(body: seq<Piece>) {
    forall p :: p in body ==> PieceOk(p)
  }

  predicate Ok(t: Text) {
    match t
    case Empty => true
    case Plain(c, rest) => c != '"' && !IsOpener(c) && !IsCloser(c) && Ok(rest)
    case Quoted(body, rest) => BodyOk(body) && Ok(rest)
    case Nested(open, inner, rest) => IsOpener(open) && Ok(inner) && Ok(rest)
  }

  function PieceYield(p: Piece): string {
    if p.Literal? then [p.c] else ['\\', p.c]
  }

  function BodyYield(body: seq<Piece>): string {
    if body == [] then "" else BodyYield(body[..|body| - 1]) + PieceYield(body[|body| - 1])
  }

  function Yield(t: Text): string {
    match t
    case Empty => ""
    case Plain(c, rest) => [c] + Yield(rest)
    case Quoted(body, rest) => "\"" + BodyYield(body) + "\"" + Yield(rest)
    case Nested(open, inner, rest) => [open] + Yield(inner) + [Closer(open)] + Yield(rest)
  }

  ghost predicate Balanced(s: string) {
    exists t :: Ok(t) && Yield(t) == s
  }

  /** Some continuation makes the text well bracketed. */
  ghost predicate Completable(s: string) {
    exists d :: Balanced(s + d)
  }

  predicate OnlyClosers(d: string) {
    forall c :: c in d ==> IsCloser(c)
  }

  /** A lexeme: one character outside strings, or a whole string. */
  datatype Lexeme = Bare(c: char) | Quote(body: seq<Piece>)

  predicate LexemeOk(l: Lexeme) {
    if l.Bare? then l.c != '"' else BodyOk(l.body)
  }

  predicate LexemesOk(ls: seq<Lexeme>) {
    forall l :: l in ls ==> LexemeOk(l)
  }

  function LexemeYield(l: Lexeme): string {
    if l.Bare? then [l.c] else "\"" + BodyYield(l.body) + "\""
  }

  function LexYield(ls: seq<Lexeme>): string {
    if ls == [] then "" else LexYield(ls[..|ls| - 1]) + LexemeYield(ls[|ls| - 1])
  }

  /** Whole lexemes, an opening quote, and a string body that has not been closed; its last
      backslash may still wait for the character it escapes. */
  ghost predicate EndsInString(s: string) {
    exists ls: seq<Lexeme>, body: seq<Piece>, dangling: bool ::
      LexemesOk(ls) && BodyOk(body) && s == UnclosedYield(ls, body, dangling)
  }

  function UnclosedYield(ls: seq<Lexeme>, body: seq<Piece>, dangling: bool): string {
    LexYield(ls) + "\"" + BodyYield(body) + (if dangling then "\\" else "")
  }
}
