/**
 * Lexical tokens. A token is a kind identifier and a text; the simple tokens
 * (keywords, punctuation, the end marker) carry an empty text.
 */
module Tokens {

  datatype Token = Token(kindId: string, text: string)

  /** `Token.simple(kind)`: a token whose kind is enough to identify it. */
  function Simple(kind: string): (t: Token)
    ensures t.kindId == kind && t.text == ""
  {
    Token(kind, "")
  }

  /** `Token.normal(kind, text)`: a token that also carries its text. */
  function Normal(kind: string, text: string): (t: Token)
    ensures t.kindId == kind && t.text == text
  {
    Token(kind, text)
  }

  /** Kind identifier of the end-of-input marker. */
  const EofKind: string := "$"

  /** `Token.eof()`. */
  function Eof(): (t: Token)
    ensures t.kindId == EofKind && t.text == ""
  {
    Simple(EofKind)
  }
}
