/**
 * An abstract view of the token stream that the Go package golang.org/x/net/html
 * produces (the tokenization stage of the WHATWG HTML standard, section 13.2.5).
 * The tokenizer itself is not modelled: a document is given directly as the
 * sequence of tokens it yields before end of input.
 */
module HtmlTokens {

  /** The token types of golang.org/x/net/html. */
  datatype TokenType =
    | ErrorToken
    | TextToken
    | StartTagToken
    | EndTagToken
    | SelfClosingTagToken
    | CommentToken
    | DoctypeToken

  /** One `key="val"` pair of a tag, in document order. */
  datatype Attribute = Attribute(key: string, val: string)

  /** A token: its type, its tag name (or text) and its attributes in order. */
  datatype Token = Token(kind: TokenType, data: string, attr: seq<Attribute>)

  /** What the tokenizer returns once its input is exhausted, for ever after. */
  const EndOfInput: Token := Token(ErrorToken, "", [])

  /**
   * The token returned by the `i`-th call of `Next` on a document whose tokens
   * are `toks`: past the end, the tokenizer keeps returning an error.
   */
  function NextToken(toks: seq<Token>, i: nat): (t: Token)
    ensures i >= |toks| ==> t.kind == ErrorToken
    ensures i < |toks| ==> t == toks[i]
  {
    if i < |toks| then toks[i] else EndOfInput
  }

  /** A start tag or a self-closing tag (`<x>` or `<x/>`), which the extractor treats alike. */
  predicate IsStartLike(t: Token) {
    t.kind == StartTagToken || t.kind == SelfClosingTagToken
  }
}
