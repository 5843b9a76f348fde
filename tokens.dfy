/** The token of the tree-design shell.  The lexer produces the first five
    kinds; the parser of the same design also dispatches on the two scope
    kinds, which its token header does not declare. */
module Tokens {

  datatype TokenType = None | Word | Sequence | Conjunction | Disjunction | OpenScope | CloseScope

  datatype Token = Token(kind: TokenType, text: string)
}
